/**
 * The sampler: differences between snapshots (src/web/metrics-sample.js), the
 * tick that persists them (src/metrics/sampler.js:54-98), and that over all
 * ticks of a process nothing is counted twice or lost track of.
 */
module Sampling {
  import opened Prelude
  import opened MqttPublish
  import opened PacketTypes
  import opened Health
  import opened SampleStore
  import PacketHistory

  const DAY_MS := 86400000

  /** Before the first snapshot every counter is zero. */
  const NO_TOTALS := Totals(0, 0, map[], map[])

  /** The cumulative value of a counter. */
  ghost function Read(t: Totals, c: Counter): int {
    match c
    case Received => t.received
    case Decoded => t.decoded
    case Category(key) => BucketTotal(t.byType, key)
    case Delivery(id, outcome) => DeliveriesOf(t, id).Of(outcome)
  }

  function DeliveriesOf(t: Totals, id: string): Deliveries {
    if id in t.deliveries then t.deliveries[id] else ZERO_DELIVERIES
  }

  // ---------------------------------------------------------------- the difference of two snapshots

  /** The raw codes that were counted since. */
  function CodeDeltas(a: map<string, int>, b: map<string, int>): map<string, int> {
    map code | code in b && b[code] - Get(a, code) > 0 :: b[code] - Get(a, code)
  }

  function ChangeOf(a: Deliveries, b: Deliveries): Change {
    Change(b.sent - a.sent, b.skipped - a.skipped, b.failed - a.failed)
  }

  predicate Rose(c: Change) {
    c.sent > 0 || c.skipped > 0 || c.failed > 0
  }

  function BrokerDeltas(a: Totals, b: Totals): map<string, Change> {
    map id | id in b.deliveries && Rose(ChangeOf(DeliveriesOf(a, id), b.deliveries[id]))
      :: ChangeOf(DeliveriesOf(a, id), b.deliveries[id])
  }

  ghost predicate IsDelta(d: Delta, a: Totals, b: Totals) {
    && d.received == b.received - a.received
    && d.decoded == b.decoded - a.decoded
    && Recategorized(d.packetsByType, CodeDeltas(a.byType, b.byType))
    && d.brokerDeliveries == BrokerDeltas(a, b)
  }

  /** What a previous snapshot, if there is one, reads as. */
  ghost function Before(prev: Option<Snapshot>): Totals
    reads match prev case None => {} case Some(s) => s.Objects()
  {
    match prev
    case None => NO_TOTALS
    case Some(s) => s.Reading()
  }

  /** A snapshot, or none yet, still shows these totals. */
  ghost predicate ReadsAs(prev: Option<Snapshot>, t: Totals)
    reads match prev case None => {} case Some(s) => s.Objects()
  {
    && (prev.None? ==> t == NO_TOTALS)
    && (prev.Some? ==> prev.value.Shows(t))
  }

  lemma ReadsBefore(prev: Option<Snapshot>, t: Totals)
    ensures ReadsAs(prev, t) <==> Before(prev) == t
  {
    if prev.Some? && ReadsAs(prev, t) {
      assert prev.value.Reading().deliveries == t.deliveries;
    }
  }

  method PacketsByTypeDelta(prev: map<string, int>, curr: map<string, int>) returns (deltas: map<string, int>)
    ensures deltas == CodeDeltas(prev, curr)
  {
    deltas := map[];
    var todo := curr.Keys;
    ghost var all := CodeDeltas(prev, curr);
    while todo != {}
      invariant todo <= curr.Keys
      invariant forall code :: code in deltas <==> code in all && code !in todo
      invariant forall code | code in deltas :: deltas[code] == all[code]
      decreases |todo|
    {
      var code :| code in todo;
      var delta := curr[code] - Get(prev, code);
      assert code in all <==> delta > 0;
      if delta > 0 {
        deltas := deltas[code := delta];
      }
      todo := todo - {code};
    }
  }

  method BrokerDeliveriesDelta(prev: Option<Snapshot>, curr: Snapshot) returns (deltas: map<string, Change>)
    ensures deltas == BrokerDeltas(old(Before(prev)), old(curr.Reading()))
  {
    deltas := map[];
    var todo := curr.mqtt.Keys;
    ghost var a, b := Before(prev), curr.Reading();
    ghost var all := BrokerDeltas(a, b);
    while todo != {}
      invariant todo <= curr.mqtt.Keys
      invariant deltas == Restrict(all, all.Keys - todo)
      decreases |todo|
    {
      var id :| id in todo;
      var now := curr.mqtt[id].deliveries;
      var delta := Change(now.sent, now.skipped, now.failed);
      if prev.Some? && id in prev.value.mqtt {
        var then_ := prev.value.mqtt[id].deliveries;
        delta := Change(now.sent - then_.sent, now.skipped - then_.skipped, now.failed - then_.failed);
      }
      assert delta == ChangeOf(DeliveriesOf(a, id), b.deliveries[id]);
      if Rose(delta) {
        deltas := deltas[id := delta];
      }
      todo := todo - {id};
    }
  }

  /** This interval's activity; with no previous snapshot, the totals themselves. */
  method ComputeSampleDelta(prev: Option<Snapshot>, curr: Snapshot, at: int) returns (d: Delta)
    ensures IsDelta(d, old(Before(prev)), old(curr.Reading())) && d.at == at
  {
    ghost var a, b := Before(prev), curr.Reading();
    var brokers := BrokerDeliveriesDelta(prev, curr);
    var received := curr.packetsReceived - if prev.Some? then prev.value.packetsReceived else 0;
    var decoded := curr.packetsDecoded - if prev.Some? then prev.value.packetsDecoded else 0;
    var codes := PacketsByTypeDelta(if prev.Some? then prev.value.packetsByType else map[], curr.packetsByType);
    var byType := BucketPacketsByType(codes);
    assert Recategorized(byType, CodeDeltas(a.byType, b.byType));
    d := Delta(at, received, decoded, byType, brokers);
  }

  /** For counters that only grow, re-keying and leaving out what did not rise loses nothing. */
  lemma CategoryDelta(a: map<string, int>, b: map<string, int>, key: string)
    requires forall code :: Get(a, code) <= Get(b, code)
    requires forall code | code in a :: a[code] > 0
    ensures BucketTotal(CodeDeltas(a, b), key) == BucketTotal(b, key) - BucketTotal(a, key)
  {
    forall code | code in a
      ensures code in b
    {
      assert Get(a, code) <= Get(b, code);
    }
    var own := CodesOf(b.Keys, key);
    BucketTotalOver(CodeDeltas(a, b), b.Keys, key);
    BucketTotalOver(a, b.Keys, key);
    SumAdds(a, CodeDeltas(a, b), b, own);
  }

  /** A sample adds to each counter exactly what it grew by. */
  lemma DeltaIsGrowth(d: Delta, a: Totals, b: Totals, c: Counter)
    requires IsDelta(d, a, b) && Grows(a, b) && PositiveCodes(a)
    ensures Contribution(d, c) == Read(b, c) - Read(a, c) >= 0
  {
    match c
    case Received =>
    case Decoded =>
    case Category(key) =>
      CategoryDelta(a.byType, b.byType, key);
      CategoryGrows(a, b, key);
    case Delivery(id, outcome) =>
      DeliveriesGrow(a, b, id);
  }

  lemma DeliveriesGrow(a: Totals, b: Totals, id: string)
    requires Grows(a, b)
    ensures forall o :: DeliveriesOf(a, id).Of(o) <= DeliveriesOf(b, id).Of(o)
    ensures ChangeOf(DeliveriesOf(a, id), DeliveriesOf(b, id)).sent >= 0
    ensures ChangeOf(DeliveriesOf(a, id), DeliveriesOf(b, id)).skipped >= 0
    ensures ChangeOf(DeliveriesOf(a, id), DeliveriesOf(b, id)).failed >= 0
  {
    if id in a.deliveries {
      assert a.deliveries[id].Of(Sent) <= b.deliveries[id].Of(Sent);
      assert a.deliveries[id].Of(MqttPublish.Skipped) <= b.deliveries[id].Of(MqttPublish.Skipped);
      assert a.deliveries[id].Of(Failed) <= b.deliveries[id].Of(Failed);
    }
  }

  lemma {:induction false} SumNotNegative(m: map<string, int>, keys: set<string>)
    requires forall k | k in keys :: Get(m, k) >= 0
    ensures Sum(m, keys) >= 0
  {
    if keys != {} {
      var k :| k in keys;
      SumWithout(m, keys, k);
      SumNotNegative(m, keys - {k});
    }
  }

  lemma CategoryGrows(a: Totals, b: Totals, key: string)
    requires Grows(a, b) && PositiveCodes(a)
    ensures BucketTotal(a.byType, key) <= BucketTotal(b.byType, key)
  {
    CategoryDelta(a.byType, b.byType, key);
    var codes := CodeDeltas(a.byType, b.byType);
    SumNotNegative(codes, CodesOf(codes.Keys, key));
  }

  // ---------------------------------------------------------------- all ticks of a process

  /**
   * One tick: the totals its snapshot read, the sample made of it, whether the write succeeded, the cutoff of the prune
   * it ran, if it ran one, and the tables as it left them.
   */
  datatype TickRecord = TickRecord(totals: Totals, sample: Delta, persisted: bool, prune: Option<int>, tables: Rows)

  /** The ticks so far, the latest outermost, from the tables the process found. */
  datatype Ticks = Start(found: Rows) | After(earlier: Ticks, latest: TickRecord)

  ghost function LastTotals(ticks: Ticks): Totals {
    match ticks
    case Start(_) => NO_TOTALS
    case After(_, t) => t.totals
  }

  ghost function Tables(ticks: Ticks): Rows {
    match ticks
    case Start(found) => found
    case After(_, t) => t.tables
  }

  ghost function Found(ticks: Ticks): Rows {
    match ticks
    case Start(found) => found
    case After(earlier, _) => Found(earlier)
  }

  /** What a tick adds to a sum over a window. */
  ghost function Gained(t: TickRecord, w: PacketHistory.Window, c: Counter): int {
    if t.persisted && w.Has(t.sample.at) then Contribution(t.sample, c) else 0
  }

  /** No prune of this tick reaches the window. */
  predicate Spared(t: TickRecord, w: PacketHistory.Window) {
    t.prune.Some? ==> w.start >= t.prune.value
  }

  /**
   * Every sum over a window gains what the tick recorded there; a prune only touches windows that reach behind its
   * cutoff.
   */
  ghost predicate Gains(before: Rows, t: TickRecord) {
    forall w: PacketHistory.Window, c {:trigger Stored(t.tables, w, c)} | Spared(t, w) ::
      Stored(t.tables, w, c) == Stored(before, w, c) + Gained(t, w, c)
  }

  /** Each sample is the growth since the previous tick, and the tables gain it. */
  ghost predicate IsRun(ticks: Ticks) {
    match ticks
    case Start(_) => true
    case After(earlier, t) =>
      && IsRun(earlier)
      && Counted(LastTotals(earlier), t.totals)
      && IsDelta(t.sample, LastTotals(earlier), t.totals)
      && Gains(Tables(earlier), t)
  }

  type Run = ticks: Ticks | IsRun(ticks) witness Start(Rows([], []))

  /** What the samples whose write succeeded, or failed, add to a counter. */
  ghost function Added(ticks: Ticks, c: Counter, persisted: bool): int {
    match ticks
    case Start(_) => 0
    case After(earlier, t) => Added(earlier, c, persisted) + if t.persisted == persisted then Contribution(t.sample, c) else 0
  }

  /** For every counter, what was persisted and what failed writes lost is the last snapshot's value. */
  lemma {:induction false} SamplesTelescope(ticks: Run, c: Counter)
    ensures Added(ticks, c, true) + Added(ticks, c, false) == Read(LastTotals(ticks), c)
  {
    match ticks
    case Start(_) =>
      assert forall key :: CodesOf({}, key) == {};
    case After(earlier, t) =>
      SamplesTelescope(earlier, c);
      DeltaIsGrowth(t.sample, LastTotals(earlier), t.totals, c);
  }

  /** What the ticks added to a sum over a window. */
  ghost function AddedWithin(ticks: Ticks, w: PacketHistory.Window, c: Counter): int {
    match ticks
    case Start(_) => 0
    case After(earlier, t) => AddedWithin(earlier, w, c) + Gained(t, w, c)
  }

  /** No prune so far reaches the window. */
  ghost predicate AllSpared(ticks: Ticks, w: PacketHistory.Window) {
    match ticks
    case Start(_) => true
    case After(earlier, t) => AllSpared(earlier, w) && Spared(t, w)
  }

  /** Every tick so far falls into the window. */
  ghost predicate AllIn(ticks: Ticks, w: PacketHistory.Window) {
    match ticks
    case Start(_) => true
    case After(earlier, t) => AllIn(earlier, w) && w.Has(t.sample.at)
  }

  /** Over a whole process a sum over a window no prune reaches grows by exactly what was persisted in it. */
  lemma {:induction false} TablesGrow(ticks: Run, w: PacketHistory.Window, c: Counter)
    requires AllSpared(ticks, w)
    ensures Stored(Tables(ticks), w, c) == Stored(Found(ticks), w, c) + AddedWithin(ticks, w, c)
  {
    match ticks
    case Start(_) =>
    case After(earlier, t) =>
      TablesGrow(earlier, w, c);
      assert Gains(Tables(earlier), t);
  }

  lemma {:induction false} AllAddedWithin(ticks: Ticks, w: PacketHistory.Window, c: Counter)
    requires AllIn(ticks, w)
    ensures AddedWithin(ticks, w, c) == Added(ticks, c, true)
  {
    match ticks
    case Start(_) =>
    case After(earlier, _) => AllAddedWithin(earlier, w, c);
  }

  /**
   * What the tables gained in a window that holds every tick and that no prune reaches, and what failed writes lost,
   * make up every counter of the process.
   */
  lemma TablesTellTheCounters(ticks: Run, w: PacketHistory.Window, c: Counter)
    requires AllSpared(ticks, w) && AllIn(ticks, w)
    ensures Stored(Tables(ticks), w, c) - Stored(Found(ticks), w, c) + Added(ticks, c, false) == Read(LastTotals(ticks), c)
  {
    TablesGrow(ticks, w, c);
    AllAddedWithin(ticks, w, c);
    SamplesTelescope(ticks, c);
  }

  // ---------------------------------------------------------------- the sampler

  class MetricsSampler {
    const health: ServiceHealth
    const store: SampleTables
    const retentionDays: int
    /** The configured brokers. */
    const brokerIds: set<string>
    var lastSnapshot: Option<Snapshot>
    var lastPrunedAt: Option<int>
    ghost var ticks: Run
    /** What the last snapshot read when it was taken. */
    ghost var lastTotals: Totals

    ghost function Held(): set<object>
      reads this
    {
      match lastSnapshot
      case None => {}
      case Some(s) => s.Objects()
    }

    /** The last snapshot still reads as it did at its tick. */
    ghost predicate Kept()
      reads this, store, Held()
    {
      && (lastSnapshot.None? <==> ticks.Start?)
      && store.rows == Tables(ticks)
      && lastTotals == LastTotals(ticks)
      && ReadsAs(lastSnapshot, lastTotals)
    }

    /** And no counter has gone back since. */
    ghost predicate Valid()
      reads this, store, health, health.brokerDeliveries.Values, Held()
    {
      && health.Valid()
      && Kept()
      && Counted(lastTotals, health.Current(brokerIds))
      && (lastSnapshot.Some? ==> lastSnapshot.value.Apart(health.brokerDeliveries.Values))
    }

    constructor (health: ServiceHealth, store: SampleTables, retentionDays: int, brokerIds: set<string>)
      requires health.Valid() && health.brokerDeliveries == map[] && health.tallies == map[] && health.packetsByType == map[]
      requires health.packetsReceived == 0 && health.packetsDecoded == 0
      ensures Valid() && ticks == Start(store.rows) && lastPrunedAt == None
      ensures this.health == health && this.store == store && this.retentionDays == retentionDays && this.brokerIds == brokerIds
    {
      this.health, this.store, this.retentionDays, this.brokerIds := health, store, retentionDays, brokerIds;
      lastSnapshot, lastPrunedAt, ticks, lastTotals := None, None, Start(store.rows), NO_TOTALS;
    }

    /** Whether the daily prune is due, and what it would delete. */
    predicate PruneDue(now: int)
      reads this`lastPrunedAt
    {
      retentionDays > 0 && (lastPrunedAt == None || now - lastPrunedAt.value >= DAY_MS)
    }

    function Cutoff(now: int): int {
      now - retentionDays * DAY_MS
    }

    /** At most once a day, also when the prune itself fails. */
    method MaybePrune(now: int, fails: bool)
      modifies this`lastPrunedAt, store
      ensures lastPrunedAt == if old(PruneDue(now)) then Some(now) else old(lastPrunedAt)
      ensures store.rows == if old(PruneDue(now)) && !fails then Pruned(old(store.rows), Cutoff(now)) else old(store.rows)
      ensures lastPrunedAt == if retentionDays > 0 && (old(lastPrunedAt).None? || now - old(lastPrunedAt).value >= 86400000)
                              then Some(now) else old(lastPrunedAt)
      ensures Cutoff(now) == now - retentionDays * 86400000
    {
      if retentionDays <= 0 {
        return;
      }
      if lastPrunedAt != None && now - lastPrunedAt.value < DAY_MS {
        return;
      }
      lastPrunedAt := Some(now);
      var _ := store.PruneOlderThan(Cutoff(now), fails);
    }

    /** Writes the difference to the last snapshot; a failed write leaves the tables as they were. */
    method RecordSample(s: Snapshot, now: int, failAt: nat) returns (ghost sample: Delta, ok: bool)
      modifies store
      ensures IsDelta(sample, old(Before(lastSnapshot)), old(s.Reading())) && sample.at == now
      ensures !ok ==> store.rows == old(store.rows)
      ensures ok ==> Midway(old(store.rows), store.rows, sample, NextId(old(store.rows).samples), CountersOf(sample))
    {
      ghost var a, b := Before(lastSnapshot), s.Reading();
      var d := ComputeSampleDelta(lastSnapshot, s, now);
      assert IsDelta(d, a, b);
      ok := store.RecordPacketSample(d, failAt);
      sample := d;
    }

    /** The cutoff of the prune a tick runs, unless none is due or the one that is due fails. */
    function PruneAt(now: int, fails: bool): Option<int>
      reads this`lastPrunedAt
    {
      if PruneDue(now) && !fails then Some(Cutoff(now)) else None
    }

    /** Everything the sampler relies on about a snapshot taken just now. */
    ghost predicate TakenNow(s: Snapshot)
      reads this, health, health.brokerDeliveries.Values, s.Objects()
    {
      health.Valid() && s.Shows(health.Current(brokerIds)) && s.Apart(health.brokerDeliveries.Values)
    }

    /** The sample written, unless that fails, and then the prune. */
    method RecordAndPrune(s: Snapshot, sampleAt: int, pruneAt: int, failAt: nat, pruneFails: bool, ghost a: Totals, ghost b: Totals)
      returns (ghost record: TickRecord)
      requires Before(lastSnapshot) == a && s.Reading() == b && Grows(a, b) && PositiveCodes(a)
      modifies this`lastPrunedAt, store
      ensures IsDelta(record.sample, a, b) && Gains(old(store.rows), record)
      ensures record.totals == b && record.sample.at == sampleAt && record.tables == store.rows
      ensures lastPrunedAt == if old(PruneDue(pruneAt)) then Some(pruneAt) else old(lastPrunedAt)
      ensures record.prune == old(PruneAt(pruneAt, pruneFails))
    {
      ghost var prune, before := PruneAt(pruneAt, pruneFails), store.rows;
      ghost var sample, ok := RecordSample(s, sampleAt, failAt);
      ghost var recorded := store.rows;
      MaybePrune(pruneAt, pruneFails);
      record := TickRecord(b, sample, ok, prune, store.rows);
      TickGains(before, recorded, a, record);
    }

    /** The writing half of a tick. */
    method Persist(s: Snapshot, sampleAt: int, pruneAt: int, failAt: nat, pruneFails: bool) returns (ghost record: TickRecord)
      requires Valid() && TakenNow(s) && s.Reading() == health.Current(brokerIds)
      modifies this`lastPrunedAt, store
      ensures TakenNow(s) && IsRun(After(ticks, record))
      ensures record.totals == health.Current(brokerIds) && record.sample.at == sampleAt && record.tables == store.rows
      ensures lastPrunedAt == if old(PruneDue(pruneAt)) then Some(pruneAt) else old(lastPrunedAt)
      ensures record.prune == old(PruneAt(pruneAt, pruneFails))
    {
      ReadsBefore(lastSnapshot, lastTotals);
      record := RecordAndPrune(s, sampleAt, pruneAt, failAt, pruneFails, lastTotals, health.Current(brokerIds));
    }

    /** `this.#lastSnapshot = snapshot`. */
    method Keep(s: Snapshot, ghost record: TickRecord)
      requires TakenNow(s) && IsRun(After(ticks, record)) && record.totals == health.Current(brokerIds)
      requires record.tables == store.rows
      modifies this`lastSnapshot, this`lastTotals, this`ticks
      ensures Valid() && ticks == After(old(ticks), record)
    {
      assert s.Shows(record.totals);
      lastSnapshot, lastTotals, ticks := Some(s), record.totals, After(ticks, record);
      assert s.Shows(lastTotals);
    }

    /** One tick: the tables gain the growth since the last one, or the failed write loses it. */
    method Tick(states: map<string, bool>, sampleAt: int, pruneAt: int, failAt: nat, pruneFails: bool)
      requires Valid() && states.Keys == brokerIds
      modifies this, store
      ensures Valid()
      ensures Ticked(old(ticks), ticks, old(health.Current(brokerIds)), sampleAt)
      ensures lastPrunedAt == if old(PruneDue(pruneAt)) then Some(pruneAt) else old(lastPrunedAt)
      ensures ticks.latest.prune == old(PruneAt(pruneAt, pruneFails))
    {
      var snapshot := Take(states);
      ghost var record := Persist(snapshot, sampleAt, pruneAt, failAt, pruneFails);
      Keep(snapshot, record);
    }

    method Take(states: map<string, bool>) returns (s: Snapshot)
      requires Valid() && states.Keys == brokerIds
      ensures Valid() && TakenNow(s) && s.Reading() == health.Current(brokerIds)
    {
      s := health.TakeSnapshot(states);
    }
  }

  /** One more tick, at this time, with these totals. */
  ghost predicate Ticked(before: Run, after: Run, totals: Totals, at: int) {
    after.After? && after.earlier == before && after.latest.totals == totals && after.latest.sample.at == at
  }

  /** Nothing of a sample with no negative counts stays behind. */
  lemma AllIsWritten(d: Delta, c: Counter)
    requires Contribution(d, c) >= 0
    ensures Written(d, c, CountersOf(d)) == Contribution(d, c)
  {
  }

  lemma TickGains(before: Rows, recorded: Rows, a: Totals, t: TickRecord)
    requires Grows(a, t.totals) && PositiveCodes(a) && IsDelta(t.sample, a, t.totals)
    requires Whole(recorded)
    requires !t.persisted ==> recorded == before
    requires t.persisted ==> Midway(before, recorded, t.sample, NextId(before.samples), CountersOf(t.sample))
    requires t.tables == if t.prune.Some? then Pruned(recorded, t.prune.value) else recorded
    ensures Gains(before, t)
  {
    forall w: PacketHistory.Window, c: Counter | Spared(t, w)
      ensures Stored(t.tables, w, c) == Stored(before, w, c) + Gained(t, w, c)
    {
      DeltaIsGrowth(t.sample, a, t.totals, c);
      AllIsWritten(t.sample, c);
      if t.prune.Some? {
        PruneKeeps(recorded, t.prune.value, w, c);
      }
      assert Stored(recorded, w, c) == Stored(before, w, c) + Gained(t, w, c);
    }
  }

  // ---------------------------------------------------------------- between the ticks

  /** A packet, a decode or a publish between two ticks leaves the last snapshot, and so the sampler, as it was. */
  method PacketReceived(sampler: MetricsSampler)
    requires sampler.Valid()
    modifies sampler.health
    ensures sampler.Valid()
  {
    ghost var now := sampler.health.Current(sampler.brokerIds);
    sampler.health.PacketReceived();
    assert sampler.Kept();
    GrowsOn(sampler.lastTotals, now, sampler.health.Current(sampler.brokerIds));
  }

  method PacketDecoded(sampler: MetricsSampler, packetType: string)
    requires sampler.Valid()
    modifies sampler.health
    ensures sampler.Valid()
  {
    ghost var now := sampler.health.Current(sampler.brokerIds);
    sampler.health.PacketDecoded(packetType);
    assert sampler.Kept();
    GrowsOn(sampler.lastTotals, now, sampler.health.Current(sampler.brokerIds));
  }

  method PublishResolved(sampler: MetricsSampler, results: seq<PublishResult>)
    requires sampler.Valid()
    modifies sampler.health, sampler.health.brokerDeliveries.Values
    ensures sampler.Valid()
    ensures Recorded(old(sampler.health.tallies), sampler.health.tallies, results)
  {
    ghost var now := sampler.health.Current(sampler.brokerIds);
    ghost var before := sampler.health.tallies;
    sampler.health.RecordPublishResults(results);
    assert sampler.Kept();
    RecordedGrows(now, sampler.health.Current(sampler.brokerIds), before, sampler.health.tallies, results, sampler.brokerIds);
    GrowsOn(sampler.lastTotals, now, sampler.health.Current(sampler.brokerIds));
  }
}
