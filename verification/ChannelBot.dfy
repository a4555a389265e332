/**
 * What src/bots/channel-bot.js decides and counts: which matched deliveries
 * are enqueued (lines 353-412), and where every sent reply's repeat check ends
 * (lines 229-236 and 473-532).
 */
module ChannelBot {
  import opened Prelude
  import opened Deduplicator
  import opened RepeatLedger
  import RepeatChecks

  /** A delivery that decrypted and matched a trigger. */
  datatype Delivery = Delivery(hash: string, hopCount: int, at: int)

  // ---------------------------------------------------------------- the enqueue decision over a history

  /** The sightings the deduplicator gets from the first k deliveries: those that clear the hop minimum. */
  ghost function Qualifying(ds: seq<Delivery>, minHops: int, k: nat): seq<Call<string>>
    requires k <= |ds|
  {
    if k == 0 then []
    else Qualifying(ds, minHops, k - 1) + if ds[k - 1].hopCount >= minHops then [Call(ds[k - 1].hash, ds[k - 1].at)] else []
  }

  /** Delivery k is enqueued. */
  ghost predicate Enqueues(ds: seq<Delivery>, minHops: int, ttlMs: int, maxEntries: nat, k: nat)
    requires k < |ds|
  {
    ds[k].hopCount >= minHops && !Recent(Qualifying(ds, minHops, k), ds[k].hash, ds[k].at, ttlMs, maxEntries)
  }

  /** The hashes that qualified strictly between deliveries j and k. */
  ghost function HashesBetween(ds: seq<Delivery>, minHops: int, j: nat, k: nat): set<string>
    requires k <= |ds|
  {
    set m | j < m < k && ds[m].hopCount >= minHops :: ds[m].hash
  }

  ghost predicate InTime(ds: seq<Delivery>) {
    forall j, k | 0 <= j < k < |ds| :: ds[j].at <= ds[k].at
  }

  /** Where a qualifying delivery is among the sightings, and what follows it there. */
  lemma {:induction false} PlaceOf(ds: seq<Delivery>, minHops: int, j: nat, k: nat)
    requires j < k <= |ds| && ds[j].hopCount >= minHops
    ensures var q, p := Qualifying(ds, minHops, k), |Qualifying(ds, minHops, j)|;
            p < |q| && q[p] == Call(ds[j].hash, ds[j].at) && IdsAfter(q, p) == HashesBetween(ds, minHops, j, k)
  {
    var q, p := Qualifying(ds, minHops, k), |Qualifying(ds, minHops, j)|;
    if j == k - 1 {
      assert IdsAfter(q, p) == {} == HashesBetween(ds, minHops, j, k);
    } else {
      PlaceOf(ds, minHops, j, k - 1);
      var before := Qualifying(ds, minHops, k - 1);
      var last := if ds[k - 1].hopCount >= minHops then {ds[k - 1].hash} else {};
      assert IdsAfter(q, p) == IdsAfter(before, p) + last by {
        IdsAfterStep(before, q, p);
      }
      assert HashesBetween(ds, minHops, j, k) == HashesBetween(ds, minHops, j, k - 1) + last;
    }
  }

  lemma IdsAfterStep(before: seq<Call<string>>, after: seq<Call<string>>, p: nat)
    requires p < |before| <= |after| <= |before| + 1 && before <= after
    ensures IdsAfter(after, p) == IdsAfter(before, p) + if |after| > |before| then {after[|before|].id} else {}
  {
    forall x | x in IdsAfter(before, p)
      ensures x in IdsAfter(after, p)
    {
      var m :| p < m < |before| && before[m].id == x;
      assert after[m].id == x;
    }
    forall m | p < m < |before|
      ensures after[m].id in IdsAfter(before, p)
    {
      assert after[m] == before[m];
    }
  }

  /** Every sighting is a qualifying delivery's. */
  lemma {:induction false} SightingOf(ds: seq<Delivery>, minHops: int, k: nat, p: nat) returns (j: nat)
    requires k <= |ds| && p < |Qualifying(ds, minHops, k)|
    ensures j < k && ds[j].hopCount >= minHops && p == |Qualifying(ds, minHops, j)|
    ensures Qualifying(ds, minHops, k)[p] == Call(ds[j].hash, ds[j].at)
  {
    if p < |Qualifying(ds, minHops, k - 1)| {
      j := SightingOf(ds, minHops, k - 1, p);
    } else {
      j := k - 1;
    }
  }

  /** The first delivery of a hash that clears the minimum is enqueued, however many fell short of it before. */
  lemma FirstQualifyingIsEnqueued(ds: seq<Delivery>, minHops: int, ttlMs: int, maxEntries: nat, k: nat)
    requires k < |ds| && ds[k].hopCount >= minHops
    requires forall j | 0 <= j < k && ds[j].hash == ds[k].hash :: ds[j].hopCount < minHops
    ensures Enqueues(ds, minHops, ttlMs, maxEntries, k)
  {
    var q := Qualifying(ds, minHops, k);
    if p: nat :| LastCall(q, ds[k].hash, p) {
      var j := SightingOf(ds, minHops, k, p);
    }
  }

  /**
   * With j the last qualifying sighting of the hash before k, k is enqueued exactly when the window has passed or
   * maxEntries hashes qualified since.
   */
  lemma EnqueuedAgainExactlyWhen(ds: seq<Delivery>, minHops: int, ttlMs: int, maxEntries: nat, j: nat, k: nat)
    requires j < k < |ds| && ds[j].hash == ds[k].hash && ds[j].hopCount >= minHops && ds[k].hopCount >= minHops
    requires ds[k].hash !in HashesBetween(ds, minHops, j, k)
    ensures Enqueues(ds, minHops, ttlMs, maxEntries, k)
            <==> ds[k].at - ds[j].at >= ttlMs || |HashesBetween(ds, minHops, j, k)| >= maxEntries
  {
    PlaceOf(ds, minHops, j, k);
    var q, p := Qualifying(ds, minHops, k), |Qualifying(ds, minHops, j)|;
    assert LastCall(q, ds[k].hash, p) by {
      forall r | p < r < |q|
        ensures q[r].id != ds[k].hash
      {
        assert q[r].id in IdsAfter(q, p);
      }
    }
    assert forall r: nat | LastCall(q, ds[k].hash, r) :: r == p;
  }

  /** The last qualifying delivery of a hash before k, given one. */
  lemma {:induction false} LastBefore(ds: seq<Delivery>, minHops: int, j: nat, k: nat) returns (m: nat)
    requires j < k < |ds| && ds[j].hash == ds[k].hash && ds[j].hopCount >= minHops
    ensures j <= m < k && ds[m].hash == ds[k].hash && ds[m].hopCount >= minHops
    ensures ds[k].hash !in HashesBetween(ds, minHops, m, k)
    decreases k - j
  {
    m := j;
    if ds[k].hash in HashesBetween(ds, minHops, j, k) {
      var later :| j < later < k && ds[later].hopCount >= minHops && ds[later].hash == ds[k].hash;
      m := LastBefore(ds, minHops, later, k);
    }
  }

  /**
   * At most one reply per message: two enqueued deliveries of one hash are ttlMs apart, unless maxEntries hashes
   * qualified between them.
   */
  lemma AtMostOneReply(ds: seq<Delivery>, minHops: int, ttlMs: int, maxEntries: nat, j: nat, k: nat)
    requires j < k < |ds| && InTime(ds) && ds[j].hash == ds[k].hash
    requires Enqueues(ds, minHops, ttlMs, maxEntries, j) && Enqueues(ds, minHops, ttlMs, maxEntries, k)
    ensures ds[k].at - ds[j].at >= ttlMs || |HashesBetween(ds, minHops, j, k)| >= maxEntries
  {
    var m := LastBefore(ds, minHops, j, k);
    EnqueuedAgainExactlyWhen(ds, minHops, ttlMs, maxEntries, m, k);
    SubsetSize(HashesBetween(ds, minHops, m, k), HashesBetween(ds, minHops, j, k));
  }

  // ---------------------------------------------------------------- what a bot counts of its tracker

  method RegisterRepeat(tracker: RepeatChecks.RepeatCheckTracker, text: string, meta: Meta, now: int)
    returns (expired: seq<Meta>)
    requires tracker.Valid() && tracker.state.clock <= now
    modifies tracker
    ensures tracker.Valid() && tracker.state.clock == now
    ensures tracker.Ledger().registered
            == old(tracker.Ledger()).registered + [NewReg(old(tracker.Ledger()), text, meta, now, tracker.timeoutMs)]
    ensures tracker.Ledger().confirmed == old(tracker.Ledger()).confirmed
    ensures |tracker.Ledger().expired| == |old(tracker.Ledger()).expired| + |expired|
  {
    ghost var before, r := tracker.Ledger(), NewReg(tracker.Ledger(), text, meta, now, tracker.timeoutMs);
    var metas, evictedMetas, aged, gone, evicted, victim := tracker.Register(text, meta, now);
    RegisterSizes(before, aged, tracker.Ledger(), r, gone, evicted, victim, tracker.maxEntries);
    expired := metas;
  }

  method ConsumeRepeat(tracker: RepeatChecks.RepeatCheckTracker, text: string, now: int)
    returns (hit: Option<(Meta, int)>, expired: seq<Meta>)
    requires tracker.Valid() && tracker.state.clock <= now
    modifies tracker
    ensures tracker.Valid() && tracker.state.clock == now && Live(tracker.Ledger().order, now) == tracker.Ledger().order
    ensures hit.Some? <==> Fifo(Live(old(tracker.Ledger()).order, now), text) != []
    ensures |tracker.Ledger().registered| == |old(tracker.Ledger()).registered|
    ensures |tracker.Ledger().confirmed| == |old(tracker.Ledger()).confirmed| + if hit.Some? then 1 else 0
    ensures |tracker.Ledger().expired| == |old(tracker.Ledger()).expired| + |expired|
  {
    ghost var before := tracker.Ledger();
    ghost var aged, gone;
    hit, expired, aged, gone := tracker.CheckAndConsume(text, now);
    CheckSizes(before, aged, tracker.Ledger(), text, now, tracker.timeoutMs, hit, gone);
  }

  // ---------------------------------------------------------------- the bot

  class ChannelBot {
    const enabled: bool
    const minHops: int
    const deduplicator: PacketDeduplicator<string>
    const tracker: RepeatChecks.RepeatCheckTracker
    var repliesSent: nat
    var repeatsConfirmed: nat
    var repeatsUnconfirmed: nat
    /** Every delivery that reached the hop check. */
    ghost var deliveries: seq<Delivery>

    /** The deduplicator has been asked about exactly the qualifying deliveries. */
    ghost predicate Deduplicates()
      reads this, deduplicator
    {
      deduplicator.Valid() && deduplicator.calls == Qualifying(deliveries, minHops, |deliveries|)
    }

    /** The counters are the tracker's ledger; capacity evictions are only logged, and counted there. */
    ghost predicate Counts()
      reads this, tracker
    {
      && tracker.Valid()
      && repliesSent == |tracker.Ledger().registered|
      && repeatsConfirmed == |tracker.Ledger().confirmed|
      && repeatsUnconfirmed == |tracker.Ledger().expired|
    }

    constructor (enabled: bool, minHops: int, ttlMs: int, maxEntries: nat, repeatTimeoutMs: int, maxRepeats: nat, now: int)
      ensures Deduplicates() && Counts() && fresh(deduplicator) && fresh(tracker)
      ensures this.enabled == enabled && this.minHops == minHops && deliveries == [] && repliesSent == 0
    {
      this.enabled := enabled;
      this.minHops := minHops;
      deduplicator := new PacketDeduplicator<string>(maxEntries, ttlMs);
      tracker := new RepeatChecks.RepeatCheckTracker(repeatTimeoutMs, maxRepeats, now);
      repliesSent, repeatsConfirmed, repeatsUnconfirmed := 0, 0, 0;
      deliveries := [];
    }

    /** A matched delivery; the caller hands the reply to the queue when this returns true. */
    method HandleMatched(hash: string, hopCount: int, now: int) returns (enqueued: bool)
      requires Deduplicates() && deduplicator.Clock(now)
      modifies this`deliveries, deduplicator
      ensures Deduplicates() && deliveries == old(deliveries) + [Delivery(hash, hopCount, now)]
      ensures enqueued == Enqueues(deliveries, minHops, deduplicator.ttlMs, deduplicator.maxEntries, |old(deliveries)|)
      ensures hopCount < minHops ==> unchanged(deduplicator)
    {
      deliveries := deliveries + [Delivery(hash, hopCount, now)];
      SamePrefix(old(deliveries), deliveries, minHops, |old(deliveries)|);
      if hopCount < minHops {
        return false;
      }
      var duplicate := deduplicator.IsDuplicate(hash, now);
      enqueued := !duplicate;
    }

    /** The bookkeeping once a send has resolved. */
    method Sent(message: string, meta: Meta, now: int)
      requires Counts() && tracker.state.clock <= now
      modifies this`repliesSent, this`repeatsUnconfirmed, tracker
      ensures Counts() && repliesSent == old(repliesSent) + 1
      ensures tracker.Ledger().registered
              == old(tracker.Ledger()).registered + [NewReg(old(tracker.Ledger()), message, meta, now, tracker.timeoutMs)]
    {
      repliesSent := repliesSent + 1;
      var expired := RegisterRepeat(tracker, message, meta, now);
      ReportExpired(expired);
    }

    method ReportExpired(expired: seq<Meta>)
      modifies this`repeatsUnconfirmed
      ensures repeatsUnconfirmed == old(repeatsUnconfirmed) + |expired|
    {
      for i := 0 to |expired|
        invariant repeatsUnconfirmed == old(repeatsUnconfirmed) + i
      {
        repeatsUnconfirmed := repeatsUnconfirmed + 1;
      }
    }

    /** Every decrypted text on the channel is checked against the pending repeats. */
    method CheckForRepeat(text: string, now: int)
      requires Counts() && tracker.state.clock <= now
      modifies this`repeatsConfirmed, this`repeatsUnconfirmed, tracker
      ensures Counts() && Live(tracker.Ledger().order, now) == tracker.Ledger().order
      ensures repeatsConfirmed - old(repeatsConfirmed)
              == if Fifo(Live(old(tracker.Ledger()).order, now), text) == [] then 0 else 1
    {
      var hit, expired := ConsumeRepeat(tracker, text, now);
      ReportExpired(expired);
      if hit.Some? {
        repeatsConfirmed := repeatsConfirmed + 1;
      }
    }

    method SweepRepeatChecks(now: int) returns (swept: nat)
      requires Counts() && tracker.state.clock <= now
      modifies this`repeatsUnconfirmed, tracker
      ensures Counts() && swept == repeatsUnconfirmed - old(repeatsUnconfirmed)
      ensures !enabled ==> unchanged(tracker)
      ensures enabled ==> tracker.Ledger().order == Live(old(tracker.Ledger()).order, now)
    {
      if !enabled {
        return 0;
      }
      var expired, _ := tracker.SweepExpired(now);
      ReportExpired(expired);
      swept := |expired|;
    }

    /** Every sent reply is confirmed, unconfirmed, evicted for capacity or still being checked. */
    lemma RepliesAreAccountedFor()
      requires Counts()
      ensures repliesSent == repeatsConfirmed + repeatsUnconfirmed + |tracker.Ledger().evicted| + tracker.totalPending
      ensures tracker.totalPending <= tracker.maxEntries
    {
      FatesAddUp(tracker.Ledger());
    }
  }

  lemma {:induction false} SamePrefix(ds: seq<Delivery>, more: seq<Delivery>, minHops: int, k: nat)
    requires k <= |ds| && ds <= more
    ensures Qualifying(ds, minHops, k) == Qualifying(more, minHops, k)
  {
    if k > 0 {
      SamePrefix(ds, more, minHops, k - 1);
    }
  }
}
