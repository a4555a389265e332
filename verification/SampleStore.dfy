/**
 * The sample tables of src/metrics/store.js: writing one sample in a
 * transaction (501-538), summing over a window (594-650, 791-806) and pruning
 * (1064-1080). The two child tables are one list whose rows say what they count.
 */
module SampleStore {
  import opened Prelude
  import opened MqttPublish
  import opened PacketTypes
  import opened WeightedRows
  import opened PacketHistory

  /** What a sample counts. */
  datatype Counter = Received | Decoded | Category(key: string) | Delivery(brokerId: string, outcome: Outcome)

  datatype Change = Change(sent: int, skipped: int, failed: int) {
    function Of(outcome: Outcome): int {
      match outcome
      case Sent => sent
      case Skipped => skipped
      case Failed => failed
    }
  }

  /** One interval's activity, as it is handed to the store. */
  datatype Delta = Delta(at: int, received: int, decoded: int, packetsByType: map<string, int>, brokerDeliveries: map<string, Change>)

  function Contribution(d: Delta, c: Counter): int {
    match c
    case Received => d.received
    case Decoded => d.decoded
    case Category(key) => Get(d.packetsByType, key)
    case Delivery(id, outcome) => if id in d.brokerDeliveries then d.brokerDeliveries[id].Of(outcome) else 0
  }

  /** A child row: what it counts is a category or a broker's outcome. */
  datatype Child = Child(sampleId: int, counter: Counter, count: int)

  datatype Rows = Rows(samples: seq<Sample>, children: seq<Child>)

  /** Each id is used once. */
  ghost predicate OwnIds(samples: seq<Sample>) {
    forall i, j | 0 <= i < j < |samples| :: samples[i].id != samples[j].id
  }

  /** Ids below the next one, each used once. */
  ghost predicate Keyed(samples: seq<Sample>, children: seq<Child>, next: int) {
    && OwnIds(samples)
    && (forall s | s in samples :: s.id < next)
    && forall r | r in children :: r.sampleId < next
  }

  function NextId(samples: seq<Sample>): (next: int)
    ensures forall s | s in samples :: s.id < next
  {
    if samples == [] then 1
    else
      var before, last := NextId(samples[..|samples| - 1]), samples[|samples| - 1].id + 1;
      assert samples == samples[..|samples| - 1] + [samples[|samples| - 1]];
      if before > last then before else last
  }

  /** It is the least such number from 1 on: one more than the largest in use. */
  lemma {:induction false} NextIdIsLeast(samples: seq<Sample>)
    ensures NextId(samples) == 1 || exists s :: s in samples && s.id == NextId(samples) - 1
    ensures NextId(samples) >= 1
  {
    if samples != [] {
      NextIdIsLeast(samples[..|samples| - 1]);
      assert samples[|samples| - 1] in samples;
    }
  }

  // ---------------------------------------------------------------- sums over a window

  /** The sample of this id is in the window. */
  predicate InWindow(samples: seq<Sample>, id: int, w: Window) {
    exists i :: 0 <= i < |samples| && samples[i].id == id && w.Has(samples[i].at)
  }

  /** SUM(count) over the joined child rows of one counter. */
  function SumOf(samples: seq<Sample>, children: seq<Child>, w: Window, c: Counter): int {
    if children == [] then 0
    else
      var before, r := SumOf(samples, children[..|children| - 1], w, c), children[|children| - 1];
      if r.counter == c && InWindow(samples, r.sampleId, w) then before + r.count else before
  }

  function Stored(rows: Rows, w: Window, c: Counter): int {
    match c
    case Received => QueryPacketTotals(rows.samples, w).0
    case Decoded => QueryPacketTotals(rows.samples, w).1
    case _ => SumOf(rows.samples, rows.children, w, c)
  }

  /** The child rows of the packet-type table. */
  function TypesOf(children: seq<Child>): seq<TypeCount> {
    if children == [] then []
    else
      var before, r := TypesOf(children[..|children| - 1]), children[|children| - 1];
      if r.counter.Category? then before + [TypeCount(r.sampleId, r.counter.key, r.count)] else before
  }

  lemma WindowStep(samples: seq<Sample>, s: Sample, id: int, w: Window)
    ensures InWindow(samples + [s], id, w) <==> InWindow(samples, id, w) || (s.id == id && w.Has(s.at))
  {
    var more := samples + [s];
    assert more[|samples|] == s;
    if InWindow(samples, id, w) {
      var i :| 0 <= i < |samples| && samples[i].id == id && w.Has(samples[i].at);
      assert more[i] == samples[i];
    }
  }

  lemma {:induction false} JoinedOnce(samples: seq<Sample>, t: TypeCount, w: Window)
    requires OwnIds(samples)
    ensures var rows := Joined(samples, t, w, 1);
            if InWindow(samples, t.sampleId, w) then |rows| == 1 && rows[0].key == t.key && rows[0].amount == t.count
            else rows == []
  {
    if samples != [] {
      var init, s := samples[..|samples| - 1], samples[|samples| - 1];
      JoinedOnce(init, t, w);
      WindowStep(init, s, t.sampleId, w);
      assert samples == init + [s];
      assert InWindow(init, t.sampleId, w) ==> s.id != t.sampleId;
    }
  }

  lemma {:induction false} OfKeyConcat(a: seq<Row>, b: seq<Row>, key: string)
    ensures SumAll(OfKey(a + b, key)) == SumAll(OfKey(a, key)) + SumAll(OfKey(b, key))
  {
    if b == [] {
      assert a + b == a;
    } else {
      var init, r := b[..|b| - 1], b[|b| - 1];
      OfKeyConcat(a, init, key);
      assert a + b == a + init + [r];
      AppendOfKey(a + init, r, key);
      SumAppend(OfKey(a + init, key), r);
      SumAppend(OfKey(init, key), r);
    }
  }

  lemma JoinedSum(samples: seq<Sample>, t: TypeCount, w: Window, key: string)
    requires OwnIds(samples)
    ensures SumAll(OfKey(Joined(samples, t, w, 1), key)) == if t.key == key && InWindow(samples, t.sampleId, w) then t.count else 0
  {
    JoinedOnce(samples, t, w);
    var joined := Joined(samples, t, w, 1);
    if joined != [] {
      assert joined == [] + [joined[0]];
      AppendOfKey([], joined[0], key);
      SumAppend([], joined[0]);
    }
  }

  /** The category sums are what the packet-type query answers. */
  lemma {:induction false} CategoryIsQueried(samples: seq<Sample>, children: seq<Child>, w: Window, key: string)
    requires OwnIds(samples)
    ensures SumOf(samples, children, w, Category(key)) == SumAll(OfKey(TypeRows(samples, TypesOf(children), w, 1), key))
  {
    if children != [] {
      var init, r := children[..|children| - 1], children[|children| - 1];
      CategoryIsQueried(samples, init, w, key);
      if r.counter.Category? {
        var types, t := TypesOf(init), TypeCount(r.sampleId, r.counter.key, r.count);
        TypeRowsAppend(samples, types, t, w);
        OfKeyConcat(TypeRows(samples, types, w, 1), Joined(samples, t, w, 1), key);
        JoinedSum(samples, t, w, key);
      }
    }
  }

  lemma TypeRowsAppend(samples: seq<Sample>, types: seq<TypeCount>, t: TypeCount, w: Window)
    ensures TypeRows(samples, types + [t], w, 1) == TypeRows(samples, types, w, 1) + Joined(samples, t, w, 1)
  {
    assert (types + [t])[..|types|] == types;
  }

  // ---------------------------------------------------------------- inserting

  /** A new sample changes no sum over older child rows. */
  lemma {:induction false} SumOverOlder(samples: seq<Sample>, s: Sample, children: seq<Child>, w: Window, c: Counter)
    requires forall x | x in samples :: x.id < s.id
    requires forall r | r in children :: r.sampleId < s.id
    ensures SumOf(samples + [s], children, w, c) == SumOf(samples, children, w, c)
  {
    if children != [] {
      SumOverOlder(samples, s, children[..|children| - 1], w, c);
      assert children[|children| - 1] in children;
      WindowStep(samples, s, children[|children| - 1].sampleId, w);
    }
  }

  lemma SumAppends(samples: seq<Sample>, children: seq<Child>, r: Child, w: Window, c: Counter)
    ensures SumOf(samples, children + [r], w, c)
            == SumOf(samples, children, w, c) + if r.counter == c && InWindow(samples, r.sampleId, w) then r.count else 0
  {
    assert (children + [r])[..|children|] == children;
  }

  lemma TotalsAppend(samples: seq<Sample>, s: Sample, w: Window)
    ensures QueryPacketTotals(samples + [s], w).0 == QueryPacketTotals(samples, w).0 + if w.Has(s.at) then s.received else 0
    ensures QueryPacketTotals(samples + [s], w).1 == QueryPacketTotals(samples, w).1 + if w.Has(s.at) then s.decoded else 0
  {
    assert (samples + [s])[..|samples|] == samples;
  }

  /**
   * What of a counter has reached the tables once the child rows `done` were considered; only positive counts get a
   * row.
   */
  function Written(d: Delta, c: Counter, done: set<Counter>): int {
    match c
    case Received => d.received
    case Decoded => d.decoded
    case _ => if c in done then Max(0, Contribution(d, c)) else 0
  }

  /** In the middle of the transaction. */
  ghost predicate Midway(before: Rows, now: Rows, d: Delta, id: int, done: set<Counter>) {
    && now.samples == before.samples + [Sample(id, d.at, d.received, d.decoded)]
    && (forall r | r in now.children :: r in before.children || (r.sampleId == id && r.count > 0))
    && forall w, c {:trigger Stored(now, w, c)} ::
         Stored(now, w, c) == Stored(before, w, c) + if w.Has(d.at) then Written(d, c, done) else 0
  }

  function WithSample(rows: Rows, id: int, d: Delta): Rows {
    rows.(samples := rows.samples + [Sample(id, d.at, d.received, d.decoded)])
  }

  lemma SampleInserted(before: Rows, d: Delta, id: int)
    requires Keyed(before.samples, before.children, id)
    ensures Midway(before, WithSample(before, id, d), d, id, {})
  {
    var s := Sample(id, d.at, d.received, d.decoded);
    forall w, c: Counter
      ensures Stored(WithSample(before, id, d), w, c)
              == Stored(before, w, c) + if w.Has(d.at) then Written(d, c, {}) else 0
    {
      TotalsAppend(before.samples, s, w);
      SumOverOlder(before.samples, s, before.children, w, c);
    }
  }

  /** One row more, or none when the count is not positive. */
  function WithChild(rows: Rows, id: int, c: Counter, count: int): Rows {
    if count > 0 then rows.(children := rows.children + [Child(id, c, count)]) else rows
  }

  lemma ChildStored(rows: Rows, id: int, c: Counter, count: int, w: Window, x: Counter)
    requires c.Category? || c.Delivery?
    ensures Stored(WithChild(rows, id, c, count), w, x)
            == Stored(rows, w, x) + if x == c && InWindow(rows.samples, id, w) then Max(0, count) else 0
  {
    if count > 0 {
      SumAppends(rows.samples, rows.children, Child(id, c, count), w, x);
    }
  }

  lemma ChildInserted(before: Rows, now: Rows, d: Delta, id: int, done: set<Counter>, c: Counter)
    requires Keyed(before.samples, before.children, id) && Midway(before, now, d, id, done)
    requires c.Category? || c.Delivery?
    requires c !in done
    ensures Midway(before, WithChild(now, id, c, Contribution(d, c)), d, id, done + {c})
  {
    var after := WithChild(now, id, c, Contribution(d, c));
    forall w, x: Counter
      ensures Stored(after, w, x) == Stored(before, w, x) + if w.Has(d.at) then Written(d, x, done + {c}) else 0
    {
      assert Stored(now, w, x) == Stored(before, w, x) + if w.Has(d.at) then Written(d, x, done) else 0;
      ChildStored(now, id, c, Contribution(d, c), w, x);
      NewestInWindow(before.samples, now.samples[|before.samples|], w);
    }
  }

  lemma NewestInWindow(samples: seq<Sample>, s: Sample, w: Window)
    requires forall x | x in samples :: x.id < s.id
    ensures InWindow(samples + [s], s.id, w) <==> w.Has(s.at)
  {
    WindowStep(samples, s, s.id, w);
  }

  /** Every counter a sample can add to. */
  function CountersOf(d: Delta): set<Counter> {
    (set key | key in d.packetsByType :: Category(key))
    + (set id, o | id in d.brokerDeliveries && o in {Sent, Skipped, Failed} :: Delivery(id, o))
  }

  // ---------------------------------------------------------------- pruning

  function KeepSamples(samples: seq<Sample>, cutoff: int): seq<Sample> {
    if samples == [] then []
    else
      var before, s := KeepSamples(samples[..|samples| - 1], cutoff), samples[|samples| - 1];
      if s.at < cutoff then before else before + [s]
  }

  predicate Old(samples: seq<Sample>, id: int, cutoff: int) {
    exists i :: 0 <= i < |samples| && samples[i].id == id && samples[i].at < cutoff
  }

  function KeepChildren(samples: seq<Sample>, children: seq<Child>, cutoff: int): seq<Child> {
    if children == [] then []
    else
      var before, r := KeepChildren(samples, children[..|children| - 1], cutoff), children[|children| - 1];
      if Old(samples, r.sampleId, cutoff) then before else before + [r]
  }

  function Pruned(rows: Rows, cutoff: int): Rows {
    Rows(KeepSamples(rows.samples, cutoff), KeepChildren(rows.samples, rows.children, cutoff))
  }

  lemma {:induction false} KeepSamplesShape(samples: seq<Sample>, cutoff: int)
    ensures forall s :: s in KeepSamples(samples, cutoff) <==> s in samples && s.at >= cutoff
  {
    if samples != [] {
      KeepSamplesShape(samples[..|samples| - 1], cutoff);
      assert samples == samples[..|samples| - 1] + [samples[|samples| - 1]];
    }
  }

  lemma {:induction false} KeepSamplesDistinct(samples: seq<Sample>, cutoff: int)
    requires OwnIds(samples)
    ensures OwnIds(KeepSamples(samples, cutoff))
  {
    if samples != [] {
      var init, s := samples[..|samples| - 1], samples[|samples| - 1];
      KeepSamplesDistinct(init, cutoff);
      KeepSamplesShape(init, cutoff);
      var kept := KeepSamples(init, cutoff);
      forall i | 0 <= i < |kept|
        ensures kept[i].id != s.id
      {
        assert kept[i] in init;
      }
    }
  }

  lemma {:induction false} TotalsKept(samples: seq<Sample>, cutoff: int, w: Window)
    requires w.start >= cutoff
    ensures QueryPacketTotals(KeepSamples(samples, cutoff), w) == QueryPacketTotals(samples, w)
  {
    if samples != [] {
      var init, s := samples[..|samples| - 1], samples[|samples| - 1];
      TotalsKept(init, cutoff, w);
      TotalsAppend(KeepSamples(init, cutoff), s, w);
    }
  }

  lemma WindowKept(samples: seq<Sample>, cutoff: int, id: int, w: Window)
    requires w.start >= cutoff
    ensures InWindow(KeepSamples(samples, cutoff), id, w) <==> InWindow(samples, id, w)
  {
    KeepSamplesShape(samples, cutoff);
    var kept := KeepSamples(samples, cutoff);
    if i :| 0 <= i < |kept| && kept[i].id == id && w.Has(kept[i].at) {
      assert kept[i] in samples;
    }
    if i :| 0 <= i < |samples| && samples[i].id == id && w.Has(samples[i].at) {
      assert samples[i] in kept;
    }
  }

  lemma OldIsOutside(samples: seq<Sample>, id: int, cutoff: int, w: Window)
    requires OwnIds(samples) && Old(samples, id, cutoff) && w.start >= cutoff
    ensures !InWindow(samples, id, w)
  {
  }

  /** Pruning changes no sum over a window that starts at or after the cutoff. */
  lemma {:induction false} PruneKeepsSums(samples: seq<Sample>, children: seq<Child>, cutoff: int, w: Window, c: Counter)
    requires OwnIds(samples)
    requires w.start >= cutoff
    ensures SumOf(KeepSamples(samples, cutoff), KeepChildren(samples, children, cutoff), w, c) == SumOf(samples, children, w, c)
  {
    if children != [] {
      var init, r := children[..|children| - 1], children[|children| - 1];
      PruneKeepsSums(samples, init, cutoff, w, c);
      WindowKept(samples, cutoff, r.sampleId, w);
      var kept, keptInit := KeepSamples(samples, cutoff), KeepChildren(samples, init, cutoff);
      if Old(samples, r.sampleId, cutoff) {
        OldIsOutside(samples, r.sampleId, cutoff, w);
        assert KeepChildren(samples, children, cutoff) == keptInit;
      } else {
        SumAppends(kept, keptInit, r, w, c);
        assert KeepChildren(samples, children, cutoff) == keptInit + [r];
      }
    }
  }

  lemma PruneKeeps(rows: Rows, cutoff: int, w: Window, c: Counter)
    requires OwnIds(rows.samples)
    requires w.start >= cutoff
    ensures Stored(Pruned(rows, cutoff), w, c) == Stored(rows, w, c)
  {
    TotalsKept(rows.samples, cutoff, w);
    PruneKeepsSums(rows.samples, rows.children, cutoff, w, c);
  }

  lemma {:induction false} KeepChildrenShape(samples: seq<Sample>, children: seq<Child>, cutoff: int)
    ensures forall r :: r in KeepChildren(samples, children, cutoff) <==> r in children && !Old(samples, r.sampleId, cutoff)
  {
    if children != [] {
      KeepChildrenShape(samples, children[..|children| - 1], cutoff);
      assert children == children[..|children| - 1] + [children[|children| - 1]];
    }
  }

  // ---------------------------------------------------------------- the store

  /** Every child row has its sample. */
  ghost predicate Whole(rows: Rows) {
    && OwnIds(rows.samples)
    && forall r | r in rows.children :: exists i :: 0 <= i < |rows.samples| && rows.samples[i].id == r.sampleId
  }

  /** The tables as foreign keys keep them. */
  type WholeRows = rows: Rows | Whole(rows) witness Rows([], [])

  lemma WholeIsKeyed(rows: Rows)
    requires Whole(rows)
    ensures Keyed(rows.samples, rows.children, NextId(rows.samples))
  {
  }

  lemma RecordedIsWhole(before: Rows, now: Rows, d: Delta, done: set<Counter>)
    requires Whole(before) && Midway(before, now, d, NextId(before.samples), done)
    ensures Whole(now)
  {
    var id := NextId(before.samples);
    forall i, j | 0 <= i < j < |now.samples|
      ensures now.samples[i].id != now.samples[j].id
    {
      assert now.samples[i] == before.samples[i];
    }
    forall r | r in now.children
      ensures exists i :: 0 <= i < |now.samples| && now.samples[i].id == r.sampleId
    {
      if r in before.children {
        var i :| 0 <= i < |before.samples| && before.samples[i].id == r.sampleId;
        assert now.samples[i].id == r.sampleId;
      } else {
        assert now.samples[|before.samples|].id == r.sampleId;
      }
    }
  }

  lemma PrunedIsWhole(rows: Rows, cutoff: int)
    requires Whole(rows)
    ensures Whole(Pruned(rows, cutoff))
  {
    var kept := KeepSamples(rows.samples, cutoff);
    KeepSamplesDistinct(rows.samples, cutoff);
    KeepSamplesShape(rows.samples, cutoff);
    KeepChildrenShape(rows.samples, rows.children, cutoff);
    forall r | r in KeepChildren(rows.samples, rows.children, cutoff)
      ensures exists i :: 0 <= i < |kept| && kept[i].id == r.sampleId
    {
      var i :| 0 <= i < |rows.samples| && rows.samples[i].id == r.sampleId;
      assert rows.samples[i] in kept;
    }
  }

  /** A prune deletes exactly the samples before the cutoff and exactly their child rows. */
  lemma PruneDeletesExactly(rows: WholeRows, cutoff: int)
    ensures forall s :: s in Pruned(rows, cutoff).samples <==> s in rows.samples && s.at >= cutoff
    ensures forall r :: r in Pruned(rows, cutoff).children
                        <==> r in rows.children && exists s :: s in rows.samples && s.id == r.sampleId && s.at >= cutoff
  {
    KeepSamplesShape(rows.samples, cutoff);
    KeepChildrenShape(rows.samples, rows.children, cutoff);
    forall r | r in rows.children
      ensures Old(rows.samples, r.sampleId, cutoff) <==> !exists s :: s in rows.samples && s.id == r.sampleId && s.at >= cutoff
    {
      var i :| 0 <= i < |rows.samples| && rows.samples[i].id == r.sampleId;
      assert forall j | 0 <= j < |rows.samples| && rows.samples[j].id == r.sampleId :: j == i;
      assert rows.samples[i] in rows.samples;
    }
  }

  /** The transaction, with the counters still to come. */
  datatype Transaction = Idle | Inserting(before: WholeRows, now: WholeRows, d: Delta, todo: set<Counter>)

  ghost predicate InProgress(t: Transaction) {
    t.Inserting? ==>
      && t.todo <= CountersOf(t.d)
      && Midway(t.before, t.now, t.d, NextId(t.before.samples), CountersOf(t.d) - t.todo)
  }

  type Inserts = t: Transaction | InProgress(t) witness Idle

  lemma SampleStep(before: WholeRows, d: Delta) returns (t: Inserts)
    ensures Whole(WithSample(before, NextId(before.samples), d))
    ensures t == Inserting(before, WithSample(before, NextId(before.samples), d), d, CountersOf(d))
  {
    var after := WithSample(before, NextId(before.samples), d);
    WholeIsKeyed(before);
    SampleInserted(before, d, NextId(before.samples));
    RecordedIsWhole(before, after, d, {});
    assert CountersOf(d) - CountersOf(d) == {};
    t := Inserting(before, after, d, CountersOf(d));
  }

  lemma ChildStep(t: Inserts, c: Counter) returns (u: Inserts)
    requires t.Inserting? && c in t.todo
    ensures Whole(WithChild(t.now, NextId(t.before.samples), c, Contribution(t.d, c)))
    ensures u == t.(now := WithChild(t.now, NextId(t.before.samples), c, Contribution(t.d, c)), todo := t.todo - {c})
  {
    var after := WithChild(t.now, NextId(t.before.samples), c, Contribution(t.d, c));
    var done := CountersOf(t.d) - t.todo;
    WholeIsKeyed(t.before);
    ChildInserted(t.before, t.now, t.d, NextId(t.before.samples), done, c);
    assert done + {c} == CountersOf(t.d) - (t.todo - {c});
    RecordedIsWhole(t.before, after, t.d, done + {c});
    u := t.(now := after, todo := t.todo - {c});
  }

  lemma AllInserted(t: Inserts)
    requires t.Inserting? && t.todo == {}
    ensures Midway(t.before, t.now, t.d, NextId(t.before.samples), CountersOf(t.d))
  {
    assert CountersOf(t.d) - t.todo == CountersOf(t.d);
  }

  class SampleTables {
    var rows: WholeRows

    constructor ()
      ensures rows == Rows([], [])
    {
      rows := Rows([], []);
    }

    /** The statements of the transaction, up to the one that throws: the sample row, then a row for each positive count. */
    method InsertSample(d: Delta, failAt: nat) returns (ok: bool)
      modifies this
      ensures ok ==> Midway(old(rows), rows, d, NextId(old(rows).samples), CountersOf(d))
    {
      if failAt == 0 {
        return false;
      }
      ghost var before := rows;
      var id := NextId(rows.samples);
      ghost var t: Inserts := SampleStep(before, d);
      rows := WithSample(rows, id, d);
      var todo, statements := CountersOf(d), 1;
      while todo != {}
        invariant t == Inserting(before, rows, d, todo)
        decreases |todo|
      {
        var c :| c in todo;
        if failAt == statements {
          return false;
        }
        t := ChildStep(t, c);
        rows := WithChild(rows, id, c, Contribution(d, c));
        todo, statements := todo - {c}, statements + 1;
      }
      AllInserted(t);
      ok := failAt != statements;
    }

    /** All of the sample or, when a statement throws, nothing: BEGIN, then COMMIT or ROLLBACK. */
    method RecordPacketSample(d: Delta, failAt: nat) returns (ok: bool)
      modifies this
      ensures !ok ==> rows == old(rows)
      ensures ok ==> Midway(old(rows), rows, d, NextId(old(rows).samples), CountersOf(d))
    {
      var before := rows;
      ok := InsertSample(d, failAt);
      if !ok {
        rows := before;
      }
    }

    /** Deletes the samples before the cutoff with their child rows. */
    method PruneOlderThan(cutoff: int, fails: bool) returns (ok: bool)
      modifies this
      ensures ok == !fails
      ensures rows == if ok then Pruned(old(rows), cutoff) else old(rows)
    {
      if fails {
        return false;
      }
      PrunedIsWhole(rows, cutoff);
      rows := Pruned(rows, cutoff);
      ok := true;
    }
  }
}
