/**
 * The repeat-check tracker of src/bots/repeat-check-tracker.js: a map of
 * per-text FIFOs, proved against the ledger. As in Deduplicator, a key of the
 * insertion-ordered map carries the number of its insertion, here that of the
 * registration that inserted it.
 */
module RepeatChecks {
  import opened Prelude
  import opened RepeatLedger

  datatype Bucket = Bucket(stamp: nat, entries: seq<Pending>)

  // ---------------------------------------------------------------- the map and the ledger

  function EntriesOf(buckets: map<string, Bucket>, text: string): seq<Pending> {
    if text in buckets then buckets[text].entries else []
  }

  /** The lists in the map are the FIFOs of the list. */
  ghost predicate Matches(buckets: map<string, Bucket>, order: Regs) {
    forall text {:trigger EntriesOf(buckets, text)} :: EntriesOf(buckets, text) == Fifo(order, text)
  }

  predicate IsFirst(buckets: map<string, Bucket>, text: string) {
    text in buckets.Keys && forall k | k in buckets.Keys :: buckets[text].stamp <= buckets[k].stamp
  }

  lemma {:induction false} FirstExists(buckets: map<string, Bucket>, texts: set<string>) returns (first: string)
    requires texts != {} && texts <= buckets.Keys
    ensures first in texts && forall k | k in texts :: buckets[first].stamp <= buckets[k].stamp
    decreases |texts|
  {
    var some :| some in texts;
    var rest := texts - {some};
    if rest == {} {
      assert texts == {some};
      first := some;
    } else {
      var early := FirstExists(buckets, rest);
      assert forall k | k in texts :: k == some || k in rest;
      first := if buckets[early].stamp < buckets[some].stamp then early else some;
    }
  }

  function Popped(buckets: map<string, Bucket>, text: string): map<string, Bucket>
    requires text in buckets && buckets[text].entries != []
  {
    buckets[text := buckets[text].(entries := buckets[text].entries[1..])]
  }

  /** The keys were inserted by the registrations the ledger says. */
  ghost predicate Stamped(buckets: map<string, Bucket>, openers: map<string, nat>) {
    forall text {:trigger text in openers} | text in openers :: text in buckets && buckets[text].stamp == openers[text]
  }

  /** The tracker's fields beside the ledger they stand for. */
  datatype Tracked = Tracked(buckets: map<string, Bucket>, total: nat, stamp: nat, ledger: Books, timeoutMs: int, clock: int) {
    ghost predicate Agrees() {
      && Matches(buckets, ledger.order)
      && Stamped(buckets, ledger.openers)
      && Ordered(ledger.order, timeoutMs, clock)
      && total == Size(ledger.order)
      && stamp == |ledger.registered|
    }
  }

  type Tracking = t: Tracked | t.Agrees() witness Tracked(map[], 0, 0, EMPTY, 0, 0)

  lemma PopMatches(buckets: map<string, Bucket>, order: Regs, text: string)
    requires Matches(buckets, order) && text in buckets && buckets[text].entries != []
    ensures Matches(Popped(buckets, text), Take(order, text))
  {
    assert EntriesOf(buckets, text) == Fifo(order, text);
    forall other
      ensures EntriesOf(Popped(buckets, text), other) == Fifo(Take(order, text), other)
    {
      assert EntriesOf(buckets, other) == Fifo(order, other);
      TakeFifo(order, text, other);
    }
  }

  lemma PopStamps(buckets: map<string, Bucket>, ledger: Books, text: string, fate: Fate)
    requires Stamped(buckets, ledger.openers) && text in buckets && buckets[text].entries != []
    requires Fifo(ledger.order, text) == buckets[text].entries
    ensures Stamped(Popped(buckets, text), Settled(ledger, text, fate).openers)
  {
  }

  /** A shift settles the oldest registration of its text. */
  lemma Shifting(t: Tracking, text: string, fate: Fate) returns (after: Tracking)
    requires text in t.buckets && t.buckets[text].entries != []
    ensures Fifo(t.ledger.order, text) == t.buckets[text].entries && t.total > 0
    ensures after.buckets == Popped(t.buckets, text) && after.total == t.total - 1 && after.stamp == t.stamp
    ensures after.ledger == Settled(t.ledger, text, fate) && after.timeoutMs == t.timeoutMs && after.clock == t.clock
  {
    assert EntriesOf(t.buckets, text) == Fifo(t.ledger.order, text);
    TakeElems(t.ledger.order, text);
    assert t.(buckets := Popped(t.buckets, text), total := t.total - 1, ledger := Settled(t.ledger, text, fate)).Agrees() by {
      PopMatches(t.buckets, t.ledger.order, text);
      PopStamps(t.buckets, t.ledger, text, fate);
      TakeOrdered(t.ledger.order, text, t.timeoutMs, t.clock);
    }
    after := t.(buckets := Popped(t.buckets, text), total := t.total - 1, ledger := Settled(t.ledger, text, fate));
  }

  lemma HeadIsLive(buckets: map<string, Bucket>, order: Regs, timeoutMs: int, clock: int, text: string, now: int)
    requires Matches(buckets, order) && Ordered(order, timeoutMs, clock) && text in buckets
    requires buckets[text].entries != [] ==> buckets[text].entries[0].expiresAt > now
    ensures LiveEntries(buckets[text].entries, now)
  {
    assert EntriesOf(buckets, text) == Fifo(order, text);
    LiveHead(order, text, now, timeoutMs, clock);
  }

  /** Deleting the key of an empty list changes no FIFO. */
  lemma Deleting(t: Tracking, text: string) returns (after: Tracking)
    requires text in t.buckets && t.buckets[text].entries == []
    ensures after == t.(buckets := t.buckets - {text})
  {
    assert EntriesOf(t.buckets, text) == Fifo(t.ledger.order, text);
    forall other
      ensures EntriesOf(t.buckets - {text}, other) == Fifo(t.ledger.order, other)
    {
      assert EntriesOf(t.buckets, other) == Fifo(t.ledger.order, other);
    }
    after := t.(buckets := t.buckets - {text});
  }

  function Dropped(buckets: map<string, Bucket>, text: string): map<string, Bucket>
    requires text in buckets
  {
    if buckets[text].entries == [] then buckets - {text} else buckets
  }

  lemma DroppedNonEmpty(buckets: map<string, Bucket>, text: string)
    requires NonEmpty(buckets) && text in buckets
    ensures NonEmpty(Dropped(Popped(buckets, text), text))
  {
  }

  /** Every list is non-empty, and those already visited are live throughout. */
  ghost predicate Swept(buckets: map<string, Bucket>, todo: set<string>, now: int) {
    forall text | text in buckets ::
      buckets[text].entries != [] && (text in todo || LiveEntries(buckets[text].entries, now))
  }

  lemma SweptStep(before: map<string, Bucket>, popped: map<string, Bucket>, after: map<string, Bucket>,
                     todo: set<string>, text: string, now: int)
    requires Swept(before, todo + {text}, now) && text in popped && popped - {text} == before - {text}
    requires LiveEntries(popped[text].entries, now)
    requires after == Dropped(popped, text)
    ensures Swept(after, todo, now)
    ensures todo <= before.Keys && text !in todo ==> todo <= after.Keys
  {
    forall t | t in after && t != text
      ensures t in before && after[t] == before[t]
    {
      assert t in popped - {text};
    }
    forall t | t in before && t != text
      ensures t in after
    {
      assert t in before - {text};
    }
  }

  lemma SweptIsLive(buckets: map<string, Bucket>, order: Regs, now: int)
    requires Matches(buckets, order) && Swept(buckets, {}, now)
    ensures Live(order, now) == order
  {
    forall text
      ensures LiveEntries(Fifo(order, text), now)
    {
      assert EntriesOf(buckets, text) == Fifo(order, text);
    }
    LiveFifos(order, now);
  }

  function Pushed(buckets: map<string, Bucket>, stamp: nat, text: string, entry: Pending): map<string, Bucket> {
    if text in buckets then buckets[text := buckets[text].(entries := buckets[text].entries + [entry])]
    else buckets[text := Bucket(stamp, [entry])]
  }

  lemma PushMatches(buckets: map<string, Bucket>, stamp: nat, order: Regs, r: Reg)
    requires Matches(buckets, order)
    ensures Matches(Pushed(buckets, stamp, r.text, r.entry), Snoc(order, r))
  {
    forall t
      ensures EntriesOf(Pushed(buckets, stamp, r.text, r.entry), t) == Fifo(Snoc(order, r), t)
    {
      assert EntriesOf(buckets, t) == Fifo(order, t);
    }
  }

  lemma PushNonEmpty(buckets: map<string, Bucket>, stamp: nat, text: string, entry: Pending)
    requires NonEmpty(buckets)
    ensures NonEmpty(Pushed(buckets, stamp, text, entry))
  {
  }

  /** A text without a key gets one, numbered by this registration. */
  lemma PushStamps(buckets: map<string, Bucket>, ledger: Books, r: Reg)
    requires Matches(buckets, ledger.order) && Stamped(buckets, ledger.openers) && NonEmpty(buckets)
    requires r.number == |ledger.registered|
    ensures Stamped(Pushed(buckets, r.number, r.text, r.entry), Registered(ledger, r).openers)
  {
    assert EntriesOf(buckets, r.text) == Fifo(ledger.order, r.text);
    assert r.text in buckets <==> r.text in ledger.openers;
  }

  /** A push registers. */
  lemma Pushing(t: Tracking, text: string, entry: Pending) returns (after: Tracking)
    requires NonEmpty(t.buckets) && t.clock <= entry.sentAt && entry.expiresAt == entry.sentAt + t.timeoutMs
    ensures after.buckets == Pushed(t.buckets, t.stamp, text, entry) && after.total == t.total + 1 && after.stamp == t.stamp + 1
    ensures after.ledger == Registered(t.ledger, Reg(t.stamp, text, entry))
    ensures after.timeoutMs == t.timeoutMs && after.clock == entry.sentAt
    ensures NonEmpty(after.buckets)
  {
    var r := Reg(t.stamp, text, entry);
    PushMatches(t.buckets, t.stamp, t.ledger.order, r);
    PushStamps(t.buckets, t.ledger, r);
    PushNonEmpty(t.buckets, t.stamp, text, entry);
    OrderedLater(t.ledger.order, t.timeoutMs, t.clock, entry.sentAt);
    after := t.(buckets := Pushed(t.buckets, t.stamp, text, entry), total := t.total + 1, stamp := t.stamp + 1,
                ledger := Registered(t.ledger, r), clock := entry.sentAt);
  }

  lemma Passing(t: Tracking, now: int) returns (after: Tracking)
    requires t.clock <= now
    ensures after == t.(clock := now)
  {
    OrderedLater(t.ledger.order, t.timeoutMs, t.clock, now);
    after := t.(clock := now);
  }

  ghost predicate NonEmpty(buckets: map<string, Bucket>) {
    forall text | text in buckets :: buckets[text].entries != []
  }

  /** A tracker over its bound has a key. */
  lemma FirstHasEntries(buckets: map<string, Bucket>, order: Regs)
    requires Matches(buckets, order) && order.Snoc?
    ensures exists text :: IsFirst(buckets, text)
  {
    var text := order.last.text;
    assert EntriesOf(buckets, text) == Fifo(order, text) != [];
    var first := FirstExists(buckets, buckets.Keys);
    assert IsFirst(buckets, first);
  }

  /** The first key of the map is the ledger's. */
  lemma FirstIsFirstKey(buckets: map<string, Bucket>, ledger: Books, text: string)
    requires Matches(buckets, ledger.order) && Stamped(buckets, ledger.openers) && NonEmpty(buckets) && IsFirst(buckets, text)
    ensures FirstKey(ledger, text)
  {
    assert EntriesOf(buckets, text) == Fifo(ledger.order, text);
    assert text in ledger.openers;
  }

  class RepeatCheckTracker {
    const timeoutMs: int
    const maxEntries: nat
    var pendingByText: map<string, Bucket>
    var totalPending: nat
    /** The number of the next registration. */
    var stamp: nat
    ghost var state: Tracking

    ghost function Ledger(): Books
      reads this
    {
      state.ledger
    }

    ghost predicate Consistent()
      reads this
    {
      state.buckets == pendingByText && state.total == totalPending && state.stamp == stamp && state.timeoutMs == timeoutMs
    }

    ghost predicate Valid()
      reads this
    {
      Consistent() && totalPending <= maxEntries && NonEmpty(pendingByText)
    }

    constructor (timeoutMs: int, maxEntries: nat, now: int)
      ensures Valid() && state.clock == now && Ledger() == EMPTY
      ensures this.timeoutMs == timeoutMs && this.maxEntries == maxEntries
    {
      this.timeoutMs, this.maxEntries := timeoutMs, maxEntries;
      pendingByText, totalPending, stamp := map[], 0, 0;
      state := Tracked(map[], 0, 0, EMPTY, timeoutMs, now);
    }

    /** The assignments of an operation, which keep the fields beside their ghost. */
    method Become(buckets: map<string, Bucket>, total: nat, stamp: nat, ghost after: Tracking)
      requires after.buckets == buckets && after.total == total && after.stamp == stamp && after.timeoutMs == timeoutMs
      modifies this
      ensures Consistent() && pendingByText == buckets && totalPending == total && this.stamp == stamp && state == after
    {
      pendingByText, totalPending, this.stamp, state := buckets, total, stamp, after;
    }

    /** `entries.shift()` with the counter; an emptied list stays in the map for the moment. */
    method Shift(text: string, ghost fate: Fate) returns (entry: Pending)
      requires Consistent() && text in pendingByText && pendingByText[text].entries != []
      modifies this
      ensures Consistent() && stamp == old(stamp) && state.clock == old(state.clock) && totalPending == old(totalPending) - 1
      ensures pendingByText == Popped(old(pendingByText), text)
      ensures Fifo(old(Ledger()).order, text) == old(pendingByText)[text].entries && entry == old(pendingByText)[text].entries[0]
      ensures Ledger() == Settled(old(Ledger()), text, fate)
    {
      ghost var after := Shifting(state, text, fate);
      entry := pendingByText[text].entries[0];
      Become(Popped(pendingByText, text), totalPending - 1, stamp, after);
    }

    /** One `expired.push(entries.shift().meta)`. */
    method ShiftExpired(text: string, now: int) returns (meta: Meta, ghost gone: Reg)
      requires Consistent() && text in pendingByText
      requires pendingByText[text].entries != [] && pendingByText[text].entries[0].expiresAt <= now
      modifies this
      ensures Consistent() && stamp == old(stamp) && state.clock == old(state.clock) && totalPending == old(totalPending) - 1
      ensures text in pendingByText && pendingByText - {text} == old(pendingByText) - {text}
      ensures Aged(old(Ledger()), Ledger(), now, [gone]) && MetasOf([gone]) == [meta]
    {
      assert EntriesOf(pendingByText, text) == Fifo(Ledger().order, text);
      HeadExpires(Ledger(), text, now);
      gone := Oldest(Ledger().order, text);
      var entry := Shift(text, Expired);
      meta := entry.meta;
    }

    /** The inner loop of the age pass: the expired head of one text's list. */
    method EvictExpiredText(text: string, now: int) returns (metas: seq<Meta>, ghost gone: seq<Reg>)
      requires Consistent() && text in pendingByText && pendingByText[text].entries != []
      modifies this
      ensures Consistent() && stamp == old(stamp) && state.clock == old(state.clock) && totalPending <= old(totalPending)
      ensures text in pendingByText && pendingByText - {text} == old(pendingByText) - {text}
      ensures pendingByText[text].entries != [] ==> pendingByText[text].entries[0].expiresAt > now
      ensures Aged(old(Ledger()), Ledger(), now, gone) && metas == MetasOf(gone)
    {
      metas, gone := [], [];
      while pendingByText[text].entries != [] && pendingByText[text].entries[0].expiresAt <= now
        invariant Consistent() && stamp == old(stamp) && state.clock == old(state.clock) && totalPending <= old(totalPending)
        invariant text in pendingByText && pendingByText - {text} == old(pendingByText) - {text}
        invariant Aged(old(Ledger()), Ledger(), now, gone) && metas == MetasOf(gone)
        decreases totalPending
      {
        ghost var before := Ledger();
        var meta, r := ShiftExpired(text, now);
        AgedOn(old(Ledger()), before, Ledger(), now, gone, [r]);
        metas, gone := metas + [meta], gone + [r];
      }
    }

    /** Deletes the key of a list that has become empty. */
    method DropIfEmpty(text: string)
      requires Consistent() && text in pendingByText
      modifies this
      ensures Consistent() && stamp == old(stamp) && state.clock == old(state.clock) && Ledger() == old(Ledger())
      ensures pendingByText == Dropped(old(pendingByText), text)
    {
      if pendingByText[text].entries == [] {
        ghost var after := Deleting(state, text);
        Become(pendingByText - {text}, totalPending, stamp, after);
      }
    }

    /** One turn of the age pass; its list is live throughout afterwards. */
    method EvictExpiredKey(text: string, now: int, ghost todo: set<string>) returns (metas: seq<Meta>, ghost gone: seq<Reg>)
      requires Consistent() && text in pendingByText && text !in todo && todo <= pendingByText.Keys
      requires Swept(pendingByText, todo + {text}, now)
      modifies this
      ensures Consistent() && stamp == old(stamp) && state.clock == old(state.clock) && totalPending <= old(totalPending)
      ensures Swept(pendingByText, todo, now) && todo <= pendingByText.Keys
      ensures Aged(old(Ledger()), Ledger(), now, gone) && metas == MetasOf(gone)
    {
      metas, gone := EvictExpiredText(text, now);
      HeadIsLive(pendingByText, Ledger().order, timeoutMs, state.clock, text, now);
      ghost var popped := pendingByText;
      DropIfEmpty(text);
      SweptStep(old(pendingByText), popped, pendingByText, todo, text, now);
    }

    /** The age pass; the map's iteration order does not matter to its outcome, so any is taken. */
    method EvictExpired(now: int) returns (metas: seq<Meta>, ghost gone: seq<Reg>)
      requires Valid()
      modifies this
      ensures Valid() && stamp == old(stamp) && state.clock == old(state.clock)
      ensures Aged(old(Ledger()), Ledger(), now, gone) && metas == MetasOf(gone)
      ensures Ledger().order == Live(old(Ledger()).order, now)
    {
      metas, gone := [], [];
      var todo := pendingByText.Keys;
      while todo != {}
        invariant Consistent() && stamp == old(stamp) && state.clock == old(state.clock) && totalPending <= old(totalPending)
        invariant Swept(pendingByText, todo, now) && todo <= pendingByText.Keys
        invariant Aged(old(Ledger()), Ledger(), now, gone) && metas == MetasOf(gone)
        decreases |todo|
      {
        var text :| text in todo;
        ghost var before := Ledger();
        assert todo - {text} + {text} == todo;
        todo := todo - {text};
        var more, moreGone := EvictExpiredKey(text, now, todo);
        AgedOn(old(Ledger()), before, Ledger(), now, gone, moreGone);
        metas, gone := metas + more, gone + moreGone;
      }
      SweptIsLive(pendingByText, Ledger().order, now);
    }

    /** One turn of the capacity loop: the head of the first key's list. */
    method EvictFirst() returns (meta: Meta, ghost victim: string, ghost evicted: Reg)
      requires Consistent() && NonEmpty(pendingByText) && totalPending > 0
      modifies this
      ensures Consistent() && NonEmpty(pendingByText) && totalPending == old(totalPending) - 1
      ensures stamp == old(stamp) && state.clock == old(state.clock)
      ensures Evicts(old(Ledger()), Ledger(), victim, [evicted]) && MetasOf([evicted]) == [meta]
    {
      FirstHasEntries(pendingByText, Ledger().order);
      var text :| text in pendingByText.Keys && IsFirst(pendingByText, text);
      DroppedNonEmpty(pendingByText, text);
      FirstIsFirstKey(pendingByText, Ledger(), text);
      OldestIsHead(Ledger().order, text);
      victim, evicted := text, Oldest(Ledger().order, text);
      var entry := Shift(text, Evicted);
      meta := entry.meta;
      DropIfEmpty(text);
    }

    /** The capacity loop; after one registration it turns at most once. */
    method EvictOverflow() returns (metas: seq<Meta>, ghost victim: string, ghost evicted: seq<Reg>)
      requires Consistent() && NonEmpty(pendingByText) && totalPending <= maxEntries + 1
      modifies this
      ensures Valid() && stamp == old(stamp) && state.clock == old(state.clock) && metas == MetasOf(evicted)
      ensures old(totalPending) <= maxEntries ==> evicted == [] && Ledger() == old(Ledger())
      ensures old(totalPending) > maxEntries ==> Evicts(old(Ledger()), Ledger(), victim, evicted)
    {
      metas, victim, evicted := [], "", [];
      while totalPending > maxEntries
        invariant Consistent() && NonEmpty(pendingByText) && metas == MetasOf(evicted)
        invariant stamp == old(stamp) && state.clock == old(state.clock)
        invariant if evicted == [] then totalPending == old(totalPending) && Ledger() == old(Ledger())
                  else totalPending == maxEntries < old(totalPending) && Evicts(old(Ledger()), Ledger(), victim, evicted)
        decreases totalPending
      {
        var meta, text, r := EvictFirst();
        metas, victim, evicted := metas + [meta], text, evicted + [r];
      }
    }

    /** The push and its counter, before the bound is restored. */
    method Push(text: string, meta: Meta, now: int)
      requires Consistent() && NonEmpty(pendingByText) && state.clock <= now
      modifies this
      ensures Consistent() && NonEmpty(pendingByText) && state.clock == now && totalPending == old(totalPending) + 1
      ensures old(stamp) == |old(Ledger()).registered|
      ensures Ledger() == Registered(old(Ledger()), Reg(old(stamp), text, Pending(meta, now + timeoutMs, now)))
    {
      var entry := Pending(meta, now + timeoutMs, now);
      ghost var after := Pushing(state, text, entry);
      Become(Pushed(pendingByText, stamp, text, entry), totalPending + 1, stamp + 1, after);
    }

    /** A sent text awaits its repeat; aged is the ledger between the age pass and the push. */
    method Register(text: string, meta: Meta, now: int)
      returns (expiredMetas: seq<Meta>, evictedMetas: seq<Meta>,
               ghost aged: Books, ghost expired: seq<Reg>, ghost evicted: seq<Reg>, ghost victim: string)
      requires Valid() && state.clock <= now
      modifies this
      ensures Valid() && state.clock == now
      ensures Registers(old(Ledger()), aged, Ledger(), NewReg(old(Ledger()), text, meta, now, timeoutMs),
                        expired, evicted, victim, maxEntries)
      ensures expiredMetas == MetasOf(expired) && evictedMetas == MetasOf(evicted)
    {
      ghost var before, r := Ledger(), NewReg(Ledger(), text, meta, now, timeoutMs);
      expiredMetas, expired := EvictExpired(now);
      aged := Ledger();
      assert totalPending == Size(aged.order);
      Push(text, meta, now);
      ghost var full := Ledger();
      assert full == Registered(aged, r);
      evictedMetas, victim, evicted := EvictOverflow();
      RegistersInSteps(before, aged, full, Ledger(), r, expired, evicted, victim, maxEntries);
    }

    /** Ends every registration past its deadline. */
    method SweepExpired(now: int) returns (metas: seq<Meta>, ghost gone: seq<Reg>)
      requires Valid() && state.clock <= now
      modifies this
      ensures Valid() && state.clock == now
      ensures Aged(old(Ledger()), Ledger(), now, gone) && metas == MetasOf(gone)
      ensures Ledger().order == Live(old(Ledger()).order, now) && Live(Ledger().order, now) == Ledger().order
    {
      metas, gone := EvictExpired(now);
      LiveTwice(old(Ledger()).order, now);
      ghost var after := Passing(state, now);
      state := after;
    }

    /** Takes the head of a list that is not empty. */
    method Confirm(text: string) returns (entry: Pending)
      requires Valid() && text in pendingByText
      modifies this
      ensures Valid() && stamp == old(stamp) && state.clock == old(state.clock)
      ensures Fifo(old(Ledger()).order, text) != [] && entry == Fifo(old(Ledger()).order, text)[0]
      ensures Ledger() == Settled(old(Ledger()), text, Confirmed)
    {
      DroppedNonEmpty(pendingByText, text);
      entry := Shift(text, Confirmed);
      DropIfEmpty(text);
    }

    /** A heard text confirms the oldest live registration of that text, if there is one. */
    method CheckAndConsume(text: string, now: int)
      returns (hit: Option<(Meta, int)>, expiredMetas: seq<Meta>, ghost aged: Books, ghost expired: seq<Reg>)
      requires Valid() && state.clock <= now
      modifies this
      ensures Valid() && state.clock == now
      ensures Checks(old(Ledger()), aged, Ledger(), text, now, timeoutMs, hit, expired) && expiredMetas == MetasOf(expired)
    {
      expiredMetas, expired := SweepExpired(now);
      aged := Ledger();
      assert EntriesOf(pendingByText, text) == Fifo(aged.order, text);
      assert Ordered(aged.order, timeoutMs, now);
      if text !in pendingByText || pendingByText[text].entries == [] {
        hit := None;
        ChecksMiss(old(Ledger()), aged, text, now, timeoutMs, expired);
      } else {
        var entry := Confirm(text);
        hit := Some((entry.meta, now - entry.sentAt));
        ChecksHit(old(Ledger()), aged, Ledger(), text, now, timeoutMs, entry, expired);
      }
    }
  }
}
