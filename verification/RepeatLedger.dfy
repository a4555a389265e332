/**
 * The specification of the repeat-check tracker (src/bots/repeat-check-tracker.js):
 * one list of the pending registrations in the order they were made, and a
 * ledger of what became of every registration.
 */
module RepeatLedger {
  import opened Prelude

  /** What a channel bot remembers of a reply it sent (src/bots/channel-bot.js:480). */
  datatype Meta = Meta(sender: string, trigger: string, hash: string)

  datatype Pending = Pending(meta: Meta, expiresAt: int, sentAt: int)

  /** A registration, by how many were made before it. */
  datatype Reg = Reg(number: nat, text: string, entry: Pending)

  /** Registrations in the order they were made, the latest outermost. */
  datatype Regs = Nil | Snoc(before: Regs, last: Reg)

  // ---------------------------------------------------------------- the list of what is pending

  ghost function Size(rs: Regs): nat {
    if rs.Nil? then 0 else Size(rs.before) + 1
  }

  ghost function Elems(rs: Regs): multiset<Reg> {
    if rs.Nil? then multiset{} else Elems(rs.before) + multiset{rs.last}
  }

  lemma {:induction false} SizeOfElems(rs: Regs)
    ensures |Elems(rs)| == Size(rs)
  {
    if rs.Snoc? {
      SizeOfElems(rs.before);
    }
  }

  ghost function First(rs: Regs): Reg
    requires rs.Snoc?
  {
    if rs.before.Nil? then rs.last else First(rs.before)
  }

  /** The registrations not past their deadline. */
  ghost function Live(rs: Regs, now: int): Regs {
    if rs.Nil? then Nil
    else if rs.last.entry.expiresAt > now then Snoc(Live(rs.before, now), rs.last)
    else Live(rs.before, now)
  }

  /** The FIFO of one text. */
  ghost function Fifo(rs: Regs, text: string): seq<Pending> {
    if rs.Nil? then []
    else if rs.last.text == text then Fifo(rs.before, text) + [rs.last.entry]
    else Fifo(rs.before, text)
  }

  /** The oldest registration of a text that has one. */
  ghost function Oldest(rs: Regs, text: string): Reg
    requires Fifo(rs, text) != []
  {
    if Fifo(rs.before, text) != [] then Oldest(rs.before, text) else rs.last
  }

  /** The list without the oldest registration of this text. */
  ghost function Take(rs: Regs, text: string): Regs {
    if rs.Nil? then Nil
    else if Fifo(rs.before, text) != [] then Snoc(Take(rs.before, text), rs.last)
    else if rs.last.text == text then rs.before
    else rs
  }

  /** Registered one after the other up to now, each with the deadline its time gives. */
  ghost predicate Ordered(rs: Regs, timeoutMs: int, now: int) {
    rs.Snoc? ==>
      && rs.last.entry.expiresAt == rs.last.entry.sentAt + timeoutMs
      && rs.last.entry.sentAt <= now
      && Ordered(rs.before, timeoutMs, rs.last.entry.sentAt)
  }

  /** Registered under rising numbers below a bound. */
  ghost predicate Rising(rs: Regs, bound: nat) {
    rs.Snoc? ==> rs.last.number < bound && Rising(rs.before, rs.last.number)
  }

  lemma {:induction false} OrderedLater(rs: Regs, timeoutMs: int, clock: int, now: int)
    requires Ordered(rs, timeoutMs, clock) && clock <= now
    ensures Ordered(rs, timeoutMs, now)
  {
  }

  lemma {:induction false} RisingLater(rs: Regs, bound: nat, later: nat)
    requires Rising(rs, bound) && bound <= later
    ensures Rising(rs, later)
  {
  }

  lemma {:induction false} OldestIsHead(rs: Regs, text: string)
    requires Fifo(rs, text) != []
    ensures Oldest(rs, text).text == text && Oldest(rs, text).entry == Fifo(rs, text)[0]
  {
    if Fifo(rs.before, text) != [] {
      OldestIsHead(rs.before, text);
    }
  }

  lemma {:induction false} TakeElems(rs: Regs, text: string)
    requires Fifo(rs, text) != []
    ensures Size(rs) == Size(Take(rs, text)) + 1
    ensures Elems(rs) == Elems(Take(rs, text)) + multiset{Oldest(rs, text)}
  {
    if Fifo(rs.before, text) != [] {
      TakeElems(rs.before, text);
    }
  }

  lemma {:induction false} TakeFifo(rs: Regs, text: string, other: string)
    requires Fifo(rs, text) != []
    ensures Fifo(Take(rs, text), other) == if other == text then Fifo(rs, text)[1..] else Fifo(rs, other)
  {
    if Fifo(rs.before, text) != [] {
      TakeFifo(rs.before, text, other);
    }
  }

  lemma {:induction false} TakeOrdered(rs: Regs, text: string, timeoutMs: int, now: int)
    requires Ordered(rs, timeoutMs, now) && Fifo(rs, text) != []
    ensures Ordered(Take(rs, text), timeoutMs, now)
  {
    if Fifo(rs.before, text) != [] {
      TakeOrdered(rs.before, text, timeoutMs, rs.last.entry.sentAt);
    } else {
      OrderedLater(rs.before, timeoutMs, rs.last.entry.sentAt, now);
    }
  }

  lemma {:induction false} TakeRising(rs: Regs, text: string, bound: nat)
    requires Rising(rs, bound) && Fifo(rs, text) != []
    ensures Rising(Take(rs, text), bound)
  {
    if Fifo(rs.before, text) != [] {
      TakeRising(rs.before, text, rs.last.number);
    } else {
      RisingLater(rs.before, rs.last.number, bound);
    }
  }

  /** The head of a FIFO was registered no later than any of it. */
  lemma {:induction false} HeadTimes(rs: Regs, text: string, timeoutMs: int, now: int)
    requires Ordered(rs, timeoutMs, now) && Fifo(rs, text) != []
    ensures var head := Fifo(rs, text)[0]; head.expiresAt == head.sentAt + timeoutMs && head.sentAt <= now
  {
    if Fifo(rs.before, text) != [] {
      HeadTimes(rs.before, text, timeoutMs, rs.last.entry.sentAt);
    }
  }

  /** Registrations were made in order, so a FIFO whose head is live is live throughout. */
  lemma {:induction false} LiveHead(rs: Regs, text: string, from: int, timeoutMs: int, now: int)
    requires Ordered(rs, timeoutMs, now)
    requires Fifo(rs, text) == [] || Fifo(rs, text)[0].expiresAt > from
    ensures LiveEntries(Fifo(rs, text), from)
  {
    if rs.Snoc? && Fifo(rs.before, text) != [] {
      LiveHead(rs.before, text, from, timeoutMs, rs.last.entry.sentAt);
      HeadTimes(rs.before, text, timeoutMs, rs.last.entry.sentAt);
    }
  }

  ghost predicate LiveEntries(entries: seq<Pending>, now: int) {
    forall p | p in entries :: p.expiresAt > now
  }

  /** When every FIFO is live, so is the whole list. */
  lemma {:induction false} LiveFifos(rs: Regs, now: int)
    requires forall text :: LiveEntries(Fifo(rs, text), now)
    ensures Live(rs, now) == rs
  {
    if rs.Snoc? {
      assert rs.last.entry in Fifo(rs, rs.last.text) && LiveEntries(Fifo(rs, rs.last.text), now);
      forall text
        ensures LiveEntries(Fifo(rs.before, text), now)
      {
        assert LiveEntries(Fifo(rs, text), now);
      }
      LiveFifos(rs.before, now);
    }
  }

  /** What is live stays so as long as it is looked at with the same clock. */
  lemma {:induction false} LiveTwice(rs: Regs, now: int)
    ensures Live(Live(rs, now), now) == Live(rs, now) && Size(Live(rs, now)) <= Size(rs)
  {
    if rs.Snoc? {
      LiveTwice(rs.before, now);
    }
  }

  lemma LiveBefore(rs: Regs, now: int)
    requires rs.Snoc? && Live(rs, now) == rs
    ensures rs.last.entry.expiresAt > now && Live(rs.before, now) == rs.before
  {
    LiveTwice(rs.before, now);
  }

  /** Removing an expired head does not change what is live. */
  lemma {:induction false} TakeExpiredKeepsLive(rs: Regs, text: string, now: int)
    requires Fifo(rs, text) != [] && Fifo(rs, text)[0].expiresAt <= now
    ensures Live(Take(rs, text), now) == Live(rs, now)
  {
    if Fifo(rs.before, text) != [] {
      TakeExpiredKeepsLive(rs.before, text, now);
    }
  }

  /** Taking from a list that is live throughout leaves it so. */
  lemma {:induction false} LiveTake(rs: Regs, text: string, now: int)
    requires Live(rs, now) == rs && Fifo(rs, text) != []
    ensures Live(Take(rs, text), now) == Take(rs, text) && Fifo(rs, text)[0].expiresAt > now
  {
    LiveBefore(rs, now);
    if Fifo(rs.before, text) != [] {
      LiveTake(rs.before, text, now);
    }
  }

  // ---------------------------------------------------------------- the ledger

  /** The one way each registration ends, unless it is still pending. */
  datatype Fate = Confirmed | Expired | Evicted

  ghost function Bag(counts: bool, r: Reg): multiset<Reg> {
    if counts then multiset{r} else multiset{}
  }

  /** Each registration carries the number of those before it. */
  ghost predicate Enumerated(regs: seq<Reg>) {
    forall i | 0 <= i < |regs| :: regs[i].number == i
  }

  /** How often this registration was made. */
  ghost function Times(regs: seq<Reg>, r: Reg): nat {
    if r.number < |regs| && regs[r.number] == r then 1 else 0
  }

  lemma {:induction false} TimesCounts(regs: seq<Reg>, r: Reg)
    requires Enumerated(regs)
    ensures multiset(regs)[r] == Times(regs, r)
  {
    if regs != [] {
      var n := |regs| - 1;
      TimesCounts(regs[..n], r);
      assert regs == regs[..n] + [regs[n]];
    }
  }

  /** None is older than the registration that opened its text. */
  ghost predicate Opened(rs: Regs, openers: map<string, nat>) {
    rs.Snoc? ==>
      && rs.last.text in openers && openers[rs.last.text] <= rs.last.number
      && Opened(rs.before, openers)
  }

  ghost predicate OpenersMatch(rs: Regs, openers: map<string, nat>) {
    forall text {:trigger text in openers} :: text in openers <==> Fifo(rs, text) != []
  }

  /**
   * The pending registrations, every registration so far, what became of those
   * no longer pending, and, for each text with a pending registration, the
   * number of the one that opened it, finding none.
   */
  datatype Ledger = Ledger(order: Regs, registered: seq<Reg>,
                           confirmed: multiset<Reg>, expired: multiset<Reg>, evicted: multiset<Reg>,
                           openers: map<string, nat>)
  {
    /** What was registered has exactly one fate, or is pending; what was not has none. */
    ghost predicate Balanced() {
      forall r {:trigger Times(registered, r)} ::
        Times(registered, r) == confirmed[r] + expired[r] + evicted[r] + Elems(order)[r]
    }

    ghost predicate Sound() {
      && Balanced()
      && Enumerated(registered)
      && Rising(order, |registered|)
      && OpenersMatch(order, openers)
      && Opened(order, openers)
    }

    ghost function Register(r: Reg): Ledger {
      this.(order := Snoc(order, r), registered := registered + [r],
            openers := if r.text in openers then openers else openers[r.text := r.number])
    }

    /** The oldest pending registration of this text ends. */
    ghost function Settle(text: string, fate: Fate): Ledger
      requires Fifo(order, text) != []
    {
      var r := Oldest(order, text);
      Ledger(Take(order, text), registered,
             confirmed + Bag(fate.Confirmed?, r), expired + Bag(fate.Expired?, r), evicted + Bag(fate.Evicted?, r),
             if |Fifo(order, text)| == 1 then openers - {text} else openers)
    }
  }

  const EMPTY := Ledger(Nil, [], multiset{}, multiset{}, multiset{}, map[])

  type Books = l: Ledger | l.Sound() witness EMPTY

  lemma {:induction false} OpenedMore(rs: Regs, openers: map<string, nat>, text: string, number: nat)
    requires Opened(rs, openers) && text !in openers
    ensures Opened(rs, openers[text := number])
  {
    if rs.Snoc? {
      OpenedMore(rs.before, openers, text, number);
    }
  }

  lemma {:induction false} OpenedFewer(rs: Regs, openers: map<string, nat>, text: string)
    requires Opened(rs, openers) && Fifo(rs, text) == []
    ensures Opened(rs, openers - {text})
  {
    if rs.Snoc? {
      OpenedFewer(rs.before, openers, text);
    }
  }

  lemma {:induction false} OpenedTake(rs: Regs, openers: map<string, nat>, text: string)
    requires Opened(rs, openers) && Fifo(rs, text) != []
    ensures Opened(Take(rs, text), openers)
  {
    if Fifo(rs.before, text) != [] {
      OpenedTake(rs.before, openers, text);
    }
  }

  lemma {:induction false} OpenedOldest(rs: Regs, openers: map<string, nat>, text: string, bound: nat)
    requires Opened(rs, openers) && Rising(rs, bound) && Fifo(rs, text) != []
    ensures text in openers && openers[text] <= Oldest(rs, text).number < bound
  {
    if Fifo(rs.before, text) != [] {
      OpenedOldest(rs.before, openers, text, rs.last.number);
    }
  }

  lemma RegisterBalanced(l: Ledger, r: Reg)
    requires l.Balanced() && r.number == |l.registered|
    ensures l.Register(r).Balanced()
  {
    forall x
      ensures Times(l.registered + [r], x) == l.confirmed[x] + l.expired[x] + l.evicted[x] + Elems(Snoc(l.order, r))[x]
    {
      assert Times(l.registered + [r], x) == Times(l.registered, x) + if x == r then 1 else 0;
    }
  }

  lemma RegisterOpened(l: Books, r: Reg)
    requires r.number == |l.registered|
    ensures Opened(Snoc(l.order, r), l.Register(r).openers)
  {
    if r.text in l.openers {
      OpenedOldest(l.order, l.openers, r.text, |l.registered|);
    } else {
      OpenedMore(l.order, l.openers, r.text, r.number);
    }
  }

  lemma RegisterOpeners(l: Books, r: Reg)
    ensures OpenersMatch(Snoc(l.order, r), l.Register(r).openers)
  {
    forall text
      ensures text in l.Register(r).openers <==> Fifo(Snoc(l.order, r), text) != []
    {
      assert text in l.openers <==> Fifo(l.order, text) != [];
    }
  }

  lemma RegisterSound(l: Books, r: Reg)
    requires r.number == |l.registered|
    ensures l.Register(r).Sound()
  {
    RegisterBalanced(l, r);
    RegisterOpened(l, r);
    RegisterOpeners(l, r);
  }

  lemma SettleOpeners(l: Books, text: string, t: string)
    requires Fifo(l.order, text) != []
    ensures t in l.Settle(text, Expired).openers <==> Fifo(Take(l.order, text), t) != []
  {
    TakeFifo(l.order, text, t);
    assert t in l.openers <==> Fifo(l.order, t) != [];
  }

  lemma SettleOpened(l: Books, text: string)
    requires Fifo(l.order, text) != []
    ensures Opened(Take(l.order, text), l.Settle(text, Expired).openers)
  {
    OpenedTake(l.order, l.openers, text);
    if |Fifo(l.order, text)| == 1 {
      TakeFifo(l.order, text, text);
      OpenedFewer(Take(l.order, text), l.openers, text);
    }
  }

  lemma SettleBalanced(l: Ledger, text: string, fate: Fate)
    requires l.Balanced() && Fifo(l.order, text) != []
    ensures l.Settle(text, fate).Balanced()
  {
    TakeElems(l.order, text);
  }

  lemma SettleSound(l: Books, text: string, fate: Fate)
    requires Fifo(l.order, text) != []
    ensures l.Settle(text, fate).Sound()
  {
    SettleBalanced(l, text, fate);
    TakeRising(l.order, text, |l.registered|);
    SettleOpened(l, text);
    forall t
      ensures t in l.Settle(text, fate).openers <==> Fifo(Take(l.order, text), t) != []
    {
      SettleOpeners(l, text, t);
    }
  }

  ghost function Registered(l: Books, r: Reg): Books
    requires r.number == |l.registered|
  {
    RegisterSound(l, r);
    l.Register(r)
  }

  ghost function Settled(l: Books, text: string, fate: Fate): Books
    requires Fifo(l.order, text) != []
  {
    SettleSound(l, text, fate);
    l.Settle(text, fate)
  }

  /** Every registration made has its own number and exactly one fate, or is pending; nothing else has any. */
  lemma ExactlyOneFate(l: Books, r: Reg)
    ensures (exists i :: 0 <= i < |l.registered| && l.registered[i] == r)
            <==> l.confirmed[r] + l.expired[r] + l.evicted[r] + Elems(l.order)[r] == 1
    ensures l.confirmed[r] + l.expired[r] + l.evicted[r] + Elems(l.order)[r] <= 1
    ensures forall i, j | 0 <= i < j < |l.registered| :: l.registered[i].number != l.registered[j].number
  {
    assert Times(l.registered, r) == l.confirmed[r] + l.expired[r] + l.evicted[r] + Elems(l.order)[r];
  }

  /** So the numbers of fates and of what is pending add up to that of the registrations. */
  lemma FatesAddUp(l: Books)
    ensures |l.registered| == |l.confirmed| + |l.expired| + |l.evicted| + Size(l.order)
  {
    var fates := l.confirmed + l.expired + l.evicted + Elems(l.order);
    forall r
      ensures multiset(l.registered)[r] == fates[r]
    {
      TimesCounts(l.registered, r);
      assert Times(l.registered, r) == fates[r];
    }
    assert multiset(l.registered) == fates;
    SizeOfElems(l.order);
  }

  // ---------------------------------------------------------------- what the operations do to the ledger

  /** The age pass so far: these registrations expired, nothing else ended, and what is live is still there. */
  ghost predicate Aged(before: Books, after: Books, now: int, gone: seq<Reg>) {
    && after.registered == before.registered && after.confirmed == before.confirmed && after.evicted == before.evicted
    && Live(after.order, now) == Live(before.order, now)
    && after.expired == before.expired + multiset(gone)
    && (forall r | r in gone :: r.entry.expiresAt <= now)
    && Size(after.order) + |gone| == Size(before.order)
    && forall text | text in after.openers :: text in before.openers && after.openers[text] == before.openers[text]
  }

  /** What the caller gets of some registrations. */
  ghost function MetasOf(regs: seq<Reg>): (metas: seq<Meta>)
    ensures |metas| == |regs|
  {
    if regs == [] then [] else MetasOf(regs[..|regs| - 1]) + [regs[|regs| - 1].entry.meta]
  }

  lemma {:induction false} MetasConcat(a: seq<Reg>, b: seq<Reg>)
    ensures MetasOf(a + b) == MetasOf(a) + MetasOf(b)
  {
    if b == [] {
      assert a + b == a;
    } else {
      MetasConcat(a, b[..|b| - 1]);
      assert (a + b)[..|a + b| - 1] == a + b[..|b| - 1];
    }
  }

  lemma AgedOn(before: Books, mid: Books, after: Books, now: int, first: seq<Reg>, more: seq<Reg>)
    requires Aged(before, mid, now, first) && Aged(mid, after, now, more)
    ensures Aged(before, after, now, first + more) && MetasOf(first + more) == MetasOf(first) + MetasOf(more)
  {
    MetasConcat(first, more);
    assert multiset(first + more) == multiset(first) + multiset(more);
  }

  /** One expired head ends. */
  lemma HeadExpires(l: Books, text: string, now: int)
    requires Fifo(l.order, text) != [] && Fifo(l.order, text)[0].expiresAt <= now
    ensures Aged(l, Settled(l, text, Expired), now, [Oldest(l.order, text)])
    ensures MetasOf([Oldest(l.order, text)]) == [Fifo(l.order, text)[0].meta]
  {
    OldestIsHead(l.order, text);
    TakeExpiredKeepsLive(l.order, text, now);
    TakeElems(l.order, text);
  }

  /** An age pass that finds nothing past its deadline changes nothing. */
  lemma NothingExpires(before: Books, aged: Books, now: int, gone: seq<Reg>)
    requires Aged(before, aged, now, gone) && aged.order == before.order
    ensures aged == before && gone == []
  {
    forall text
      ensures text in aged.openers <==> text in before.openers
    {
      assert text in aged.openers <==> Fifo(aged.order, text) != [];
      assert text in before.openers <==> Fifo(before.order, text) != [];
    }
    assert aged.openers == before.openers;
  }

  /** The text whose list is under the map's first key. */
  ghost predicate FirstKey(l: Books, text: string) {
    && text in l.openers && Fifo(l.order, text) != []
    && forall t | t in l.openers :: l.openers[text] <= l.openers[t]
  }

  /** The head of the first key's list gives way. */
  ghost predicate Evicts(before: Books, after: Books, victim: string, evicted: seq<Reg>) {
    && FirstKey(before, victim)
    && after == Settled(before, victim, Evicted)
    && evicted == [Oldest(before.order, victim)]
  }

  /** The registration a call makes now. */
  ghost function NewReg(before: Books, text: string, meta: Meta, now: int, timeoutMs: int): Reg {
    Reg(|before.registered|, text, Pending(meta, now + timeoutMs, now))
  }

  /** What register does: expired entries go, r joins, and a tracker already full of live entries gives one up. */
  ghost predicate Registers(before: Books, aged: Books, after: Books, r: Reg, expired: seq<Reg>, evicted: seq<Reg>,
                            victim: string, maxEntries: nat) {
    && r.number == |before.registered|
    && Aged(before, aged, r.entry.sentAt, expired) && aged.order == Live(before.order, r.entry.sentAt)
    && if Size(aged.order) < maxEntries then evicted == [] && after == Registered(aged, r)
       else Size(aged.order) == maxEntries && Evicts(Registered(aged, r), after, victim, evicted)
  }

  lemma RegistersInSteps(before: Books, aged: Books, full: Books, after: Books, r: Reg, expired: seq<Reg>, evicted: seq<Reg>,
                         victim: string, maxEntries: nat)
    requires r.number == |before.registered|
    requires Aged(before, aged, r.entry.sentAt, expired) && aged.order == Live(before.order, r.entry.sentAt)
    requires Size(aged.order) <= maxEntries && full == Registered(aged, r)
    requires if Size(full.order) <= maxEntries then evicted == [] && after == full else Evicts(full, after, victim, evicted)
    ensures Registers(before, aged, after, r, expired, evicted, victim, maxEntries)
  {
  }

  lemma RegisterSizes(before: Books, aged: Books, after: Books, r: Reg, expired: seq<Reg>, evicted: seq<Reg>,
                      victim: string, maxEntries: nat)
    requires Registers(before, aged, after, r, expired, evicted, victim, maxEntries)
    ensures after.registered == before.registered + [r] && after.confirmed == before.confirmed
    ensures |after.expired| == |before.expired| + |expired| && |after.evicted| == |before.evicted| + |evicted|
  {
  }

  /** With a timeout ahead, everything pending after a registration is live. */
  lemma RegisterLive(before: Books, aged: Books, after: Books, r: Reg, expired: seq<Reg>, evicted: seq<Reg>,
                     victim: string, maxEntries: nat)
    requires Registers(before, aged, after, r, expired, evicted, victim, maxEntries) && r.entry.expiresAt > r.entry.sentAt
    ensures Live(after.order, r.entry.sentAt) == after.order
  {
    LiveTwice(before.order, r.entry.sentAt);
    if Size(aged.order) >= maxEntries {
      LiveTake(Snoc(aged.order, r), victim, r.entry.sentAt);
    }
  }

  /** What checkAndConsume does: expired entries go, and the oldest live entry of the text is confirmed. */
  ghost predicate Checks(before: Books, aged: Books, after: Books, text: string, now: int, timeoutMs: int,
                         hit: Option<(Meta, int)>, expired: seq<Reg>) {
    && Aged(before, aged, now, expired) && aged.order == Live(before.order, now)
    && Live(after.order, now) == after.order
    && match hit
       case None => Fifo(aged.order, text) == [] && after == aged
       case Some((meta, elapsedMs)) =>
         && Fifo(aged.order, text) != []
         && var oldest := Fifo(aged.order, text)[0];
            && meta == oldest.meta && elapsedMs == now - oldest.sentAt && 0 <= elapsedMs < timeoutMs
            && after == Settled(aged, text, Confirmed)
  }

  lemma CheckSizes(before: Books, aged: Books, after: Books, text: string, now: int, timeoutMs: int,
                   hit: Option<(Meta, int)>, expired: seq<Reg>)
    requires Checks(before, aged, after, text, now, timeoutMs, hit, expired)
    ensures |after.registered| == |before.registered| && |after.expired| == |before.expired| + |expired|
    ensures |after.confirmed| == |before.confirmed| + if hit.Some? then 1 else 0
    ensures hit.Some? <==> Fifo(Live(before.order, now), text) != []
    ensures Live(after.order, now) == after.order
  {
  }

  lemma ChecksMiss(before: Books, aged: Books, text: string, now: int, timeoutMs: int, expired: seq<Reg>)
    requires Aged(before, aged, now, expired) && aged.order == Live(before.order, now)
    requires Fifo(aged.order, text) == []
    ensures Checks(before, aged, aged, text, now, timeoutMs, None, expired)
  {
    LiveTwice(before.order, now);
  }

  lemma ChecksHit(before: Books, aged: Books, after: Books, text: string, now: int, timeoutMs: int,
                  entry: Pending, expired: seq<Reg>)
    requires Aged(before, aged, now, expired) && aged.order == Live(before.order, now)
    requires Ordered(aged.order, timeoutMs, now)
    requires Fifo(aged.order, text) != [] && entry == Fifo(aged.order, text)[0]
    requires after == Settled(aged, text, Confirmed)
    ensures Checks(before, aged, after, text, now, timeoutMs, Some((entry.meta, now - entry.sentAt)), expired)
  {
    LiveTwice(before.order, now);
    LiveTake(aged.order, text, now);
    HeadTimes(aged.order, text, timeoutMs, now);
  }

  // ---------------------------------------------------------------- which entry overflow takes

  lemma {:induction false} FirstIsLeast(rs: Regs, text: string, openers: map<string, nat>, bound: nat)
    requires Rising(rs, bound) && Opened(rs, openers) && Fifo(rs, text) != []
    ensures Oldest(rs, text) == First(rs) <==> First(rs).text == text
    ensures Oldest(rs, text) == First(rs) || First(rs).number < Oldest(rs, text).number
    ensures First(rs).text in openers && openers[First(rs).text] <= First(rs).number < bound
  {
    OldestIsHead(rs, text);
    if rs.before.Snoc? {
      if Fifo(rs.before, text) != [] {
        FirstIsLeast(rs.before, text, openers, rs.last.number);
      } else {
        FirstIsOther(rs.before, text, openers, rs.last.number);
      }
    }
  }

  lemma {:induction false} FirstIsOther(rs: Regs, text: string, openers: map<string, nat>, bound: nat)
    requires rs.Snoc? && Rising(rs, bound) && Opened(rs, openers) && Fifo(rs, text) == []
    ensures First(rs).text != text && First(rs).number < bound
    ensures First(rs).text in openers && openers[First(rs).text] <= First(rs).number
  {
    if rs.before.Snoc? {
      FirstIsOther(rs.before, text, openers, rs.last.number);
    }
  }

  /**
   * Overflow takes the oldest registration exactly when that is of the first
   * key's text. It spares it exactly when the oldest was made since the first
   * key was inserted and before that key's present head, so never while the
   * registration that inserted the key is pending.
   */
  lemma OverflowTakesOldestExactlyWhen(l: Books, victim: string)
    requires FirstKey(l, victim)
    ensures var head, oldest := Oldest(l.order, victim), First(l.order);
            && (head == oldest <==> oldest.text == victim)
            && (head != oldest <==> l.openers[victim] <= oldest.number < head.number)
            && (head.number == l.openers[victim] ==> head == oldest)
  {
    FirstIsLeast(l.order, victim, l.openers, |l.registered|);
  }

  /** A registration that finds nothing expired and room for itself just joins. */
  lemma JustRegisters(before: Books, aged: Books, after: Books, r: Reg, expired: seq<Reg>, evicted: seq<Reg>,
                      victim: string, maxEntries: nat)
    requires Registers(before, aged, after, r, expired, evicted, victim, maxEntries)
    requires Live(before.order, r.entry.sentAt) == before.order && Size(before.order) < maxEntries
    ensures after == Registered(before, r) && evicted == []
  {
    NothingExpires(before, aged, r.entry.sentAt, expired);
  }

  /** In a full tracker where nothing has expired, the head of the first key's list goes. */
  lemma RegistersFull(before: Books, aged: Books, after: Books, r: Reg, expired: seq<Reg>, evicted: seq<Reg>,
                      victim: string, maxEntries: nat)
    requires Registers(before, aged, after, r, expired, evicted, victim, maxEntries)
    requires Live(before.order, r.entry.sentAt) == before.order && Size(before.order) == maxEntries
    ensures Evicts(Registered(before, r), after, victim, evicted)
  {
    NothingExpires(before, aged, r.entry.sentAt, expired);
  }

  lemma JustConfirms(before: Books, aged: Books, after: Books, text: string, now: int, timeoutMs: int,
                     hit: Option<(Meta, int)>, expired: seq<Reg>)
    requires Checks(before, aged, after, text, now, timeoutMs, hit, expired)
    requires Live(before.order, now) == before.order && Fifo(before.order, text) != []
    ensures after == Settled(before, text, Confirmed)
  {
    NothingExpires(before, aged, now, expired);
  }
}
