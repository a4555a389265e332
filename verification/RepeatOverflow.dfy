/** Capacity eviction need not take the oldest registration: calls of a tracker that show it. */
module RepeatOverflow {
  import opened RepeatLedger
  import opened RepeatChecks

  /** A registration made as number n at time n, with the deadline a timeout of 1000 gives. */
  ghost function RegAt(n: nat, text: string, hash: string): Reg {
    Reg(n, text, Pending(Meta("s", "!t", hash), n + 1000, n))
  }

  /** A was the first of the texts to be opened. */
  ghost predicate AFirst(openers: map<string, nat>) {
    "A" in openers && openers["A"] == 0 && forall text | text in openers && text != "A" :: openers[text] > 0
  }

  /** What is pending after registering A, B and A. */
  ghost function ThreeSent(): Regs {
    Snoc(Snoc(Snoc(Nil, RegAt(0, "A", "first")), RegAt(1, "B", "second")), RegAt(2, "A", "third"))
  }

  lemma HearingA(l: Books)
    requires l.order == ThreeSent() && AFirst(l.openers)
    ensures Live(l.order, 3) == l.order && Fifo(l.order, "A") != []
    ensures Settled(l, "A", Confirmed).order == Snoc(Snoc(Nil, RegAt(1, "B", "second")), RegAt(2, "A", "third"))
    ensures AFirst(Settled(l, "A", Confirmed).openers)
  {
    var ab := l.order.before;
    assert Fifo(ab.before, "A") == Fifo(ab, "A") == [RegAt(0, "A", "first").entry];
    assert Take(ab, "A") == Snoc(Nil, RegAt(1, "B", "second"));
    assert |Fifo(l.order, "A")| == 2;
  }

  /** The head of A's list is the one A pending. */
  lemma TheOneA(b: Reg, a: Reg, c: Reg, d: Reg)
    requires a.text == "A" && b.text != "A" && c.text != "A" && d.text != "A"
    ensures var rs := Snoc(Snoc(Snoc(Snoc(Nil, b), a), c), d);
            Fifo(rs, "A") != [] && Oldest(rs, "A") == a && Take(rs, "A") == Snoc(Snoc(Snoc(Nil, b), c), d)
  {
    var ba := Snoc(Snoc(Nil, b), a);
    var bac := Snoc(ba, c);
    assert Fifo(ba.before, "A") == [] && Fifo(ba, "A") == [a.entry];
    assert Oldest(ba, "A") == a && Take(ba, "A") == ba.before;
    assert Fifo(bac, "A") == Fifo(ba, "A");
    assert Oldest(bac, "A") == a && Take(bac, "A") == Snoc(ba.before, c);
  }

  /** With A first in the map, its one pending registration gives way. */
  lemma TheOneAGoes(full: Books, after: Books, b: Reg, a: Reg, c: Reg, d: Reg, victim: string, evicted: seq<Reg>)
    requires Evicts(full, after, victim, evicted) && AFirst(full.openers)
    requires full.order == Snoc(Snoc(Snoc(Snoc(Nil, b), a), c), d)
    requires a.text == "A" && b.text != "A" && c.text != "A" && d.text != "A"
    ensures MetasOf(evicted) == [a.entry.meta] && after.order == Snoc(Snoc(Snoc(Nil, b), c), d)
  {
    assert full.openers[victim] <= full.openers["A"];
    TheOneA(b, a, c, d);
    assert evicted == [a];
  }

  /** Before a registration A is first, or nothing is pending and A is registered. */
  ghost predicate KeepsAFirst(before: Books, r: Reg) {
    r.number == |before.registered| && ((AFirst(before.openers) && r.number > 0) || (before == EMPTY && r.text == "A"))
  }

  lemma JoinsBehindA(before: Books, r: Reg)
    requires KeepsAFirst(before, r)
    ensures AFirst(Registered(before, r).openers) && Registered(before, r).order == Snoc(before.order, r)
    ensures |Registered(before, r).registered| == r.number + 1
  {
  }

  lemma Joined(before: Books, aged: Books, after: Books, r: Reg,
               expired: seq<Reg>, evicted: seq<Reg>, victim: string, maxEntries: nat)
    requires Registers(before, aged, after, r, expired, evicted, victim, maxEntries)
    requires Live(before.order, r.entry.sentAt) == before.order && Size(before.order) < maxEntries
    requires KeepsAFirst(before, r)
    ensures after.order == Snoc(before.order, r) && AFirst(after.openers) && |after.registered| == r.number + 1
  {
    JustRegisters(before, aged, after, r, expired, evicted, victim, maxEntries);
    JoinsBehindA(before, r);
  }

  /** The next registration, number n at time n, of a tracker with room for it. */
  method Joins(tracker: RepeatCheckTracker, text: string, hash: string, n: nat)
    requires tracker.Valid() && tracker.timeoutMs == 1000 && tracker.state.clock <= n == |tracker.Ledger().registered|
    requires Live(tracker.Ledger().order, n) == tracker.Ledger().order && Size(tracker.Ledger().order) < tracker.maxEntries
    requires (AFirst(tracker.Ledger().openers) && n > 0) || (tracker.Ledger() == EMPTY && text == "A")
    modifies tracker
    ensures tracker.Valid() && tracker.state.clock == n && |tracker.Ledger().registered| == n + 1
    ensures tracker.Ledger().order == Snoc(old(tracker.Ledger()).order, RegAt(n, text, hash))
    ensures AFirst(tracker.Ledger().openers)
  {
    ghost var before := tracker.Ledger();
    var expiredMetas, evictedMetas, aged, expired, evicted, victim := tracker.Register(text, Meta("s", "!t", hash), n);
    Joined(before, aged, tracker.Ledger(), RegAt(n, text, hash), expired, evicted, victim, tracker.maxEntries);
  }

  method HearA(tracker: RepeatCheckTracker)
    requires tracker.Valid() && tracker.timeoutMs == 1000 && tracker.state.clock <= 3 == |tracker.Ledger().registered|
    requires tracker.Ledger().order == ThreeSent() && AFirst(tracker.Ledger().openers)
    modifies tracker
    ensures tracker.Valid() && tracker.state.clock == 3 == |tracker.Ledger().registered|
    ensures tracker.Ledger().order == Snoc(Snoc(Nil, RegAt(1, "B", "second")), RegAt(2, "A", "third"))
    ensures AFirst(tracker.Ledger().openers)
  {
    ghost var before := tracker.Ledger();
    HearingA(before);
    var hit, metas, aged, expired := tracker.CheckAndConsume("A", 3);
    JustConfirms(before, aged, tracker.Ledger(), "A", 3, 1000, hit, expired);
  }

  lemma ThreeLive(b: Reg, a: Reg, c: Reg, now: int)
    requires b.entry.expiresAt > now && a.entry.expiresAt > now && c.entry.expiresAt > now
    ensures var rs := Snoc(Snoc(Snoc(Nil, b), a), c); Live(rs, now) == rs && Size(rs) == 3
  {
    var ba := Snoc(Snoc(Nil, b), a);
    assert Live(ba.before, now) == ba.before && Size(ba.before) == 1;
    assert Live(ba, now) == ba && Size(ba) == 2;
  }

  lemma DJoined(before: Books, aged: Books, after: Books, b: Reg, a: Reg, c: Reg, d: Reg,
                expired: seq<Reg>, evicted: seq<Reg>, victim: string)
    requires Registers(before, aged, after, d, expired, evicted, victim, 3)
    requires before.order == Snoc(Snoc(Snoc(Nil, b), a), c) && AFirst(before.openers) && d.number > 0
    requires a.text == "A" && b.text != "A" && c.text != "A" && d.text != "A"
    requires b.entry.expiresAt > d.entry.sentAt && a.entry.expiresAt > d.entry.sentAt && c.entry.expiresAt > d.entry.sentAt
    ensures MetasOf(evicted) == [a.entry.meta] && after.order == Snoc(Snoc(Snoc(Nil, b), c), d)
  {
    ThreeLive(b, a, c, d.entry.sentAt);
    RegistersFull(before, aged, after, d, expired, evicted, victim, 3);
    JoinsBehindA(before, d);
    TheOneAGoes(Registered(before, d), after, b, a, c, d, victim, evicted);
  }

  method SendD(tracker: RepeatCheckTracker) returns (evicted: seq<Meta>)
    requires tracker.Valid() && tracker.timeoutMs == 1000 && tracker.maxEntries == 3
    requires tracker.state.clock <= 4 == |tracker.Ledger().registered|
    requires tracker.Ledger().order
             == Snoc(Snoc(Snoc(Nil, RegAt(1, "B", "second")), RegAt(2, "A", "third")), RegAt(3, "C", "fourth"))
    requires AFirst(tracker.Ledger().openers)
    modifies tracker
    ensures evicted == [Meta("s", "!t", "third")] && tracker.Ledger().order
               == Snoc(Snoc(Snoc(Nil, RegAt(1, "B", "second")), RegAt(3, "C", "fourth")), RegAt(4, "D", "fifth"))
  {
    ghost var before := tracker.Ledger();
    var expiredMetas, metas, aged, expired, regs, victim := tracker.Register("D", Meta("s", "!t", "fifth"), 4);
    DJoined(before, aged, tracker.Ledger(), RegAt(1, "B", "second"), RegAt(2, "A", "third"), RegAt(3, "C", "fourth"),
            RegAt(4, "D", "fifth"), expired, regs, victim);
    evicted := metas;
  }

  /**
   * With room for three, register A, B and A, hear A, register C and D: the
   * second A gives way although B is older and still live.
   */
  method OverflowSparesTheOldest() returns (evicted: seq<Meta>, ghost pending: Regs)
    ensures evicted == [Meta("s", "!t", "third")]
    ensures pending == Snoc(Snoc(Snoc(Nil, RegAt(1, "B", "second")), RegAt(3, "C", "fourth")), RegAt(4, "D", "fifth"))
  {
    var tracker := new RepeatCheckTracker(1000, 3, 0);
    Joins(tracker, "A", "first", 0);
    Joins(tracker, "B", "second", 1);
    Joins(tracker, "A", "third", 2);
    HearA(tracker);
    Joins(tracker, "C", "fourth", 3);
    evicted := SendD(tracker);
    pending := tracker.Ledger().order;
  }
}
