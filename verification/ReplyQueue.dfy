/**
 * The reply queue of src/bots/reply-queue.js. Its asynchronous tick is cut at
 * its awaits: Tick runs up to the grant, DispatchSettled is the end of the
 * transmission, ResolveDispatched the code after the await.
 */
module ReplyQueue {
  import opened Airtime
  import opened ReplyStore

  /** `#sending` is true exactly when the phase is not Waiting. */
  datatype Phase = Waiting | InFlight(id: nat) | Settled(id: nat, ok: bool)

  datatype Queue = Queue(ttlMs: int, timer: bool, stopped: bool, phase: Phase)

  function FreshQueue(ttlMs: int): Queue {
    Queue(ttlMs, false, false, Waiting)
  }

  function Started(q: Queue, rows: Rows): Queue {
    if q.stopped || q.timer then q else q.(timer := HasPending(rows))
  }

  function Stopped(q: Queue): Queue {
    q.(stopped := true, timer := false)
  }

  /** An enqueue: the row inserted and the timer running, unless the queue was stopped. */
  function EnqueuedQueue(q: Queue): Queue {
    if q.stopped then q else q.(timer := true)
  }

  function EnqueuedRows(q: Queue, rows: Rows, item: Item, now: int, id: nat): Rows {
    if q.stopped then rows else Insert(rows, id, item, now, now + q.ttlMs)
  }

  /** A tick that is not blocked by a send in flight first expires what is overdue. */
  function TickRows(q: Queue, rows: Rows, now: int): Rows {
    if q.phase != Waiting then rows else ExpireOverdue(rows, now)
  }

  /** The tick reaches the coordinator and is granted the channel. */
  predicate TickDispatches(q: Queue, rows: Rows, air: Air, now: int, checkAt: int) {
    q.phase == Waiting && HasPending(ExpireOverdue(rows, now)) && Grants(air, checkAt)
  }

  function TickQueue(q: Queue, rows: Rows, air: Air, now: int, checkAt: int, pick: nat): Queue {
    if q.phase != Waiting then q
    else if !HasPending(ExpireOverdue(rows, now)) then q.(timer := false)
    else if Grants(air, checkAt) then q.(phase := InFlight(pick))
    else q
  }

  function TickAir(q: Queue, rows: Rows, air: Air, now: int, checkAt: int, noteAt: int): Air {
    if TickDispatches(q, rows, air, now, checkAt) then Reserve(air, noteAt) else air
  }

  /** The row update after a transmission; `stored` is false when the store throws. */
  function ResolvedRows(q: Queue, rows: Rows, now: int, stored: bool): Rows
    requires q.phase.Settled?
  {
    if stored && q.phase.id in rows then
      ResolveById(rows, q.phase.id, if q.phase.ok then Sent else Failed, now, now - rows[q.phase.id].enqueuedAt)
    else
      rows
  }

  function ResolvedQueue(q: Queue, rows: Rows): Queue {
    q.(phase := Waiting, timer := q.timer && HasPending(rows))
  }

  class ReplyQueue {
    const ttlMs: int
    const store: MetricsStore
    const air: AirtimeCoordinator
    var timer: bool
    var stopped: bool
    var phase: Phase

    ghost function State(): Queue
      reads this
    {
      Queue(ttlMs, timer, stopped, phase)
    }

    constructor (ttlMs: int, store: MetricsStore, air: AirtimeCoordinator)
      ensures State() == FreshQueue(ttlMs) && this.store == store && this.air == air
    {
      this.ttlMs := ttlMs;
      this.store := store;
      this.air := air;
      timer := false;
      stopped := false;
      phase := Waiting;
    }

    method Start()
      modifies this
      ensures State() == Started(old(State()), store.rows)
      ensures timer <==> old(timer) || (!old(stopped) && HasPending(store.rows))
      ensures stopped == old(stopped) && phase == old(phase)
    {
      if stopped || timer {
        return;
      }
      var pending := store.CountPendingReplyItems();
      if pending > 0 {
        timer := true;
      }
    }

    method NoteActivity(now: int)
      modifies air
      ensures air.State() == Note(old(air.State()), now)
    {
      air.NoteActivity(now);
    }

    method Enqueue(item: Item, now: int) returns (id: nat)
      modifies this, store`rows
      ensures !old(stopped) ==> IsNextRowid(old(store.rows), id)
      ensures State() == EnqueuedQueue(old(State()))
      ensures store.rows == EnqueuedRows(old(State()), old(store.rows), item, now, id)
    {
      if stopped {
        return 0;
      }
      id := store.EnqueueReplyItem(item, now, now + ttlMs);
      timer := true;
    }

    /** stop() up to its wait loop, which ends when no send is in flight. */
    method Stop()
      modifies this
      ensures State() == Stopped(old(State()))
    {
      stopped := true;
      timer := false;
    }

    method Tick(now: int, checkAt: int, noteAt: int) returns (pick: nat)
      modifies this, store`rows, air
      ensures old(phase) == Waiting && HasPending(store.rows) ==> IsOldestPending(store.rows, pick)
      ensures store.rows == TickRows(old(State()), old(store.rows), now)
      ensures State() == TickQueue(old(State()), old(store.rows), old(air.State()), now, checkAt, pick)
      ensures air.State() == TickAir(old(State()), old(store.rows), old(air.State()), now, checkAt, noteAt)
    {
      pick := 0;
      if phase != Waiting {
        return;
      }
      var expired := store.TakeExpiredReplyItems(now);
      var pending := store.CountPendingReplyItems();
      if pending == 0 {
        timer := false;
        return;
      }
      var next := store.PeekOldestPendingReplyItem();
      pick := next.value;
      phase := InFlight(pick);
      var granted := air.TryRunWhenQuiet(checkAt, noteAt);
      if !granted {
        phase := Waiting;
      }
    }

    /** The dispatched send settles; the coordinator's own `finally` runs first. */
    method DispatchSettled(ok: bool)
      requires phase.InFlight?
      modifies this, air
      ensures State() == old(State()).(phase := Settled(old(phase).id, ok))
      ensures air.State() == Release(old(air.State()))
    {
      air.Settle();
      phase := Settled(phase.id, ok);
    }

    /** The code after the await, including the timer check of its `finally`. */
    method ResolveDispatched(now: int, stored: bool)
      requires phase.Settled?
      modifies this, store`rows
      ensures store.rows == ResolvedRows(old(State()), old(store.rows), now, stored)
      ensures State() == ResolvedQueue(old(State()), store.rows)
    {
      var id := phase.id;
      if stored && id in store.rows {
        store.ResolveReplyItem(id, if phase.ok then Sent else Failed, now, now - store.rows[id].enqueuedAt);
      }
      phase := Waiting;
      var pending := store.CountPendingReplyItems();
      if pending == 0 && timer {
        timer := false;
      }
    }
  }
}
