/**
 * What happens to a queued reply over every run: its lifecycle, how often and in which order it is dispatched, and
 * stopping.
 */
module ReplySafety {
  import opened Prelude
  import opened ReplyStore
  import opened Transmission
  import Q = ReplyQueue
  import F = FloodAdvert

  // ---------------------------------------------------------------- invariants

  /**
   * The row whose send is in flight or settled but not resolved: no step touches it, so the unguarded UPDATE finds it
   * pending.
   */
  ghost predicate BusyRowPending(w: World) {
    w.process.Some? && w.process.value.queue.phase != Q.Waiting ==> IsPending(w.rows, w.process.value.queue.phase.id)
  }

  ghost predicate Busy(w: World, id: nat) {
    w.process.Some? && w.process.value.queue.phase != Q.Waiting && w.process.value.queue.phase.id == id
  }

  ghost predicate RowsInv(w: World) {
    && Tracked(w)
    && BusyRowPending(w)
    && (forall id | id in w.rows :: w.rows[id].enqueuedAt <= w.clock)
    && (forall id | id in w.rows && w.rows[id].status == Pending ::
          w.rows[id].expiresAt == w.rows[id].enqueuedAt + w.history.replies[w.history.ticketOf[id]].ttlMs)
  }

  /** Dispatches are paid for: one is free, every further one needs a failed resolve or a crash in flight before it. */
  ghost predicate CountInv(w: World)
    requires Tracked(w)
  {
    && (forall t | 0 <= t < |w.history.replies| ::
          w.history.replies[t].dispatches <= 1 + w.history.replies[t].excuses)
    && (forall id | id in w.rows && w.rows[id].status == Pending && !Busy(w, id) ::
          w.history.replies[w.history.ticketOf[id]].dispatches <= w.history.replies[w.history.ticketOf[id]].excuses)
  }

  ghost predicate CountTracked(w: World) {
    Tracked(w) && CountInv(w)
  }

  /** Each dispatch was of a known reply and before its deadline. */
  ghost predicate LogTimes(ds: seq<Dispatch>, replies: seq<Reply>) {
    forall k | 0 <= k < |ds| ::
      && ds[k].ticket < |replies|
      && ds[k].enqueuedAt <= ds[k].tickAt < ds[k].expiresAt
      && ds[k].expiresAt == ds[k].enqueuedAt + replies[ds[k].ticket].ttlMs
  }

  /** Dispatches are in order of enqueue, and nothing pending is older than one. */
  ghost predicate LogOrder(ds: seq<Dispatch>, rows: Rows, clock: int) {
    && (forall k, l | 0 <= k < l < |ds| :: ds[k].enqueuedAt <= ds[l].enqueuedAt)
    && (forall k, id | 0 <= k < |ds| && id in rows && rows[id].status == Pending ::
          ds[k].enqueuedAt <= rows[id].enqueuedAt)
    && (forall k | 0 <= k < |ds| :: ds[k].enqueuedAt <= clock)
  }

  ghost predicate LogInv(w: World) {
    LogTimes(w.history.dispatches, w.history.replies) && LogOrder(w.history.dispatches, w.rows, w.clock)
  }

  /** A queue polls exactly while it may and has something to poll for. */
  ghost predicate TimerInv(w: World) {
    w.process.Some? ==>
      var q := w.process.value.queue;
      q.timer <==> !q.stopped && HasPending(w.rows)
  }

  // ---------------------------------------------------------------- preservation

  ghost predicate CoreInv(w: World) {
    RowsInv(w) && CountInv(w) && LogInv(w)
  }

  /** The events that can touch a row, a ticket or the dispatch log. */
  predicate TouchesReplies(e: Event) {
    e.Enqueue? || e.ReplyTick? || e.ReplyResolves? || e.PruneOld? || e.Crash?
  }

  ghost predicate SameReplies(w: World, w': World) {
    && w.clock <= w'.clock
    && w'.rows == w.rows && w'.history.replies == w.history.replies
    && w'.history.ticketOf == w.history.ticketOf && w'.history.dispatches == w.history.dispatches
    && (forall id :: Busy(w', id) <==> Busy(w, id))
  }

  lemma OtherStepsLeaveReplies(w: World, e: Event)
    requires Enabled(w, e) && !TouchesReplies(e)
    ensures SameReplies(w, Apply(w, e))
    ensures BusyRowPending(w) ==> BusyRowPending(Apply(w, e))
  {
  }

  /** A step that leaves rows, tickets and the row in flight alone keeps everything. */
  lemma FrameKeepsCore(w: World, w': World)
    requires CoreInv(w) && SameReplies(w, w') && BusyRowPending(w')
    ensures CoreInv(w')
  {
  }

  /** The new row gets a ticket of its own, and every other row keeps its own. */
  lemma EnqueueTracks(w: World, p: Process, item: Item, now: int, id: nat)
    requires Tracked(w) && !p.queue.stopped && id !in w.rows
    ensures Tracked(EnqueueStep(w, p, item, now, id))
  {
    var h, h' := w.history, EnqueueStep(w, p, item, now, id).history;
    assert forall t | 0 <= t < |h.replies| :: h'.replies[t] == h.replies[t];
    assert forall k | k in w.rows :: h'.ticketOf[k] == h.ticketOf[k];
  }

  lemma EnqueueKeepsRows(w: World, p: Process, item: Item, now: int, id: nat)
    requires RowsInv(w) && w.process == Some(p) && !p.queue.stopped
    requires w.clock <= now && IsNextRowid(w.rows, id)
    ensures RowsInv(EnqueueStep(w, p, item, now, id))
  {
    var w' := EnqueueStep(w, p, item, now, id);
    EnqueueTracks(w, p, item, now, id);
    forall k | k in w'.rows
      ensures w'.rows[k].enqueuedAt <= now
      ensures w'.rows[k].status == Pending ==>
                w'.rows[k].expiresAt == w'.rows[k].enqueuedAt + w'.history.replies[w'.history.ticketOf[k]].ttlMs
    {
      if k != id {
        assert w'.rows[k] == w.rows[k] && w'.history.ticketOf[k] == w.history.ticketOf[k];
      }
    }
  }

  lemma EnqueueKeepsCount(w: World, p: Process, item: Item, now: int, id: nat)
    requires CountTracked(w) && w.process == Some(p) && !p.queue.stopped && id !in w.rows
    requires Tracked(EnqueueStep(w, p, item, now, id))
    requires BusyRowPending(w)
    ensures CountTracked(EnqueueStep(w, p, item, now, id))
  {
    var w' := EnqueueStep(w, p, item, now, id);
    var h, h' := w.history, w'.history;
    assert forall t | 0 <= t < |h.replies| :: h'.replies[t] == h.replies[t];
    forall k | k in w'.rows && w'.rows[k].status == Pending && !Busy(w', k)
      ensures h'.replies[h'.ticketOf[k]].dispatches <= h'.replies[h'.ticketOf[k]].excuses
    {
      if k != id {
        assert w'.rows[k] == w.rows[k] && h'.ticketOf[k] == h.ticketOf[k] && !Busy(w, k);
      }
    }
  }

  lemma EnqueueKeepsCore(w: World, p: Process, item: Item, now: int, id: nat)
    requires CoreInv(w) && w.process == Some(p) && !p.queue.stopped
    requires w.clock <= now && IsNextRowid(w.rows, id)
    ensures CoreInv(EnqueueStep(w, p, item, now, id))
  {
    EnqueueKeepsRows(w, p, item, now, id);
    EnqueueKeepsCount(w, p, item, now, id);
    EnqueueKeepsLog(w, EnqueueStep(w, p, item, now, id), id);
  }

  lemma EnqueueKeepsLog(w: World, w': World, id: nat)
    requires RowsInv(w) && LogInv(w) && RowsInv(w') && w.clock <= w'.clock
    requires id !in w.rows && id in w'.rows && w'.rows[id].enqueuedAt == w'.clock
    requires w'.rows == w.rows[id := w'.rows[id]]
    requires w.history.replies <= w'.history.replies && w'.history.dispatches == w.history.dispatches
    ensures LogInv(w')
  {
    assert forall t | 0 <= t < |w.history.replies| :: w'.history.replies[t] == w.history.replies[t];
  }

  /** The world after overdue rows expired. */
  ghost function Expiring(w: World, now: int): World {
    w.(rows := ExpireOverdue(w.rows, now), clock := now)
  }

  lemma ExpiryLeavesPending(rows: Rows, now: int)
    ensures forall id | IsPending(ExpireOverdue(rows, now), id) ::
              rows[id] == ExpireOverdue(rows, now)[id] && now < rows[id].expiresAt
  {
  }

  lemma ExpiryKeepsRows(w: World, now: int)
    requires RowsInv(w) && w.clock <= now && w.process.Some? && w.process.value.queue.phase == Q.Waiting
    ensures RowsInv(Expiring(w, now))
  {
    ExpiryLeavesPending(w.rows, now);
    assert Tracked(Expiring(w, now));
  }

  lemma ExpiryKeepsCount(w: World, now: int)
    requires CountTracked(w) && w.process.Some? && w.process.value.queue.phase == Q.Waiting
    ensures CountTracked(Expiring(w, now))
  {
    ExpiryLeavesPending(w.rows, now);
    assert Tracked(Expiring(w, now));
  }

  lemma ExpiryKeepsLog(w: World, now: int)
    requires LogInv(w) && w.clock <= now
    ensures LogInv(Expiring(w, now))
  {
    ExpiryLeavesPending(w.rows, now);
  }

  /** Expiring is over before a row is picked, and never happens while one is in flight. */
  lemma ExpiryKeepsCore(w: World, now: int)
    requires CoreInv(w) && w.clock <= now && w.process.Some? && w.process.value.queue.phase == Q.Waiting
    ensures CoreInv(Expiring(w, now))
  {
    ExpiryKeepsRows(w, now);
    ExpiryKeepsCount(w, now);
    ExpiryKeepsLog(w, now);
  }

  /** The picked row is dispatched and logged; what else the step does touches no reply. */
  ghost predicate Dispatches(w: World, w': World, pick: nat, tickAt: int) {
    && w.process.Some? && w.process.value.queue.phase == Q.Waiting
    && IsOldestPending(w.rows, pick) && w.clock <= tickAt < w.rows[pick].expiresAt
    && w'.rows == w.rows && w'.clock >= tickAt
    && w'.process.Some? && w'.process.value.queue.phase == Q.InFlight(pick)
    && w'.history.replies == LogDispatch(w.history, w.rows, pick, tickAt).replies
    && w'.history.dispatches == LogDispatch(w.history, w.rows, pick, tickAt).dispatches
    && w'.history.ticketOf == w.history.ticketOf
  }

  lemma DispatchKeepsRows(w: World, w': World, pick: nat, tickAt: int)
    requires RowsInv(w) && Dispatches(w, w', pick, tickAt)
    ensures RowsInv(w')
  {
    var ticket := w.history.ticketOf[pick];
    assert forall t | 0 <= t < |w.history.replies| && t != ticket :: w'.history.replies[t] == w.history.replies[t];
    assert Tracked(w');
  }

  lemma DispatchKeepsCount(w: World, w': World, pick: nat, tickAt: int)
    requires CountTracked(w) && Dispatches(w, w', pick, tickAt) && Tracked(w')
    ensures CountTracked(w')
  {
    var ticket := w.history.ticketOf[pick];
    assert forall t | 0 <= t < |w.history.replies| && t != ticket :: w'.history.replies[t] == w.history.replies[t];
    assert forall id | id in w.rows && id != pick :: w.history.ticketOf[id] != ticket;
    assert !Busy(w, pick);
  }

  lemma LogOneMore(ds: seq<Dispatch>, d: Dispatch, rows: Rows, pick: nat, clock: int, later: int)
    requires LogOrder(ds, rows, clock) && IsOldestPending(rows, pick)
    requires d.enqueuedAt == rows[pick].enqueuedAt <= later && clock <= later
    ensures LogOrder(ds + [d], rows, later)
  {
    assert forall k | 0 <= k < |ds| :: (ds + [d])[k] == ds[k] && ds[k].enqueuedAt <= d.enqueuedAt;
  }

  lemma DispatchKeepsLog(w: World, w': World, pick: nat, tickAt: int)
    requires RowsInv(w) && LogInv(w) && Dispatches(w, w', pick, tickAt)
    ensures LogInv(w')
  {
    var ds := w.history.dispatches;
    var d := Dispatch(w.history.ticketOf[pick], w.rows[pick].enqueuedAt, w.rows[pick].expiresAt, tickAt);
    LogOneMore(ds, d, w.rows, pick, w.clock, w'.clock);
    assert LogTimes(ds + [d], w'.history.replies) by {
      assert forall t | 0 <= t < |w.history.replies| :: w'.history.replies[t].ttlMs == w.history.replies[t].ttlMs;
    }
  }

  lemma DispatchKeepsCore(w: World, w': World, pick: nat, tickAt: int)
    requires CoreInv(w) && Dispatches(w, w', pick, tickAt)
    ensures CoreInv(w')
  {
    DispatchKeepsRows(w, w', pick, tickAt);
    DispatchKeepsCount(w, w', pick, tickAt);
    DispatchKeepsLog(w, w', pick, tickAt);
  }

  lemma QuietTickKeepsCore(w: World, p: Process, now: int, pick: nat, checkAt: int, noteAt: int)
    requires CoreInv(w) && w.process == Some(p) && w.clock <= now <= noteAt
    requires !Q.TickDispatches(p.queue, w.rows, p.air, now, checkAt)
    ensures CoreInv(ReplyTickStep(w, p, now, pick, checkAt, noteAt))
  {
    var w' := ReplyTickStep(w, p, now, pick, checkAt, noteAt);
    if p.queue.phase == Q.Waiting {
      ExpiryKeepsCore(w, now);
      FrameKeepsCore(Expiring(w, now), w');
    } else {
      FrameKeepsCore(w, w');
    }
  }

  lemma GrantedTickDispatches(w: World, p: Process, now: int, pick: nat, checkAt: int, noteAt: int)
    requires Tracked(w) && w.process == Some(p) && w.clock <= now <= noteAt
    requires Q.TickDispatches(p.queue, w.rows, p.air, now, checkAt) && IsOldestPending(ExpireOverdue(w.rows, now), pick)
    ensures Dispatches(Expiring(w, now), ReplyTickStep(w, p, now, pick, checkAt, noteAt), pick, now)
  {
    ExpiryLeavesPending(w.rows, now);
  }

  lemma TickEventKeepsCore(w: World, e: Event)
    requires Enabled(w, e) && CoreInv(w) && e.ReplyTick?
    ensures CoreInv(Apply(w, e))
  {
    var p := w.process.value;
    if Q.TickDispatches(p.queue, w.rows, p.air, e.now, e.checkAt) {
      GrantedTickDispatches(w, p, e.now, e.pick, e.checkAt, e.noteAt);
      ExpiryKeepsCore(w, e.now);
      DispatchKeepsCore(Expiring(w, e.now), Apply(w, e), e.pick, e.now);
    } else {
      QuietTickKeepsCore(w, p, e.now, e.pick, e.checkAt, e.noteAt);
    }
  }

  /** One more excuse for a busy row, which is busy no longer. */
  ghost predicate Excuses(w: World, w': World, id: nat) {
    && Busy(w, id) && w.clock <= w'.clock
    && w'.rows == w.rows && w'.history == LogExcuse(w.history, id)
    && (w'.process.None? || w'.process.value.queue.phase == Q.Waiting)
  }

  lemma ExcuseKeepsRows(w: World, w': World, id: nat)
    requires RowsInv(w) && Excuses(w, w', id)
    ensures RowsInv(w')
  {
    var ticket := w.history.ticketOf[id];
    assert forall t | 0 <= t < |w.history.replies| && t != ticket :: w'.history.replies[t] == w.history.replies[t];
    assert Tracked(w');
  }

  lemma ExcuseKeepsCount(w: World, w': World, id: nat)
    requires CountTracked(w) && Excuses(w, w', id) && Tracked(w')
    requires id in w.rows
    ensures CountTracked(w')
  {
    var ticket := w.history.ticketOf[id];
    assert forall t | 0 <= t < |w.history.replies| && t != ticket :: w'.history.replies[t] == w.history.replies[t];
    assert forall k | k in w.rows && k != id :: w.history.ticketOf[k] != ticket && !Busy(w, k);
  }

  lemma ExcuseKeepsLog(w: World, w': World, id: nat)
    requires LogInv(w) && Excuses(w, w', id)
    ensures LogInv(w')
  {
    assert forall t | 0 <= t < |w.history.replies| :: w'.history.replies[t].ttlMs == w.history.replies[t].ttlMs;
  }

  lemma ExcuseKeepsCore(w: World, w': World, id: nat)
    requires CoreInv(w) && Excuses(w, w', id)
    ensures CoreInv(w')
  {
    ExcuseKeepsRows(w, w', id);
    ExcuseKeepsCount(w, w', id);
    ExcuseKeepsLog(w, w', id);
  }

  /** The row that was in flight leaves the pending ones; nothing else of the tables changes. */
  ghost predicate Resolves(w: World, w': World, id: nat) {
    && Busy(w, id) && id in w.rows && w.clock <= w'.clock && w'.history == w.history
    && w'.rows.Keys == w.rows.Keys && w'.rows[id].enqueuedAt == w.rows[id].enqueuedAt && w'.rows[id].status != Pending
    && (forall k | k in w.rows && k != id :: w'.rows[k] == w.rows[k])
    && w'.process.Some? && w'.process.value.queue.phase == Q.Waiting
  }

  lemma ResolveKeepsRows(w: World, w': World, id: nat)
    requires RowsInv(w) && Resolves(w, w', id)
    ensures RowsInv(w')
  {
    assert Tracked(w');
  }

  lemma ResolveKeepsCount(w: World, w': World, id: nat)
    requires CountTracked(w) && Resolves(w, w', id)
    ensures CountTracked(w')
  {
    assert Tracked(w');
    assert forall k | k in w.rows && k != id :: !Busy(w, k);
  }

  lemma ResolveKeepsLog(w: World, w': World, id: nat)
    requires LogInv(w) && Resolves(w, w', id)
    ensures LogInv(w')
  {
    assert forall k | k in w'.rows && w'.rows[k].status == Pending :: w'.rows[k] == w.rows[k];
  }

  lemma ResolveKeepsCore(w: World, w': World, id: nat)
    requires CoreInv(w) && Resolves(w, w', id)
    ensures CoreInv(w')
  {
    ResolveKeepsRows(w, w', id);
    ResolveKeepsCount(w, w', id);
    ResolveKeepsLog(w, w', id);
  }

  lemma ResolveEventKeepsCore(w: World, e: Event)
    requires Enabled(w, e) && CoreInv(w) && e.ReplyResolves?
    ensures CoreInv(Apply(w, e))
  {
    var id := w.process.value.queue.phase.id;
    if e.stored {
      ResolveKeepsCore(w, Apply(w, e), id);
    } else {
      ExcuseKeepsCore(w, Apply(w, e), id);
    }
  }

  lemma PruneShape(w: World, cutoff: int)
    requires Tracked(w)
    ensures var w' := PruneStep(w, cutoff);
            && |w'.history.replies| == |w.history.replies|
            && (forall id | id in w'.rows :: id in w.rows && w'.rows[id] == w.rows[id]
                                             && w'.history.ticketOf[id] == w.history.ticketOf[id])
            && (forall t | 0 <= t < |w.history.replies| ::
                  w'.history.replies[t] == w.history.replies[t].(pruned := w'.history.replies[t].pruned))
            && Tracked(w')
  {
    var w' := PruneStep(w, cutoff);
    forall id | id in w'.rows
      ensures w'.history.replies[w.history.ticketOf[id]] == w.history.replies[w.history.ticketOf[id]]
    {
      assert w.history.replies[w.history.ticketOf[id]].id == id;
    }
  }

  lemma PruneKeepsRows(w: World, cutoff: int)
    requires RowsInv(w)
    ensures RowsInv(PruneStep(w, cutoff))
  {
    PruneShape(w, cutoff);
  }

  lemma PruneKeepsCount(w: World, cutoff: int)
    requires RowsInv(w) && CountInv(w)
    ensures Tracked(PruneStep(w, cutoff)) && CountInv(PruneStep(w, cutoff))
  {
    PruneShape(w, cutoff);
  }

  lemma PruneKeepsLog(w: World, cutoff: int)
    requires RowsInv(w) && LogInv(w)
    ensures LogInv(PruneStep(w, cutoff))
  {
    PruneShape(w, cutoff);
  }

  lemma PruneKeepsCore(w: World, cutoff: int)
    requires CoreInv(w)
    ensures CoreInv(PruneStep(w, cutoff))
  {
    PruneKeepsRows(w, cutoff);
    PruneKeepsCount(w, cutoff);
    PruneKeepsLog(w, cutoff);
  }

  lemma EnqueueEventKeepsCore(w: World, e: Event)
    requires Enabled(w, e) && CoreInv(w) && e.Enqueue?
    ensures CoreInv(Apply(w, e))
  {
    var p := w.process.value;
    if p.queue.stopped {
      FrameKeepsCore(w, Apply(w, e));
    } else {
      EnqueueKeepsCore(w, p, e.item, e.now, e.id);
    }
  }

  lemma PruneEventKeepsCore(w: World, e: Event)
    requires Enabled(w, e) && CoreInv(w) && e.PruneOld?
    ensures CoreInv(Apply(w, e))
  {
    PruneKeepsCore(w, e.cutoff);
  }

  lemma CrashEventKeepsCore(w: World, e: Event)
    requires Enabled(w, e) && CoreInv(w) && e.Crash?
    ensures CoreInv(Apply(w, e))
  {
    if w.process.value.queue.phase == Q.Waiting {
      FrameKeepsCore(w, Apply(w, e));
    } else {
      ExcuseKeepsCore(w, Apply(w, e), w.process.value.queue.phase.id);
    }
  }

  lemma OtherEventKeepsCore(w: World, e: Event)
    requires Enabled(w, e) && CoreInv(w) && !TouchesReplies(e)
    ensures CoreInv(Apply(w, e))
  {
    OtherStepsLeaveReplies(w, e);
    FrameKeepsCore(w, Apply(w, e));
  }

  lemma StepKeepsCore(w: World, e: Event)
    requires Enabled(w, e) && CoreInv(w)
    ensures CoreInv(Apply(w, e))
  {
    if e.Enqueue? {
      EnqueueEventKeepsCore(w, e);
    } else if e.ReplyTick? {
      TickEventKeepsCore(w, e);
    } else if e.ReplyResolves? {
      ResolveEventKeepsCore(w, e);
    } else if e.PruneOld? {
      PruneEventKeepsCore(w, e);
    } else if e.Crash? {
      CrashEventKeepsCore(w, e);
    } else {
      OtherEventKeepsCore(w, e);
    }
  }

  lemma PruneKeepsTimer(w: World, e: Event)
    requires Enabled(w, e) && TimerInv(w) && e.PruneOld?
    ensures TimerInv(Apply(w, e))
  {
    var w' := Apply(w, e);
    assert forall id | id in w'.rows :: id in w.rows && w.rows[id] == w'.rows[id];
    if id :| id in w.rows && w.rows[id].status == Pending {
      assert id in w'.rows && w'.rows[id].status == Pending;
    }
  }

  lemma QueueKeepsTimer(w: World, e: Event)
    requires Enabled(w, e) && TimerInv(w) && (e.Enqueue? || e.ReplyTick? || e.ReplyResolves?)
    ensures TimerInv(Apply(w, e))
  {
    if e.Enqueue? && !w.process.value.queue.stopped {
      assert IsPending(Apply(w, e).rows, e.id);
    }
  }

  lemma OtherKeepsTimer(w: World, e: Event)
    requires Enabled(w, e) && TimerInv(w) && (e.Crash? || !TouchesReplies(e))
    ensures TimerInv(Apply(w, e))
  {
    assert Apply(w, e).rows == w.rows;
  }

  lemma StepKeepsTimer(w: World, e: Event)
    requires Enabled(w, e) && TimerInv(w)
    ensures TimerInv(Apply(w, e))
  {
    if e.PruneOld? {
      PruneKeepsTimer(w, e);
    } else if e.Enqueue? || e.ReplyTick? || e.ReplyResolves? {
      QueueKeepsTimer(w, e);
    } else {
      OtherKeepsTimer(w, e);
    }
  }

  lemma {:induction false} RunKeepsReplies(ws: seq<World>, es: seq<Event>, i: nat)
    requires IsRun(ws, es) && i < |ws|
    ensures CoreInv(ws[i]) && TimerInv(ws[i])
  {
    if i > 0 {
      RunKeepsReplies(ws, es, i - 1);
      StepKeepsCore(ws[i - 1], es[i - 1]);
      StepKeepsTimer(ws[i - 1], es[i - 1]);
    }
  }

  // ---------------------------------------------------------------- one reply over a run

  /** A row that ended this way at this time. */
  function EndedAs(row: Row, status: Status, at: int): Row {
    row.(status := status, resolvedAt := Some(at), queuedMs := Some(at - row.enqueuedAt))
  }

  predicate InPhase(w: World, phase: Q.Phase) {
    w.process.Some? && w.process.value.queue.phase == phase
  }

  /**
   * What one event does to the row with this id: a stored resolve ends a pending row by how its send settled, a tick of a
   * free queue ends one past its deadline, a prune deletes one that ended before the cutoff, and nothing else touches it.
   */
  function RowAfter(w: World, e: Event, id: nat, row: Row): Option<Row> {
    if row.status != Pending then
      if e.PruneOld? && row.resolvedAt.Some? && row.resolvedAt.value < e.cutoff then None else Some(row)
    else if e.ReplyResolves? && e.stored && InPhase(w, Q.Settled(id, true)) then Some(EndedAs(row, Sent, e.now))
    else if e.ReplyResolves? && e.stored && InPhase(w, Q.Settled(id, false)) then Some(EndedAs(row, Failed, e.now))
    else if e.ReplyTick? && InPhase(w, Q.Waiting) && row.expiresAt <= e.now then Some(EndedAs(row, Expired, e.now))
    else Some(row)
  }

  /** Event e does that to reply t, if it was made before. */
  ghost predicate TreatsReply(w: World, e: Event, t: nat) {
    t < |w.history.replies| ==>
      && t < |Apply(w, e).history.replies|
      && Apply(w, e).history.replies[t].id == w.history.replies[t].id
      && RowOf(Apply(w, e), t)
         == match RowOf(w, t)
            case None => None
            case Some(row) => RowAfter(w, e, w.history.replies[t].id, row)
  }

  /** Steps that neither enqueue nor prune keep every ticket's place in the table. */
  lemma SameTickets(w: World, e: Event, t: nat)
    requires RowsInv(w) && !e.PruneOld? && Apply(w, e).rows.Keys == w.rows.Keys
    requires |Apply(w, e).history.replies| == |w.history.replies|
    requires t < |w.history.replies| ==>
               && Apply(w, e).history.replies[t].id == w.history.replies[t].id
               && Apply(w, e).history.replies[t].pruned == w.history.replies[t].pruned
    requires forall id | id in w.rows :: RowAfter(w, e, id, w.rows[id]) == Some(Apply(w, e).rows[id])
    ensures TreatsReply(w, e, t)
  {
  }

  lemma EnqueueTreatsReply(w: World, e: Event, t: nat)
    requires Enabled(w, e) && RowsInv(w) && e.Enqueue?
    ensures TreatsReply(w, e, t)
  {
    assert e.id !in w.rows;
  }

  lemma TickEndsRows(w: World, e: Event)
    requires Enabled(w, e) && e.ReplyTick?
    ensures Apply(w, e).rows.Keys == w.rows.Keys
    ensures forall id | id in w.rows :: RowAfter(w, e, id, w.rows[id]) == Some(Apply(w, e).rows[id])
  {
  }

  lemma TickKeepsTickets(w: World, e: Event, t: nat)
    requires Enabled(w, e) && e.ReplyTick?
    ensures var h, h' := w.history, Apply(w, e).history;
            && |h'.replies| == |h.replies|
            && (t < |h.replies| ==> h'.replies[t].id == h.replies[t].id && h'.replies[t].pruned == h.replies[t].pruned)
  {
  }

  lemma ReplyTickTreatsReply(w: World, e: Event, t: nat)
    requires Enabled(w, e) && RowsInv(w) && e.ReplyTick?
    ensures TreatsReply(w, e, t)
  {
    TickEndsRows(w, e);
    TickKeepsTickets(w, e, t);
    SameTickets(w, e, t);
  }

  lemma ResolveEndsRows(w: World, e: Event)
    requires Enabled(w, e) && BusyRowPending(w) && e.ReplyResolves?
    ensures Apply(w, e).rows.Keys == w.rows.Keys
    ensures forall id | id in w.rows :: RowAfter(w, e, id, w.rows[id]) == Some(Apply(w, e).rows[id])
  {
  }

  lemma ReplyResolvesTreatsReply(w: World, e: Event, t: nat)
    requires Enabled(w, e) && RowsInv(w) && e.ReplyResolves?
    ensures TreatsReply(w, e, t)
  {
    ResolveEndsRows(w, e);
    SameTickets(w, e, t);
  }

  lemma CrashTreatsReply(w: World, e: Event, t: nat)
    requires Enabled(w, e) && RowsInv(w) && e.Crash?
    ensures TreatsReply(w, e, t)
  {
    SameTickets(w, e, t);
  }

  lemma PruneTreatsReply(w: World, e: Event, t: nat)
    requires Enabled(w, e) && RowsInv(w) && e.PruneOld?
    ensures TreatsReply(w, e, t)
  {
  }

  lemma OtherTreatsReply(w: World, e: Event, t: nat)
    requires Enabled(w, e) && RowsInv(w) && !TouchesReplies(e)
    ensures TreatsReply(w, e, t)
  {
    OtherStepsLeaveReplies(w, e);
    SameTickets(w, e, t);
  }

  /** What each step does to each reply, exactly. */
  lemma StepOnReply(w: World, e: Event, t: nat)
    requires Enabled(w, e) && RowsInv(w)
    ensures TreatsReply(w, e, t)
  {
    if e.Enqueue? {
      EnqueueTreatsReply(w, e, t);
    } else if e.ReplyTick? {
      ReplyTickTreatsReply(w, e, t);
    } else if e.ReplyResolves? {
      ReplyResolvesTreatsReply(w, e, t);
    } else if e.PruneOld? {
      PruneTreatsReply(w, e, t);
    } else if e.Crash? {
      CrashTreatsReply(w, e, t);
    } else {
      OtherTreatsReply(w, e, t);
    }
  }

  /** What a stored row may become in one step. */
  predicate RowMay(before: Row, after: Row) {
    || after == before
    || (&& before.status == Pending
        && after.status in {Sent, Failed, Expired}
        && after.resolvedAt.Some?
        && after == EndedAs(before, after.status, after.resolvedAt.value))
  }

  /** How a step may treat a reply, whatever the event. */
  ghost predicate StepMay(w: World, w': World, t: nat) {
    t < |w.history.replies| ==>
      && t < |w'.history.replies|
      && w'.history.replies[t].id == w.history.replies[t].id
      && (RowOf(w, t).None? ==> RowOf(w', t).None?)
      && (RowOf(w, t).Some? ==>
            match RowOf(w', t)
            case Some(row) => RowMay(RowOf(w, t).value, row)
            case None => RowOf(w, t).value.status != Pending)
  }

  lemma TreatedAsItMay(w: World, e: Event, t: nat)
    requires TreatsReply(w, e, t)
    ensures StepMay(w, Apply(w, e), t)
  {
  }

  lemma RunTreatsReply(ws: seq<World>, es: seq<Event>, k: nat, t: nat)
    requires IsRun(ws, es) && k < |es|
    ensures TreatsReply(ws[k], es[k], t) && StepMay(ws[k], ws[k + 1], t)
  {
    RunKeepsReplies(ws, es, k);
    StepOnReply(ws[k], es[k], t);
    TreatedAsItMay(ws[k], es[k], t);
  }

  /** The same without the event. */
  lemma RunStepMay(ws: seq<World>, es: seq<Event>, k: nat, t: nat)
    requires IsRun(ws, es) && k < |es|
    ensures StepMay(ws[k], ws[k + 1], t)
  {
    RunTreatsReply(ws, es, k, t);
  }

  /** What a reply may have become: gone stays gone, resolved stays as resolved, pending resolves once. */
  predicate ReplyMay(before: Option<Row>, after: Option<Row>) {
    match before
    case None => after.None?
    case Some(row) => after.Some? ==> RowMay(row, after.value)
  }

  lemma MayFurther(first: Option<Row>, w: World, w': World, t: nat)
    requires t < |w.history.replies| && ReplyMay(first, RowOf(w, t)) && StepMay(w, w', t)
    ensures t < |w'.history.replies| && ReplyMay(first, RowOf(w', t))
  {
  }

  /**
   * The life of reply t between any two moments of any run; with a resolved row first, the row is the same or pruned.
   */
  lemma {:induction false} ReplyLifecycle(ws: seq<World>, es: seq<Event>, i: nat, j: nat, t: nat)
    requires IsRun(ws, es) && i <= j < |ws| && t < |ws[i].history.replies|
    ensures t < |ws[j].history.replies|
    ensures ReplyMay(RowOf(ws[i], t), RowOf(ws[j], t))
  {
    if i < j {
      ReplyLifecycle(ws, es, i, j - 1, t);
      RunStepMay(ws, es, j - 1, t);
      MayFurther(RowOf(ws[i], t), ws[j - 1], ws[j], t);
    }
  }

  predicate PendingAt(w: World, t: nat) {
    t < |w.history.replies| && RowOf(w, t).Some? && RowOf(w, t).value.status == Pending
  }

  predicate ResolvedAt(w: World, t: nat) {
    t < |w.history.replies| && RowOf(w, t).Some? && RowOf(w, t).value.status in {Sent, Failed, Expired}
  }

  predicate GoneAt(w: World, t: nat) {
    t < |w.history.replies| && RowOf(w, t).None?
  }

  /** A step before which a reply that once was pending is stored, and after which it is gone. */
  lemma VanishedWasResolved(ws: seq<World>, es: seq<Event>, i: nat, k: nat, t: nat)
    requires IsRun(ws, es) && i <= k < |es| && PendingAt(ws[i], t) && GoneAt(ws[k + 1], t)
    ensures t < |ws[k].history.replies|
    ensures GoneAt(ws[k], t) || ResolvedAt(ws[k], t)
  {
    ReplyLifecycle(ws, es, i, k, t);
    RunStepMay(ws, es, k, t);
  }

  /** A reply that was pending and is gone was seen sent, failed or expired in between. */
  lemma {:induction false} PendingIsNeverLost(ws: seq<World>, es: seq<Event>, i: nat, j: nat, t: nat) returns (k: nat)
    requires IsRun(ws, es) && i <= j < |ws| && PendingAt(ws[i], t) && GoneAt(ws[j], t)
    ensures i < k < j && ResolvedAt(ws[k], t)
  {
    assert i < j;
    k := j - 1;
    VanishedWasResolved(ws, es, i, k, t);
    if GoneAt(ws[k], t) {
      k := PendingIsNeverLost(ws, es, i, k, t);
    }
  }

  /** The event that can give a pending row this ending, at this time. */
  predicate Ends(w: World, e: Event, id: nat, before: Row, after: Row) {
    match after.status
    case Sent => e.ReplyResolves? && e.stored && InPhase(w, Q.Settled(id, true)) && after == EndedAs(before, Sent, e.now)
    case Failed => e.ReplyResolves? && e.stored && InPhase(w, Q.Settled(id, false)) && after == EndedAs(before, Failed, e.now)
    case Expired =>
      e.ReplyTick? && InPhase(w, Q.Waiting) && before.expiresAt <= e.now && after == EndedAs(before, Expired, e.now)
    case _ => false
  }

  lemma StepEnds(w: World, e: Event, t: nat)
    requires TreatsReply(w, e, t) && PendingAt(w, t) && ResolvedAt(Apply(w, e), t)
    ensures Ends(w, e, w.history.replies[t].id, RowOf(w, t).value, RowOf(Apply(w, e), t).value)
  {
  }

  lemma ResolvedIsFinal(w: World, w': World, t: nat)
    requires StepMay(w, w', t) && ResolvedAt(w', t) && t < |w.history.replies|
    ensures PendingAt(w, t) || (ResolvedAt(w, t) && RowOf(w', t) == RowOf(w, t))
  {
  }

  lemma StaysPendingAsItWas(w: World, w': World, t: nat)
    requires StepMay(w, w', t) && PendingAt(w, t) && PendingAt(w', t)
    ensures RowOf(w', t) == RowOf(w, t) && w'.history.replies[t].id == w.history.replies[t].id
  {
  }

  /** A reply found with an ending after it was pending got it from exactly such an event in between. */
  lemma {:induction false} EndingHasItsCause(ws: seq<World>, es: seq<Event>, i: nat, j: nat, t: nat) returns (k: nat)
    requires IsRun(ws, es) && i <= j < |ws| && PendingAt(ws[i], t) && ResolvedAt(ws[j], t)
    ensures i <= k < j && PendingAt(ws[k], t)
    ensures Ends(ws[k], es[k], ws[k].history.replies[t].id, RowOf(ws[k], t).value, RowOf(ws[j], t).value)
    decreases j
  {
    assert i < j;
    k := j - 1;
    ReplyLifecycle(ws, es, i, k, t);
    RunTreatsReply(ws, es, k, t);
    ResolvedIsFinal(ws[k], ws[j], t);
    if PendingAt(ws[k], t) {
      StepEnds(ws[k], es[k], t);
    } else {
      k := EndingHasItsCause(ws, es, i, k, t);
    }
  }

  // ---------------------------------------------------------------- from a dispatch to its ending

  /** One step into a settled phase is the end of that send; any other step found the phase already there. */
  lemma StepIntoSettled(w: World, e: Event, id: nat, ok: bool)
    requires Enabled(w, e) && InPhase(Apply(w, e), Q.Settled(id, ok))
    ensures InPhase(w, Q.Settled(id, ok)) || (e == DispatchSettles(ok) && InPhase(w, Q.InFlight(id)))
  {
  }

  /** While a row is busy it stays the row of the same reply. */
  lemma BusyKeepsTicket(w: World, e: Event, id: nat)
    requires Enabled(w, e) && RowsInv(w) && Busy(w, id) && Busy(Apply(w, e), id)
    ensures id in w.history.ticketOf && id in Apply(w, e).history.ticketOf
    ensures Apply(w, e).history.ticketOf[id] == w.history.ticketOf[id]
  {
  }

  /** A send found settled, well or badly, did settle so while it was in flight. */
  lemma {:induction false} SettledAsItEnded(ws: seq<World>, es: seq<Event>, k: nat, id: nat, ok: bool) returns (m: nat)
    requires IsRun(ws, es) && k < |ws| && InPhase(ws[k], Q.Settled(id, ok))
    ensures m < k && es[m] == DispatchSettles(ok) && InPhase(ws[m], Q.InFlight(id))
    ensures SameTicket(ws[m], ws[k], id)
  {
    m := k - 1;
    IntoSettled(ws, es, m, id, ok);
    if InPhase(ws[m], Q.Settled(id, ok)) {
      m := SettledAsItEnded(ws, es, m, id, ok);
    }
  }

  ghost predicate SameTicket(w: World, w': World, id: nat) {
    id in w.history.ticketOf && id in w'.history.ticketOf && w'.history.ticketOf[id] == w.history.ticketOf[id]
  }

  lemma IntoSettled(ws: seq<World>, es: seq<Event>, m: nat, id: nat, ok: bool)
    requires IsRun(ws, es) && m < |es| && InPhase(ws[m + 1], Q.Settled(id, ok))
    ensures InPhase(ws[m], Q.Settled(id, ok)) || (es[m] == DispatchSettles(ok) && InPhase(ws[m], Q.InFlight(id)))
    ensures SameTicket(ws[m], ws[m + 1], id)
  {
    RunKeepsReplies(ws, es, m);
    StepIntoSettled(ws[m], es[m], id, ok);
    BusyKeepsTicket(ws[m], es[m], id);
  }

  /** The tick that picked this row for a send, logged under the reply's ticket. */
  ghost predicate Picks(w: World, w': World, e: Event, id: nat) {
    && e.ReplyTick? && e.pick == id && InPhase(w, Q.Waiting) && InPhase(w', Q.InFlight(id))
    && SameTicket(w, w', id)
    && |w'.history.dispatches| == |w.history.dispatches| + 1
    && w'.history.dispatches[|w.history.dispatches|].ticket == w'.history.ticketOf[id]
  }

  lemma StepIntoFlight(w: World, e: Event, id: nat)
    requires Enabled(w, e) && RowsInv(w) && InPhase(Apply(w, e), Q.InFlight(id))
    ensures InPhase(w, Q.InFlight(id)) || Picks(w, Apply(w, e), e, id)
  {
  }

  lemma IntoFlight(ws: seq<World>, es: seq<Event>, m: nat, id: nat)
    requires IsRun(ws, es) && m < |es| && InPhase(ws[m + 1], Q.InFlight(id))
    ensures InPhase(ws[m], Q.InFlight(id)) || Picks(ws[m], ws[m + 1], es[m], id)
    ensures SameTicket(ws[m], ws[m + 1], id)
  {
    RunKeepsReplies(ws, es, m);
    StepIntoFlight(ws[m], es[m], id);
    if InPhase(ws[m], Q.InFlight(id)) {
      BusyKeepsTicket(ws[m], es[m], id);
    }
  }

  /** A send found in flight was started by a tick. */
  lemma {:induction false} InFlightWasPicked(ws: seq<World>, es: seq<Event>, k: nat, id: nat) returns (m: nat)
    requires IsRun(ws, es) && k < |ws| && InPhase(ws[k], Q.InFlight(id))
    ensures m < k && Picks(ws[m], ws[m + 1], es[m], id) && SameTicket(ws[m + 1], ws[k], id)
  {
    m := k - 1;
    IntoFlight(ws, es, m, id);
    if InPhase(ws[m], Q.InFlight(id)) {
      m := InFlightWasPicked(ws, es, m, id);
    }
  }

  /**
   * A reply is found sent, or failed, only after a tick dispatched it, that send ended well, or badly, and this was
   * stored at the time the row tells.
   */
  lemma SentMeansDelivered(ws: seq<World>, es: seq<Event>, i: nat, j: nat, t: nat) returns (picked: nat, ended: nat, stored: nat)
    requires IsRun(ws, es) && i <= j < |ws| && PendingAt(ws[i], t) && ResolvedAt(ws[j], t)
    requires RowOf(ws[j], t).value.status != Expired
    ensures picked < ended < stored < j
    ensures es[picked].ReplyTick? && |ws[picked + 1].history.dispatches| == |ws[picked].history.dispatches| + 1
    ensures ws[picked + 1].history.dispatches[|ws[picked].history.dispatches|].ticket == t
    ensures es[ended] == DispatchSettles(RowOf(ws[j], t).value.status == Sent)
    ensures es[stored].ReplyResolves? && es[stored].stored && RowOf(ws[j], t).value.resolvedAt == Some(es[stored].now)
  {
    stored := EndingHasItsCause(ws, es, i, j, t);
    RunKeepsReplies(ws, es, stored);
    var id := ws[stored].history.replies[t].id;
    ended := SettledAsItEnded(ws, es, stored, id, RowOf(ws[j], t).value.status == Sent);
    picked := InFlightWasPicked(ws, es, ended, id);
  }

  /** Each stored row is the row of exactly one reply, and each reply not pruned has exactly one row. */
  lemma OneRowPerReply(ws: seq<World>, es: seq<Event>, i: nat)
    requires IsRun(ws, es) && i < |ws|
    ensures Tracked(ws[i])
    ensures forall t, u | 0 <= t < u < |ws[i].history.replies|
                          && !ws[i].history.replies[t].pruned && !ws[i].history.replies[u].pruned ::
              ws[i].history.replies[t].id != ws[i].history.replies[u].id
  {
    RunKeepsReplies(ws, es, i);
  }

  /** How often the dispatch log names a ticket. */
  function TimesDispatched(ds: seq<Dispatch>, t: nat): nat {
    if ds == [] then 0 else TimesDispatched(ds[..|ds| - 1], t) + if ds[|ds| - 1].ticket == t then 1 else 0
  }

  /** The event leaves the dispatched reply t pending: its resolve throws, or the process dies before resolving it. */
  predicate LeavesPending(w: World, e: Event, t: nat) {
    && (e.Crash? || (e.ReplyResolves? && !e.stored))
    && w.process.Some? && w.process.value.queue.phase != Q.Waiting
    && w.process.value.queue.phase.id in w.history.ticketOf
    && w.history.ticketOf[w.process.value.queue.phase.id] == t
  }

  function Mishaps(ws: seq<World>, es: seq<Event>, n: nat, t: nat): nat
    requires n <= |es| <= |ws|
  {
    if n == 0 then 0 else Mishaps(ws, es, n - 1, t) + if LeavesPending(ws[n - 1], es[n - 1], t) then 1 else 0
  }

  /** How one step changes the counters of ticket t, against the event itself. */
  ghost predicate Counted(h: History, h': History, t: nat, mishap: nat) {
    && (t >= |h.replies| ==> mishap == 0)
    && (t < |h.replies| ==>
          && t < |h'.replies|
          && h'.replies[t].excuses == h.replies[t].excuses + mishap
          && TimesDispatched(h'.dispatches, t) - TimesDispatched(h.dispatches, t)
             == h'.replies[t].dispatches - h.replies[t].dispatches)
    && (|h.replies| <= t < |h'.replies| ==>
          h'.replies[t].excuses == 0 == h'.replies[t].dispatches && h'.dispatches == h.dispatches)
  }

  lemma LoggedDispatchCounts(h: History, rows: Rows, id: nat, tickAt: int, t: nat)
    ensures Counted(h, LogDispatch(h, rows, id, tickAt), t, 0)
  {
    var h' := LogDispatch(h, rows, id, tickAt);
    if h'.dispatches != h.dispatches {
      assert h'.dispatches[..|h'.dispatches| - 1] == h.dispatches;
    }
  }

  lemma ExcuseCounts(h: History, id: nat, t: nat)
    requires id in h.ticketOf && h.ticketOf[id] < |h.replies|
    ensures Counted(h, LogExcuse(h, id), t, if h.ticketOf[id] == t then 1 else 0)
  {
  }

  /** Step e changes the counters of ticket t by what it is. */
  ghost predicate EventCounted(w: World, e: Event, t: nat) {
    Counted(w.history, Apply(w, e).history, t, if LeavesPending(w, e, t) then 1 else 0)
  }

  lemma ReplyTickCounts(w: World, e: Event, t: nat)
    requires Enabled(w, e) && e.ReplyTick?
    ensures EventCounted(w, e, t)
  {
    var p := w.process.value;
    LoggedDispatchCounts(LogGrant(w.history, p.air, e.checkAt, e.noteAt), Q.TickRows(p.queue, w.rows, e.now), e.pick, e.now, t);
  }

  lemma EnqueueCounts(w: World, e: Event, t: nat)
    requires Enabled(w, e) && e.Enqueue?
    ensures EventCounted(w, e, t)
  {
  }

  lemma PruneCounts(w: World, e: Event, t: nat)
    requires Enabled(w, e) && Tracked(w) && e.PruneOld?
    ensures EventCounted(w, e, t)
  {
    PruneShape(w, e.cutoff);
  }

  lemma ResolveCounts(w: World, e: Event, t: nat)
    requires Enabled(w, e) && RowsInv(w) && e.ReplyResolves?
    ensures EventCounted(w, e, t)
  {
    ExcuseCounts(w.history, w.process.value.queue.phase.id, t);
  }

  lemma CrashCounts(w: World, e: Event, t: nat)
    requires Enabled(w, e) && RowsInv(w) && e.Crash?
    ensures EventCounted(w, e, t)
  {
    if w.process.value.queue.phase != Q.Waiting {
      ExcuseCounts(w.history, w.process.value.queue.phase.id, t);
    }
  }

  lemma OtherCounts(w: World, e: Event, t: nat)
    requires Enabled(w, e) && !TouchesReplies(e)
    ensures EventCounted(w, e, t)
  {
    OtherStepsLeaveReplies(w, e);
  }

  lemma StepCounts(w: World, e: Event, t: nat)
    requires Enabled(w, e) && RowsInv(w)
    ensures EventCounted(w, e, t)
  {
    if e.Enqueue? {
      EnqueueCounts(w, e, t);
    } else if e.ReplyTick? {
      ReplyTickCounts(w, e, t);
    } else if e.ReplyResolves? {
      ResolveCounts(w, e, t);
    } else if e.PruneOld? {
      PruneCounts(w, e, t);
    } else if e.Crash? {
      CrashCounts(w, e, t);
    } else {
      OtherCounts(w, e, t);
    }
  }

  lemma {:induction false} NotYetDispatched(ds: seq<Dispatch>, replies: nat, t: nat)
    requires forall k | 0 <= k < |ds| :: ds[k].ticket < replies
    requires t >= replies
    ensures TimesDispatched(ds, t) == 0
  {
    if ds != [] {
      NotYetDispatched(ds[..|ds| - 1], replies, t);
    }
  }

  /** Step k of a run changes the counters of ticket t by what it is, and a ticket not given out has none. */
  ghost predicate StepCounted(ws: seq<World>, es: seq<Event>, k: nat, t: nat)
    requires k < |es| < |ws|
  {
    && Counted(ws[k].history, ws[k + 1].history, t, if LeavesPending(ws[k], es[k], t) then 1 else 0)
    && (t >= |ws[k].history.replies| ==> TimesDispatched(ws[k].history.dispatches, t) == 0)
  }

  lemma RunCounts(ws: seq<World>, es: seq<Event>, k: nat, t: nat)
    requires IsRun(ws, es) && k < |es|
    ensures StepCounted(ws, es, k, t)
  {
    RunKeepsReplies(ws, es, k);
    StepCounts(ws[k], es[k], t);
    if t >= |ws[k].history.replies| {
      NotYetDispatched(ws[k].history.dispatches, |ws[k].history.replies|, t);
    }
  }

  /** The counters of ticket t after i steps are the events among them. */
  ghost predicate CountsMatch(ws: seq<World>, es: seq<Event>, i: nat, t: nat)
    requires i <= |es| < |ws|
  {
    && (t < |ws[i].history.replies| ==>
          && ws[i].history.replies[t].excuses == Mishaps(ws, es, i, t)
          && ws[i].history.replies[t].dispatches == TimesDispatched(ws[i].history.dispatches, t))
    && (t >= |ws[i].history.replies| ==> Mishaps(ws, es, i, t) == 0)
  }

  lemma {:induction false} StepsAddUp(ws: seq<World>, es: seq<Event>, i: nat, t: nat)
    requires i <= |es| < |ws| && CountsMatch(ws, es, 0, t)
    requires forall k | 0 <= k < i :: StepCounted(ws, es, k, t)
    ensures CountsMatch(ws, es, i, t)
  {
    if i > 0 {
      StepsAddUp(ws, es, i - 1, t);
      assert StepCounted(ws, es, i - 1, t);
    }
  }

  lemma CountsAreEvents(ws: seq<World>, es: seq<Event>, i: nat, t: nat)
    requires IsRun(ws, es) && i < |ws|
    ensures CountsMatch(ws, es, i, t)
  {
    assert CountsMatch(ws, es, 0, t) by {
      if t < |ws[0].history.replies| {
        assert ws[0].history.replies[t] in ws[0].history.replies;
      }
    }
    forall k | 0 <= k < i
      ensures StepCounted(ws, es, k, t)
    {
      RunCounts(ws, es, k, t);
    }
    StepsAddUp(ws, es, i, t);
  }

  /**
   * In every run a reply is dispatched at most once, and once more for each failed resolve or crash that left it
   * pending.
   */
  lemma DispatchedOncePerMishap(ws: seq<World>, es: seq<Event>, i: nat, t: nat)
    requires IsRun(ws, es) && i < |ws| && t < |ws[i].history.replies|
    ensures TimesDispatched(ws[i].history.dispatches, t) <= 1 + Mishaps(ws, es, i, t)
  {
    RunKeepsReplies(ws, es, i);
    CountsAreEvents(ws, es, i, t);
  }

  /**
   * Over a whole run, restarts included, replies are dispatched in the order of their enqueue, each before its own
   * deadline.
   */
  lemma DispatchesAreFifo(ws: seq<World>, es: seq<Event>, i: nat)
    requires IsRun(ws, es) && i < |ws|
    ensures var h := ws[i].history;
            && (forall k, l | 0 <= k < l < |h.dispatches| :: h.dispatches[k].enqueuedAt <= h.dispatches[l].enqueuedAt)
            && (forall k | 0 <= k < |h.dispatches| ::
                  && h.dispatches[k].ticket < |h.replies|
                  && 0 <= h.dispatches[k].tickAt - h.dispatches[k].enqueuedAt < h.replies[h.dispatches[k].ticket].ttlMs)
  {
    RunKeepsReplies(ws, es, i);
  }

  /** No lost wake-up and no idle polling: a live queue polls exactly when it was not stopped and something is pending. */
  lemma PendingHasATimer(ws: seq<World>, es: seq<Event>, i: nat)
    requires IsRun(ws, es) && i < |ws| && ws[i].process.Some?
    ensures ws[i].process.value.queue.timer <==> !ws[i].process.value.queue.stopped && HasPending(ws[i].rows)
  {
    RunKeepsReplies(ws, es, i);
  }

  // ---------------------------------------------------------------- what a call and a tick do

  /** An accepted reply is pending with a deadline ttlMs away; a stopped queue accepts none. */
  lemma EnqueueAccepts(w: World, e: Event)
    requires Enabled(w, e) && Tracked(w) && e.Enqueue?
    ensures var q, w', t := w.process.value.queue, Apply(w, e), |w.history.replies|;
            if q.stopped then w'.rows == w.rows && |w'.history.replies| == t
            else && |w'.history.replies| == t + 1
                 && RowOf(w', t) == Some(Row(e.item, e.now, e.now + q.ttlMs, Pending, None, None))
  {
  }

  /** A row the tick leaves waiting: pending, and its deadline still ahead. */
  predicate Waits(row: Row, now: int) {
    row.status == Pending && row.expiresAt > now
  }

  lemma WaitsPastExpiry(rows: Rows, now: int)
    ensures HasPending(ExpireOverdue(rows, now)) <==> exists id :: id in rows && Waits(rows[id], now)
    ensures forall id | IsOldestPending(ExpireOverdue(rows, now), id) ::
              && id in rows && Waits(rows[id], now)
              && forall k | k in rows && Waits(rows[k], now) :: rows[id].enqueuedAt <= rows[k].enqueuedAt
  {
    var after := ExpireOverdue(rows, now);
    if id :| id in rows && Waits(rows[id], now) {
      assert after[id] == rows[id];
    }
    forall id, k | IsOldestPending(after, id) && k in rows && Waits(rows[k], now)
      ensures id in rows && Waits(rows[id], now) && rows[id].enqueuedAt <= rows[k].enqueuedAt
    {
      assert after[k] == rows[k];
    }
  }

  /**
   * A tick sends exactly when no send is under way, a row still waits, the reservation is free and the quiet time is
   * over; it sends the one that has waited longest.
   */
  lemma TickSendsExactlyWhen(w: World, e: Event)
    requires Enabled(w, e) && Tracked(w) && e.ReplyTick?
    ensures var p, w' := w.process.value, Apply(w, e);
            var sends := && p.queue.phase == Q.Waiting
                         && (exists id :: id in w.rows && Waits(w.rows[id], e.now))
                         && !p.air.sending && e.checkAt - p.air.lastActivityAt >= p.air.quietMs;
            && (sends ==>
                  && InPhase(w', Q.InFlight(e.pick)) && w'.process.value.air.sending
                  && e.pick in w.rows && Waits(w.rows[e.pick], e.now)
                  && w'.history.dispatches
                     == w.history.dispatches + [Dispatch(w.history.ticketOf[e.pick], w.rows[e.pick].enqueuedAt,
                                                         w.rows[e.pick].expiresAt, e.now)]
                  && forall k | k in w.rows && Waits(w.rows[k], e.now) :: w.rows[e.pick].enqueuedAt <= w.rows[k].enqueuedAt)
            && (!sends ==> InPhase(w', p.queue.phase) && w'.history.dispatches == w.history.dispatches)
  {
    WaitsPastExpiry(w.rows, e.now);
  }

  // ---------------------------------------------------------------- stopping

  /** stop() was called in this process, or the process is gone: no timer, so no tick, until the next boot. */
  predicate Stopped(w: World) {
    w.process.Some? ==> w.process.value.queue.stopped && !w.process.value.queue.timer
  }

  /** What a later moment may differ in once the queue was stopped: the row that was in flight, and resolved rows. */
  ghost predicate LeftAlone(w: World, w': World) {
    && w'.history.dispatches == w.history.dispatches
    && |w'.history.replies| == |w.history.replies|
    && (forall id | Busy(w', id) :: Busy(w, id))
    && forall id | IsPending(w.rows, id) && !Busy(w, id) :: id in w'.rows && w'.rows[id] == w.rows[id]
  }

  lemma StepWhileStopped(w: World, e: Event)
    requires Enabled(w, e) && !e.Boot? && Stopped(w)
    ensures Stopped(Apply(w, e)) && LeftAlone(w, Apply(w, e))
  {
  }

  lemma LeftAloneFurther(a: World, b: World, c: World)
    requires LeftAlone(a, b) && LeftAlone(b, c)
    ensures LeftAlone(a, c)
  {
    forall id | IsPending(a.rows, id) && !Busy(a, id)
      ensures id in c.rows && c.rows[id] == a.rows[id]
    {
      assert IsPending(b.rows, id) && !Busy(b, id);
    }
  }

  lemma {:induction false} StoppedUntilBoot(ws: seq<World>, es: seq<Event>, i: nat, j: nat)
    requires IsRun(ws, es) && i <= j < |ws| && Stopped(ws[i])
    requires forall k | i <= k < j :: !es[k].Boot?
    ensures Stopped(ws[j]) && LeftAlone(ws[i], ws[j])
  {
    if i < j {
      StoppedUntilBoot(ws, es, i, j - 1);
      StepWhileStopped(ws[j - 1], es[j - 1]);
      LeftAloneFurther(ws[i], ws[j - 1], ws[j]);
    }
  }

  /**
   * From the call of stop() to the next boot no dispatch starts and nothing is accepted; only a send already in flight
   * ends, and every other pending row stays as it is.
   */
  lemma StopStartsNothing(ws: seq<World>, es: seq<Event>, i: nat, j: nat)
    requires IsRun(ws, es) && i < j < |ws| && es[i].StopReplies?
    requires forall k | i < k < j :: !es[k].Boot?
    ensures LeftAlone(ws[i], ws[j])
  {
    assert Enabled(ws[i], es[i]);
    assert Stopped(ws[i + 1]) && LeftAlone(ws[i], ws[i + 1]);
    StoppedUntilBoot(ws, es, i + 1, j);
    LeftAloneFurther(ws[i], ws[i + 1], ws[j]);
  }

  /** stop() has resolved: the queue is stopped and its wait loop found no send in flight. */
  predicate ReplyStopDone(w: World) {
    w.process.Some? && w.process.value.queue.stopped && w.process.value.queue.phase == Q.Waiting
  }

  /**
   * From the moment stop() resolves to the next boot nothing is dispatched or accepted, and every pending row stays as
   * it is.
   */
  lemma StopIsClean(ws: seq<World>, es: seq<Event>, i: nat, j: nat)
    requires IsRun(ws, es) && i <= j < |ws| && ReplyStopDone(ws[i])
    requires forall k | i <= k < j :: !es[k].Boot?
    ensures ws[j].process.None? || ReplyStopDone(ws[j])
    ensures ws[j].history.dispatches == ws[i].history.dispatches
    ensures |ws[j].history.replies| == |ws[i].history.replies|
    ensures forall id | IsPending(ws[i].rows, id) :: id in ws[j].rows && ws[j].rows[id] == ws[i].rows[id]
  {
    assert Stopped(ws[i]) by {
      RunKeepsReplies(ws, es, i);
    }
    StoppedUntilBoot(ws, es, i, j);
    if ws[j].process.Some? && ws[j].process.value.queue.phase != Q.Waiting {
      assert Busy(ws[j], ws[j].process.value.queue.phase.id);
    }
  }
}
