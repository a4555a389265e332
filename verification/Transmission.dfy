/**
 * One observer over its whole life: the reply queue and the advert scheduler
 * interleaving on one coordinator and one store, crashes that wipe the process
 * and keep the tables, and boots (src/index.js:95-125) that resume from them.
 *
 * `History` records what happened and is read by no step. SQLite hands the id
 * of a pruned row out again, so a reply is identified by its ticket, the
 * number of its enqueue.
 */
module Transmission {
  import opened Prelude
  import opened Airtime
  import opened ReplyStore
  import Q = ReplyQueue
  import F = FloodAdvert

  datatype Process = Process(air: Air, queue: Q.Queue, advert: F.Advert)

  /** `excuses` counts the failed resolves and the crashes in flight that leave a dispatched row pending. */
  datatype Reply = Reply(id: nat, ttlMs: int, pruned: bool, dispatches: nat, excuses: nat)

  datatype Dispatch = Dispatch(ticket: nat, enqueuedAt: int, expiresAt: int, tickAt: int)

  /** `earlier` is how many activities had been noted before this grant. */
  datatype Grant = Grant(at: int, quietMs: int, earlier: nat)

  datatype Outcome = Open | Resolved(at: int, intervalMs: int) | Recovered(intervalMs: int)

  datatype Attempt = Attempt(startedAt: int, outcome: Outcome)

  datatype History = History(
    replies: seq<Reply>, ticketOf: map<nat, nat>, dispatches: seq<Dispatch>,
    activity: seq<int>, grants: seq<Grant>,
    attempts: seq<Attempt>, boots: nat, attemptsSinceBoot: nat)

  datatype World = World(clock: int, rows: Rows, slot: Slot, process: Option<Process>, history: History)

  /** What can happen; the numbers are clock readings in the order the code makes them. */
  datatype Event =
    | Hear(now: int)
    | Enqueue(item: Item, now: int, id: nat)
    | ReplyTick(now: int, pick: nat, checkAt: int, noteAt: int)
    | DispatchSettles(ok: bool)
    | ReplyResolves(now: int, stored: bool)
    | StopReplies
    | Connect(now: int)
    | Disconnect
    | AdvertTick(dueAt: int, requestAt: int, gateAt: int, checkAt: int, noteAt: int)
    | AdvertCallback(startAt: int, claimed: bool)
    | AdvertSettles(ok: bool, okAt: int, okStored: bool, failAt: int, failStored: bool)
    | StopAdverts
    | PruneOld(cutoff: int)
    | Crash
    | Boot(now: int, quietMs: int, ttlMs: int, intervalMs: int)

  // ---------------------------------------------------------------- enabledness

  ghost predicate Enabled(w: World, e: Event) {
    if e.Boot? then w.process.None? && w.clock <= e.now
    else w.process.Some? && RunningEnabled(w, w.process.value, e)
  }

  ghost predicate RunningEnabled(w: World, p: Process, e: Event) {
    match e
    case Hear(now) => w.clock <= now
    case Enqueue(_, now, id) => w.clock <= now && IsNextRowid(w.rows, id)
    case ReplyTick(now, pick, checkAt, noteAt) =>
      && p.queue.timer && w.clock <= now <= checkAt <= noteAt
      && var rows := Q.TickRows(p.queue, w.rows, now);
         p.queue.phase == Q.Waiting && HasPending(rows) ==> IsOldestPending(rows, pick)
    case DispatchSettles(_) => p.queue.phase.InFlight?
    case ReplyResolves(now, _) => p.queue.phase.Settled? && w.clock <= now
    case StopReplies => true
    case Connect(now) => w.clock <= now
    case Disconnect => true
    case AdvertTick(dueAt, requestAt, gateAt, checkAt, noteAt) =>
      p.advert.timer && w.clock <= dueAt <= requestAt <= gateAt <= checkAt <= noteAt
    case AdvertCallback(startAt, _) => p.advert.phase == F.Reserved && w.clock <= startAt
    case AdvertSettles(_, okAt, _, failAt, _) => p.advert.phase == F.Commanding && w.clock <= okAt <= failAt
    case StopAdverts => true
    case PruneOld(_) => true
    case Crash => true
    case Boot(_, _, _, _) => false
  }

  // ---------------------------------------------------------------- history updates

  function LogGrant(h: History, air: Air, checkAt: int, noteAt: int): History {
    h.(grants := h.grants + [Grant(checkAt, air.quietMs, |h.activity|)], activity := h.activity + [noteAt])
  }

  function LogEnqueue(h: History, id: nat, ttlMs: int): History {
    h.(replies := h.replies + [Reply(id, ttlMs, false, 0, 0)], ticketOf := h.ticketOf[id := |h.replies|])
  }

  function LogDispatch(h: History, rows: Rows, id: nat, tickAt: int): History {
    if id in rows && id in h.ticketOf && h.ticketOf[id] < |h.replies| then
      var t := h.ticketOf[id];
      h.(replies := h.replies[t := h.replies[t].(dispatches := h.replies[t].dispatches + 1)],
         dispatches := h.dispatches + [Dispatch(t, rows[id].enqueuedAt, rows[id].expiresAt, tickAt)])
    else h
  }

  function LogExcuse(h: History, id: nat): History {
    if id in h.ticketOf && h.ticketOf[id] < |h.replies| then
      var t := h.ticketOf[id];
      h.(replies := h.replies[t := h.replies[t].(excuses := h.replies[t].excuses + 1)])
    else h
  }

  function LogPrune(h: History, before: Rows, after: Rows): History {
    h.(ticketOf := Restrict(h.ticketOf, after.Keys),
       replies := seq(|h.replies|, t requires 0 <= t < |h.replies| =>
         var r := h.replies[t];
         if !r.pruned && r.id in before && r.id !in after then r.(pruned := true) else r))
  }

  function LogOutcome(h: History, outcome: Outcome): History {
    if h.attempts == [] then h
    else h.(attempts := h.attempts[|h.attempts| - 1 := h.attempts[|h.attempts| - 1].(outcome := outcome)])
  }

  function LogAttempt(h: History, startAt: int): History {
    h.(attempts := h.attempts + [Attempt(startAt, Open)], attemptsSinceBoot := h.attemptsSinceBoot + 1)
  }

  // ---------------------------------------------------------------- steps

  function HearStep(w: World, p: Process, now: int): World {
    w.(clock := now, process := Some(p.(air := Note(p.air, now))),
       history := w.history.(activity := w.history.activity + [now]))
  }

  function EnqueueStep(w: World, p: Process, item: Item, now: int, id: nat): World {
    w.(clock := now,
       rows := Q.EnqueuedRows(p.queue, w.rows, item, now, id),
       process := Some(p.(queue := Q.EnqueuedQueue(p.queue))),
       history := if p.queue.stopped then w.history else LogEnqueue(w.history, id, p.queue.ttlMs))
  }

  function ReplyTickStep(w: World, p: Process, now: int, pick: nat, checkAt: int, noteAt: int): World {
    var rows := Q.TickRows(p.queue, w.rows, now);
    w.(clock := noteAt,
       rows := rows,
       process := Some(p.(queue := Q.TickQueue(p.queue, w.rows, p.air, now, checkAt, pick),
                          air := Q.TickAir(p.queue, w.rows, p.air, now, checkAt, noteAt))),
       history := if Q.TickDispatches(p.queue, w.rows, p.air, now, checkAt)
                  then LogDispatch(LogGrant(w.history, p.air, checkAt, noteAt), rows, pick, now)
                  else w.history)
  }

  function DispatchSettlesStep(w: World, p: Process, ok: bool): World {
    if p.queue.phase.InFlight? then
      w.(process := Some(p.(queue := p.queue.(phase := Q.Settled(p.queue.phase.id, ok)), air := Release(p.air))))
    else w
  }

  function ReplyResolvesStep(w: World, p: Process, now: int, stored: bool): World {
    if p.queue.phase.Settled? then
      var rows := Q.ResolvedRows(p.queue, w.rows, now, stored);
      w.(clock := now, rows := rows,
         process := Some(p.(queue := Q.ResolvedQueue(p.queue, rows))),
         history := if stored then w.history else LogExcuse(w.history, p.queue.phase.id))
    else w
  }

  function ConnectStep(w: World, p: Process, now: int): World {
    w.(clock := now, slot := F.ConnectedSlot(p.advert, w.slot, now),
       process := Some(p.(advert := F.ConnectedAdvert(p.advert))))
  }

  function AdvertTickStep(w: World, p: Process, dueAt: int, requestAt: int, gateAt: int, checkAt: int, noteAt: int): World {
    var reserved := F.TickReserves(p.advert, w.slot, p.air, dueAt, requestAt, gateAt, checkAt);
    w.(clock := noteAt,
       slot := F.TickSlot(p.advert, w.slot, dueAt, requestAt),
       process := if reserved
                  then Some(p.(advert := p.advert.(phase := F.Reserved), air := Reserve(p.air, noteAt)))
                  else Some(p),
       history := if reserved then LogGrant(w.history, p.air, checkAt, noteAt) else w.history)
  }

  function AdvertCallbackStep(w: World, p: Process, startAt: int, claimed: bool): World {
    if F.Commands(p.advert, w.slot, claimed) then
      w.(clock := startAt, slot := StartAttempt(w.slot, startAt),
         process := Some(p.(advert := p.advert.(phase := F.Commanding))),
         history := LogAttempt(w.history, startAt))
    else
      w.(clock := startAt, process := Some(p.(advert := p.advert.(phase := F.Resting), air := Release(p.air))))
  }

  function AdvertSettlesStep(w: World, p: Process, ok: bool, okAt: int, okStored: bool, failAt: int, failStored: bool): World {
    w.(clock := failAt,
       slot := F.SettledSlot(p.advert, w.slot, ok, okAt, okStored, failAt, failStored),
       process := Some(p.(advert := p.advert.(phase := F.Resting), air := Release(p.air))),
       history := if w.slot.status != Attempting then w.history
                  else if ok && okStored then LogOutcome(w.history, Resolved(okAt, p.advert.intervalMs))
                  else if failStored then LogOutcome(w.history, Resolved(failAt, p.advert.intervalMs))
                  else w.history)
  }

  function PruneStep(w: World, cutoff: int): World {
    var rows := Prune(w.rows, cutoff);
    w.(rows := rows, history := LogPrune(w.history, w.rows, rows))
  }

  function CrashStep(w: World, p: Process): World {
    w.(process := None,
       history := if p.queue.phase == Q.Waiting then w.history else LogExcuse(w.history, p.queue.phase.id))
  }

  function BootStep(w: World, now: int, quietMs: int, ttlMs: int, intervalMs: int): World {
    var advert := F.FreshAdvert(intervalMs);
    var recovers := w.slot.status == Attempting && w.slot.attemptStartedAt.Some?;
    var h := if recovers then LogOutcome(w.history, Recovered(intervalMs)) else w.history;
    w.(clock := now,
       slot := F.StartedSlot(advert, w.slot),
       process := Some(Process(Fresh(quietMs, now), Q.Started(Q.FreshQueue(ttlMs), w.rows), F.StartedAdvert(advert))),
       history := h.(activity := h.activity + [now], boots := h.boots + 1, attemptsSinceBoot := 0))
  }

  function Apply(w: World, e: Event): World {
    if e.Boot? then BootStep(w, e.now, e.quietMs, e.ttlMs, e.intervalMs)
    else if w.process.None? then w
    else
      var p := w.process.value;
      match e
      case Hear(now) => HearStep(w, p, now)
      case Enqueue(item, now, id) => EnqueueStep(w, p, item, now, id)
      case ReplyTick(now, pick, checkAt, noteAt) => ReplyTickStep(w, p, now, pick, checkAt, noteAt)
      case DispatchSettles(ok) => DispatchSettlesStep(w, p, ok)
      case ReplyResolves(now, stored) => ReplyResolvesStep(w, p, now, stored)
      case StopReplies => w.(process := Some(p.(queue := Q.Stopped(p.queue))))
      case Connect(now) => ConnectStep(w, p, now)
      case Disconnect => w.(process := Some(p.(advert := F.DisconnectedAdvert(p.advert))))
      case AdvertTick(a, b, c, d, n) => AdvertTickStep(w, p, a, b, c, d, n)
      case AdvertCallback(startAt, claimed) => AdvertCallbackStep(w, p, startAt, claimed)
      case AdvertSettles(ok, okAt, okStored, failAt, failStored) =>
        AdvertSettlesStep(w, p, ok, okAt, okStored, failAt, failStored)
      case StopAdverts => w.(process := Some(p.(advert := F.StoppedAdvert(p.advert))))
      case PruneOld(cutoff) => PruneStep(w, cutoff)
      case Crash => CrashStep(w, p)
      case Boot(_, _, _, _) => w
  }

  // ---------------------------------------------------------------- runs

  /** Every stored row is one live ticket's row, and every live ticket has its row. */
  ghost predicate Tracked(w: World) {
    && w.history.ticketOf.Keys == w.rows.Keys
    && (forall id | id in w.rows ::
          && w.history.ticketOf[id] < |w.history.replies|
          && !w.history.replies[w.history.ticketOf[id]].pruned
          && w.history.replies[w.history.ticketOf[id]].id == id)
    && (forall t | 0 <= t < |w.history.replies| && !w.history.replies[t].pruned ::
          && w.history.replies[t].id in w.rows
          && w.history.ticketOf[w.history.replies[t].id] == t)
  }

  /** The row of a reply, or None once it has been pruned. */
  function RowOf(w: World, ticket: nat): Option<Row>
    requires ticket < |w.history.replies|
  {
    var r := w.history.replies[ticket];
    if r.pruned || r.id !in w.rows then None else Some(w.rows[r.id])
  }

  /** Before the first boot: a migrated database with any replies in it, and the advert slot as it was created. */
  ghost predicate Init(w: World) {
    && w.process.None?
    && w.slot == FRESH_SLOT
    && Tracked(w)
    && (forall id | id in w.rows :: w.rows[id].enqueuedAt <= w.clock)
    && (forall id | id in w.rows && w.rows[id].status == Pending ::
          w.rows[id].expiresAt == w.rows[id].enqueuedAt + w.history.replies[w.history.ticketOf[id]].ttlMs)
    && (forall r | r in w.history.replies :: r.dispatches == 0 && r.excuses == 0)
    && w.history.dispatches == [] && w.history.activity == [] && w.history.grants == [] && w.history.attempts == []
    && w.history.attemptsSinceBoot == 0
  }

  ghost predicate IsRun(ws: seq<World>, es: seq<Event>) {
    && |ws| == |es| + 1
    && Init(ws[0])
    && forall i {:trigger es[i]} | 0 <= i < |es| :: Enabled(ws[i], es[i]) && ws[i + 1] == Apply(ws[i], es[i])
  }
}
