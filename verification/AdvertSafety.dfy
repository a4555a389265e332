/** The cadence of flood adverts over every run, crashes and restarts with changed settings included. */
module AdvertSafety {
  import opened Prelude
  import opened ReplyStore
  import opened Transmission
  import Q = ReplyQueue
  import F = FloodAdvert

  /**
   * When an attempt lets the next one start: its resolution plus the interval then in force, or, when a crash left it
   * uncertain, its start plus at least 47 hours.
   */
  function EarliestNext(a: Attempt): int {
    match a.outcome
    case Resolved(at, intervalMs) => at + intervalMs
    case Recovered(intervalMs) => a.startedAt + Max(intervalMs, F.UNCERTAIN_MS)
    case Open => a.startedAt
  }

  /** Every attempt but the last is over, and the next one kept its distance. */
  ghost predicate KeepsCadence(attempts: seq<Attempt>) {
    forall k | 0 <= k < |attempts| - 1 ::
      attempts[k].outcome != Open && attempts[k + 1].startedAt >= EarliestNext(attempts[k])
  }

  /**
   * The slot remembers the last attempt: it is Attempting exactly while that is open, and otherwise due when that
   * allows.
   */
  ghost predicate SlotRemembers(slot: Slot, attempts: seq<Attempt>) {
    if attempts == [] then slot.status != Attempting && slot.nextDueAt.None?
    else
      var last := attempts[|attempts| - 1];
      if last.outcome == Open then slot.status == Attempting && slot.attemptStartedAt == Some(last.startedAt)
      else slot.status != Attempting && slot.nextDueAt == Some(EarliestNext(last))
  }

  ghost predicate PhaseMatches(w: World, ad: F.Advert) {
    && (ad.phase == F.Commanding ==> w.slot.status == Attempting)
    && (ad.phase == F.Reserved ==>
          w.slot.status == Requested && (w.slot.nextDueAt.None? || w.slot.nextDueAt.value <= w.clock))
    && (ad.running <==> ad.timer)
  }

  /** Without an interval only the startup request, or one left by an earlier process, can lead to an attempt. */
  ghost predicate SingleShot(w: World, ad: F.Advert) {
    && (!ad.startupRequested ==>
          !ad.connected && ad.phase == F.Resting && w.history.attemptsSinceBoot == 0 && w.slot.status != Attempting)
    && (ad.startupRequested && ad.intervalMs <= 0 ==>
          w.history.attemptsSinceBoot + (if w.slot.status == Requested then 1 else 0) <= 1)
  }

  ghost predicate AdvertInv(w: World) {
    && KeepsCadence(w.history.attempts)
    && SlotRemembers(w.slot, w.history.attempts)
    && (w.process.Some? ==> PhaseMatches(w, w.process.value.advert) && SingleShot(w, w.process.value.advert))
  }

  lemma OutcomeKeepsCadence(h: History, outcome: Outcome)
    requires KeepsCadence(h.attempts) && h.attempts != [] && h.attempts[|h.attempts| - 1].outcome == Open
    requires outcome != Open
    ensures var attempts := LogOutcome(h, outcome).attempts;
            && KeepsCadence(attempts) && |attempts| == |h.attempts|
            && attempts[|attempts| - 1] == h.attempts[|attempts| - 1].(outcome := outcome)
  {
    var attempts := LogOutcome(h, outcome).attempts;
    assert forall k | 0 <= k < |attempts| - 1 :: attempts[k] == h.attempts[k];
  }

  lemma AttemptKeepsCadence(h: History, startAt: int)
    requires KeepsCadence(h.attempts)
    requires h.attempts != [] ==>
               var last := h.attempts[|h.attempts| - 1]; last.outcome != Open && startAt >= EarliestNext(last)
    ensures KeepsCadence(LogAttempt(h, startAt).attempts)
  {
    var before, after := h.attempts, LogAttempt(h, startAt).attempts;
    assert after == before + [Attempt(startAt, Open)];
    forall k | 0 <= k < |after| - 1
      ensures after[k].outcome != Open && after[k + 1].startedAt >= EarliestNext(after[k])
    {
      assert after[k] == before[k];
    }
  }

  lemma CallbackKeepsAdverts(w: World, e: Event)
    requires Enabled(w, e) && AdvertInv(w) && e.AdvertCallback?
    ensures AdvertInv(Apply(w, e))
  {
    if F.Commands(w.process.value.advert, w.slot, e.claimed) {
      AttemptKeepsCadence(w.history, e.startAt);
    }
  }

  lemma SettlingKeepsAdverts(w: World, e: Event)
    requires Enabled(w, e) && AdvertInv(w) && e.AdvertSettles?
    ensures AdvertInv(Apply(w, e))
  {
    var intervalMs := w.process.value.advert.intervalMs;
    OutcomeKeepsCadence(w.history, Resolved(e.okAt, intervalMs));
    OutcomeKeepsCadence(w.history, Resolved(e.failAt, intervalMs));
  }

  lemma BootKeepsAdverts(w: World, e: Event)
    requires Enabled(w, e) && AdvertInv(w) && e.Boot?
    ensures AdvertInv(Apply(w, e))
  {
    if w.slot.status == Attempting {
      OutcomeKeepsCadence(w.history, Recovered(e.intervalMs));
    }
  }

  /** The events that start, end or recover an attempt. */
  predicate TouchesAttempts(e: Event) {
    e.AdvertCallback? || e.AdvertSettles? || e.Boot?
  }

  /** The other events of the scheduler. */
  predicate TouchesScheduler(e: Event) {
    e.Connect? || e.Disconnect? || e.AdvertTick? || e.StopAdverts?
  }

  lemma ConnectKeepsAdverts(w: World, e: Event)
    requires Enabled(w, e) && AdvertInv(w) && (e.Connect? || e.Disconnect?)
    ensures AdvertInv(Apply(w, e))
  {
  }

  lemma SchedulerKeepsAdverts(w: World, e: Event)
    requires Enabled(w, e) && AdvertInv(w) && (e.AdvertTick? || e.StopAdverts?)
    ensures AdvertInv(Apply(w, e))
  {
    assert Apply(w, e).history.attempts == w.history.attempts;
  }

  lemma OthersLeaveAdverts(w: World, e: Event)
    requires Enabled(w, e) && !TouchesAttempts(e) && !TouchesScheduler(e)
    ensures var w' := Apply(w, e);
            && w'.slot == w.slot && w'.clock >= w.clock
            && w'.history.attempts == w.history.attempts && w'.history.attemptsSinceBoot == w.history.attemptsSinceBoot
            && (w'.process.Some? ==> w.process.Some? && w'.process.value.advert == w.process.value.advert)
  {
  }

  lemma OthersKeepAdverts(w: World, e: Event)
    requires Enabled(w, e) && AdvertInv(w) && !TouchesAttempts(e) && !TouchesScheduler(e)
    ensures AdvertInv(Apply(w, e))
  {
    OthersLeaveAdverts(w, e);
  }

  lemma StepKeepsAdverts(w: World, e: Event)
    requires Enabled(w, e) && AdvertInv(w)
    ensures AdvertInv(Apply(w, e))
  {
    if e.AdvertCallback? {
      CallbackKeepsAdverts(w, e);
    } else if e.AdvertSettles? {
      SettlingKeepsAdverts(w, e);
    } else if e.Boot? {
      BootKeepsAdverts(w, e);
    } else if e.Connect? || e.Disconnect? {
      ConnectKeepsAdverts(w, e);
    } else if e.AdvertTick? || e.StopAdverts? {
      SchedulerKeepsAdverts(w, e);
    } else {
      OthersKeepAdverts(w, e);
    }
  }

  lemma {:induction false} RunKeepsAdverts(ws: seq<World>, es: seq<Event>, i: nat)
    requires IsRun(ws, es) && i < |ws|
    ensures AdvertInv(ws[i])
  {
    if i > 0 {
      RunKeepsAdverts(ws, es, i - 1);
      StepKeepsAdverts(ws[i - 1], es[i - 1]);
    }
  }

  /**
   * Each attempt of a run, startup or scheduled, in whichever process, starts no earlier than the one before allows.
   */
  lemma AdvertsKeepCadence(ws: seq<World>, es: seq<Event>, i: nat, k: nat)
    requires IsRun(ws, es) && i < |ws| && k + 1 < |ws[i].history.attempts|
    ensures var a, next := ws[i].history.attempts[k], ws[i].history.attempts[k + 1];
            match a.outcome
            case Resolved(at, intervalMs) => next.startedAt >= at + intervalMs
            case Recovered(intervalMs) =>
              next.startedAt >= a.startedAt + intervalMs && next.startedAt >= a.startedAt + 47 * 60 * 60 * 1000
            case Open => false
  {
    RunKeepsAdverts(ws, es, i);
  }

  lemma StepCountsAttempts(w: World, e: Event)
    requires !e.Boot?
    ensures Apply(w, e).history.attemptsSinceBoot - w.history.attemptsSinceBoot
            == |Apply(w, e).history.attempts| - |w.history.attempts|
  {
  }

  lemma {:induction false} AttemptsSinceBoot(ws: seq<World>, es: seq<Event>, i: nat, j: nat)
    requires IsRun(ws, es) && i <= j < |ws|
    requires forall k | i <= k < j :: !es[k].Boot?
    ensures ws[j].history.attemptsSinceBoot - ws[i].history.attemptsSinceBoot
            == |ws[j].history.attempts| - |ws[i].history.attempts|
  {
    if i < j {
      AttemptsSinceBoot(ws, es, i, j - 1);
      StepCountsAttempts(ws[j - 1], es[j - 1]);
    }
  }

  /** With the interval at 0 a process makes at most one attempt, whatever its radio and store do. */
  lemma OneAttemptWithoutInterval(ws: seq<World>, es: seq<Event>, i: nat, j: nat)
    requires IsRun(ws, es) && i <= j < |ws|
    requires forall k | i <= k < j :: !es[k].Boot?
    requires ws[j].process.Some? && ws[j].process.value.advert.intervalMs == 0
    ensures |ws[j].history.attempts| <= |ws[i].history.attempts| + 1
  {
    RunKeepsAdverts(ws, es, j);
    AttemptsSinceBoot(ws, es, i, j);
    if !ws[j].process.value.advert.startupRequested {
      assert ws[j].history.attemptsSinceBoot == 0;
    }
  }

  lemma AttemptsGrow(w: World, e: Event)
    requires Enabled(w, e) && AdvertInv(w)
    ensures |Apply(w, e).history.attempts| >= |w.history.attempts|
    ensures w.slot.status == Requested ==>
              Apply(w, e).slot == w.slot || |Apply(w, e).history.attempts| > |w.history.attempts|
  {
  }

  lemma RunAttemptsGrow(ws: seq<World>, es: seq<Event>, k: nat)
    requires IsRun(ws, es) && k < |es|
    ensures |ws[k + 1].history.attempts| >= |ws[k].history.attempts|
    ensures ws[k].slot.status == Requested ==>
              ws[k + 1].slot == ws[k].slot || |ws[k + 1].history.attempts| > |ws[k].history.attempts|
  {
    RunKeepsAdverts(ws, es, k);
    AttemptsGrow(ws[k], es[k]);
  }

  /** A requested advert stays requested, through busy air, disconnects and restarts, until an attempt takes it. */
  lemma {:induction false} RequestIsDurable(ws: seq<World>, es: seq<Event>, i: nat, j: nat)
    requires IsRun(ws, es) && i <= j < |ws| && ws[i].slot.status == Requested
    ensures |ws[j].history.attempts| >= |ws[i].history.attempts|
    ensures ws[j].slot == ws[i].slot || |ws[j].history.attempts| > |ws[i].history.attempts|
  {
    if i < j {
      RequestIsDurable(ws, es, i, j - 1);
      RunAttemptsGrow(ws, es, j - 1);
    }
  }

  // ---------------------------------------------------------------- that an advert happens

  /** A periodic advert is due: the interval is on, nothing is asked for or under way, and its time has come. */
  predicate Due(ad: F.Advert, slot: Slot, dueAt: int) {
    && ad.running && ad.phase == F.Resting && ad.intervalMs > 0
    && slot.status == Idle && slot.nextDueAt.Some? && slot.nextDueAt.value <= dueAt
  }

  /** A tick asks for a periodic advert exactly when one is due, and changes the slot in no other way. */
  lemma TickRequestsExactlyWhen(w: World, e: Event)
    requires Enabled(w, e) && e.AdvertTick?
    ensures Apply(w, e).slot
            == if Due(w.process.value.advert, w.slot, e.dueAt)
               then w.slot.(status := Requested, requestedAt := Some(e.requestAt)) else w.slot
  {
  }

  /**
   * A tick takes a grant exactly when the scheduler runs and rests, the radio is connected, an advert is asked for and
   * not before its time, the reservation is free and the quiet time is over.
   */
  lemma TickReservesExactlyWhen(w: World, e: Event)
    requires Enabled(w, e) && e.AdvertTick?
    ensures var p, w' := w.process.value, Apply(w, e);
            var reserves := && p.advert.running && p.advert.phase == F.Resting && p.advert.connected
                            && w'.slot.status == Requested
                            && (w'.slot.nextDueAt.Some? ==> w'.slot.nextDueAt.value <= e.gateAt)
                            && !p.air.sending && e.checkAt - p.air.lastActivityAt >= p.air.quietMs;
            && w'.process == Some(if reserves
                                  then p.(advert := p.advert.(phase := F.Reserved),
                                          air := p.air.(sending := true, lastActivityAt := e.noteAt))
                                  else p)
            && |w'.history.grants| == |w.history.grants| + if reserves then 1 else 0
  {
  }

  /**
   * The granted callback makes an attempt exactly when the scheduler still runs, the radio is still connected and the
   * requested slot can be claimed; otherwise it gives the grant back.
   */
  lemma CallbackAttemptsExactlyWhen(w: World, e: Event)
    requires Enabled(w, e) && e.AdvertCallback?
    ensures var p, w' := w.process.value, Apply(w, e);
            if p.advert.running && p.advert.connected && e.claimed && w.slot.status == Requested then
              && w'.history.attempts == w.history.attempts + [Attempt(e.startAt, Open)]
              && w'.slot == w.slot.(status := Attempting, attemptStartedAt := Some(e.startAt), lastAttemptAt := Some(e.startAt))
              && w'.process == Some(p.(advert := p.advert.(phase := F.Commanding)))
            else
              && w'.history.attempts == w.history.attempts && w'.slot == w.slot
              && w'.process == Some(p.(advert := p.advert.(phase := F.Resting), air := p.air.(sending := false)))
  {
  }

  /** The end of an attempt: what was sent when, and when the next is due; what no update could store stays in progress. */
  lemma SettlingTells(w: World, e: Event)
    requires Enabled(w, e) && AdvertInv(w) && e.AdvertSettles?
    ensures var p, w' := w.process.value, Apply(w, e);
            var rested := w.slot.(status := Idle, requestedAt := None, attemptStartedAt := None);
            && w'.slot == (if e.ok && e.okStored then
                             rested.(lastSentAt := Some(e.okAt), nextDueAt := Some(e.okAt + p.advert.intervalMs))
                           else if e.failStored then rested.(nextDueAt := Some(e.failAt + p.advert.intervalMs))
                           else w.slot)
            && w'.process == Some(p.(advert := p.advert.(phase := F.Resting), air := p.air.(sending := false)))
  {
  }

  /** The first connect of a running process asks for an advert unless one is asked for or under way. */
  lemma FirstConnectRequests(w: World, e: Event)
    requires Enabled(w, e) && e.Connect?
    ensures var p, w' := w.process.value, Apply(w, e);
            if p.advert.running then
              && w'.process == Some(p.(advert := p.advert.(connected := true, startupRequested := true, timer := true)))
              && w'.slot == if !p.advert.startupRequested && w.slot.status == Idle
                            then w.slot.(status := Requested, requestedAt := Some(e.now)) else w.slot
            else w'.process == Some(p) && w'.slot == w.slot
  {
  }

  /** Only a running scheduler hears of a disconnect. */
  lemma DisconnectIsHeard(w: World, e: Event)
    requires Enabled(w, e) && e.Disconnect?
    ensures var p, w' := w.process.value, Apply(w, e);
            && w'.slot == w.slot
            && w'.process == Some(if p.advert.running then p.(advert := p.advert.(connected := false)) else p)
  {
  }

  /** A boot recovers an interrupted attempt, due its start plus the longer of the two intervals, and starts afresh. */
  lemma BootRecovers(w: World, e: Event)
    requires Enabled(w, e) && AdvertInv(w) && e.Boot?
    ensures var w' := Apply(w, e);
            && w'.slot == (if w.slot.status == Attempting then
                             w.slot.(status := Idle, requestedAt := None, attemptStartedAt := None,
                                     lastAttemptAt := w.slot.attemptStartedAt,
                                     nextDueAt := Some(w.slot.attemptStartedAt.value
                                                       + if e.intervalMs >= 169200000 then e.intervalMs else 169200000))
                           else w.slot)
            && w'.process.Some?
            && w'.process.value.advert == F.Advert(e.intervalMs, true, true, false, false, F.Resting)
  {
  }

  /** A due advert is sent out by one tick in quiet air and the callback it is granted. */
  lemma DueAdvertIsAttempted(w: World, tick: Event, callback: Event)
    requires Enabled(w, tick) && tick.AdvertTick? && callback.AdvertCallback?
    requires var p := w.process.value;
             && Due(p.advert, w.slot, tick.dueAt) && p.advert.connected
             && !p.air.sending && tick.checkAt - p.air.lastActivityAt >= p.air.quietMs
    requires Enabled(Apply(w, tick), callback) && callback.claimed
    ensures Apply(Apply(w, tick), callback).history.attempts == w.history.attempts + [Attempt(callback.startAt, Open)]
  {
    TickRequestsExactlyWhen(w, tick);
    TickReservesExactlyWhen(w, tick);
    CallbackAttemptsExactlyWhen(Apply(w, tick), callback);
  }

  // ---------------------------------------------------------------- stopping

  /** Stopping unsubscribes the scheduler and clears its timer, and does nothing else. */
  lemma StopIsHeard(w: World, e: Event)
    requires Enabled(w, e) && AdvertInv(w) && e.StopAdverts?
    ensures var p, w' := w.process.value, Apply(w, e);
            && w'.slot == w.slot && w'.history == w.history
            && w'.process == Some(p.(advert := p.advert.(running := false, timer := false)))
  {
  }

  predicate Halted(w: World) {
    w.process.Some? ==> !w.process.value.advert.running
  }

  lemma StepWhileHalted(w: World, e: Event)
    requires Enabled(w, e) && !e.Boot? && Halted(w)
    ensures Halted(Apply(w, e)) && |Apply(w, e).history.attempts| == |w.history.attempts|
  {
  }

  lemma {:induction false} HaltedUntilBoot(ws: seq<World>, es: seq<Event>, i: nat, j: nat)
    requires IsRun(ws, es) && i <= j < |ws| && Halted(ws[i])
    requires forall k | i <= k < j :: !es[k].Boot?
    ensures Halted(ws[j]) && |ws[j].history.attempts| == |ws[i].history.attempts|
  {
    if i < j {
      HaltedUntilBoot(ws, es, i, j - 1);
      StepWhileHalted(ws[j - 1], es[j - 1]);
    }
  }

  /**
   * From the call of stop() to the next boot no attempt starts, not even with a grant in hand, and a request stays as it
   * is.
   */
  lemma AdvertStopStartsNothing(ws: seq<World>, es: seq<Event>, i: nat, j: nat)
    requires IsRun(ws, es) && i < j < |ws| && es[i].StopAdverts?
    requires forall k | i <= k < j :: !es[k].Boot?
    ensures |ws[j].history.attempts| == |ws[i].history.attempts|
    ensures ws[i].slot.status == Requested ==> ws[j].slot == ws[i].slot
  {
    RunKeepsAdverts(ws, es, i);
    StopIsHeard(ws[i], es[i]);
    HaltedUntilBoot(ws, es, i + 1, j);
    if ws[i].slot.status == Requested {
      RequestIsDurable(ws, es, i, j);
    }
  }

  /** stop() has resolved: unsubscribed, the timer cleared and no attempt in flight. */
  predicate AdvertStopDone(w: World) {
    w.process.Some? && !w.process.value.advert.running && w.process.value.advert.phase == F.Resting
  }

  lemma StepAfterAdvertStop(w: World, e: Event)
    requires Enabled(w, e) && !e.Boot? && AdvertInv(w)
    requires w.process.None? || AdvertStopDone(w)
    ensures Apply(w, e).process.None? || AdvertStopDone(Apply(w, e))
    ensures Apply(w, e).history.attempts == w.history.attempts && Apply(w, e).slot == w.slot
  {
  }

  /** From the moment stop() resolves to the next boot no attempt starts and the durable slot stays as it is. */
  lemma {:induction false} AdvertStopIsClean(ws: seq<World>, es: seq<Event>, i: nat, j: nat)
    requires IsRun(ws, es) && i <= j < |ws| && AdvertStopDone(ws[i])
    requires forall k | i <= k < j :: !es[k].Boot?
    ensures ws[j].process.None? || AdvertStopDone(ws[j])
    ensures ws[j].history.attempts == ws[i].history.attempts && ws[j].slot == ws[i].slot
  {
    if i < j {
      AdvertStopIsClean(ws, es, i, j - 1);
      RunKeepsAdverts(ws, es, j - 1);
      StepAfterAdvertStop(ws[j - 1], es[j - 1]);
    }
  }
}
