/**
 * The dashboard's refresh protocol, src/web/client/dashboard.js:770-831: one
 * request at a time, the latest wins, and what asks in between is coalesced.
 * A request and its abort controller are known by the request's generation.
 */
module DashboardRefresh {
  import opened Prelude

  /** What a request did to the page: a view rendered, or an error reported. */
  datatype Shown = Rendered(generation: nat) | Errored(generation: nat)

  /** The four module variables, the abort flags, the requests still awaiting, and what has been shown. */
  datatype Refresh = Refresh(generation: nat, controller: Option<nat>, request: Option<nat>, queued: bool,
                             aborted: set<nat>, awaiting: set<nat>, shown: seq<Shown>)

  const FRESH_PAGE := Refresh(0, None, None, false, {}, {}, [])

  // ---------------------------------------------------------------- the protocol on values

  function Abort(s: Refresh): Refresh {
    if s.controller.Some? then s.(aborted := s.aborted + {s.controller.value}) else s
  }

  function Begin(s: Refresh): Refresh {
    var g := s.generation + 1;
    s.(generation := g, controller := Some(g), request := Some(g), awaiting := s.awaiting + {g})
  }

  /** refreshRangeData(); hasParams is false while a custom range is not applied. */
  function Call(s: Refresh, hasParams: bool, supersede: bool): Refresh {
    if !hasParams then s
    else if s.request.None? then Begin(s)
    else if !supersede then s.(queued := true)
    else Begin(Abort(s))
  }

  /** What the continuation shows: good says that the response arrived and matched. */
  function Show(s: Refresh, g: nat, good: bool): Refresh {
    if good then
      if g in s.aborted || g != s.generation then s else s.(shown := s.shown + [Rendered(g)])
    else
      if g in s.aborted then s else s.(shown := s.shown + [Errored(g)])
  }

  /** Whether the end of request g makes the queued follow-up call. */
  predicate FollowsUp(s: Refresh, g: nat) {
    s.controller == Some(g) && s.queued
  }

  /** A request ends: it shows its outcome, then runs its finally block. */
  function Settle(s: Refresh, g: nat, good: bool, hasParams: bool): Refresh {
    var done := Show(s, g, good).(awaiting := s.awaiting - {g});
    if s.controller != Some(g) then done
    else
      var free := done.(controller := None, request := None, queued := false);
      if s.queued then Call(free, hasParams, false) else free
  }

  datatype Event = Called(hasParams: bool, supersede: bool) | Settled(generation: nat, good: bool, hasParams: bool)

  predicate Enabled(s: Refresh, e: Event) {
    e.Settled? ==> e.generation in s.awaiting
  }

  function Step(s: Refresh, e: Event): Refresh {
    match e
    case Called(hasParams, supersede) => Call(s, hasParams, supersede)
    case Settled(g, good, hasParams) => Settle(s, g, good, hasParams)
  }

  ghost predicate IsRun(s: Refresh, es: seq<Event>)
    decreases |es|
  {
    es == [] || (Enabled(s, es[0]) && IsRun(Step(s, es[0]), es[1..]))
  }

  ghost function After(s: Refresh, es: seq<Event>): Refresh
    decreases |es|
  {
    if es == [] then s else After(Step(s, es[0]), es[1..])
  }

  // ---------------------------------------------------------------- latest wins

  /**
   * The request that may still show something, if there is one, is the newest; every other one awaiting has been
   * aborted.
   */
  ghost predicate LatestWins(s: Refresh) {
    && s.controller == s.request
    && (s.controller.Some? ==> s.controller.value == s.generation && s.generation in s.awaiting && s.generation !in s.aborted)
    && (forall g | g in s.awaiting :: g <= s.generation && (g !in s.aborted ==> s.controller == Some(g)))
    && (forall g | g in s.aborted :: g < s.generation)
    && (s.queued ==> s.controller.Some?)
  }

  /** What was shown came from ever newer generations, none of which awaits any more. */
  ghost predicate InOrder(s: Refresh) {
    && (forall i | 0 <= i < |s.shown| :: s.shown[i].generation <= s.generation && s.shown[i].generation !in s.awaiting)
    && forall i, j | 0 <= i < j < |s.shown| :: s.shown[i].generation < s.shown[j].generation
  }

  lemma CallKeeps(s: Refresh, hasParams: bool, supersede: bool)
    requires LatestWins(s) && InOrder(s)
    ensures LatestWins(Call(s, hasParams, supersede)) && InOrder(Call(s, hasParams, supersede))
  {
  }

  /** A request that shows nothing of its own leaves the latest in charge. */
  lemma StaleKeeps(s: Refresh, g: nat, good: bool)
    requires LatestWins(s) && InOrder(s) && g in s.awaiting && s.controller != Some(g)
    ensures var t := Show(s, g, good).(awaiting := s.awaiting - {g}); LatestWins(t) && InOrder(t)
  {
  }

  /** The latest shows its outcome and frees the page for the next. */
  lemma LatestKeeps(s: Refresh, g: nat, good: bool)
    requires LatestWins(s) && InOrder(s) && g in s.awaiting && s.controller == Some(g)
    ensures var t := Show(s, g, good).(awaiting := s.awaiting - {g}, controller := None, request := None, queued := false);
            LatestWins(t) && InOrder(t)
  {
  }

  lemma StepKeeps(s: Refresh, e: Event)
    requires LatestWins(s) && InOrder(s) && Enabled(s, e)
    ensures LatestWins(Step(s, e)) && InOrder(Step(s, e))
  {
    match e
    case Called(hasParams, supersede) => CallKeeps(s, hasParams, supersede);
    case Settled(g, good, hasParams) =>
      if s.controller != Some(g) {
        StaleKeeps(s, g, good);
      } else {
        LatestKeeps(s, g, good);
        CallKeeps(Show(s, g, good).(awaiting := s.awaiting - {g}, controller := None, request := None, queued := false),
                  hasParams, false);
      }
  }

  /**
   * In every run at most one unaborted request awaits, it is the newest, and generations are shown in strictly rising
   * order.
   */
  lemma {:induction false} RefreshIsLatestWins(s: Refresh, es: seq<Event>)
    requires LatestWins(s) && InOrder(s) && IsRun(s, es)
    ensures LatestWins(After(s, es)) && InOrder(After(s, es))
    ensures var t := After(s, es); forall g, h | g in t.awaiting - t.aborted && h in t.awaiting - t.aborted :: g == h == t.generation
    decreases |es|
  {
    if es != [] {
      StepKeeps(s, es[0]);
      RefreshIsLatestWins(Step(s, es[0]), es[1..]);
    }
  }

  /** So it is from the first call of a page on. */
  lemma PageIsLatestWins(es: seq<Event>)
    requires IsRun(FRESH_PAGE, es)
    ensures var t := After(FRESH_PAGE, es);
            && LatestWins(t) && InOrder(t)
            && forall g, h | g in t.awaiting - t.aborted && h in t.awaiting - t.aborted :: g == h == t.generation
  {
    RefreshIsLatestWins(FRESH_PAGE, es);
  }

  /**
   * The abort flag and the generation check agree on every request that ends, so what it shows does not depend on which
   * guards it.
   */
  lemma GuardsAgree(s: Refresh, g: nat, good: bool)
    requires LatestWins(s) && g in s.awaiting
    ensures g in s.aborted <==> g != s.generation
    ensures Show(s, g, good).shown == if g != s.generation then s.shown else s.shown + [if good then Rendered(g) else Errored(g)]
  {
  }

  /** What a call does: nothing without parameters, else a new request unless it only raises the flag for the active one. */
  lemma CallStartsExactlyWhen(s: Refresh, hasParams: bool, supersede: bool)
    requires LatestWins(s)
    ensures var t := Call(s, hasParams, supersede);
            && t.shown == s.shown
            && if !hasParams then t == s
               else if s.request.None? || supersede then
                 && t.generation == s.generation + 1
                 && t.controller == t.request == Some(t.generation)
                 && t.awaiting == s.awaiting + {t.generation}
                 && t.aborted == s.aborted + (if s.request.Some? then {s.generation} else {})
                 && t.queued == s.queued
               else
                 && t.queued && t.generation == s.generation && t.controller == s.controller && t.request == s.request
                 && t.awaiting == s.awaiting && t.aborted == s.aborted
  {
  }

  /** What the end of a request does besides what it shows: only the latest frees the page, and calls again if it must. */
  lemma SettlingFreesExactlyWhen(s: Refresh, g: nat, good: bool, hasParams: bool)
    requires LatestWins(s) && g in s.awaiting
    ensures var t := Settle(s, g, good, hasParams);
            && g !in t.awaiting && t.aborted == s.aborted
            && if g != s.generation then
                 && t.shown == s.shown && t.awaiting == s.awaiting - {g} && t.queued == s.queued
                 && t.generation == s.generation && t.controller == s.controller && t.request == s.request
               else
                 && t.shown == s.shown + [if good then Rendered(g) else Errored(g)]
                 && !t.queued
                 && if s.queued && hasParams then
                      && t.generation == g + 1 && t.controller == t.request == Some(g + 1)
                      && t.awaiting == s.awaiting - {g} + {g + 1}
                    else
                      && t.generation == g && t.controller == t.request == None && t.awaiting == s.awaiting - {g}
  {
  }

  // ---------------------------------------------------------------- coalescing

  predicate Coalesces(e: Event) {
    e.Called? && e.hasParams && !e.supersede
  }

  predicate Supersedes(e: Event) {
    e.Called? && e.hasParams && e.supersede
  }

  /** No event ends the request that is the latest at that point. */
  ghost predicate StillInFlight(s: Refresh, es: seq<Event>)
    decreases |es|
  {
    es == [] || (!(es[0].Settled? && s.controller == Some(es[0].generation)) && StillInFlight(Step(s, es[0]), es[1..]))
  }

  ghost function Superseding(es: seq<Event>): nat {
    if es == [] then 0 else (if Supersedes(es[0]) then 1 else 0) + Superseding(es[1..])
  }

  /**
   * While the latest request is in flight, any calls, supersessions and ends of superseded requests only raise the
   * flag, and nothing but a supersession starts a request.
   */
  lemma {:induction false} FlightCoalesces(s: Refresh, es: seq<Event>)
    requires LatestWins(s) && InOrder(s) && s.controller.Some? && IsRun(s, es) && StillInFlight(s, es)
    ensures var t := After(s, es);
            && LatestWins(t) && t.controller == Some(t.generation)
            && t.queued == (s.queued || exists e :: e in es && Coalesces(e))
            && t.generation == s.generation + Superseding(es)
    decreases |es|
  {
    if es != [] {
      StepKeeps(s, es[0]);
      var s' := Step(s, es[0]);
      FlightCoalesces(s', es[1..]);
      assert es == [es[0]] + es[1..];
      assert s'.queued == (s.queued || Coalesces(es[0]));
    }
  }

  /**
   * However many calls were coalesced in a flight, its end makes exactly one follow-up attempt, and none if there were
   * none.
   */
  lemma OneFollowUp(s: Refresh, es: seq<Event>, good: bool, hasParams: bool)
    requires LatestWins(s) && InOrder(s) && s.controller.Some? && !s.queued && IsRun(s, es) && StillInFlight(s, es)
    ensures var t := After(s, es);
            var u := Settle(t, t.generation, good, hasParams);
            && (FollowsUp(t, t.generation) <==> exists e :: e in es && Coalesces(e))
            && !u.queued
            && u.generation == t.generation + (if FollowsUp(t, t.generation) && hasParams then 1 else 0)
            && (u.request.Some? <==> FollowsUp(t, t.generation) && hasParams)
  {
    FlightCoalesces(s, es);
  }

  /** The calls that finally blocks make over a run. */
  ghost function FollowUps(s: Refresh, es: seq<Event>): nat
    decreases |es|
  {
    if es == [] then 0
    else (if es[0].Settled? && FollowsUp(s, es[0].generation) then 1 else 0) + FollowUps(Step(s, es[0]), es[1..])
  }

  /** How often a run raises the flag from false. */
  ghost function Raises(s: Refresh, es: seq<Event>): nat
    decreases |es|
  {
    if es == [] then 0
    else (if !s.queued && es[0].Called? && Step(s, es[0]).queued then 1 else 0) + Raises(Step(s, es[0]), es[1..])
  }

  /** Over any run each raised flag is answered by one follow-up call, or is still up. */
  lemma {:induction false} EveryFlagIsAnswered(s: Refresh, es: seq<Event>)
    requires LatestWins(s) && InOrder(s) && IsRun(s, es)
    ensures FollowUps(s, es) + (if After(s, es).queued then 1 else 0) == Raises(s, es) + if s.queued then 1 else 0
    decreases |es|
  {
    if es != [] {
      StepKeeps(s, es[0]);
      EveryFlagIsAnswered(Step(s, es[0]), es[1..]);
    }
  }

  // ---------------------------------------------------------------- the module

  class RangeRefresher {
    var rangeRefreshGeneration: nat
    var activeRangeController: Option<nat>
    var activeRangeRefresh: Option<nat>
    var rangeRefreshQueued: bool
    var aborted: set<nat>
    var awaiting: set<nat>
    var shown: seq<Shown>

    ghost function State(): Refresh
      reads this
    {
      Refresh(rangeRefreshGeneration, activeRangeController, activeRangeRefresh, rangeRefreshQueued, aborted, awaiting, shown)
    }

    constructor ()
      ensures State() == FRESH_PAGE
    {
      rangeRefreshGeneration, rangeRefreshQueued := 0, false;
      activeRangeController, activeRangeRefresh := None, None;
      aborted, awaiting, shown := {}, {}, [];
    }

    /** Returns the request that will answer, or none while a custom range is not applied. */
    method RefreshRangeData(hasParams: bool, supersede: bool) returns (request: Option<nat>)
      modifies this
      ensures State() == Call(old(State()), hasParams, supersede)
      ensures request == if hasParams then activeRangeRefresh else None
    {
      if !hasParams {
        return None;
      }
      if activeRangeRefresh.Some? {
        if !supersede {
          rangeRefreshQueued := true;
          return activeRangeRefresh;
        }
        if activeRangeController.Some? {
          aborted := aborted + {activeRangeController.value};
        }
      }
      rangeRefreshGeneration := rangeRefreshGeneration + 1;
      var generation := rangeRefreshGeneration;
      activeRangeController := Some(generation);
      awaiting := awaiting + {generation};
      activeRangeRefresh := Some(generation);
      request := activeRangeRefresh;
    }

    /** The continuation of a request: a good response, or an error on the way. */
    method Finish(generation: nat, good: bool, hasParams: bool)
      requires generation in awaiting
      modifies this
      ensures State() == Settle(old(State()), generation, good, hasParams)
    {
      awaiting := awaiting - {generation};
      if good {
        if !(generation in aborted || generation != rangeRefreshGeneration) {
          shown := shown + [Rendered(generation)];
        }
      } else if generation !in aborted {
        shown := shown + [Errored(generation)];
      }
      if activeRangeController == Some(generation) {
        activeRangeController := None;
        activeRangeRefresh := None;
        if rangeRefreshQueued {
          rangeRefreshQueued := false;
          var _ := RefreshRangeData(hasParams, false);
        }
      }
    }
  }
}
