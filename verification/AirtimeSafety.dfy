/** What the coordinator guarantees over every run of the two transmitters. */
module AirtimeSafety {
  import opened Prelude
  import opened Airtime
  import opened Transmission
  import Q = ReplyQueue
  import F = FloodAdvert

  /** A granted operation of either transmitter that has not settled. */
  predicate ReplyUnsettled(p: Process) {
    p.queue.phase.InFlight?
  }

  predicate AdvertUnsettled(p: Process) {
    p.advert.phase != F.Resting
  }

  ghost predicate ReservationMatches(p: Process) {
    && (p.air.sending <==> ReplyUnsettled(p) || AdvertUnsettled(p))
    && !(ReplyUnsettled(p) && AdvertUnsettled(p))
  }

  /** Nothing noted or granted so far lies after `bound`. */
  ghost predicate AllBy(h: History, bound: int) {
    && (forall j | 0 <= j < |h.activity| :: h.activity[j] <= bound)
    && (forall k | 0 <= k < |h.grants| :: h.grants[k].at <= bound)
  }

  /** Each grant came its own quiet time after every activity noted before it and after every earlier grant. */
  ghost predicate Spaced(h: History) {
    && (forall k | 0 <= k < |h.grants| :: h.grants[k].earlier <= |h.activity|)
    && (forall k, j | 0 <= k < |h.grants| && 0 <= j < h.grants[k].earlier ::
          h.activity[j] + h.grants[k].quietMs <= h.grants[k].at)
    && (forall k, l | 0 <= k < l < |h.grants| :: h.grants[k].at + h.grants[l].quietMs <= h.grants[l].at)
  }

  ghost predicate AirInv(w: World) {
    && AllBy(w.history, w.clock)
    && Spaced(w.history)
    && (w.process.Some? ==>
          && ReservationMatches(w.process.value)
          && AllBy(w.history, w.process.value.air.lastActivityAt)
          && w.process.value.air.lastActivityAt <= w.clock)
  }

  lemma LoggedGrantIsSpaced(h: History, air: Air, checkAt: int, noteAt: int)
    requires Spaced(h) && AllBy(h, air.lastActivityAt) && Grants(air, checkAt) && checkAt <= noteAt
    requires air.lastActivityAt <= noteAt
    ensures Spaced(LogGrant(h, air, checkAt, noteAt)) && AllBy(LogGrant(h, air, checkAt, noteAt), noteAt)
  {
    var h' := LogGrant(h, air, checkAt, noteAt);
    forall k, j | 0 <= k < |h'.grants| && 0 <= j < h'.grants[k].earlier
      ensures h'.activity[j] + h'.grants[k].quietMs <= h'.grants[k].at
    {
      if k < |h.grants| {
        assert h'.grants[k] == h.grants[k];
      }
    }
  }

  /** A step that logs neither activity nor a grant, and keeps the reservation honest, keeps everything. */
  lemma FrameKeepsAir(w: World, w': World)
    requires AirInv(w) && w.clock <= w'.clock
    requires w'.history.activity == w.history.activity && w'.history.grants == w.history.grants
    requires w'.process.Some? ==>
               && w.process.Some? && ReservationMatches(w'.process.value)
               && w'.process.value.air.lastActivityAt == w.process.value.air.lastActivityAt
    ensures AirInv(w')
  {
  }

  /** A granted step: the reservation is taken and logged. */
  lemma GrantKeepsAir(w: World, w': World, checkAt: int, noteAt: int)
    requires AirInv(w) && w.process.Some? && Grants(w.process.value.air, checkAt)
    requires w.clock <= checkAt <= noteAt == w'.clock
    requires w'.process.Some? && ReservationMatches(w'.process.value)
    requires w'.process.value.air == Reserve(w.process.value.air, noteAt)
    requires w'.history.activity == LogGrant(w.history, w.process.value.air, checkAt, noteAt).activity
    requires w'.history.grants == LogGrant(w.history, w.process.value.air, checkAt, noteAt).grants
    ensures AirInv(w')
  {
    LoggedGrantIsSpaced(w.history, w.process.value.air, checkAt, noteAt);
  }

  lemma HearKeepsAir(w: World, e: Event)
    requires Enabled(w, e) && AirInv(w) && e.Hear?
    ensures AirInv(Apply(w, e))
  {
  }

  lemma BootKeepsAir(w: World, e: Event)
    requires Enabled(w, e) && AirInv(w) && e.Boot?
    ensures AirInv(Apply(w, e))
  {
    var w' := Apply(w, e);
    assert w'.history.activity == w.history.activity + [e.now] && w'.history.grants == w.history.grants;
  }

  lemma ReplyTickKeepsAir(w: World, e: Event)
    requires Enabled(w, e) && AirInv(w) && e.ReplyTick?
    ensures AirInv(Apply(w, e))
  {
    var p := w.process.value;
    if Q.TickDispatches(p.queue, w.rows, p.air, e.now, e.checkAt) {
      GrantKeepsAir(w, Apply(w, e), e.checkAt, e.noteAt);
    } else {
      FrameKeepsAir(w, Apply(w, e));
    }
  }

  lemma AdvertTickKeepsAir(w: World, e: Event)
    requires Enabled(w, e) && AirInv(w) && e.AdvertTick?
    ensures AirInv(Apply(w, e))
  {
    var p := w.process.value;
    if F.TickReserves(p.advert, w.slot, p.air, e.dueAt, e.requestAt, e.gateAt, e.checkAt) {
      GrantKeepsAir(w, Apply(w, e), e.checkAt, e.noteAt);
    } else {
      FrameKeepsAir(w, Apply(w, e));
    }
  }

  /** The step takes the reservation. */
  predicate Reserves(w: World, w': World) {
    w.process.Some? && w'.process.Some? && !w.process.value.air.sending && w'.process.value.air.sending
  }

  /**
   * What the history says of the air: each packet heard, each boot and each reservation taken is an activity of its time,
   * and each reservation taken, by either transmitter, is a grant that knows all activities before it.
   */
  lemma EveryGrantIsLogged(w: World, e: Event)
    requires Enabled(w, e)
    ensures var h, h', taken := w.history, Apply(w, e).history, Reserves(w, Apply(w, e));
            match e
            case Hear(now) => h'.activity == h.activity + [now] && h'.grants == h.grants
            case Boot(now, _, _, _) => h'.activity == h.activity + [now] && h'.grants == h.grants
            case ReplyTick(_, _, checkAt, noteAt) =>
              if taken then
                && h'.activity == h.activity + [noteAt]
                && h'.grants == h.grants + [Grant(checkAt, w.process.value.air.quietMs, |h.activity|)]
              else h'.activity == h.activity && h'.grants == h.grants
            case AdvertTick(_, _, _, checkAt, noteAt) =>
              if taken then
                && h'.activity == h.activity + [noteAt]
                && h'.grants == h.grants + [Grant(checkAt, w.process.value.air.quietMs, |h.activity|)]
              else h'.activity == h.activity && h'.grants == h.grants
            case _ => !taken && h'.activity == h.activity && h'.grants == h.grants
  {
  }

  /** The events that note an activity or ask for a grant. */
  predicate TouchesAir(e: Event) {
    e.Hear? || e.Boot? || e.ReplyTick? || e.AdvertTick?
  }

  lemma OthersLeaveAir(w: World, e: Event)
    requires Enabled(w, e) && !TouchesAir(e)
    ensures var w' := Apply(w, e);
            && w'.clock >= w.clock && w'.history.activity == w.history.activity && w'.history.grants == w.history.grants
            && (w'.process.Some? ==>
                  && w.process.Some?
                  && w'.process.value.air.lastActivityAt == w.process.value.air.lastActivityAt)
  {
  }

  lemma OthersKeepReservation(w: World, e: Event)
    requires Enabled(w, e) && !TouchesAir(e) && ReservationMatches(w.process.value)
    ensures Apply(w, e).process.Some? ==> ReservationMatches(Apply(w, e).process.value)
  {
  }

  lemma OthersKeepAir(w: World, e: Event)
    requires Enabled(w, e) && AirInv(w) && !TouchesAir(e)
    ensures AirInv(Apply(w, e))
  {
    OthersLeaveAir(w, e);
    OthersKeepReservation(w, e);
    FrameKeepsAir(w, Apply(w, e));
  }

  lemma StepKeepsAir(w: World, e: Event)
    requires Enabled(w, e) && AirInv(w)
    ensures AirInv(Apply(w, e))
  {
    if e.Hear? {
      HearKeepsAir(w, e);
    } else if e.Boot? {
      BootKeepsAir(w, e);
    } else if e.ReplyTick? {
      ReplyTickKeepsAir(w, e);
    } else if e.AdvertTick? {
      AdvertTickKeepsAir(w, e);
    } else {
      OthersKeepAir(w, e);
    }
  }

  lemma {:induction false} RunKeepsAir(ws: seq<World>, es: seq<Event>, i: nat)
    requires IsRun(ws, es) && i < |ws|
    ensures AirInv(ws[i])
  {
    if i > 0 {
      RunKeepsAir(ws, es, i - 1);
      StepKeepsAir(ws[i - 1], es[i - 1]);
    }
  }

  /**
   * At every moment of every run at most one granted operation is unsettled, and exactly then the reservation is held.
   */
  lemma AtMostOneTransmission(ws: seq<World>, es: seq<Event>, i: nat)
    requires IsRun(ws, es) && i < |ws| && ws[i].process.Some?
    ensures !(ReplyUnsettled(ws[i].process.value) && AdvertUnsettled(ws[i].process.value))
    ensures ws[i].process.value.air.sending
            <==> ReplyUnsettled(ws[i].process.value) || AdvertUnsettled(ws[i].process.value)
  {
    RunKeepsAir(ws, es, i);
  }

  /**
   * Every grant of a run is a quiet time after each packet, grant and construction noted before it, across restarts
   * too.
   */
  lemma GrantsFollowQuiet(ws: seq<World>, es: seq<Event>, i: nat, k: nat)
    requires IsRun(ws, es) && i < |ws| && k < |ws[i].history.grants|
    ensures var h := ws[i].history;
            && h.grants[k].earlier <= |h.activity|
            && (forall j | 0 <= j < h.grants[k].earlier :: h.activity[j] + h.grants[k].quietMs <= h.grants[k].at)
            && (forall j | 0 <= j < k :: h.grants[j].at + h.grants[k].quietMs <= h.grants[k].at)
  {
    RunKeepsAir(ws, es, i);
  }

  predicate Within(g: Grant, from: int, span: int) {
    from <= g.at <= from + span
  }

  /** How many of the grants fall into [from, from + span]. */
  function GrantsWithin(grants: seq<Grant>, from: int, span: int): nat {
    if grants == [] then 0
    else
      GrantsWithin(grants[..|grants| - 1], from, span)
      + if Within(grants[|grants| - 1], from, span) then 1 else 0
  }

  /** The latest of the grants in the interval shows how much of it they take up. */
  lemma {:induction false} WithinSpacing(grants: seq<Grant>, from: int, span: int, quiet: int) returns (m: nat)
    requires quiet > 0 && GrantsWithin(grants, from, span) > 0
    requires forall k, l | 0 <= k < l < |grants| :: grants[k].at + grants[l].quietMs <= grants[l].at
    requires forall k | 0 <= k < |grants| && Within(grants[k], from, span) :: grants[k].quietMs >= quiet
    ensures m < |grants| && Within(grants[m], from, span)
    ensures from + (GrantsWithin(grants, from, span) - 1) * quiet <= grants[m].at
  {
    var n := |grants| - 1;
    var count := GrantsWithin(grants[..n], from, span);
    if count == 0 {
      m := n;
    } else {
      m := WithinSpacing(grants[..n], from, span, quiet);
      if Within(grants[n], from, span) {
        assert grants[m].at + quiet <= grants[n].at;
        assert (count + 1 - 1) * quiet == (count - 1) * quiet + quiet;
        m := n;
      }
    }
  }

  /**
   * An interval of length `span` in which every grant kept a quiet time of at least `quiet` has at most span / quiet + 1
   * grants.
   */
  lemma GrantsPerInterval(ws: seq<World>, es: seq<Event>, i: nat, from: int, span: nat, quiet: int)
    requires IsRun(ws, es) && i < |ws| && quiet > 0
    requires forall k | 0 <= k < |ws[i].history.grants| && Within(ws[i].history.grants[k], from, span) ::
               ws[i].history.grants[k].quietMs >= quiet
    ensures GrantsWithin(ws[i].history.grants, from, span) <= span / quiet + 1
  {
    RunKeepsAir(ws, es, i);
    var grants := ws[i].history.grants;
    var count := GrantsWithin(grants, from, span);
    if count > 0 {
      var m := WithinSpacing(grants, from, span, quiet);
      QuotientBound(count - 1, span, quiet);
    }
  }

  lemma QuotientBound(n: nat, span: nat, quiet: int)
    requires quiet > 0 && n * quiet <= span
    ensures n <= span / quiet
  {
    AtMostQuotient(n, span / quiet, span % quiet, quiet);
  }

  lemma AtMostQuotient(n: nat, q: nat, r: nat, quiet: int)
    requires r < quiet && n * quiet <= q * quiet + r
    ensures n <= q
  {
    assert (n - q) * quiet == n * quiet - q * quiet;
    if n - q >= 1 {
      GrowsByFactor(n - q, quiet);
    }
  }

  lemma GrowsByFactor(n: nat, quiet: nat)
    requires n >= 1
    ensures n * quiet >= quiet
  {
  }
}
