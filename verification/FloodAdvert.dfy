/**
 * The flood-advert scheduler of src/radio/flood-advert-scheduler.js, cut at
 * its awaits: Tick runs up to the grant, Attempt is the granted callback up to
 * the radio command, Settled the rest of the callback.
 */
module FloodAdvert {
  import opened Prelude
  import opened Airtime
  import opened ReplyStore

  const HOUR_MS: int := 60 * 60 * 1000
  const UNCERTAIN_MS: int := 47 * HOUR_MS

  /** `#busy` is true exactly when the phase is not Resting. */
  datatype Phase = Resting | Reserved | Commanding

  datatype Advert = Advert(intervalMs: int, running: bool, timer: bool, connected: bool,
                           startupRequested: bool, phase: Phase)

  function FreshAdvert(intervalMs: int): Advert {
    Advert(intervalMs, false, false, false, false, Resting)
  }

  function StartedAdvert(ad: Advert): Advert {
    if ad.running then ad else ad.(running := true, timer := true)
  }

  function StartedSlot(ad: Advert, slot: Slot): Slot {
    if ad.running then slot else RecoverAttempt(slot, ad.intervalMs, Max(ad.intervalMs, UNCERTAIN_MS))
  }

  function StoppedAdvert(ad: Advert): Advert {
    if ad.running then ad.(running := false, timer := false) else ad
  }

  /** The radio.connected handler; only a running scheduler is subscribed. */
  function ConnectedAdvert(ad: Advert): Advert {
    if ad.running then ad.(connected := true, startupRequested := true, timer := true) else ad
  }

  function ConnectedSlot(ad: Advert, slot: Slot, now: int): Slot {
    if ad.running && !ad.startupRequested && slot.status != Requested then RequestAdvert(slot, now) else slot
  }

  function DisconnectedAdvert(ad: Advert): Advert {
    if ad.running then ad.(connected := false) else ad
  }

  predicate DueBy(slot: Slot, now: int) {
    slot.nextDueAt.Some? && now >= slot.nextDueAt.value
  }

  function TickSlot(ad: Advert, slot: Slot, dueAt: int, requestAt: int): Slot {
    if ad.running && ad.phase == Resting && slot.status == Idle && ad.intervalMs > 0 && DueBy(slot, dueAt) then
      RequestAdvert(slot, requestAt)
    else
      slot
  }

  /** A requested advert may go: connected, and not before its due time. */
  predicate Ready(ad: Advert, slot: Slot, gateAt: int) {
    ad.connected && slot.status == Requested && (slot.nextDueAt.None? || gateAt >= slot.nextDueAt.value)
  }

  predicate TickReserves(ad: Advert, slot: Slot, air: Air, dueAt: int, requestAt: int, gateAt: int, checkAt: int) {
    && ad.running && ad.phase == Resting
    && Ready(ad, TickSlot(ad, slot, dueAt, requestAt), gateAt)
    && Grants(air, checkAt)
  }

  /** The granted callback goes on to command the radio; `stored` is false when claiming the slot throws. */
  predicate Commands(ad: Advert, slot: Slot, stored: bool) {
    ad.running && ad.connected && stored && slot.status == Requested
  }

  /** A successful command whose UPDATE throws falls into the catch block, which tries again as not sent. */
  function SettledSlot(ad: Advert, slot: Slot, ok: bool, okAt: int, okStored: bool, failAt: int, failStored: bool): Slot {
    if ok && okStored then ResolveAttempt(slot, okAt, ad.intervalMs, true)
    else if failStored then ResolveAttempt(slot, failAt, ad.intervalMs, false)
    else slot
  }

  class FloodAdvertScheduler {
    const intervalMs: int
    const store: MetricsStore
    const air: AirtimeCoordinator
    var running: bool
    var timer: bool
    var connected: bool
    var startupRequested: bool
    var phase: Phase

    ghost function State(): Advert
      reads this
    {
      Advert(intervalMs, running, timer, connected, startupRequested, phase)
    }

    constructor (intervalHours: int, store: MetricsStore, air: AirtimeCoordinator)
      ensures State() == FreshAdvert(intervalHours * HOUR_MS) && this.store == store && this.air == air
    {
      intervalMs := intervalHours * HOUR_MS;
      this.store := store;
      this.air := air;
      running, timer, connected, startupRequested := false, false, false, false;
      phase := Resting;
    }

    method EnsureTimer()
      modifies this`timer
      ensures timer == (old(timer) || running)
    {
      if !running || timer {
        return;
      }
      timer := true;
    }

    method Start()
      modifies this, store`slot
      ensures State() == StartedAdvert(old(State()))
      ensures store.slot == StartedSlot(old(State()), old(store.slot))
    {
      if running {
        return;
      }
      running := true;
      var recovered := store.RecoverFloodAdvertAttempt(intervalMs, Max(intervalMs, UNCERTAIN_MS));
      EnsureTimer();
    }

    /** stop() up to its wait for an attempt in flight. */
    method Stop()
      modifies this
      ensures State() == StoppedAdvert(old(State()))
    {
      if !running {
        return;
      }
      running := false;
      timer := false;
    }

    method OnConnected(now: int)
      requires running
      modifies this, store`slot
      ensures State() == ConnectedAdvert(old(State()))
      ensures store.slot == ConnectedSlot(old(State()), old(store.slot), now)
    {
      connected := true;
      if !startupRequested {
        startupRequested := true;
        if store.slot.status != Requested {
          store.RequestFloodAdvert(now);
        }
      }
      EnsureTimer();
    }

    method OnDisconnected()
      requires running
      modifies this
      ensures State() == DisconnectedAdvert(old(State()))
    {
      connected := false;
    }

    method Tick(dueAt: int, requestAt: int, gateAt: int, checkAt: int, noteAt: int) returns (reserved: bool)
      modifies this, store`slot, air
      ensures reserved ==
              TickReserves(old(State()), old(store.slot), old(air.State()), dueAt, requestAt, gateAt, checkAt)
      ensures State() == if reserved then old(State()).(phase := Reserved) else old(State())
      ensures store.slot == TickSlot(old(State()), old(store.slot), dueAt, requestAt)
      ensures air.State() == if reserved then Reserve(old(air.State()), noteAt) else old(air.State())
    {
      reserved := false;
      if !running || phase != Resting {
        return;
      }
      if store.slot.status == Idle && intervalMs > 0 && store.slot.nextDueAt.Some? && dueAt >= store.slot.nextDueAt.value {
        store.RequestFloodAdvert(requestAt);
      }
      if !connected || store.slot.status != Requested || (store.slot.nextDueAt.Some? && gateAt < store.slot.nextDueAt.value) {
        return;
      }
      reserved := air.TryRunWhenQuiet(checkAt, noteAt);
      if reserved {
        phase := Reserved;
      }
    }

    method Attempt(startAt: int, stored: bool) returns (commanded: bool)
      requires phase == Reserved
      modifies this, store`slot, air
      ensures commanded == Commands(old(State()), old(store.slot), stored)
      ensures State() == old(State()).(phase := if commanded then Commanding else Resting)
      ensures store.slot == if commanded then StartAttempt(old(store.slot), startAt) else old(store.slot)
      ensures air.State() == if commanded then old(air.State()) else Release(old(air.State()))
    {
      commanded := running && connected && stored;
      if commanded {
        commanded := store.StartFloodAdvertAttempt(startAt);
      }
      if commanded {
        phase := Commanding;
      } else {
        air.Settle();
        phase := Resting;
      }
    }

    method Settled(ok: bool, okAt: int, okStored: bool, failAt: int, failStored: bool)
      requires phase == Commanding
      modifies this, store`slot, air
      ensures State() == old(State()).(phase := Resting)
      ensures store.slot == SettledSlot(old(State()), old(store.slot), ok, okAt, okStored, failAt, failStored)
      ensures air.State() == Release(old(air.State()))
    {
      var resolved := false;
      if ok && okStored {
        resolved := store.ResolveFloodAdvertAttempt(okAt, intervalMs, true);
      } else if failStored {
        resolved := store.ResolveFloodAdvertAttempt(failAt, intervalMs, false);
      }
      air.Settle();
      phase := Resting;
    }
  }
}
