/**
 * The shared quiet-air reservation of src/radio/airtime-coordinator.js. Every
 * clock reading is a parameter; the two readings `tryRunWhenQuiet` makes (one
 * for the test, one for the activity it notes) are kept apart.
 */
module Airtime {

  /** The coordinator's fields as a value. */
  datatype Air = Air(quietMs: int, lastActivityAt: int, sending: bool)

  function Fresh(quietMs: int, now: int): Air {
    Air(quietMs, now, false)
  }

  function Note(air: Air, now: int): Air {
    air.(lastActivityAt := now)
  }

  /** The reservation is free and the channel has been quiet for quietMs. */
  predicate Grants(air: Air, checkAt: int) {
    !air.sending && checkAt - air.lastActivityAt >= air.quietMs
  }

  function Reserve(air: Air, noteAt: int): Air {
    Note(air, noteAt).(sending := true)
  }

  function Release(air: Air): Air {
    air.(sending := false)
  }

  class AirtimeCoordinator {
    const quietMs: int
    var lastActivityAt: int
    var sending: bool

    ghost function State(): Air
      reads this
    {
      Air(quietMs, lastActivityAt, sending)
    }

    constructor (quietMs: int, now: int)
      ensures State() == Fresh(quietMs, now)
    {
      this.quietMs := quietMs;
      lastActivityAt := now;
      sending := false;
    }

    method NoteActivity(now: int)
      modifies this
      ensures State() == Note(old(State()), now)
    {
      lastActivityAt := now;
    }

    /** The synchronous part: either refuses, or takes the reservation before the send begins. */
    method TryRunWhenQuiet(checkAt: int, noteAt: int) returns (granted: bool)
      modifies this
      ensures granted == Grants(old(State()), checkAt)
      ensures granted <==> !old(sending) && checkAt - old(lastActivityAt) >= quietMs
      ensures State() == if granted then Reserve(old(State()), noteAt) else old(State())
    {
      if sending || checkAt - lastActivityAt < quietMs {
        return false;
      }
      sending := true;
      NoteActivity(noteAt);
      granted := true;
    }

    /** The `finally` handler of a granted operation, success or failure alike. */
    method Settle()
      modifies this
      ensures State() == Release(old(State()))
    {
      sending := false;
    }
  }
}
