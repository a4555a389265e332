/**
 * The durable state both transmitters share: the `bot_replies` table and the
 * single `flood_advert_state` slot of src/metrics/store.js, each statement
 * with its own WHERE clause.
 */
module ReplyStore {
  import opened Prelude

  datatype Status = Pending | Sent | Failed | Expired | Cancelled

  datatype Item = Item(botName: string, channel: string, trigger: string, sender: string,
                       hopCount: int, path: string, hash: string, handlerStateJson: string)

  datatype Row = Row(item: Item, enqueuedAt: int, expiresAt: int, status: Status,
                     resolvedAt: Option<int>, queuedMs: Option<int>)

  /** `bot_replies`, by its INTEGER PRIMARY KEY. */
  type Rows = map<nat, Row>

  /**
   * The rowid SQLite gives the next insert: one more than the largest in use, so the id of a pruned row can come back.
   */
  predicate IsNextRowid(rows: Rows, id: nat) {
    && id > 0
    && (id == 1 || id - 1 in rows)
    && forall k | k in rows :: k < id
  }

  predicate IsPending(rows: Rows, id: nat) {
    id in rows && rows[id].status == Pending
  }

  predicate HasPending(rows: Rows) {
    exists id :: id in rows && rows[id].status == Pending
  }

  predicate Overdue(row: Row, now: int) {
    row.status == Pending && row.expiresAt <= now
  }

  /** The overdue rows, oldest first, but for those still to come; the order of ties is left open. */
  ghost predicate Lists(expired: seq<(nat, Row)>, todo: set<nat>, rows: Rows, now: int) {
    && (forall id | id in todo :: id in rows && Overdue(rows[id], now))
    && (forall id | id in rows && Overdue(rows[id], now) :: id in todo || (id, rows[id]) in expired)
    && (forall k | 0 <= k < |expired| ::
          && expired[k].0 in rows && expired[k].0 !in todo
          && expired[k].1 == rows[expired[k].0] && Overdue(expired[k].1, now))
    && (forall k, id | 0 <= k < |expired| && id in todo :: expired[k].1.enqueuedAt <= rows[id].enqueuedAt)
    && forall j, k | 0 <= j < k < |expired| ::
         expired[j].0 != expired[k].0 && expired[j].1.enqueuedAt <= expired[k].1.enqueuedAt
  }

  lemma ListsOneMore(expired: seq<(nat, Row)>, todo: set<nat>, rows: Rows, now: int, id: nat)
    requires Lists(expired, todo, rows, now)
    requires id in todo && forall k | k in todo :: rows[id].enqueuedAt <= rows[k].enqueuedAt
    ensures Lists(expired + [(id, rows[id])], todo - {id}, rows, now)
  {
    var more := expired + [(id, rows[id])];
    forall k | k in rows && Overdue(rows[k], now)
      ensures k in todo - {id} || (k, rows[k]) in more
    {
      assert (k, rows[k]) in expired || k in todo;
    }
    forall j, k | 0 <= j < k < |more|
      ensures more[j].0 != more[k].0 && more[j].1.enqueuedAt <= more[k].1.enqueuedAt
    {
      assert more[j] == expired[j];
    }
  }

  /** A row the ORDER BY enqueued_at LIMIT 1 query may return; the order of ties is left open. */
  predicate IsOldestPending(rows: Rows, id: nat) {
    && IsPending(rows, id)
    && forall k | k in rows && rows[k].status == Pending :: rows[id].enqueuedAt <= rows[k].enqueuedAt
  }

  function Insert(rows: Rows, id: nat, item: Item, enqueuedAt: int, expiresAt: int): Rows {
    rows[id := Row(item, enqueuedAt, expiresAt, Pending, None, None)]
  }

  function ExpireRow(row: Row, now: int): Row {
    row.(status := Expired, resolvedAt := Some(now), queuedMs := Some(now - row.enqueuedAt))
  }

  function ExpireOverdue(rows: Rows, now: int): Rows {
    map id | id in rows :: if Overdue(rows[id], now) then ExpireRow(rows[id], now) else rows[id]
  }

  /** UPDATE ... WHERE id = ?, with no test of the status the row has. */
  function ResolveById(rows: Rows, id: nat, status: Status, resolvedAt: int, queuedMs: int): Rows {
    if id in rows then
      rows[id := rows[id].(status := status, resolvedAt := Some(resolvedAt), queuedMs := Some(queuedMs))]
    else
      rows
  }

  predicate Prunable(row: Row, cutoff: int) {
    row.status != Pending && row.resolvedAt.Some? && row.resolvedAt.value < cutoff
  }

  function Prune(rows: Rows, cutoff: int): Rows {
    map id | id in rows && !Prunable(rows[id], cutoff) :: rows[id]
  }

  datatype SlotStatus = Idle | Requested | Attempting

  /** `flood_advert_state`; its statuses 'idle', 'pending' and 'sending' are Idle, Requested and Attempting. */
  datatype Slot = Slot(status: SlotStatus, requestedAt: Option<int>, attemptStartedAt: Option<int>,
                       lastAttemptAt: Option<int>, lastSentAt: Option<int>, nextDueAt: Option<int>)

  const FRESH_SLOT := Slot(Idle, None, None, None, None, None)

  function RequestAdvert(slot: Slot, requestedAt: int): Slot {
    if slot.status == Idle then slot.(status := Requested, requestedAt := Some(requestedAt)) else slot
  }

  function StartAttempt(slot: Slot, startedAt: int): Slot {
    if slot.status == Requested then
      slot.(status := Attempting, attemptStartedAt := Some(startedAt), lastAttemptAt := Some(startedAt))
    else
      slot
  }

  function ResolveAttempt(slot: Slot, resolvedAt: int, intervalMs: int, sent: bool): Slot {
    if slot.status == Attempting then
      slot.(status := Idle, requestedAt := None, attemptStartedAt := None,
            lastSentAt := if sent then Some(resolvedAt) else slot.lastSentAt,
            nextDueAt := Some(resolvedAt + intervalMs))
    else
      slot
  }

  function RecoverAttempt(slot: Slot, intervalMs: int, uncertainMs: int): Slot {
    if slot.status == Attempting && slot.attemptStartedAt.Some? then
      slot.(status := Idle, requestedAt := None, attemptStartedAt := None,
            lastAttemptAt := slot.attemptStartedAt,
            nextDueAt := Some(slot.attemptStartedAt.value + Max(intervalMs, uncertainMs)))
    else
      slot
  }

  /** A non-empty table has a row with the largest id. */
  lemma {:induction false} LargestId(ids: set<nat>) returns (top: nat)
    requires ids != {}
    ensures top in ids && forall k | k in ids :: k <= top
    decreases |ids|
  {
    var some :| some in ids;
    var rest := ids - {some};
    if rest == {} {
      assert ids == {some};
      top := some;
    } else {
      var below := LargestId(rest);
      assert forall k | k in ids :: k == some || k in rest;
      top := if below > some then below else some;
    }
  }

  /** Every table has exactly one next rowid, so an enqueue is never blocked by it. */
  lemma NextRowidExists(rows: Rows)
    ensures exists id :: IsNextRowid(rows, id)
    ensures forall a, b | IsNextRowid(rows, a) && IsNextRowid(rows, b) :: a == b
  {
    if rows.Keys == {} {
      assert IsNextRowid(rows, 1);
    } else {
      var top := LargestId(rows.Keys);
      assert IsNextRowid(rows, top + 1);
    }
  }

  /** Among pending rows one was enqueued first. */
  lemma {:induction false} EarliestOf(rows: Rows, ids: set<nat>) returns (first: nat)
    requires ids != {} && ids <= rows.Keys
    ensures first in ids && forall k | k in ids :: rows[first].enqueuedAt <= rows[k].enqueuedAt
    decreases |ids|
  {
    var some :| some in ids;
    var rest := ids - {some};
    if rest == {} {
      assert ids == {some};
      first := some;
    } else {
      var early := EarliestOf(rows, rest);
      assert forall k | k in ids :: k == some || k in rest;
      first := if rows[early].enqueuedAt < rows[some].enqueuedAt then early else some;
    }
  }

  /** The peek query returns nothing only when nothing is pending. */
  lemma PeekIsTotal(rows: Rows)
    ensures HasPending(rows) <==> exists id :: IsOldestPending(rows, id)
  {
    var pending := set id | id in rows && rows[id].status == Pending;
    if HasPending(rows) {
      var id :| id in rows && rows[id].status == Pending;
      assert id in pending;
      var first := EarliestOf(rows, pending);
      assert IsOldestPending(rows, first);
    }
  }

  class MetricsStore {
    var rows: Rows
    var slot: Slot

    constructor ()
      ensures rows == map[] && slot == Slot(Idle, None, None, None, None, None)
    {
      rows := map[];
      slot := FRESH_SLOT;
    }

    method EnqueueReplyItem(item: Item, enqueuedAt: int, expiresAt: int) returns (id: nat)
      modifies this`rows
      ensures IsNextRowid(old(rows), id)
      ensures rows == Insert(old(rows), id, item, enqueuedAt, expiresAt)
    {
      if rows.Keys == {} {
        id := 1;
      } else {
        ghost var top := LargestId(rows.Keys);
        var largest :| largest in rows.Keys && forall k | k in rows.Keys :: k <= largest;
        id := largest + 1;
      }
      rows := rows[id := Row(item, enqueuedAt, expiresAt, Pending, None, None)];
    }

    method CountPendingReplyItems() returns (total: nat)
      ensures total == |set id | id in rows && rows[id].status == Pending|
      ensures total == 0 <==> !HasPending(rows)
    {
      var pending := set id | id in rows && rows[id].status == Pending;
      total := |pending|;
      if HasPending(rows) {
        ghost var id :| id in rows && rows[id].status == Pending;
        assert id in pending;
      }
    }

    /** SELECT ... WHERE status = 'pending' AND expires_at <= ? ORDER BY enqueued_at ASC. */
    method SelectExpired(now: int) returns (expired: seq<(nat, Row)>)
      ensures Lists(expired, {}, rows, now)
    {
      expired := [];
      var todo := set id | id in rows && Overdue(rows[id], now);
      while todo != {}
        invariant Lists(expired, todo, rows, now)
        decreases |todo|
      {
        ghost var first := EarliestOf(rows, todo);
        var id :| id in todo && forall k | k in todo :: rows[id].enqueuedAt <= rows[k].enqueuedAt;
        ListsOneMore(expired, todo, rows, now, id);
        expired := expired + [(id, rows[id])];
        todo := todo - {id};
      }
    }

    /** Marks the overdue rows and returns them as they were; without any the UPDATE is not issued at all. */
    method TakeExpiredReplyItems(now: int) returns (expired: seq<(nat, Row)>)
      modifies this`rows
      ensures Lists(expired, {}, old(rows), now)
      ensures rows == ExpireOverdue(old(rows), now)
    {
      expired := SelectExpired(now);
      if expired != [] {
        rows := map id | id in rows :: if Overdue(rows[id], now) then ExpireRow(rows[id], now) else rows[id];
      } else {
        assert forall id | id in rows :: !Overdue(rows[id], now);
      }
    }

    method PeekOldestPendingReplyItem() returns (found: Option<nat>)
      ensures found.None? <==> !HasPending(rows)
      ensures found.Some? ==> IsOldestPending(rows, found.value)
    {
      PeekIsTotal(rows);
      if exists id :: id in rows.Keys && IsOldestPending(rows, id) {
        var id :| id in rows.Keys && IsOldestPending(rows, id);
        found := Some(id);
      } else {
        found := None;
      }
    }

    method ResolveReplyItem(id: nat, status: Status, resolvedAt: int, queuedMs: int)
      modifies this`rows
      ensures rows == ResolveById(old(rows), id, status, resolvedAt, queuedMs)
    {
      if id in rows {
        rows := rows[id := rows[id].(status := status, resolvedAt := Some(resolvedAt), queuedMs := Some(queuedMs))];
      }
    }

    /** The `bot_replies` part of pruneOlderThan. */
    method PruneRepliesOlderThan(cutoff: int)
      modifies this`rows
      ensures rows == Prune(old(rows), cutoff)
    {
      rows := map id | id in rows && !Prunable(rows[id], cutoff) :: rows[id];
    }

    method RequestFloodAdvert(requestedAt: int)
      modifies this`slot
      ensures slot == RequestAdvert(old(slot), requestedAt)
    {
      if slot.status == Idle {
        slot := slot.(status := Requested, requestedAt := Some(requestedAt));
      }
    }

    method StartFloodAdvertAttempt(startedAt: int) returns (claimed: bool)
      modifies this`slot
      ensures claimed == (old(slot).status == Requested)
      ensures slot == StartAttempt(old(slot), startedAt)
    {
      claimed := slot.status == Requested;
      if claimed {
        slot := slot.(status := Attempting, attemptStartedAt := Some(startedAt), lastAttemptAt := Some(startedAt));
      }
    }

    method ResolveFloodAdvertAttempt(resolvedAt: int, intervalMs: int, sent: bool) returns (resolved: bool)
      modifies this`slot
      ensures resolved == (old(slot).status == Attempting)
      ensures slot == ResolveAttempt(old(slot), resolvedAt, intervalMs, sent)
    {
      resolved := slot.status == Attempting;
      if resolved {
        slot := slot.(status := Idle, requestedAt := None, attemptStartedAt := None,
                      lastSentAt := if sent then Some(resolvedAt) else slot.lastSentAt,
                      nextDueAt := Some(resolvedAt + intervalMs));
      }
    }

    method RecoverFloodAdvertAttempt(intervalMs: int, uncertainMs: int) returns (recovered: bool)
      modifies this`slot
      ensures recovered == (old(slot).status == Attempting && old(slot).attemptStartedAt.Some?)
      ensures slot == RecoverAttempt(old(slot), intervalMs, uncertainMs)
    {
      if slot.status != Attempting || slot.attemptStartedAt == None {
        return false;
      }
      slot := slot.(status := Idle, requestedAt := None, attemptStartedAt := None,
                    lastAttemptAt := slot.attemptStartedAt,
                    nextDueAt := Some(slot.attemptStartedAt.value + Max(intervalMs, uncertainMs)));
      recovered := true;
    }
  }
}
