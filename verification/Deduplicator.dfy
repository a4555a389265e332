/**
 * The duplicate detector of src/packets/packet-deduplicator.js, proved against
 * the bare history of its calls. An insertion-ordered map is a map whose
 * entries carry the number of their insertion; iterating goes by that number.
 */
module Deduplicator {
  import opened Prelude

  datatype Call<Id> = Call(id: Id, at: int)

  datatype Entry = Entry(at: int, stamp: nat)

  // ---------------------------------------------------------------- the history specification

  /** The ids called after position p. */
  ghost function IdsAfter<Id(!new)>(calls: seq<Call<Id>>, p: nat): set<Id> {
    set q | p < q < |calls| :: calls[q].id
  }

  /** p is the last call with this id. */
  ghost predicate LastCall<Id>(calls: seq<Call<Id>>, id: Id, p: nat) {
    p < |calls| && calls[p].id == id && forall q | p < q < |calls| :: calls[q].id != id
  }

  /** Called before, the last time less than ttlMs ago, with fewer than maxEntries other ids since. */
  ghost predicate Recent<Id(!new)>(calls: seq<Call<Id>>, id: Id, now: int, ttlMs: int, maxEntries: nat) {
    exists p: nat :: LastCall(calls, id, p) && now - calls[p].at < ttlMs && |IdsAfter(calls, p)| < maxEntries
  }

  ghost predicate InOrder<Id>(calls: seq<Call<Id>>) {
    forall p, q | 0 <= p < q < |calls| :: calls[p].at <= calls[q].at
  }

  // ---------------------------------------------------------------- what the cache stores

  /** Stored ids are at their last call, and so is everything called after a stored one. */
  ghost predicate Stores<Id(!new)>(seen: map<Id, Entry>, calls: seq<Call<Id>>) {
    forall id | id in seen ::
      && LastCall(calls, id, seen[id].stamp)
      && seen[id].at == calls[seen[id].stamp].at
      && IdsAfter(calls, seen[id].stamp) <= seen.Keys
  }

  /** What is not stored has expired, or has maxEntries ids after it. */
  ghost predicate DropsOnlyStale<Id(!new)>(seen: map<Id, Entry>, calls: seq<Call<Id>>, now: int, ttlMs: int, maxEntries: nat) {
    forall id, p: nat | LastCall(calls, id, p) && id !in seen ::
      now - calls[p].at >= ttlMs || |IdsAfter(calls, p)| >= maxEntries
  }

  /** The first entry of the map's iteration order. */
  predicate IsFirst<Id(==)>(seen: map<Id, Entry>, id: Id) {
    id in seen.Keys && forall k | k in seen.Keys :: seen[id].stamp <= seen[k].stamp
  }

  lemma {:induction false} FirstExists<Id>(seen: map<Id, Entry>, ids: set<Id>) returns (first: Id)
    requires ids != {} && ids <= seen.Keys
    ensures first in ids && forall k | k in ids :: seen[first].stamp <= seen[k].stamp
    decreases |ids|
  {
    var some :| some in ids;
    var rest := ids - {some};
    if rest == {} {
      assert ids == {some};
      first := some;
    } else {
      var early := FirstExists(seen, rest);
      assert forall k | k in ids :: k == some || k in rest;
      first := if seen[early].stamp < seen[some].stamp then early else some;
    }
  }

  lemma LastCallExists<Id>(calls: seq<Call<Id>>, id: Id, q: nat) returns (p: nat)
    requires q < |calls| && calls[q].id == id
    ensures q <= p && LastCall(calls, id, p)
    decreases |calls| - q
  {
    p := q;
    if !LastCall(calls, id, q) {
      var later :| q < later < |calls| && calls[later].id == id;
      p := LastCallExists(calls, id, later);
    }
  }

  /** Fewer ids than the capacity follow a stored entry. */
  lemma StoredHasRoom<Id(!new)>(seen: map<Id, Entry>, calls: seq<Call<Id>>, id: Id, maxEntries: nat)
    requires Stores(seen, calls) && id in seen && |seen| <= maxEntries
    ensures |IdsAfter(calls, seen[id].stamp)| < maxEntries
  {
    assert id !in IdsAfter(calls, seen[id].stamp);
    assert IdsAfter(calls, seen[id].stamp) <= seen.Keys - {id};
    SubsetSize(IdsAfter(calls, seen[id].stamp), seen.Keys - {id});
  }

  /** Every other stored id follows the first entry. */
  lemma FirstIsFollowed<Id(!new)>(seen: map<Id, Entry>, calls: seq<Call<Id>>, id: Id)
    requires Stores(seen, calls) && IsFirst(seen, id)
    ensures |IdsAfter(calls, seen[id].stamp)| >= |seen| - 1
  {
    var others, after := seen.Keys - {id}, IdsAfter(calls, seen[id].stamp);
    forall k | k in others
      ensures k in after
    {
      assert calls[seen[k].stamp].id == k && seen[id].stamp < seen[k].stamp;
    }
    SubsetSize(others, after);
  }

  lemma DroppingFirst<Id(!new)>(seen: map<Id, Entry>, calls: seq<Call<Id>>, id: Id, now: int, ttlMs: int, maxEntries: nat)
    requires Stores(seen, calls) && DropsOnlyStale(seen, calls, now, ttlMs, maxEntries) && IsFirst(seen, id)
    requires now - seen[id].at >= ttlMs || |seen| > maxEntries
    ensures Stores(seen - {id}, calls) && DropsOnlyStale(seen - {id}, calls, now, ttlMs, maxEntries)
  {
    var rest := seen - {id};
    forall k | k in rest
      ensures id !in IdsAfter(calls, rest[k].stamp)
    {
      assert calls[seen[id].stamp].id == id;
    }
    FirstIsFollowed(seen, calls, id);
    forall k, p: nat | LastCall(calls, k, p) && k !in rest
      ensures now - calls[p].at >= ttlMs || |IdsAfter(calls, p)| >= maxEntries
    {
      if k == id {
        assert LastCall(calls, id, seen[id].stamp);
        assert p == seen[id].stamp;
      }
    }
  }

  lemma RemovedSize<Id>(seen: map<Id, Entry>, id: Id)
    requires id in seen
    ensures |seen - {id}| == |seen| - 1
  {
    assert (seen - {id}).Keys == seen.Keys - {id};
  }

  lemma Recording<Id(!new)>(seen: map<Id, Entry>, calls: seq<Call<Id>>, c: Call<Id>, ttlMs: int, maxEntries: nat)
    requires Stores(seen, calls) && DropsOnlyStale(seen, calls, c.at, ttlMs, maxEntries)
    ensures Stores(seen[c.id := Entry(c.at, |calls|)], calls + [c])
    ensures DropsOnlyStale(seen[c.id := Entry(c.at, |calls|)], calls + [c], c.at, ttlMs, maxEntries)
  {
    var more := calls + [c];
    forall id, p: nat | LastCall(more, id, p) && id != c.id
      ensures LastCall(calls, id, p) && |IdsAfter(more, p)| >= |IdsAfter(calls, p)|
    {
      assert p < |calls|;
      assert forall q | p < q < |calls| :: more[q] == calls[q];
      forall x | x in IdsAfter(calls, p)
        ensures x in IdsAfter(more, p)
      {
        var q :| p < q < |calls| && calls[q].id == x;
        assert more[q].id == x;
      }
      SubsetSize(IdsAfter(calls, p), IdsAfter(more, p));
    }
  }

  lemma LaterIsStaler<Id(!new)>(seen: map<Id, Entry>, calls: seq<Call<Id>>, before: int, now: int, ttlMs: int, maxEntries: nat)
    requires DropsOnlyStale(seen, calls, before, ttlMs, maxEntries) && before <= now
    ensures DropsOnlyStale(seen, calls, now, ttlMs, maxEntries)
  {
  }

  /** The calls are in order, so behind a fresh first entry everything is fresh. */
  lemma FreshFromFirst<Id(!new)>(seen: map<Id, Entry>, calls: seq<Call<Id>>, id: Id, now: int, ttlMs: int)
    requires Stores(seen, calls) && InOrder(calls) && IsFirst(seen, id) && now - seen[id].at < ttlMs
    ensures forall k | k in seen :: now - seen[k].at < ttlMs
  {
    forall k | k in seen
      ensures seen[k].at >= seen[id].at
    {
      assert seen[id].stamp <= seen[k].stamp;
    }
  }

  lemma OrderGrows<Id>(calls: seq<Call<Id>>, c: Call<Id>)
    requires InOrder(calls) && (calls == [] || calls[|calls| - 1].at <= c.at)
    ensures InOrder(calls + [c])
  {
  }

  /** A lookup in a cache within its bound answers the history question. */
  lemma LookupIsRecent<Id(!new)>(seen: map<Id, Entry>, calls: seq<Call<Id>>, id: Id, now: int, ttlMs: int, maxEntries: nat)
    requires Stores(seen, calls) && DropsOnlyStale(seen, calls, now, ttlMs, maxEntries) && |seen| <= maxEntries
    ensures Recent(calls, id, now, ttlMs, maxEntries) <==> id in seen && now - seen[id].at < ttlMs
  {
    if id in seen {
      StoredHasRoom(seen, calls, id, maxEntries);
      assert LastCall(calls, id, seen[id].stamp);
    }
    forall p: nat | LastCall(calls, id, p) && id in seen
      ensures p == seen[id].stamp
    {
    }
  }

  class PacketDeduplicator<Id(==,!new)> {
    const maxEntries: nat
    const ttlMs: int
    var seenAt: map<Id, Entry>
    /** The number of the next insertion. */
    var stamp: nat
    /** Every call so far. */
    ghost var calls: seq<Call<Id>>

    ghost predicate Valid()
      reads this
    {
      && InOrder(calls)
      && stamp == |calls|
      && |seenAt| <= maxEntries
      && Stores(seenAt, calls)
      && DropsOnlyStale(seenAt, calls, LatestCall(), ttlMs, maxEntries)
    }

    ghost function LatestCall(): int
      reads this
    {
      if calls == [] then 0 else calls[|calls| - 1].at
    }

    /** The clock has not gone back since the last call. */
    ghost predicate Clock(now: int)
      reads this
    {
      calls == [] || calls[|calls| - 1].at <= now
    }

    /** What holds between the two evictions of a call made at now. */
    ghost predicate Between(now: int)
      reads this
    {
      && InOrder(calls) && Clock(now) && stamp == |calls|
      && Stores(seenAt, calls)
      && DropsOnlyStale(seenAt, calls, now, ttlMs, maxEntries)
    }

    constructor (maxEntries: nat, ttlMs: int)
      ensures Valid() && calls == [] && this.maxEntries == maxEntries && this.ttlMs == ttlMs
    {
      this.maxEntries := maxEntries;
      this.ttlMs := ttlMs;
      seenAt := map[];
      stamp := 0;
      calls := [];
    }

    /** `keys().next()` of a map that is not empty. */
    method FirstKey() returns (id: Id)
      requires seenAt.Keys != {}
      ensures IsFirst(seenAt, id)
    {
      ghost var first := FirstExists(seenAt, seenAt.Keys);
      id :| id in seenAt.Keys && IsFirst(seenAt, id);
    }

    /** `delete` of the first entry, which has expired or is one too many. */
    method DropFirst(id: Id, now: int)
      requires IsFirst(seenAt, id) && (now - seenAt[id].at >= ttlMs || |seenAt| > maxEntries)
      requires Stores(seenAt, calls) && DropsOnlyStale(seenAt, calls, now, ttlMs, maxEntries)
      modifies this`seenAt
      ensures Stores(seenAt, calls) && DropsOnlyStale(seenAt, calls, now, ttlMs, maxEntries)
      ensures |seenAt| == |old(seenAt)| - 1
    {
      DroppingFirst(seenAt, calls, id, now, ttlMs, maxEntries);
      RemovedSize(seenAt, id);
      seenAt := seenAt - {id};
    }

    /** Drops expired entries in iteration order and stops at the first fresh one. */
    method DropExpired(now: int)
      requires Stores(seenAt, calls) && DropsOnlyStale(seenAt, calls, now, ttlMs, maxEntries)
      modifies this`seenAt
      ensures Stores(seenAt, calls) && DropsOnlyStale(seenAt, calls, now, ttlMs, maxEntries)
      ensures |seenAt| <= |old(seenAt)|
      ensures seenAt.Keys == {} || exists id :: IsFirst(seenAt, id) && now - seenAt[id].at < ttlMs
    {
      while seenAt.Keys != {}
        invariant |seenAt| <= |old(seenAt)|
        invariant Stores(seenAt, calls) && DropsOnlyStale(seenAt, calls, now, ttlMs, maxEntries)
        decreases |seenAt|
      {
        var id := FirstKey();
        if now - seenAt[id].at < ttlMs {
          return;
        }
        DropFirst(id, now);
      }
    }

    /** The age pass; behind the fresh entry that stops it nothing has expired either. */
    method EvictExpired(now: int)
      requires Between(now)
      modifies this`seenAt
      ensures |seenAt| <= |old(seenAt)| && Between(now)
      ensures forall id | id in seenAt :: now - seenAt[id].at < ttlMs
    {
      DropExpired(now);
      if seenAt.Keys != {} {
        ghost var id :| IsFirst(seenAt, id) && now - seenAt[id].at < ttlMs;
        FreshFromFirst(seenAt, calls, id, now, ttlMs);
      }
    }

    /** Drops the least recently seen entries until the bound holds. */
    method EvictOverflow(now: int)
      requires Stores(seenAt, calls) && DropsOnlyStale(seenAt, calls, now, ttlMs, maxEntries)
      modifies this`seenAt
      ensures Stores(seenAt, calls) && DropsOnlyStale(seenAt, calls, now, ttlMs, maxEntries)
      ensures |seenAt| <= maxEntries
    {
      while |seenAt| > maxEntries
        invariant Stores(seenAt, calls) && DropsOnlyStale(seenAt, calls, now, ttlMs, maxEntries)
      {
        var id := FirstKey();
        DropFirst(id, now);
      }
    }

    /** Re-inserting moves the id to the end of the iteration order. */
    method Remember(id: Id, now: int)
      requires Between(now)
      modifies this
      ensures Valid()
      ensures calls == old(calls) + [Call(id, now)]
    {
      ghost var c := Call(id, now);
      OrderGrows(calls, c);
      Recording(seenAt, calls, c, ttlMs, maxEntries);
      seenAt := seenAt[id := Entry(now, stamp)];
      stamp := stamp + 1;
      calls := calls + [c];
      EvictOverflow(now);
    }

    /** Whether id was seen within the window, and either way recorded as seen now. */
    method IsDuplicate(id: Id, now: int) returns (duplicate: bool)
      requires Valid() && Clock(now)
      modifies this
      ensures Valid() && |seenAt| <= maxEntries
      ensures calls == old(calls) + [Call(id, now)]
      ensures duplicate <==> Recent(old(calls), id, now, ttlMs, maxEntries)
    {
      assert Between(now) by {
        if calls != [] {
          LaterIsStaler(seenAt, calls, LatestCall(), now, ttlMs, maxEntries);
        }
      }
      EvictExpired(now);
      duplicate := id in seenAt && now - seenAt[id].at < ttlMs;
      ghost var before := calls;
      assert duplicate <==> Recent(before, id, now, ttlMs, maxEntries) by {
        LookupIsRecent(seenAt, calls, id, now, ttlMs, maxEntries);
      }
      Remember(id, now);
    }
  }
}
