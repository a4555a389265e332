/**
 * What the dashboard counts in the table an upgrade leaves: exactly what the
 * tables of the version it started from recorded, per bot and trigger
 * (src/metrics/store.js:694-733) and per outcome (747-756).
 */
module MigratedCounts {
  import opened Prelude
  import opened ReplyStore
  import opened Migrations
  import DashboardQueries
  import PacketHistory

  /** A row a counting query selects: of this ending, resolved in the window, of one bot and trigger or of all. */
  predicate Selected(c: Columns, of: Option<(string, string)>, status: Status, w: PacketHistory.Window) {
    && c.status == status && c.resolvedAt.Some? && w.Has(c.resolvedAt.value)
    && (of == None || of == Some((c.botName, c.trigger)))
  }

  /** A stored row has what the counting queries look at. */
  predicate SameRow(row: Row, c: Columns) {
    row.item.botName == c.botName && row.item.trigger == c.trigger && row.status == c.status && row.resolvedAt == c.resolvedAt
  }

  /** The table the store works on has these rows, by their primary key. */
  ghost predicate Holds(rows: Rows, rs: seq<Reply>) {
    && (forall id | id in rows :: exists i :: 0 <= i < |rs| && rs[i].columns.id == id)
    && (forall i | 0 <= i < |rs| :: rs[i].columns.id in rows && SameRow(rows[rs[i].columns.id], rs[i].columns))
  }

  ghost function SelectedIds(rs: seq<Reply>, of: Option<(string, string)>, status: Status, w: PacketHistory.Window): set<nat> {
    set i | 0 <= i < |rs| && Selected(rs[i].columns, of, status, w) :: rs[i].columns.id
  }

  lemma CountAppend(history: seq<Ended>, e: Ended, of: Option<(string, string)>, status: Status, w: PacketHistory.Window)
    ensures Count(history + [e], of, status, w)
            == Count(history, of, status, w)
               + if e.status == status && w.Has(e.at) && (of == None || of == Some((e.botName, e.trigger))) then 1 else 0
  {
    assert (history + [e])[..|history|] == history;
  }

  /** One row more in the table. */
  lemma CountStep(history: seq<Ended>, c: Columns, of: Option<(string, string)>, status: Status, w: PacketHistory.Window)
    requires status != Pending
    ensures Count(history + EndedBy(c), of, status, w)
            == Count(history, of, status, w) + if Selected(c, of, status, w) then 1 else 0
  {
    if EndedBy(c) == [] {
      assert history + EndedBy(c) == history;
    } else {
      CountAppend(history, EndedBy(c)[0], of, status, w);
      assert EndedBy(c) == [EndedBy(c)[0]];
    }
  }

  lemma SelectedAppend(rs: seq<Reply>, r: Reply, of: Option<(string, string)>, status: Status, w: PacketHistory.Window)
    ensures SelectedIds(rs + [r], of, status, w)
            == SelectedIds(rs, of, status, w) + if Selected(r.columns, of, status, w) then {r.columns.id} else {}
  {
    var all := rs + [r];
    forall id | id in SelectedIds(all, of, status, w)
      ensures id in SelectedIds(rs, of, status, w) || (Selected(r.columns, of, status, w) && id == r.columns.id)
    {
      var i :| 0 <= i < |all| && Selected(all[i].columns, of, status, w) && all[i].columns.id == id;
      assert i < |rs| ==> all[i] == rs[i];
    }
    forall id | id in SelectedIds(rs, of, status, w)
      ensures id in SelectedIds(all, of, status, w)
    {
      var i :| 0 <= i < |rs| && Selected(rs[i].columns, of, status, w) && rs[i].columns.id == id;
      assert all[i] == rs[i];
    }
    assert all[|rs|] == r;
  }

  lemma SelectedStep(rs: seq<Reply>, r: Reply, of: Option<(string, string)>, status: Status, w: PacketHistory.Window)
    requires forall i | 0 <= i < |rs| :: rs[i].columns.id != r.columns.id
    ensures |SelectedIds(rs + [r], of, status, w)|
            == |SelectedIds(rs, of, status, w)| + if Selected(r.columns, of, status, w) then 1 else 0
  {
    SelectedAppend(rs, r, of, status, w);
    assert r.columns.id !in SelectedIds(rs, of, status, w);
  }

  ghost predicate CountsAgree(rs: seq<Reply>, of: Option<(string, string)>, status: Status, w: PacketHistory.Window) {
    Count(EndedRows(rs), of, status, w) == |SelectedIds(rs, of, status, w)|
  }

  lemma CountsAgreeStep(rs: seq<Reply>, r: Reply, of: Option<(string, string)>, status: Status, w: PacketHistory.Window)
    requires status != Pending && CountsAgree(rs, of, status, w)
    requires forall i | 0 <= i < |rs| :: rs[i].columns.id != r.columns.id
    ensures CountsAgree(rs + [r], of, status, w)
  {
    EndedAppend(rs, r);
    CountStep(EndedRows(rs), r.columns, of, status, w);
    SelectedStep(rs, r, of, status, w);
  }

  lemma {:induction false} CountsSelected(rs: seq<Reply>, of: Option<(string, string)>, status: Status, w: PacketHistory.Window)
    requires status != Pending && OwnIds(rs)
    ensures CountsAgree(rs, of, status, w)
  {
    if rs == [] {
      assert SelectedIds(rs, of, status, w) == {};
    } else {
      var init, r := rs[..|rs| - 1], rs[|rs| - 1];
      assert CountsAgree(init + [r], of, status, w) by {
        CountsSelected(init, of, status, w);
        CountsAgreeStep(init, r, of, status, w);
      }
      assert init + [r] == rs;
    }
  }

  /** The ids a counting query selects in the table itself. */
  ghost function StoredIds(rows: Rows, of: Option<(string, string)>, status: Status, w: PacketHistory.Window): set<nat> {
    match of
    case Some((bot, trigger)) =>
      set id | id in DashboardQueries.OutcomeIds(rows, w, status)
               && rows[id].item.botName == bot && rows[id].item.trigger == trigger
    case None => DashboardQueries.OutcomeIds(rows, w, status)
  }

  lemma QuerySelects(rows: Rows, rs: seq<Reply>, of: Option<(string, string)>, status: Status, w: PacketHistory.Window)
    requires OwnIds(rs) && Holds(rows, rs)
    ensures StoredIds(rows, of, status, w) == SelectedIds(rs, of, status, w)
  {
    forall id
      ensures id in StoredIds(rows, of, status, w) <==> id in SelectedIds(rs, of, status, w)
    {
      if id in rows {
        var i :| 0 <= i < |rs| && rs[i].columns.id == id;
        assert SameRow(rows[id], rs[i].columns);
        assert id in StoredIds(rows, of, status, w) <==> Selected(rs[i].columns, of, status, w);
        assert forall k | 0 <= k < |rs| && rs[k].columns.id == id :: k == i;
      }
    }
  }

  /** What a counting query selects in the table the upgrade leaves is what the old tables recorded. */
  lemma SelectionSurvives(db: Db, rows: Rows, of: Option<(string, string)>, status: Status, w: PacketHistory.Window)
    requires db.Version() <= LATEST && status != Pending && OwnIds(AllReplies(db)) && Holds(rows, AllReplies(UpTo(db, LATEST)))
    ensures |StoredIds(rows, of, status, w)| == Count(History(db), of, status, w)
  {
    var rs := AllReplies(UpTo(db, LATEST));
    assert EndedRows(rs) == History(db) by {
      UpgradePreserves(db, LATEST, w);
    }
    UpgradeKeepsOwnIds(db, LATEST);
    CountsSelected(rs, of, status, w);
    QuerySelects(rows, rs, of, status, w);
  }

  /**
   * The dashboard counts, per bot and trigger, exactly the replies the old tables recorded as sent, from whichever
   * version on.
   */
  lemma CountsSurvive(db: Db, rows: Rows, bot: string, trigger: string, w: PacketHistory.Window)
    requires db.Version() <= LATEST && OwnIds(AllReplies(db)) && Holds(rows, AllReplies(UpTo(db, LATEST)))
    ensures |DashboardQueries.SentIds(rows, w, bot, trigger)| == Count(History(db), Some((bot, trigger)), Sent, w)
  {
    SelectionSurvives(db, rows, Some((bot, trigger)), Sent, w);
    assert StoredIds(rows, Some((bot, trigger)), Sent, w) == DashboardQueries.SentIds(rows, w, bot, trigger);
  }

  /** The outcome totals of the upgraded table are the numbers of replies the old tables recorded with each ending. */
  method OutcomesSurvive(ghost db: Db, rows: Rows, w: PacketHistory.Window) returns (totals: DashboardQueries.OutcomeTotals)
    requires db.Version() <= LATEST && OwnIds(AllReplies(db)) && Holds(rows, AllReplies(UpTo(db, LATEST)))
    ensures forall status: Ending :: totals.Of(status) == Count(History(db), None, status, w)
  {
    totals := DashboardQueries.QueryReplyOutcomeTotals(rows, w);
    forall status: Ending
      ensures totals.Of(status) == Count(History(db), None, status, w)
    {
      SelectionSurvives(db, rows, None, status, w);
    }
  }
}
