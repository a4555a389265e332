/**
 * The schema migrations of src/metrics/store.js:23-304 and the loop that runs
 * them (471-492). A database is the tables of its version, each a list of rows
 * in rowid order; JSON contexts are values.
 */
module Migrations {
  import opened Prelude
  import opened ReplyStore
  import PacketHistory
  import SampleStore
  import Nodes

  // ---------------------------------------------------------------- the rows of each version

  /** A sample before its packets_published column was renamed. */
  datatype PublishedSample = PublishedSample(id: int, at: int, received: int, published: int)

  datatype CommandEvent = CommandEvent(at: int, botName: string, trigger: string)

  /** How a logged reply ended; the CHECK of bot_reply_events allows no other. */
  type Ending = s: Status | s != Pending witness Sent

  datatype ReplyEvent = ReplyEvent(at: int, botName: string, trigger: string, sender: Option<string>, hash: Option<string>,
                                   outcome: Ending, queuedMs: Option<int>)

  datatype QueueItem = QueueItem(botName: string, channel: string, trigger: string, sender: string, hopCount: int,
                                 path: string, hash: string, query: Option<string>, lookupOutcome: Option<string>,
                                 name: Option<string>, matchCount: Option<int>, enqueuedAt: int, expiresAt: int)

  /** The columns of bot_replies that no later migration touches. */
  datatype Columns = Columns(id: nat, botName: string, channel: Option<string>, trigger: string, sender: Option<string>,
                             hopCount: Option<int>, path: Option<string>, hash: Option<string>,
                             enqueuedAt: Option<int>, expiresAt: Option<int>, status: Status,
                             resolvedAt: Option<int>, queuedMs: Option<int>)

  datatype Reply5 = Reply5(columns: Columns, query: Option<string>, lookupOutcome: Option<string>,
                           name: Option<string>, matchCount: Option<int>)

  datatype Reply6 = Reply6(columns: Columns, query: Option<string>, lookupOutcome: Option<string>,
                           name: Option<string>, matchCount: Option<int>,
                           lastHeardAt: Option<int>, nodePrefix: Option<string>, repeaterCount: Option<int>)

  /** handler_state_json, by kind; every context is of version 1. */
  datatype Context =
    | Exact
    | Stats(query: string)
    | Lookup(query: string, outcome: string, name: Option<string>, matchCount: Option<int>,
             lastHeardAt: Option<int>, nodePrefix: Option<string>, repeaterCount: Option<int>)

  datatype Reply8 = Reply8(columns: Columns, context: Context)

  datatype Db =
    | V0
    | V1(published: seq<PublishedSample>, types: seq<SampleStore.Child>, commands: seq<CommandEvent>)
    | V2(rows: SampleStore.Rows, events: seq<ReplyEvent>)
    | V3(rows: SampleStore.Rows, nodes: Nodes.Table, events: seq<ReplyEvent>)
    | V4(rows: SampleStore.Rows, nodes: Nodes.Table, events: seq<ReplyEvent>, items: seq<QueueItem>)
    | V5(rows: SampleStore.Rows, nodes: Nodes.Table, replies5: seq<Reply5>)
    | V6(rows: SampleStore.Rows, nodes: Nodes.Table, replies6: seq<Reply6>)
    | V7(rows: SampleStore.Rows, nodes: Nodes.Table, replies6: seq<Reply6>, slot: Slot)
    | V8(rows: SampleStore.Rows, nodes: Nodes.Table, slot: Slot, replies8: seq<Reply8>)
  {
    /** PRAGMA user_version. */
    function Version(): nat {
      match this
      case V0 => 0
      case V1(_, _, _) => 1
      case V2(_, _) => 2
      case V3(_, _, _) => 3
      case V4(_, _, _, _) => 4
      case V5(_, _, _) => 5
      case V6(_, _, _) => 6
      case V7(_, _, _, _) => 7
      case V8(_, _, _, _) => 8
    }
  }

  const LATEST := 8

  // ---------------------------------------------------------------- the migrations

  /** ALTER TABLE ... RENAME COLUMN packets_published TO packets_decoded. */
  function Renamed(samples: seq<PublishedSample>): seq<PacketHistory.Sample> {
    seq(|samples|, i requires 0 <= i < |samples| =>
      PacketHistory.Sample(samples[i].id, samples[i].at, samples[i].received, samples[i].published))
  }

  function AsEvents(commands: seq<CommandEvent>): seq<ReplyEvent> {
    seq(|commands|, i requires 0 <= i < |commands| =>
      ReplyEvent(commands[i].at, commands[i].botName, commands[i].trigger, None, None, Sent, None))
  }

  function PendingReply(i: QueueItem, id: nat): Reply5 {
    Reply5(Columns(id, i.botName, Some(i.channel), i.trigger, Some(i.sender), Some(i.hopCount), Some(i.path), Some(i.hash),
                   Some(i.enqueuedAt), Some(i.expiresAt), Pending, None, None),
           i.query, i.lookupOutcome, i.name, i.matchCount)
  }

  function EndedReply(e: ReplyEvent, id: nat): Reply5 {
    Reply5(Columns(id, e.botName, None, e.trigger, e.sender, None, None, e.hash, None, None, e.outcome, Some(e.at), e.queuedMs),
           None, None, None, None)
  }

  /** INSERT ... SELECT into the new table: ids count up from 1. */
  function FromItems(items: seq<QueueItem>): seq<Reply5> {
    seq(|items|, i requires 0 <= i < |items| => PendingReply(items[i], i + 1))
  }

  function FromEvents(events: seq<ReplyEvent>, base: nat): seq<Reply5> {
    seq(|events|, i requires 0 <= i < |events| => EndedReply(events[i], base + i + 1))
  }

  /** ALTER TABLE ... ADD COLUMN: null in every row there is. */
  function Widen(r: Reply5): Reply6 {
    Reply6(r.columns, r.query, r.lookupOutcome, r.name, r.matchCount, None, None, None)
  }

  function Widened(replies: seq<Reply5>): seq<Reply6> {
    seq(|replies|, i requires 0 <= i < |replies| => Widen(replies[i]))
  }

  /** CASE: a lookup outcome makes a lookup, else a query makes a stats context, else an exact one. */
  function ContextOf(r: Reply6): Context {
    if r.lookupOutcome.Some? then
      Lookup(if r.query.Some? then r.query.value else "", r.lookupOutcome.value, r.name, r.matchCount,
             r.lastHeardAt, r.nodePrefix, r.repeaterCount)
    else if r.query.Some? then Stats(r.query.value)
    else Exact
  }

  function WithContexts(replies: seq<Reply6>): seq<Reply8> {
    seq(|replies|, i requires 0 <= i < |replies| => Reply8(replies[i].columns, ContextOf(replies[i])))
  }

  /** The migration to the next version. */
  function Migrate(db: Db): (after: Db)
    requires db.Version() < LATEST
    ensures after.Version() == db.Version() + 1
  {
    match db
    case V0 => V1([], [], [])
    case V1(published, types, commands) => V2(SampleStore.Rows(Renamed(published), types), AsEvents(commands))
    case V2(rows, events) => V3(rows, map[], events)
    case V3(rows, nodes, events) => V4(rows, nodes, events, [])
    case V4(rows, nodes, events, items) => V5(rows, nodes, FromItems(items) + FromEvents(events, |items|))
    case V5(rows, nodes, replies) => V6(rows, nodes, Widened(replies))
    case V6(rows, nodes, replies) => V7(rows, nodes, replies, FRESH_SLOT)
    case V7(rows, nodes, replies, slot) => V8(rows, nodes, slot, WithContexts(replies))
  }

  // ---------------------------------------------------------------- what the tables mean

  /** A reply that ended. */
  datatype Ended = Ended(at: int, botName: string, trigger: string, sender: Option<string>, hash: Option<string>,
                         status: Status, queuedMs: Option<int>)

  function EndedBy(c: Columns): seq<Ended> {
    if c.status != Pending && c.resolvedAt.Some? then
      [Ended(c.resolvedAt.value, c.botName, c.trigger, c.sender, c.hash, c.status, c.queuedMs)]
    else []
  }

  /** What a lookup had found when it was asked. */
  datatype Finding = Finding(outcome: string, name: Option<string>, matchCount: Option<int>, lastHeardAt: Option<int>,
                             nodePrefix: Option<string>, repeaterCount: Option<int>)

  /** What a reply answers: the query, unless its command takes none, and for a lookup what it had found. */
  datatype Asked = Asked(query: Option<string>, finding: Option<Finding>)

  /** The columns before version 8: an outcome marks a lookup, whose missing query is empty. */
  function AskedBy(query: Option<string>, outcome: Option<string>, name: Option<string>, matchCount: Option<int>,
                   lastHeardAt: Option<int>, nodePrefix: Option<string>, repeaterCount: Option<int>): Asked {
    if outcome.None? then Asked(query, None)
    else Asked(Some(if query.Some? then query.value else ""),
               Some(Finding(outcome.value, name, matchCount, lastHeardAt, nodePrefix, repeaterCount)))
  }

  /** A context of version 8. */
  function AskedIn(c: Context): Asked {
    match c
    case Exact => Asked(None, None)
    case Stats(query) => Asked(Some(query), None)
    case Lookup(query, outcome, name, matchCount, lastHeardAt, nodePrefix, repeaterCount) =>
      Asked(Some(query), Some(Finding(outcome, name, matchCount, lastHeardAt, nodePrefix, repeaterCount)))
  }

  /** A row of the one table of replies there is from version 5 on. */
  datatype Reply = Reply(columns: Columns, asked: Asked)

  function Read5(r: Reply5): Reply {
    Reply(r.columns, AskedBy(r.query, r.lookupOutcome, r.name, r.matchCount, None, None, None))
  }

  function Read6(r: Reply6): Reply {
    Reply(r.columns, AskedBy(r.query, r.lookupOutcome, r.name, r.matchCount, r.lastHeardAt, r.nodePrefix, r.repeaterCount))
  }

  function Read8(r: Reply8): Reply {
    Reply(r.columns, AskedIn(r.context))
  }

  function Replies5(replies: seq<Reply5>): seq<Reply> {
    seq(|replies|, i requires 0 <= i < |replies| => Read5(replies[i]))
  }

  function Replies6(replies: seq<Reply6>): seq<Reply> {
    seq(|replies|, i requires 0 <= i < |replies| => Read6(replies[i]))
  }

  function Replies8(replies: seq<Reply8>): seq<Reply> {
    seq(|replies|, i requires 0 <= i < |replies| => Read8(replies[i]))
  }

  function AllReplies(db: Db): seq<Reply> {
    match db
    case V5(_, _, replies) => Replies5(replies)
    case V6(_, _, replies) => Replies6(replies)
    case V7(_, _, replies, _) => Replies6(replies)
    case V8(_, _, _, replies) => Replies8(replies)
    case _ => []
  }

  function EndedRows(rs: seq<Reply>): seq<Ended> {
    if rs == [] then [] else EndedRows(rs[..|rs| - 1]) + EndedBy(rs[|rs| - 1].columns)
  }

  function CommandsEnded(commands: seq<CommandEvent>): seq<Ended> {
    seq(|commands|, i requires 0 <= i < |commands| =>
      Ended(commands[i].at, commands[i].botName, commands[i].trigger, None, None, Sent, None))
  }

  function EventEnded(e: ReplyEvent): Ended {
    Ended(e.at, e.botName, e.trigger, e.sender, e.hash, e.outcome, e.queuedMs)
  }

  function EventsEnded(events: seq<ReplyEvent>): seq<Ended> {
    seq(|events|, i requires 0 <= i < |events| => EventEnded(events[i]))
  }

  /** Every reply that ended, as the tables of a version record it: all that the counting queries look at. */
  function History(db: Db): seq<Ended> {
    match db
    case V0 => []
    case V1(_, _, commands) => CommandsEnded(commands)
    case V2(_, events) => EventsEnded(events)
    case V3(_, _, events) => EventsEnded(events)
    case V4(_, _, events, _) => EventsEnded(events)
    case _ => EndedRows(AllReplies(db))
  }

  /** COUNT(*) of the replies with this ending in a window, of one bot and trigger or of all. */
  function Count(history: seq<Ended>, of: Option<(string, string)>, status: Status, w: PacketHistory.Window): nat {
    if history == [] then 0
    else
      var before, e := Count(history[..|history| - 1], of, status, w), history[|history| - 1];
      if e.status == status && w.Has(e.at) && (of == None || of == Some((e.botName, e.trigger))) then before + 1 else before
  }

  /** A reply still waiting, with what it was asked and the times it was given when it was queued. */
  datatype Waiting = Waiting(botName: string, channel: Option<string>, trigger: string, sender: Option<string>,
                             hopCount: Option<int>, path: Option<string>, hash: Option<string>, asked: Asked,
                             enqueuedAt: Option<int>, expiresAt: Option<int>)

  function WaitingBy(r: Reply): seq<Waiting> {
    var c := r.columns;
    if c.status == Pending then
      [Waiting(c.botName, c.channel, c.trigger, c.sender, c.hopCount, c.path, c.hash, r.asked, c.enqueuedAt, c.expiresAt)]
    else []
  }

  function WaitingRows(rs: seq<Reply>): seq<Waiting> {
    if rs == [] then [] else WaitingRows(rs[..|rs| - 1]) + WaitingBy(rs[|rs| - 1])
  }

  function WaitingItem(i: QueueItem): Waiting {
    Waiting(i.botName, Some(i.channel), i.trigger, Some(i.sender), Some(i.hopCount), Some(i.path), Some(i.hash),
            AskedBy(i.query, i.lookupOutcome, i.name, i.matchCount, None, None, None), Some(i.enqueuedAt), Some(i.expiresAt))
  }

  function WaitingItems(items: seq<QueueItem>): seq<Waiting> {
    seq(|items|, i requires 0 <= i < |items| => WaitingItem(items[i]))
  }

  /** The queue, in rowid order. */
  function Queue(db: Db): seq<Waiting> {
    match db
    case V4(_, _, _, items) => WaitingItems(items)
    case _ => WaitingRows(AllReplies(db))
  }

  function PacketTypes(db: Db): seq<SampleStore.Child> {
    match db
    case V0 => []
    case V1(_, types, _) => types
    case _ => db.rows.children
  }

  function NodeRows(db: Db): Nodes.Table {
    if db.Version() < 3 then map[] else db.nodes
  }

  function AdvertSlot(db: Db): Slot {
    if db.Version() < 7 then Slot(Idle, None, None, None, None, None) else db.slot
  }

  /** The samples under their ids; what a sample was first said to have published is what it decoded. */
  function ReadPublished(s: PublishedSample): PacketHistory.Sample {
    PacketHistory.Sample(s.id, s.at, s.received, s.published)
  }

  function Samples(db: Db): seq<PacketHistory.Sample> {
    match db
    case V0 => []
    case V1(published, _, _) =>
      seq(|published|, i requires 0 <= i < |published| => ReadPublished(published[i]))
    case _ => db.rows.samples
  }

  /** All that must outlive an upgrade, but for the sums over samples; a table that does not exist yet counts as new. */
  datatype Meaning = Meaning(history: seq<Ended>, queue: seq<Waiting>, samples: seq<PacketHistory.Sample>,
                             types: seq<SampleStore.Child>, nodes: Nodes.Table, slot: Slot)

  function MeaningOf(db: Db): Meaning {
    Meaning(History(db), Queue(db), Samples(db), PacketTypes(db), NodeRows(db), AdvertSlot(db))
  }

  /** SUM(received) and SUM(published), later SUM(decoded), over a window. */
  function Packets(db: Db, w: PacketHistory.Window): (int, int) {
    match db
    case V0 => (0, 0)
    case V1(published, _, _) => PublishedTotals(published, w)
    case _ => PacketHistory.QueryPacketTotals(db.rows.samples, w)
  }

  function PublishedTotals(samples: seq<PublishedSample>, w: PacketHistory.Window): (int, int) {
    if samples == [] then (0, 0)
    else
      var (received, published) := PublishedTotals(samples[..|samples| - 1], w);
      var s := samples[|samples| - 1];
      if w.Has(s.at) then (received + s.received, published + s.published) else (received, published)
  }

  /** The published sample of this id is in the window. */
  predicate PublishedInWindow(samples: seq<PublishedSample>, id: int, w: PacketHistory.Window) {
    exists i :: 0 <= i < |samples| && samples[i].id == id && w.Has(samples[i].at)
  }

  /** SUM(count) of one category over the type rows whose own sample is in the window. */
  function PublishedTypes(samples: seq<PublishedSample>, types: seq<SampleStore.Child>, w: PacketHistory.Window, key: string): int {
    if types == [] then 0
    else
      var before, r := PublishedTypes(samples, types[..|types| - 1], w, key), types[|types| - 1];
      if r.counter == SampleStore.Category(key) && PublishedInWindow(samples, r.sampleId, w) then before + r.count else before
  }

  function CategorySum(db: Db, w: PacketHistory.Window, key: string): int {
    match db
    case V0 => 0
    case V1(published, types, _) => PublishedTypes(published, types, w, key)
    case _ => SampleStore.Stored(db.rows, w, SampleStore.Category(key))
  }

  // ---------------------------------------------------------------- meaning is preserved

  lemma {:induction false} RenamedMeansPublished(samples: seq<PublishedSample>, w: PacketHistory.Window)
    ensures PacketHistory.QueryPacketTotals(Renamed(samples), w) == PublishedTotals(samples, w)
  {
    if samples != [] {
      RenamedMeansPublished(samples[..|samples| - 1], w);
      assert Renamed(samples)[..|samples| - 1] == Renamed(samples[..|samples| - 1]);
    }
  }

  lemma EndedAppend(rs: seq<Reply>, r: Reply)
    ensures EndedRows(rs + [r]) == EndedRows(rs) + EndedBy(r.columns)
  {
    assert (rs + [r])[..|rs|] == rs;
  }

  lemma WaitingAppend(rs: seq<Reply>, r: Reply)
    ensures WaitingRows(rs + [r]) == WaitingRows(rs) + WaitingBy(r)
  {
    assert (rs + [r])[..|rs|] == rs;
  }

  lemma Regroup<T>(whole: seq<T>, ab: seq<T>, a: seq<T>, b: seq<T>, c: seq<T>, bc: seq<T>)
    requires whole == ab + c && ab == a + b && bc == b + c
    ensures whole == a + bc
  {
  }

  ghost predicate EndsConcat(a: seq<Reply>, b: seq<Reply>) {
    EndedRows(a + b) == EndedRows(a) + EndedRows(b)
  }

  lemma EndsConcatStep(a: seq<Reply>, b: seq<Reply>, r: Reply)
    requires EndsConcat(a, b)
    ensures EndsConcat(a, b + [r])
  {
    assert a + (b + [r]) == (a + b) + [r];
    EndedAppend(a + b, r);
    EndedAppend(b, r);
    Regroup(EndedRows(a + (b + [r])), EndedRows(a + b), EndedRows(a), EndedRows(b), EndedBy(r.columns), EndedRows(b + [r]));
  }

  lemma {:induction false} EndedConcat(a: seq<Reply>, b: seq<Reply>)
    ensures EndsConcat(a, b)
  {
    if b == [] {
      assert a + b == a;
    } else {
      EndedConcat(a, b[..|b| - 1]);
      EndsConcatStep(a, b[..|b| - 1], b[|b| - 1]);
      assert b[..|b| - 1] + [b[|b| - 1]] == b;
    }
  }

  ghost predicate WaitsConcat(a: seq<Reply>, b: seq<Reply>) {
    WaitingRows(a + b) == WaitingRows(a) + WaitingRows(b)
  }

  lemma WaitsConcatStep(a: seq<Reply>, b: seq<Reply>, r: Reply)
    requires WaitsConcat(a, b)
    ensures WaitsConcat(a, b + [r])
  {
    assert a + (b + [r]) == (a + b) + [r];
    WaitingAppend(a + b, r);
    WaitingAppend(b, r);
    Regroup(WaitingRows(a + (b + [r])), WaitingRows(a + b), WaitingRows(a), WaitingRows(b), WaitingBy(r), WaitingRows(b + [r]));
  }

  lemma {:induction false} WaitingConcat(a: seq<Reply>, b: seq<Reply>)
    ensures WaitsConcat(a, b)
  {
    if b == [] {
      assert a + b == a;
    } else {
      WaitingConcat(a, b[..|b| - 1]);
      WaitsConcatStep(a, b[..|b| - 1], b[|b| - 1]);
      assert b[..|b| - 1] + [b[|b| - 1]] == b;
    }
  }

  /** The rows that ended are these, one for one. */
  ghost predicate EndOneByOne(rs: seq<Reply>, es: seq<Ended>) {
    |rs| == |es| && forall i | 0 <= i < |rs| :: EndedBy(rs[i].columns) == [es[i]]
  }

  lemma EndOneMore(rs: seq<Reply>, r: Reply, es: seq<Ended>, e: Ended)
    requires EndedRows(rs) == es && EndedBy(r.columns) == [e]
    ensures EndedRows(rs + [r]) == es + [e]
  {
    EndedAppend(rs, r);
  }

  lemma {:induction false} EndedAre(rs: seq<Reply>, es: seq<Ended>)
    requires EndOneByOne(rs, es)
    ensures EndedRows(rs) == es
  {
    if rs != [] {
      var n := |rs| - 1;
      assert EndedRows(rs[..n] + [rs[n]]) == es[..n] + [es[n]] by {
        EndedAre(rs[..n], es[..n]);
        EndOneMore(rs[..n], rs[n], es[..n], es[n]);
      }
      assert rs[..n] + [rs[n]] == rs && es[..n] + [es[n]] == es;
    }
  }

  /** The rows that wait are these, one for one. */
  ghost predicate WaitOneByOne(rs: seq<Reply>, ws: seq<Waiting>) {
    |rs| == |ws| && forall i | 0 <= i < |rs| :: WaitingBy(rs[i]) == [ws[i]]
  }

  lemma WaitOneMore(rs: seq<Reply>, r: Reply, ws: seq<Waiting>, w: Waiting)
    requires WaitingRows(rs) == ws && WaitingBy(r) == [w]
    ensures WaitingRows(rs + [r]) == ws + [w]
  {
    WaitingAppend(rs, r);
  }

  lemma {:induction false} WaitingAre(rs: seq<Reply>, ws: seq<Waiting>)
    requires WaitOneByOne(rs, ws)
    ensures WaitingRows(rs) == ws
  {
    if rs != [] {
      var n := |rs| - 1;
      assert WaitingRows(rs[..n] + [rs[n]]) == ws[..n] + [ws[n]] by {
        WaitingAre(rs[..n], ws[..n]);
        WaitOneMore(rs[..n], rs[n], ws[..n], ws[n]);
      }
      assert rs[..n] + [rs[n]] == rs && ws[..n] + [ws[n]] == ws;
    }
  }

  lemma {:induction false} NoneEnded(rs: seq<Reply>)
    requires forall i | 0 <= i < |rs| :: EndedBy(rs[i].columns) == []
    ensures EndedRows(rs) == []
  {
    if rs != [] {
      NoneEnded(rs[..|rs| - 1]);
    }
  }

  lemma {:induction false} NoneWaiting(rs: seq<Reply>)
    requires forall i | 0 <= i < |rs| :: WaitingBy(rs[i]) == []
    ensures WaitingRows(rs) == []
  {
    if rs != [] {
      NoneWaiting(rs[..|rs| - 1]);
    }
  }

  lemma ItemRow(item: QueueItem, id: nat)
    ensures WaitingBy(Read5(PendingReply(item, id))) == [WaitingItem(item)]
    ensures EndedBy(PendingReply(item, id).columns) == []
  {
  }

  lemma EventRow(e: ReplyEvent, id: nat)
    ensures WaitingBy(Read5(EndedReply(e, id))) == []
    ensures EndedBy(EndedReply(e, id).columns) == [EventEnded(e)]
  {
  }

  lemma ItemsWait(items: seq<QueueItem>)
    ensures EndedRows(Replies5(FromItems(items))) == []
    ensures WaitingRows(Replies5(FromItems(items))) == WaitingItems(items)
  {
    var rs, ws := Replies5(FromItems(items)), WaitingItems(items);
    forall i | 0 <= i < |items|
      ensures EndedBy(rs[i].columns) == [] && WaitingBy(rs[i]) == [ws[i]]
    {
      ItemRow(items[i], i + 1);
    }
    assert WaitOneByOne(rs, ws);
    NoneEnded(rs);
    WaitingAre(rs, ws);
  }

  lemma EventsEnd(events: seq<ReplyEvent>, base: nat)
    ensures WaitingRows(Replies5(FromEvents(events, base))) == []
    ensures EndedRows(Replies5(FromEvents(events, base))) == EventsEnded(events)
  {
    var rs, es := Replies5(FromEvents(events, base)), EventsEnded(events);
    forall i | 0 <= i < |events|
      ensures WaitingBy(rs[i]) == [] && EndedBy(rs[i].columns) == [es[i]]
    {
      EventRow(events[i], base + i + 1);
    }
    assert EndOneByOne(rs, es);
    NoneWaiting(rs);
    EndedAre(rs, es);
  }

  /** Version 5 merges the queue and the log into one table. */
  lemma MergePreserves(items: seq<QueueItem>, events: seq<ReplyEvent>)
    ensures var rs := Replies5(FromItems(items) + FromEvents(events, |items|));
            EndedRows(rs) == EventsEnded(events) && WaitingRows(rs) == WaitingItems(items)
  {
    var waiting, ended := Replies5(FromItems(items)), Replies5(FromEvents(events, |items|));
    assert Replies5(FromItems(items) + FromEvents(events, |items|)) == waiting + ended;
    ItemsWait(items);
    EventsEnd(events, |items|);
    EndedConcat(waiting, ended);
    WaitingConcat(waiting, ended);
  }

  lemma WideningKeeps(replies: seq<Reply5>)
    ensures Replies6(Widened(replies)) == Replies5(replies)
  {
  }

  /** The context tells what the columns it replaces told. */
  lemma ContextsKeep(replies: seq<Reply6>)
    ensures Replies8(WithContexts(replies)) == Replies6(replies)
  {
  }

  lemma RepliesPreserved(db: Db)
    requires 5 <= db.Version() < LATEST
    ensures AllReplies(Migrate(db)) == AllReplies(db)
  {
    match db
    case V5(_, _, replies) => WideningKeeps(replies);
    case V6(_, _, _) =>
    case V7(_, _, replies, _) => ContextsKeep(replies);
  }

  /** From version 5 on, both are read off the one table. */
  lemma MergedPreserved(db: Db)
    requires 5 <= db.Version() < LATEST
    ensures History(Migrate(db)) == History(db) && Queue(Migrate(db)) == Queue(db)
  {
    RepliesPreserved(db);
  }

  lemma MergingPreserves(db: Db)
    requires db.V4?
    ensures History(Migrate(db)) == History(db) && Queue(Migrate(db)) == Queue(db)
  {
    MergePreserves(db.items, db.events);
  }

  lemma RenamingPreserves(db: Db)
    requires db.V1?
    ensures History(Migrate(db)) == History(db)
  {
    assert EventsEnded(AsEvents(db.commands)) == CommandsEnded(db.commands);
  }

  lemma HistoryPreserved(db: Db)
    requires db.Version() < LATEST
    ensures History(Migrate(db)) == History(db)
  {
    if db.V1? {
      RenamingPreserves(db);
    } else if db.V4? {
      MergingPreserves(db);
    } else if db.Version() >= 5 {
      MergedPreserved(db);
    }
  }

  lemma QueuePreserved(db: Db)
    requires db.Version() < LATEST
    ensures Queue(Migrate(db)) == Queue(db)
  {
    if db.V4? {
      MergingPreserves(db);
    } else if db.Version() >= 5 {
      MergedPreserved(db);
    }
  }

  lemma PacketsPreserved(db: Db, w: PacketHistory.Window)
    requires db.Version() < LATEST
    ensures Packets(Migrate(db), w) == Packets(db, w)
  {
    if db.V1? {
      RenamedMeansPublished(db.published, w);
    }
  }

  lemma RenamedInWindow(samples: seq<PublishedSample>, id: int, w: PacketHistory.Window)
    ensures SampleStore.InWindow(Renamed(samples), id, w) <==> PublishedInWindow(samples, id, w)
  {
    if i :| 0 <= i < |samples| && samples[i].id == id && w.Has(samples[i].at) {
      assert Renamed(samples)[i].id == id && w.Has(Renamed(samples)[i].at);
    }
    if i :| 0 <= i < |Renamed(samples)| && Renamed(samples)[i].id == id && w.Has(Renamed(samples)[i].at) {
      assert samples[i].id == id && w.Has(samples[i].at);
    }
  }

  /** Every type row still finds its own sample. */
  lemma {:induction false} RenamedKeepsTypes(samples: seq<PublishedSample>, types: seq<SampleStore.Child>,
                                             w: PacketHistory.Window, key: string)
    ensures SampleStore.SumOf(Renamed(samples), types, w, SampleStore.Category(key)) == PublishedTypes(samples, types, w, key)
  {
    if types != [] {
      RenamedKeepsTypes(samples, types[..|types| - 1], w, key);
      RenamedInWindow(samples, types[|types| - 1].sampleId, w);
    }
  }

  lemma CategoriesPreserved(db: Db, w: PacketHistory.Window, key: string)
    requires db.Version() < LATEST
    ensures CategorySum(Migrate(db), w, key) == CategorySum(db, w, key)
  {
    if db.V1? {
      RenamedKeepsTypes(db.published, db.types, w, key);
    }
  }

  lemma SamplesPreserved(db: Db)
    requires db.Version() < LATEST
    ensures Samples(Migrate(db)) == Samples(db)
  {
    if db.V1? {
      assert Renamed(db.published) == Samples(db);
    }
  }

  lemma OthersPreserved(db: Db)
    requires db.Version() < LATEST
    ensures PacketTypes(Migrate(db)) == PacketTypes(db) && NodeRows(Migrate(db)) == NodeRows(db)
    ensures AdvertSlot(Migrate(db)) == AdvertSlot(db)
  {
  }

  lemma MeaningPreserved(db: Db)
    requires db.Version() < LATEST
    ensures MeaningOf(Migrate(db)) == MeaningOf(db)
  {
    HistoryPreserved(db);
    QueuePreserved(db);
    SamplesPreserved(db);
    OthersPreserved(db);
  }

  /**
   * A migration keeps every ended reply, the queue with what each reply in it was asked, the samples under their ids,
   * the packet types, the nodes and the advert slot, whole reply rows from version 5 on, and over every window the packet
   * totals and the sum of each category.
   */
  lemma MigrationPreserves(db: Db, w: PacketHistory.Window)
    requires db.Version() < LATEST
    ensures MeaningOf(Migrate(db)) == MeaningOf(db)
    ensures db.Version() >= 5 ==> AllReplies(Migrate(db)) == AllReplies(db)
    ensures Packets(Migrate(db), w) == Packets(db, w)
    ensures forall key :: CategorySum(Migrate(db), w, key) == CategorySum(db, w, key)
  {
    MeaningPreserved(db);
    PacketsPreserved(db, w);
    forall key
      ensures CategorySum(Migrate(db), w, key) == CategorySum(db, w, key)
    {
      CategoriesPreserved(db, w, key);
    }
    if db.Version() >= 5 {
      RepliesPreserved(db);
    }
  }

  // ---------------------------------------------------------------- the contexts of version 8

  const OUTCOMES := {"found", "not_found", "ambiguous", "invalid"}

  predicate NotNegative(n: Option<int>) {
    n.Some? ==> n.value >= 0
  }

  /** The schema its kind's handler restores a context with. */
  predicate Accepted(c: Context) {
    match c
    case Exact => true
    case Stats(_) => true
    case Lookup(_, outcome, _, matchCount, _, _, repeaterCount) =>
      outcome in OUTCOMES && NotNegative(matchCount) && NotNegative(repeaterCount)
  }

  /**
   * What the migrated rows must have held for every context to be accepted: nothing but a lookup's outcome and counts
   * can go wrong.
   */
  predicate Restorable(r: Reply6) {
    r.lookupOutcome.Some? ==>
      && r.lookupOutcome.value in {"found", "not_found", "ambiguous", "invalid"}
      && (r.matchCount.Some? ==> r.matchCount.value >= 0) && (r.repeaterCount.Some? ==> r.repeaterCount.value >= 0)
  }

  /** Version 8 keeps each row's id and columns, and its context is accepted exactly when the row was restorable. */
  lemma ContextsAreAccepted(db: Db, i: nat)
    requires db.V7? && i < |db.replies6|
    ensures var after := Migrate(db).replies8;
            && |after| == |db.replies6| && after[i].columns == db.replies6[i].columns
            && (Accepted(after[i].context) <==> Restorable(db.replies6[i]))
            && (after[i].context.Lookup? <==> db.replies6[i].lookupOutcome.Some?)
            && (after[i].context.Exact? <==> db.replies6[i].lookupOutcome.None? && db.replies6[i].query.None?)
            && (db.replies6[i].query.Some? ==> !after[i].context.Exact? && after[i].context.query == db.replies6[i].query.value)
  {
  }

  // ---------------------------------------------------------------- running them

  /** The database brought to a version. */
  function UpTo(db: Db, version: nat): (after: Db)
    requires version <= LATEST
    ensures after.Version() == if version > db.Version() then version else db.Version()
  {
    if version <= db.Version() then db else Migrate(UpTo(db, version - 1))
  }

  /** A later version means the same. */
  ghost predicate Preserves(before: Db, after: Db, w: PacketHistory.Window) {
    && MeaningOf(after) == MeaningOf(before)
    && (before.Version() >= 5 ==> AllReplies(after) == AllReplies(before))
    && Packets(after, w) == Packets(before, w)
    && forall key :: CategorySum(after, w, key) == CategorySum(before, w, key)
  }

  lemma StepPreserves(first: Db, before: Db, w: PacketHistory.Window)
    requires first.Version() <= before.Version() < LATEST && Preserves(first, before, w)
    ensures Preserves(first, Migrate(before), w)
  {
    MigrationPreserves(before, w);
  }

  /** From any version to any later one, nothing that was counted, queued or known is lost, added or changed. */
  lemma {:induction false} UpgradePreserves(db: Db, version: nat, w: PacketHistory.Window)
    requires version <= LATEST
    ensures Preserves(db, UpTo(db, version), w)
    decreases version
  {
    if version > db.Version() {
      UpgradePreserves(db, version - 1, w);
      StepPreserves(db, UpTo(db, version - 1), w);
    }
  }

  /** Each reply has an id of its own, as a primary key demands; before version 5 there is no such table. */
  predicate OwnIds(rs: seq<Reply>) {
    forall i, j | 0 <= i < j < |rs| :: rs[i].columns.id != rs[j].columns.id
  }

  /** The rows of the merged table are numbered through. */
  lemma MergedIds(items: seq<QueueItem>, events: seq<ReplyEvent>, i: nat)
    requires i < |items| + |events|
    ensures Replies5(FromItems(items) + FromEvents(events, |items|))[i].columns.id == i + 1
  {
  }

  lemma MergeGivesOwnIds(items: seq<QueueItem>, events: seq<ReplyEvent>)
    ensures OwnIds(Replies5(FromItems(items) + FromEvents(events, |items|)))
  {
    var rs := Replies5(FromItems(items) + FromEvents(events, |items|));
    forall i, j | 0 <= i < j < |rs|
      ensures rs[i].columns.id != rs[j].columns.id
    {
      MergedIds(items, events, i);
      MergedIds(items, events, j);
    }
  }

  lemma MigrationKeepsOwnIds(db: Db)
    requires db.Version() < LATEST && OwnIds(AllReplies(db))
    ensures OwnIds(AllReplies(Migrate(db)))
  {
    if db.Version() >= 5 {
      RepliesPreserved(db);
    } else if db.V4? {
      MergeGivesOwnIds(db.items, db.events);
    } else {
      assert AllReplies(Migrate(db)) == [];
    }
  }

  /** No migration gives an id twice, the merge of two tables in version 5 included. */
  lemma {:induction false} UpgradeKeepsOwnIds(db: Db, version: nat)
    requires version <= LATEST && OwnIds(AllReplies(db))
    ensures OwnIds(AllReplies(UpTo(db, version)))
    decreases version
  {
    if version > db.Version() {
      UpgradeKeepsOwnIds(db, version - 1);
      MigrationKeepsOwnIds(UpTo(db, version - 1));
    }
  }

  lemma QueueUpgraded(db: Db)
    requires db.V4?
    ensures UpTo(db, LATEST)
            == V8(db.rows, db.nodes, FRESH_SLOT,
                  WithContexts(Widened(FromItems(db.items) + FromEvents(db.events, |db.items|))))
  {
    var replies := FromItems(db.items) + FromEvents(db.events, |db.items|);
    assert UpTo(db, 5) == V5(db.rows, db.nodes, replies);
    assert UpTo(db, 6) == V6(db.rows, db.nodes, Widened(replies));
    assert UpTo(db, 7) == V7(db.rows, db.nodes, Widened(replies), FRESH_SLOT);
  }

  /** The row a queued item of version 4 has in version 8. */
  lemma QueuedRow(db: Db, i: nat)
    requires db.V4? && i < |db.items|
    ensures UpTo(db, LATEST).V8? && i < |UpTo(db, LATEST).replies8|
    ensures var before := PendingReply(db.items[i], i + 1);
            UpTo(db, LATEST).replies8[i] == Reply8(before.columns, ContextOf(Widen(before)))
  {
    QueueUpgraded(db);
  }

  /** Stopping on the way and starting again ends where one run would have. */
  lemma {:induction false} RerunReachesTheSame(db: Db, stopped: nat, version: nat)
    requires stopped <= version <= LATEST
    ensures UpTo(UpTo(db, stopped), version) == UpTo(db, version)
    decreases version
  {
    if version > stopped && version > db.Version() {
      RerunReachesTheSame(db, stopped, version - 1);
    }
  }

  class MetricsDatabase {
    var db: Db

    constructor (db: Db)
      ensures this.db == db
    {
      this.db := db;
    }

    /**
     * Applies the missing migrations in order, each in a transaction. failAt is the version whose statements throw, if any: what
     * they had done by then is undone, and the error ends the run.
     */
    method RunMigrations(failAt: nat) returns (ok: bool)
      requires db.Version() <= LATEST
      modifies this
      ensures ok <==> !(old(db).Version() < failAt <= LATEST)
      ensures db == UpTo(old(db), if ok then LATEST else failAt - 1)
    {
      var currentVersion := db.Version();
      for version := 1 to LATEST + 1
        invariant db == UpTo(old(db), version - 1)
        invariant currentVersion < failAt <= LATEST ==> version <= failAt
      {
        if version > currentVersion {
          var before := db;
          if version == failAt {
            db := *;
            db := before;
            return false;
          }
          db := Migrate(db);
        }
      }
      ok := true;
    }
  }
}
