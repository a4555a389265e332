/**
 * Command handlers: which command a text matches, the state that is queued
 * with the reply, and what is executed when the reply is sent
 * (src/bots/command-handlers/). JSON text is a value with a byte size.
 */
module Handlers {
  import opened Prelude
  import Migrations
  import Nodes
  import ReplyStore
  import SampleStore

  datatype Kind = Exact | Lookup | Stats

  datatype Command = Command(trigger: string, kind: Option<Kind>)

  function KindOf(c: Command): Kind {
    if c.kind.Some? then c.kind.value else Exact
  }

  // ---------------------------------------------------------------- durable handler state

  datatype Data =
    | Empty
    | Query(query: string)
    | Snapshot(query: string, outcome: string, name: Option<string>, matchCount: Option<int>,
               lastHeardAt: Option<int>, nodePrefix: Option<string>, repeaterCount: Option<int>)
    | Foreign

  datatype State = State(kind: Kind, version: int, data: Data)

  /** A stored text, which may be no JSON at all, and its size in UTF-8. */
  datatype Stored = NotJson(bytes: nat) | Json(state: State, bytes: nat)

  datatype Result<+T> = Ok(value: T) | Err

  const MAX_HANDLER_STATE_BYTES := 4096

  /** The data schema of a kind. */
  predicate Accepts(kind: Kind, data: Data) {
    match kind
    case Exact => data.Empty?
    case Stats => data.Query?
    case Lookup =>
      data.Query?
      || (&& data.Snapshot? && data.outcome in Migrations.OUTCOMES
          && Migrations.NotNegative(data.matchCount) && Migrations.NotNegative(data.repeaterCount))
  }

  predicate Valid(kind: Kind, s: State) {
    s.kind == kind && s.version == 1 && Accepts(kind, s.data)
  }

  /** size is the length of JSON.stringify's UTF-8. */
  function Serialize(kind: Kind, data: Data, size: State -> nat): Result<Stored> {
    var state := State(kind, 1, data);
    if !Valid(kind, state) || size(state) > MAX_HANDLER_STATE_BYTES then Err
    else Ok(Json(state, size(state)))
  }

  function Restore(kind: Kind, stored: Stored): Result<Data> {
    if stored.bytes > MAX_HANDLER_STATE_BYTES || stored.NotJson? || !Valid(kind, stored.state) then Err
    else Ok(stored.state.data)
  }

  /** What a handler serialized it restores, and no handler of another kind does. */
  lemma RestoresItsOwn(kind: Kind, other: Kind, data: Data, size: State -> nat)
    ensures Serialize(kind, data, size).Ok? <==> Accepts(kind, data) && size(State(kind, 1, data)) <= MAX_HANDLER_STATE_BYTES
    ensures Serialize(kind, data, size).Ok? ==>
              (if other == kind then Restore(other, Serialize(kind, data, size).value) == Ok(data)
               else Restore(other, Serialize(kind, data, size).value) == Err)
  {
  }

  /** A stored text restores exactly when it is JSON of at most 4096 bytes, of this kind, version 1 and the kind's schema. */
  lemma RestoresExactlyWhen(kind: Kind, stored: Stored)
    ensures Restore(kind, stored).Ok?
            <==> && stored.Json? && stored.bytes <= 4096 && stored.state.kind == kind && stored.state.version == 1
                 && match stored.state.data
                    case Empty => kind == Exact
                    case Query(_) => kind == Stats || kind == Lookup
                    case Snapshot(_, outcome, _, matchCount, _, _, repeaterCount) =>
                      && kind == Lookup && outcome in {"found", "not_found", "ambiguous", "invalid"}
                      && (matchCount.Some? ==> matchCount.value >= 0) && (repeaterCount.Some? ==> repeaterCount.value >= 0)
                    case Foreign => false
    ensures Restore(kind, stored).Ok? ==> Restore(kind, stored).value == stored.state.data
  {
  }

  /** A migrated context as its JSON. */
  function Migrated(c: Migrations.Context): State {
    match c
    case Exact => State(Exact, 1, Empty)
    case Stats(query) => State(Stats, 1, Query(query))
    case Lookup(query, outcome, name, matchCount, lastHeardAt, nodePrefix, repeaterCount) =>
      State(Lookup, 1, Snapshot(query, outcome, name, matchCount, lastHeardAt, nodePrefix, repeaterCount))
  }

  function QueryOf(d: Data): Option<string> {
    if d.Query? || d.Snapshot? then Some(d.query) else None
  }

  /** What the handler of its kind makes of a migrated row. */
  function RestoredRow(r: Migrations.Reply8, size: State -> nat): Result<Data> {
    var state := Migrated(r.context);
    Restore(state.kind, Json(state, size(state)))
  }

  lemma ContextRestores(before: Migrations.Reply6, after: Migrations.Reply8, size: State -> nat)
    requires after.context == Migrations.ContextOf(before)
    ensures Migrated(after.context).kind
            == if before.lookupOutcome.Some? then Lookup else if before.query.Some? then Stats else Exact
    ensures RestoredRow(after, size).Ok?
            <==> Migrations.Restorable(before) && size(Migrated(after.context)) <= 4096
    ensures RestoredRow(after, size).Ok? && before.query.Some? ==> QueryOf(RestoredRow(after, size).value) == before.query
  {
  }

  /**
   * A row restores after the migration to version 8 exactly when its outcome and counts were in range and its context
   * is not too large, and then its query survives.
   */
  lemma MigratedRowsRestore(db: Migrations.Db, i: nat, size: State -> nat)
    requires db.V7? && i < |db.replies6|
    ensures var before, after := db.replies6[i], Migrations.Migrate(db).replies8;
            && |after| == |db.replies6|
            && Migrated(after[i].context).kind
               == (if before.lookupOutcome.Some? then Lookup else if before.query.Some? then Stats else Exact)
            && (RestoredRow(after[i], size).Ok?
                <==> Migrations.Restorable(before) && size(Migrated(after[i].context)) <= 4096)
            && (RestoredRow(after[i], size).Ok? && before.query.Some? ==>
                  QueryOf(RestoredRow(after[i], size).value) == before.query)
  {
    ContextRestores(db.replies6[i], Migrations.Migrate(db).replies8[i], size);
  }

  /**
   * A reply queued in version 4 waits on in version 8 under the times it was given, and restores, with its query, exactly
   * when what it had looked up was in range and its context is not too large.
   */
  lemma QueuedReplySurvives(db: Migrations.Db, i: nat, size: State -> nat)
    requires db.V4? && i < |db.items|
    ensures var after := Migrations.UpTo(db, Migrations.LATEST); after.V8? && i < |after.replies8|
    ensures var item, after := db.items[i], Migrations.UpTo(db, Migrations.LATEST).replies8[i];
            && after.columns.status == ReplyStore.Pending && after.columns.trigger == item.trigger
            && after.columns.enqueuedAt == Some(item.enqueuedAt) && after.columns.expiresAt == Some(item.expiresAt)
            && (RestoredRow(after, size).Ok?
                <==> (item.lookupOutcome.Some? ==>
                        item.lookupOutcome.value in Migrations.OUTCOMES && Migrations.NotNegative(item.matchCount))
                     && size(Migrated(after.context)) <= 4096)
            && (RestoredRow(after, size).Ok? && item.query.Some? ==> QueryOf(RestoredRow(after, size).value) == item.query)
  {
    Migrations.QueuedRow(db, i);
    ContextRestores(Migrations.Widen(Migrations.PendingReply(db.items[i], i + 1)),
                    Migrations.UpTo(db, Migrations.LATEST).replies8[i], size);
  }

  /** A database of version 7 with one waiting lookup. */
  function OneWaiting(query: string, outcome: string): Migrations.Db {
    var columns := Migrations.Columns(1, "bot", Some("#ch"), "!lookup", Some("sender"), Some(1), Some("01"), Some("h"),
                                      Some(0), Some(1), ReplyStore.Pending, None, None);
    Migrations.V7(SampleStore.Rows([], []), map[],
                  [Migrations.Reply6(columns, Some(query), Some(outcome), None, None, None, None, None)], ReplyStore.FRESH_SLOT)
  }

  /** The old column took any text: an outcome no handler knows is migrated, and refused when its reply is to be sent. */
  lemma UnknownOutcomeIsRefused(size: State -> nat)
    ensures var after := Migrations.Migrate(OneWaiting("ab", "unknown")).replies8;
            |after| == 1 && RestoredRow(after[0], size) == Err
  {
    MigratedRowsRestore(OneWaiting("ab", "unknown"), 0, size);
  }

  function LongQuery(): string {
    seq(MAX_HANDLER_STATE_BYTES + 1, _ => 'a')
  }

  /**
   * So did the query's: with every value in range a long query alone makes a context too large to restore, as its text
   * contains the query.
   */
  lemma LongQueryIsRefused(size: State -> nat)
    requires forall s: State :: s.data.Snapshot? ==> size(s) >= |s.data.query|
    ensures var db := OneWaiting(LongQuery(), "found");
            var after := Migrations.Migrate(db).replies8;
            |after| == 1 && Migrations.Restorable(db.replies6[0]) && RestoredRow(after[0], size) == Err
  {
    var db := OneWaiting(LongQuery(), "found");
    MigratedRowsRestore(db, 0, size);
  }

  // ---------------------------------------------------------------- matching

  /** What follows the trigger, or None when the text is not the trigger, alone or before a space. */
  function Argument(text: string, trigger: string): Option<string> {
    if text == trigger then Some("")
    else if trigger + " " <= text then Some(Nodes.Trim(text[|trigger| + 1..]))
    else None
  }

  /** The position of the first command of this kind that takes the text. */
  function FirstTaking(commands: seq<Command>, text: string, kind: Kind): Option<nat> {
    if commands == [] then None
    else if KindOf(commands[0]) == kind && Takes(commands[0], text) then Some(0)
    else
      var rest := FirstTaking(commands[1..], text, kind);
      if rest.Some? then Some(rest.value + 1) else None
  }

  predicate Takes(c: Command, text: string) {
    if KindOf(c) == Exact then c.trigger == text else Argument(text, c.trigger).Some?
  }

  /** The bare trigger asks for nothing; what follows it after a space is asked for, without the white space around it. */
  lemma ArgumentFollowsTrigger(trigger: string, pre: string, asked: string, post: string)
    requires Nodes.Blank(pre) && Nodes.Bare(asked) && Nodes.Blank(post)
    ensures Argument(trigger, trigger) == Some("")
    ensures Argument(trigger + " " + (pre + asked + post), trigger) == Some(asked)
  {
    Nodes.TrimLeavesBare(pre, asked, post);
    var text := trigger + " " + (pre + asked + post);
    assert trigger + " " <= text && text[|trigger| + 1..] == pre + asked + post;
  }

  /** An exact command takes its trigger only; the others also take it with a space and anything after it. */
  lemma TakesExactlyWhen(c: Command, text: string)
    ensures Takes(c, text)
            <==> text == c.trigger
                 || (c.kind in {Some(Lookup), Some(Stats)} && exists rest: string :: text == c.trigger + " " + rest)
  {
    if c.trigger + " " <= text {
      assert text == c.trigger + " " + text[|c.trigger| + 1..];
    }
  }

  /** The data a command queues for a text it takes. */
  function DataFor(c: Command, text: string): Data
    requires Takes(c, text)
  {
    if KindOf(c) == Exact then Empty else Query(Argument(text, c.trigger).value)
  }

  lemma {:induction false} FirstTakingIsFirst(commands: seq<Command>, text: string, kind: Kind)
    ensures var i := FirstTaking(commands, text, kind);
            if i.Some? then
              && i.value < |commands| && KindOf(commands[i.value]) == kind && Takes(commands[i.value], text)
              && forall j | 0 <= j < i.value :: !(KindOf(commands[j]) == kind && Takes(commands[j], text))
            else forall j | 0 <= j < |commands| :: !(KindOf(commands[j]) == kind && Takes(commands[j], text))
  {
    if commands != [] {
      FirstTakingIsFirst(commands[1..], text, kind);
      assert forall j | 0 < j < |commands| :: commands[j] == commands[1..][j - 1];
    }
  }

  /** match() of the lookup handler, over its own commands. */
  method LookupMatch(commands: seq<Command>, text: string) returns (i: Option<nat>, query: string)
    ensures i == FirstTaking(commands, text, Lookup)
    ensures i.Some? ==> i.value < |commands| && Some(query) == Argument(text, commands[i.value].trigger)
  {
    FirstTakingIsFirst(commands, text, Lookup);
    query := "";
    for n := 0 to |commands|
      invariant forall j | 0 <= j < n :: !(KindOf(commands[j]) == Lookup && Takes(commands[j], text))
    {
      if KindOf(commands[n]) == Lookup {
        var trigger := commands[n].trigger;
        if text == trigger {
          query := "";
        } else if trigger + " " <= text {
          query := Nodes.Trim(text[|trigger| + 1..]);
        } else {
          continue;
        }
        return Some(n), query;
      }
    }
    i := None;
  }

  datatype Match = NoMatch | Matched(command: Command, stored: Stored) | Throws

  function MatchKind(commands: seq<Command>, text: string, kind: Kind, size: State -> nat): Match {
    FirstTakingIsFirst(commands, text, kind);
    var i := FirstTaking(commands, text, kind);
    if i.None? then NoMatch
    else
      var stored := Serialize(kind, DataFor(commands[i.value], text), size);
      if stored.Err? then Throws else Matched(commands[i.value], stored.value)
  }

  /** The handlers are asked in the order exact, lookup, stats. */
  function MatchText(commands: seq<Command>, text: string, size: State -> nat): Match {
    var exact := MatchKind(commands, text, Exact, size);
    if !exact.NoMatch? then exact
    else
      var lookup := MatchKind(commands, text, Lookup, size);
      if !lookup.NoMatch? then lookup else MatchKind(commands, text, Stats, size)
  }

  ghost predicate DistinctTriggers(commands: seq<Command>) {
    forall i, j | 0 <= i < j < |commands| :: commands[i].trigger != commands[j].trigger
  }

  /** `new Map(commands.map(...)).get(trigger)` */
  function ByTrigger(commands: seq<Command>, trigger: string): Option<Command> {
    if commands == [] then None
    else if commands[|commands| - 1].trigger == trigger then Some(commands[|commands| - 1])
    else ByTrigger(commands[..|commands| - 1], trigger)
  }

  lemma {:induction false} FoundByTrigger(commands: seq<Command>, i: nat)
    requires DistinctTriggers(commands) && i < |commands|
    ensures ByTrigger(commands, commands[i].trigger) == Some(commands[i])
  {
    if i < |commands| - 1 {
      FoundByTrigger(commands[..|commands| - 1], i);
    }
  }

  /**
   * A text is matched exactly when some command takes it, or its state is too large; then the first kind asked wins.
   */
  lemma SomeCommandTakes(commands: seq<Command>, text: string, size: State -> nat)
    ensures !MatchText(commands, text, size).NoMatch? <==> exists j :: 0 <= j < |commands| && Takes(commands[j], text)
  {
    FirstTakingIsFirst(commands, text, Exact);
    FirstTakingIsFirst(commands, text, Lookup);
    FirstTakingIsFirst(commands, text, Stats);
    if j :| 0 <= j < |commands| && Takes(commands[j], text) {
      var kind := KindOf(commands[j]);
      assert kind == Exact || kind == Lookup || kind == Stats;
    }
  }

  /** An exact command wins over a lookup, and a lookup over statistics, wherever they stand. */
  lemma EarlierKindWins(commands: seq<Command>, text: string, size: State -> nat)
    requires MatchText(commands, text, size).Matched?
    ensures var c := MatchText(commands, text, size).command;
            && c in commands && Takes(c, text)
            && forall other | other in commands && Takes(other, text) ::
                 match KindOf(c)
                 case Exact => true
                 case Lookup => KindOf(other) != Exact
                 case Stats => KindOf(other) == Stats
  {
    FirstTakingIsFirst(commands, text, Exact);
    FirstTakingIsFirst(commands, text, Lookup);
    FirstTakingIsFirst(commands, text, Stats);
    forall other | other in commands && Takes(other, text)
      ensures exists j :: 0 <= j < |commands| && commands[j] == other && KindOf(commands[j]) == KindOf(other)
    {
      var j :| 0 <= j < |commands| && commands[j] == other;
    }
  }

  /**
   * When the queued reply is sent, its trigger finds the command that matched, and that command's handler restores what
   * it was asked.
   */
  lemma SentAsMatched(commands: seq<Command>, text: string, size: State -> nat)
    requires DistinctTriggers(commands) && MatchText(commands, text, size).Matched?
    ensures var m := MatchText(commands, text, size);
            && ByTrigger(commands, m.command.trigger) == Some(m.command)
            && Takes(m.command, text)
            && Restore(KindOf(m.command), m.stored) == Ok(DataFor(m.command, text))
  {
    var exact, lookup := MatchKind(commands, text, Exact, size), MatchKind(commands, text, Lookup, size);
    var kind := if !exact.NoMatch? then Exact else if !lookup.NoMatch? then Lookup else Stats;
    FirstTakingIsFirst(commands, text, kind);
    FoundByTrigger(commands, FirstTaking(commands, text, kind).value);
  }

  // ---------------------------------------------------------------- executing a lookup

  datatype Age = Unknown | JustNow | Ago(count: nat, unitMs: nat)

  const MINUTE_MS := 60000
  /** Years, months, days, hours and minutes. */
  const UNITS: seq<nat> := [31536000000, 2592000000, 86400000, 3600000, 60000]

  function FirstUnit(ageMs: nat, i: nat): (unit: nat)
    requires i < 5 && ageMs >= MINUTE_MS
    ensures unit in UNITS && unit <= ageMs
    ensures forall j | i <= j < 5 && UNITS[j] > unit :: UNITS[j] > ageMs
    decreases 5 - i
  {
    if ageMs >= UNITS[i] then UNITS[i] else FirstUnit(ageMs, i + 1)
  }

  function FormatRelativeAge(timestamp: Option<int>, now: int): Age {
    if timestamp.None? then Unknown
    else
      var ageMs: nat := if now - timestamp.value > 0 then now - timestamp.value else 0;
      if ageMs < MINUTE_MS then JustNow
      else Ago(ageMs / FirstUnit(ageMs, 0), FirstUnit(ageMs, 0))
  }

  /**
   * An age is given in the largest unit that fits, at least one of it, rounded down; a time ahead of the clock is just
   * now.
   */
  lemma AgeIsRoundedDown(timestamp: int, now: int)
    ensures FormatRelativeAge(None, now) == Unknown
    ensures var age, ms := FormatRelativeAge(Some(timestamp), now), now - timestamp;
            match age
            case Unknown => false
            case JustNow => ms < 60000
            case Ago(count, unitMs) =>
              && ms >= 60000
              && unitMs == (if ms >= 31536000000 then 31536000000 else if ms >= 2592000000 then 2592000000
                            else if ms >= 86400000 then 86400000 else if ms >= 3600000 then 3600000 else 60000)
              && count >= 1 && count * unitMs <= ms < (count + 1) * unitMs
  {
    var ageMs := now - timestamp;
    if ageMs >= MINUTE_MS {
      var unit := FirstUnit(ageMs, 0);
      assert forall j | 0 <= j < 5 && UNITS[j] > unit :: UNITS[j] > ageMs;
      assert UNITS[0] == 31536000000 && UNITS[1] == 2592000000 && UNITS[2] == 86400000 && UNITS[3] == 3600000;
      Divides(ageMs, unit);
    }
  }

  lemma Divides(a: nat, unit: nat)
    requires 0 < unit <= a
    ensures a / unit >= 1 && a / unit * unit <= a < (a / unit + 1) * unit
  {
    assert a == unit * (a / unit) + a % unit;
  }

  datatype Template = FoundResponse | NotFoundResponse | AmbiguousResponse | InvalidResponse

  /** What a lookup reply is rendered from. */
  datatype LookupAction = LookupAction(template: Template, query: string, name: Option<string>, matchCount: Option<nat>,
                                       lastHeard: Age, nodePrefix: string, repeaterCount: Option<nat>)

  function Repeaters(t: Nodes.Table): set<string> {
    Nodes.Matches(t, "", "REPEATER")
  }

  /** The first four digits of a key. */
  function ShortPrefix(key: string): string {
    if |key| < 4 then key else key[..4]
  }

  /** What a lookup reply says of the nodes there are when it is sent. */
  ghost predicate Tells(a: LookupAction, t: Nodes.Table, query: string, now: int) {
    var q := Nodes.NormalizeQuery(query);
    if q.None? then a.template == InvalidResponse && a.name == None && a.matchCount == None && a.repeaterCount == None
    else
      var matches := Nodes.Matches(t, q.value, "REPEATER");
      match a.template
      case InvalidResponse => false
      case NotFoundResponse =>
        && matches == {} && a.name == None && a.nodePrefix == q.value
        && a.repeaterCount == Some(|set k | k in t && t[k].kind == Some("REPEATER")|)
      case FoundResponse =>
        exists key :: matches == {key} && a.name == Some(t[key].name) && a.matchCount == None
                      && a.lastHeard == FormatRelativeAge(Some(t[key].lastHeardAt), now)
                      && q.value <= key
                      && a.nodePrefix == if |query| >= 4 then q.value else if |key| >= 4 then key[..4] else key
      case AmbiguousResponse =>
        && a.matchCount == Some(|matches|) && |matches| > 1 && a.nodePrefix == q.value
        && exists key :: key in matches && a.name == Some(t[key].name)
                         && a.lastHeard == FormatRelativeAge(Some(t[key].lastHeardAt), now)
                         && forall k | k in matches :: t[k].lastHeardAt <= t[key].lastHeardAt
  }

  method ExecuteLookup(t: Nodes.Table, query: string, now: int) returns (a: LookupAction)
    ensures Tells(a, t, query, now) && a.query == query
  {
    if query == "" {
      return LookupAction(InvalidResponse, query, None, None, Unknown, query, None);
    }
    var result := Nodes.FindByPrefix(t, query, "REPEATER");
    match result
    case Invalid =>
      a := LookupAction(InvalidResponse, query, None, None, Unknown, query, None);
    case NotFound(q) =>
      assert Repeaters(t) == set k | k in t && t[k].kind == Some("REPEATER");
      a := LookupAction(NotFoundResponse, query, None, None, Unknown, q, Some(|Repeaters(t)|));
    case Found(q, key, node) =>
      assert key in Nodes.Matches(t, q, "REPEATER");
      var prefix := if |query| < 4 then ShortPrefix(key) else q;
      a := LookupAction(FoundResponse, query, Some(node.name), None, FormatRelativeAge(Some(node.lastHeardAt), now), prefix, None);
    case Ambiguous(q, count, key, node) =>
      a := LookupAction(AmbiguousResponse, query, Some(node.name), Some(count),
                        FormatRelativeAge(Some(node.lastHeardAt), now), q, None);
  }
}
