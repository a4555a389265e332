/**
 * What the dashboard makes of grouped query results: per-bot command counts
 * from one query or from one query a bot (src/web/metrics-server.js:473-489
 * and 556-575), per-broker totals (491-503) and the comparison window (351-366).
 */
module DashboardQueries {
  import opened Prelude
  import opened MqttPublish
  import opened PacketHistory
  import opened SampleStore
  import ReplyStore

  datatype TriggerCount = TriggerCount(trigger: string, count: nat)

  datatype GroupCount = GroupCount(botName: string, trigger: string, count: nat)

  datatype BotConfig = BotConfig(name: string, commands: seq<string>)

  datatype BotResult = BotResult(botName: string, commands: seq<TriggerCount>, totalReplies: nat)

  // ---------------------------------------------------------------- the replies a query selects

  predicate EndedIn(row: ReplyStore.Row, status: ReplyStore.Status, w: Window) {
    row.status == status && row.resolvedAt.Some? && w.Has(row.resolvedAt.value)
  }

  predicate SentIn(row: ReplyStore.Row, w: Window) {
    EndedIn(row, ReplyStore.Sent, w)
  }

  /** The sent replies of one bot and trigger that resolved in the window. */
  function SentIds(rows: ReplyStore.Rows, w: Window, bot: string, trigger: string): set<nat> {
    set id | id in rows && SentIn(rows[id], w) && rows[id].item.botName == bot && rows[id].item.trigger == trigger
  }

  predicate HasGroup(groups: seq<GroupCount>, bot: string, trigger: string) {
    exists i :: 0 <= i < |groups| && groups[i].botName == bot && groups[i].trigger == trigger
  }

  predicate NoGroupTwice(groups: seq<GroupCount>) {
    forall i, j | 0 <= i < j < |groups| :: groups[i].botName != groups[j].botName || groups[i].trigger != groups[j].trigger
  }

  /** COUNT(*) GROUP BY bot_name, trigger: one row for each pair that occurs, in an order left open here. */
  ghost predicate IsGrouped(groups: seq<GroupCount>, rows: ReplyStore.Rows, w: Window) {
    && NoGroupTwice(groups)
    && (forall g | g in groups :: g.count == |SentIds(rows, w, g.botName, g.trigger)| && g.count > 0)
    && forall bot, trigger | SentIds(rows, w, bot, trigger) != {} :: HasGroup(groups, bot, trigger)
  }

  predicate HasTrigger(counts: seq<TriggerCount>, trigger: string) {
    exists i :: 0 <= i < |counts| && counts[i].trigger == trigger
  }

  predicate NoTriggerTwice(counts: seq<TriggerCount>) {
    forall i, j | 0 <= i < j < |counts| :: counts[i].trigger != counts[j].trigger
  }

  /** COUNT(*) WHERE bot_name = ? GROUP BY trigger. */
  ghost predicate IsGroupedFor(counts: seq<TriggerCount>, rows: ReplyStore.Rows, w: Window, bot: string) {
    && NoTriggerTwice(counts)
    && (forall c | c in counts :: c.count == |SentIds(rows, w, bot, c.trigger)| && c.count > 0)
    && forall trigger | SentIds(rows, w, bot, trigger) != {} :: HasTrigger(counts, trigger)
  }

  method QueryBotCommandCountsByBot(rows: ReplyStore.Rows, w: Window) returns (groups: seq<GroupCount>)
    ensures IsGrouped(groups, rows, w)
  {
    groups := [];
    var todo := set id | id in rows && SentIn(rows[id], w) :: (rows[id].item.botName, rows[id].item.trigger);
    ghost var all := todo;
    while todo != {}
      invariant todo <= all
      invariant NoGroupTwice(groups)
      invariant forall p | p in all :: p in todo <==> !HasGroup(groups, p.0, p.1)
      invariant forall g | g in groups :: g.count == |SentIds(rows, w, g.botName, g.trigger)| && g.count > 0
      decreases |todo|
    {
      var p :| p in todo;
      var id :| id in rows && SentIn(rows[id], w) && p == (rows[id].item.botName, rows[id].item.trigger);
      assert id in SentIds(rows, w, p.0, p.1);
      var g := GroupCount(p.0, p.1, |SentIds(rows, w, p.0, p.1)|);
      forall q | q in all
        ensures HasGroup(groups + [g], q.0, q.1) <==> HasGroup(groups, q.0, q.1) || q == p
      {
        GroupStep(groups, g, q.0, q.1);
      }
      groups := groups + [g];
      todo := todo - {p};
    }
    forall bot, trigger | SentIds(rows, w, bot, trigger) != {}
      ensures HasGroup(groups, bot, trigger)
    {
      var id :| id in SentIds(rows, w, bot, trigger);
      assert (bot, trigger) in all;
    }
  }

  lemma GroupsGrow(before: seq<GroupCount>, after: seq<GroupCount>)
    requires before <= after
    ensures forall bot, trigger | HasGroup(before, bot, trigger) :: HasGroup(after, bot, trigger)
  {
    forall bot, trigger | HasGroup(before, bot, trigger)
      ensures HasGroup(after, bot, trigger)
    {
      var i :| 0 <= i < |before| && before[i].botName == bot && before[i].trigger == trigger;
      assert after[i] == before[i];
    }
  }

  method QueryBotCommandCounts(rows: ReplyStore.Rows, w: Window, bot: string) returns (counts: seq<TriggerCount>)
    ensures IsGroupedFor(counts, rows, w, bot)
  {
    counts := [];
    var todo := set id | id in rows && SentIn(rows[id], w) && rows[id].item.botName == bot :: rows[id].item.trigger;
    ghost var all := todo;
    while todo != {}
      invariant todo <= all
      invariant NoTriggerTwice(counts)
      invariant forall t | t in all :: t in todo <==> !HasTrigger(counts, t)
      invariant forall c | c in counts :: c.count == |SentIds(rows, w, bot, c.trigger)| && c.count > 0
      decreases |todo|
    {
      var t :| t in todo;
      var id :| id in rows && SentIn(rows[id], w) && rows[id].item.botName == bot && rows[id].item.trigger == t;
      assert id in SentIds(rows, w, bot, t);
      var c := TriggerCount(t, |SentIds(rows, w, bot, t)|);
      forall u | u in all
        ensures HasTrigger(counts + [c], u) <==> HasTrigger(counts, u) || u == t
      {
        TriggerStep(counts, c, u);
      }
      counts := counts + [c];
      todo := todo - {t};
    }
    forall trigger | SentIds(rows, w, bot, trigger) != {}
      ensures HasTrigger(counts, trigger)
    {
      var id :| id in SentIds(rows, w, bot, trigger);
      assert trigger in all;
    }
  }

  lemma TriggersGrow(before: seq<TriggerCount>, after: seq<TriggerCount>)
    requires before <= after
    ensures forall t | HasTrigger(before, t) :: HasTrigger(after, t)
  {
    forall t | HasTrigger(before, t)
      ensures HasTrigger(after, t)
    {
      var i :| 0 <= i < |before| && before[i].trigger == t;
      assert after[i] == before[i];
    }
  }

  // ---------------------------------------------------------------- from counts to results

  /** The last count listed for a trigger, or zero: what a Map built from the list answers. */
  function Listed(counts: seq<TriggerCount>, trigger: string): nat {
    if counts == [] then 0
    else if counts[|counts| - 1].trigger == trigger then counts[|counts| - 1].count
    else Listed(counts[..|counts| - 1], trigger)
  }

  lemma {:induction false} ListedCounts(counts: seq<TriggerCount>, trigger: string, n: nat)
    requires forall c | c in counts :: c.trigger == trigger ==> c.count == n
    ensures Listed(counts, trigger) == if HasTrigger(counts, trigger) then n else 0
  {
    if counts != [] {
      var init, last := counts[..|counts| - 1], counts[|counts| - 1];
      assert counts == init + [last];
      ListedCounts(init, trigger, n);
      TriggersGrow(init, counts);
      if last.trigger != trigger && HasTrigger(counts, trigger) {
        var i :| 0 <= i < |counts| && counts[i].trigger == trigger;
        assert init[i] == counts[i];
      }
    }
  }

  /** A bot's configured commands, in order, each with its count. */
  method BucketBotCommandCounts(commands: seq<string>, counts: seq<TriggerCount>) returns (out: seq<TriggerCount>)
    ensures |out| == |commands|
    ensures forall i | 0 <= i < |commands| :: out[i] == TriggerCount(commands[i], Listed(counts, commands[i]))
  {
    var countsByTrigger: map<string, nat> := map[];
    for i := 0 to |counts|
      invariant forall t {:trigger Listed(counts[..i], t)} ::
                  Listed(counts[..i], t) == if t in countsByTrigger then countsByTrigger[t] else 0
    {
      countsByTrigger := countsByTrigger[counts[i].trigger := counts[i].count];
      assert counts[..i + 1][..i] == counts[..i];
    }
    assert counts[..|counts|] == counts;
    out := seq(|commands|, i requires 0 <= i < |commands| =>
      TriggerCount(commands[i], if commands[i] in countsByTrigger then countsByTrigger[commands[i]] else 0));
  }

  function Total(commands: seq<TriggerCount>): nat {
    if commands == [] then 0 else Total(commands[..|commands| - 1]) + commands[|commands| - 1].count
  }

  /** The result of a bot, straight from the replies. */
  ghost predicate Reports(r: BotResult, bot: BotConfig, rows: ReplyStore.Rows, w: Window) {
    && r.botName == bot.name && |r.commands| == |bot.commands| && r.totalReplies == Total(r.commands)
    && forall i | 0 <= i < |bot.commands| ::
         r.commands[i] == TriggerCount(bot.commands[i], |SentIds(rows, w, bot.name, bot.commands[i])|)
  }

  method SumCounts(commands: seq<TriggerCount>) returns (total: nat)
    ensures total == Total(commands)
  {
    total := 0;
    for i := 0 to |commands|
      invariant total == Total(commands[..i])
    {
      total := total + commands[i].count;
      assert commands[..i + 1][..i] == commands[..i];
    }
    assert commands[..|commands|] == commands;
  }

  function OfBot(groups: seq<GroupCount>, bot: string): seq<TriggerCount> {
    if groups == [] then []
    else
      var before, g := OfBot(groups[..|groups| - 1], bot), groups[|groups| - 1];
      if g.botName == bot then before + [TriggerCount(g.trigger, g.count)] else before
  }

  lemma {:induction false} OfBotIsListed(groups: seq<GroupCount>, bot: string, c: TriggerCount)
    requires c in OfBot(groups, bot)
    ensures GroupCount(bot, c.trigger, c.count) in groups
  {
    var init, g := groups[..|groups| - 1], groups[|groups| - 1];
    assert groups == init + [g];
    if c in OfBot(init, bot) {
      OfBotIsListed(init, bot, c);
    }
  }

  lemma {:induction false} OfBotHasTriggers(groups: seq<GroupCount>, bot: string, trigger: string)
    ensures HasGroup(groups, bot, trigger) <==> HasTrigger(OfBot(groups, bot), trigger)
  {
    if groups != [] {
      var init, g := groups[..|groups| - 1], groups[|groups| - 1];
      assert groups == init + [g];
      OfBotHasTriggers(init, bot, trigger);
      GroupStep(init, g, bot, trigger);
      if g.botName == bot {
        TriggerStep(OfBot(init, bot), TriggerCount(g.trigger, g.count), trigger);
      }
    }
  }

  lemma TriggerStep(counts: seq<TriggerCount>, c: TriggerCount, trigger: string)
    ensures HasTrigger(counts + [c], trigger) <==> HasTrigger(counts, trigger) || c.trigger == trigger
  {
    TriggersGrow(counts, counts + [c]);
    assert (counts + [c])[|counts|] == c;
    assert forall i | 0 <= i < |counts| :: (counts + [c])[i] == counts[i];
  }

  lemma GroupStep(groups: seq<GroupCount>, g: GroupCount, bot: string, trigger: string)
    ensures HasGroup(groups + [g], bot, trigger) <==> HasGroup(groups, bot, trigger) || (g.botName == bot && g.trigger == trigger)
  {
    GroupsGrow(groups, groups + [g]);
    assert (groups + [g])[|groups|] == g;
    assert forall i | 0 <= i < |groups| :: (groups + [g])[i] == groups[i];
  }

  lemma GroupedCounts(groups: seq<GroupCount>, rows: ReplyStore.Rows, w: Window, bot: string, trigger: string)
    requires IsGrouped(groups, rows, w)
    ensures Listed(OfBot(groups, bot), trigger) == |SentIds(rows, w, bot, trigger)|
  {
    var n := |SentIds(rows, w, bot, trigger)|;
    OfBotHasTriggers(groups, bot, trigger);
    forall c | c in OfBot(groups, bot) && c.trigger == trigger
      ensures c.count == n
    {
      OfBotIsListed(groups, bot, c);
      assert GroupCount(bot, c.trigger, c.count) in groups;
    }
    ListedCounts(OfBot(groups, bot), trigger, n);
    if HasGroup(groups, bot, trigger) {
      var i :| 0 <= i < |groups| && groups[i].botName == bot && groups[i].trigger == trigger;
      assert groups[i] in groups;
    }
  }

  lemma PerBotCounts(counts: seq<TriggerCount>, rows: ReplyStore.Rows, w: Window, bot: string, trigger: string)
    requires IsGroupedFor(counts, rows, w, bot)
    ensures Listed(counts, trigger) == |SentIds(rows, w, bot, trigger)|
  {
    ListedCounts(counts, trigger, |SentIds(rows, w, bot, trigger)|);
  }

  lemma GroupedReport(groups: seq<GroupCount>, rows: ReplyStore.Rows, w: Window, bot: BotConfig, commands: seq<TriggerCount>)
    requires IsGrouped(groups, rows, w) && |commands| == |bot.commands|
    requires forall j | 0 <= j < |bot.commands| ::
               commands[j] == TriggerCount(bot.commands[j], Listed(OfBot(groups, bot.name), bot.commands[j]))
    ensures Reports(BotResult(bot.name, commands, Total(commands)), bot, rows, w)
  {
    forall j | 0 <= j < |bot.commands|
      ensures commands[j] == TriggerCount(bot.commands[j], |SentIds(rows, w, bot.name, bot.commands[j])|)
    {
      GroupedCounts(groups, rows, w, bot.name, bot.commands[j]);
    }
  }

  /** The rows of each bot in the order of the query. */
  method CountsByBot(groups: seq<GroupCount>) returns (countsByBot: map<string, seq<TriggerCount>>)
    ensures forall bot :: OfBot(groups, bot) == if bot in countsByBot then countsByBot[bot] else []
  {
    countsByBot := map[];
    for i := 0 to |groups|
      invariant forall bot {:trigger OfBot(groups[..i], bot)} ::
                  OfBot(groups[..i], bot) == if bot in countsByBot then countsByBot[bot] else []
    {
      var g := groups[i];
      var counts := if g.botName in countsByBot then countsByBot[g.botName] else [];
      countsByBot := countsByBot[g.botName := counts + [TriggerCount(g.trigger, g.count)]];
      assert groups[..i + 1][..i] == groups[..i];
    }
    assert groups[..|groups|] == groups;
  }

  /** One grouped query for every bot. */
  method QueryDashboardBotCommands(bots: seq<BotConfig>, rows: ReplyStore.Rows, w: Window) returns (results: seq<BotResult>)
    ensures |results| == |bots| && forall i | 0 <= i < |bots| :: Reports(results[i], bots[i], rows, w)
  {
    var groups := QueryBotCommandCountsByBot(rows, w);
    var countsByBot := CountsByBot(groups);
    results := [];
    for i := 0 to |bots|
      invariant |results| == i && forall j | 0 <= j < i :: Reports(results[j], bots[j], rows, w)
    {
      var bot := bots[i];
      var counts := if bot.name in countsByBot then countsByBot[bot.name] else [];
      assert counts == OfBot(groups, bot.name);
      var commands := BucketBotCommandCounts(bot.commands, counts);
      var total := SumCounts(commands);
      GroupedReport(groups, rows, w, bot, commands);
      results := results + [BotResult(bot.name, commands, total)];
    }
  }

  /** One query a bot. */
  method HandleBotCommands(bots: seq<BotConfig>, rows: ReplyStore.Rows, w: Window) returns (results: seq<BotResult>)
    ensures |results| == |bots| && forall i | 0 <= i < |bots| :: Reports(results[i], bots[i], rows, w)
  {
    results := [];
    for i := 0 to |bots|
      invariant |results| == i && forall j | 0 <= j < i :: Reports(results[j], bots[j], rows, w)
    {
      var bot := bots[i];
      var counts := QueryBotCommandCounts(rows, w, bot.name);
      var commands := BucketBotCommandCounts(bot.commands, counts);
      forall j | 0 <= j < |bot.commands|
        ensures commands[j] == TriggerCount(bot.commands[j], |SentIds(rows, w, bot.name, bot.commands[j])|)
      {
        PerBotCounts(counts, rows, w, bot.name, bot.commands[j]);
      }
      var total := SumCounts(commands);
      results := results + [BotResult(bot.name, commands, total)];
    }
  }

  lemma SameReports(one: seq<BotResult>, many: seq<BotResult>, bots: seq<BotConfig>, rows: ReplyStore.Rows, w: Window)
    requires |one| == |many| == |bots|
    requires forall i | 0 <= i < |bots| :: Reports(one[i], bots[i], rows, w) && Reports(many[i], bots[i], rows, w)
    ensures one == many
  {
    forall i | 0 <= i < |bots|
      ensures one[i] == many[i]
    {
      assert one[i].commands == many[i].commands;
    }
  }

  /** The view's one grouped query and the endpoint's queries bot by bot give the same results. */
  method OneQueryOrMany(bots: seq<BotConfig>, rows: ReplyStore.Rows, w: Window) returns (one: seq<BotResult>, many: seq<BotResult>)
    ensures one == many && |one| == |bots|
    ensures forall i | 0 <= i < |bots| :: Reports(one[i], bots[i], rows, w)
  {
    one := QueryDashboardBotCommands(bots, rows, w);
    many := HandleBotCommands(bots, rows, w);
    SameReports(one, many, bots, rows, w);
  }

  /** The sent replies of a bot under its first k configured triggers. */
  ghost function Configured(rows: ReplyStore.Rows, w: Window, bot: BotConfig, k: nat): set<nat>
    requires k <= |bot.commands|
  {
    set id | id in rows && SentIn(rows[id], w) && rows[id].item.botName == bot.name && rows[id].item.trigger in bot.commands[..k]
  }

  /** With distinct triggers, a bot's total is the number of its sent replies under a configured trigger. */
  lemma {:induction false} TotalCountsReplies(r: BotResult, bot: BotConfig, rows: ReplyStore.Rows, w: Window, k: nat)
    requires Reports(r, bot, rows, w) && k <= |bot.commands|
    requires forall i, j | 0 <= i < j < |bot.commands| :: bot.commands[i] != bot.commands[j]
    ensures Total(r.commands[..k]) == |Configured(rows, w, bot, k)|
  {
    if k == 0 {
      assert Configured(rows, w, bot, 0) == {};
    } else {
      TotalCountsReplies(r, bot, rows, w, k - 1);
      assert r.commands[..k][..k - 1] == r.commands[..k - 1];
      ConfiguredStep(bot, rows, w, k);
    }
  }

  lemma ConfiguredStep(bot: BotConfig, rows: ReplyStore.Rows, w: Window, k: nat)
    requires 0 < k <= |bot.commands| && bot.commands[k - 1] !in bot.commands[..k - 1]
    ensures |Configured(rows, w, bot, k)| == |Configured(rows, w, bot, k - 1)| + |SentIds(rows, w, bot.name, bot.commands[k - 1])|
  {
    var before, own := Configured(rows, w, bot, k - 1), SentIds(rows, w, bot.name, bot.commands[k - 1]);
    assert bot.commands[..k] == bot.commands[..k - 1] + [bot.commands[k - 1]];
    assert Configured(rows, w, bot, k) == before + own;
    assert before !! own;
  }

  // ---------------------------------------------------------------- outcomes

  datatype OutcomeTotals = OutcomeTotals(sent: nat, failed: nat, expired: nat, cancelled: nat) {
    function Of(status: ReplyStore.Status): nat {
      match status
      case Sent => sent
      case Failed => failed
      case Expired => expired
      case Cancelled => cancelled
      case Pending => 0
    }

    function With(status: ReplyStore.Status, total: nat): OutcomeTotals {
      match status
      case Sent => this.(sent := total)
      case Failed => this.(failed := total)
      case Expired => this.(expired := total)
      case Cancelled => this.(cancelled := total)
      case Pending => this
    }
  }

  /** The replies with this ending that resolved in the window. */
  function OutcomeIds(rows: ReplyStore.Rows, w: Window, status: ReplyStore.Status): set<nat> {
    set id | id in rows && EndedIn(rows[id], status, w)
  }

  /** The total of one ending, once its group was read. */
  ghost predicate Filled(totals: OutcomeTotals, rows: ReplyStore.Rows, w: Window, todo: set<ReplyStore.Status>,
                         status: ReplyStore.Status) {
    totals.Of(status) == if status in todo then 0 else |OutcomeIds(rows, w, status)|
  }

  lemma FillsOne(totals: OutcomeTotals, rows: ReplyStore.Rows, w: Window, todo: set<ReplyStore.Status>,
                 group: ReplyStore.Status, status: ReplyStore.Status)
    requires group in todo && group != ReplyStore.Pending && status != ReplyStore.Pending
    requires Filled(totals, rows, w, todo, status)
    ensures Filled(totals.With(group, |OutcomeIds(rows, w, group)|), rows, w, todo - {group}, status)
  {
  }

  /** COUNT(*) WHERE status != 'pending' GROUP BY status, each group written over a zero. */
  method QueryReplyOutcomeTotals(rows: ReplyStore.Rows, w: Window) returns (totals: OutcomeTotals)
    ensures forall status | status != ReplyStore.Pending :: totals.Of(status) == |OutcomeIds(rows, w, status)|
  {
    totals := OutcomeTotals(0, 0, 0, 0);
    var todo := set status: ReplyStore.Status | status != ReplyStore.Pending && OutcomeIds(rows, w, status) != {};
    while todo != {}
      invariant ReplyStore.Pending !in todo
      invariant forall status | status != ReplyStore.Pending :: Filled(totals, rows, w, todo, status)
      decreases |todo|
    {
      var group :| group in todo;
      forall status | status != ReplyStore.Pending
        ensures Filled(totals.With(group, |OutcomeIds(rows, w, group)|), rows, w, todo - {group}, status)
      {
        FillsOne(totals, rows, w, todo, group, status);
      }
      totals := totals.With(group, |OutcomeIds(rows, w, group)|);
      todo := todo - {group};
    }
    forall status | status != ReplyStore.Pending
      ensures totals.Of(status) == |OutcomeIds(rows, w, status)|
    {
      assert Filled(totals, rows, w, todo, status);
    }
  }

  /** Pruning resolved replies changes no outcome's count over a window from the cutoff on. */
  lemma PruneKeepsCounts(rows: ReplyStore.Rows, cutoff: int, w: Window, status: ReplyStore.Status)
    requires w.start >= cutoff
    ensures OutcomeIds(ReplyStore.Prune(rows, cutoff), w, status) == OutcomeIds(rows, w, status)
    ensures forall bot, trigger :: SentIds(ReplyStore.Prune(rows, cutoff), w, bot, trigger) == SentIds(rows, w, bot, trigger)
  {
  }

  /** The replies that ended in the window, however they did. */
  function EndedIds(rows: ReplyStore.Rows, w: Window): set<nat> {
    set id | id in rows && rows[id].status != ReplyStore.Pending && EndedIn(rows[id], rows[id].status, w)
  }

  /** The four totals leave out no reply that ended and count none twice. */
  lemma OutcomesPartition(rows: ReplyStore.Rows, w: Window, totals: OutcomeTotals)
    requires forall status | status != ReplyStore.Pending :: totals.Of(status) == |OutcomeIds(rows, w, status)|
    ensures totals.sent + totals.failed + totals.expired + totals.cancelled == |EndedIds(rows, w)|
  {
    var sent, failed := OutcomeIds(rows, w, ReplyStore.Sent), OutcomeIds(rows, w, ReplyStore.Failed);
    var expired, cancelled := OutcomeIds(rows, w, ReplyStore.Expired), OutcomeIds(rows, w, ReplyStore.Cancelled);
    assert |sent| == totals.sent by {
      assert totals.Of(ReplyStore.Sent) == |sent|;
    }
    assert |failed| == totals.failed by {
      assert totals.Of(ReplyStore.Failed) == |failed|;
    }
    assert |expired| == totals.expired by {
      assert totals.Of(ReplyStore.Expired) == |expired|;
    }
    assert |cancelled| == totals.cancelled by {
      assert totals.Of(ReplyStore.Cancelled) == |cancelled|;
    }
    assert sent !! failed !! expired !! cancelled;
    EndedIsAnyOutcome(rows, w);
    SizeOfFour(sent, failed, expired, cancelled);
  }

  lemma EndedIsAnyOutcome(rows: ReplyStore.Rows, w: Window)
    ensures EndedIds(rows, w)
            == OutcomeIds(rows, w, ReplyStore.Sent) + OutcomeIds(rows, w, ReplyStore.Failed)
               + OutcomeIds(rows, w, ReplyStore.Expired) + OutcomeIds(rows, w, ReplyStore.Cancelled)
  {
    forall id | id in EndedIds(rows, w)
      ensures id in OutcomeIds(rows, w, rows[id].status)
    {
    }
  }

  lemma SizeOfFour<T>(a: set<T>, b: set<T>, c: set<T>, d: set<T>)
    requires a !! b !! c !! d
    ensures |a + b + c + d| == |a| + |b| + |c| + |d|
  {
  }

  // ---------------------------------------------------------------- brokers

  datatype BrokerTotal = BrokerTotal(brokerId: string, outcome: Outcome, total: int)

  predicate HasTotal(totals: seq<BrokerTotal>, id: string, o: Outcome) {
    exists i :: 0 <= i < |totals| && totals[i].brokerId == id && totals[i].outcome == o
  }

  predicate NoTotalTwice(totals: seq<BrokerTotal>) {
    forall i, j | 0 <= i < j < |totals| :: totals[i].brokerId != totals[j].brokerId || totals[i].outcome != totals[j].outcome
  }

  /** SUM(count) GROUP BY broker_id, outcome over the window. */
  ghost predicate IsBrokerTotals(totals: seq<BrokerTotal>, rows: Rows, w: Window) {
    && NoTotalTwice(totals)
    && (forall t | t in totals :: t.total == Stored(rows, w, Delivery(t.brokerId, t.outcome)))
    && forall id, o | Stored(rows, w, Delivery(id, o)) != 0 :: HasTotal(totals, id, o)
  }

  lemma {:induction false} CountedSomewhere(rows: Rows, w: Window, c: Counter, n: nat)
    requires n <= |rows.children| && SumOf(rows.samples, rows.children[..n], w, c) != 0
    ensures exists r :: r in rows.children && r.counter == c && InWindow(rows.samples, r.sampleId, w)
  {
    assert rows.children[..n][..n - 1] == rows.children[..n - 1];
    if SumOf(rows.samples, rows.children[..n - 1], w, c) != 0 {
      CountedSomewhere(rows, w, c, n - 1);
    } else {
      assert rows.children[n - 1] in rows.children;
    }
  }

  method QueryBrokerDeliveryTotals(rows: Rows, w: Window) returns (totals: seq<BrokerTotal>)
    ensures IsBrokerTotals(totals, rows, w)
  {
    totals := [];
    var todo := set r | r in rows.children && r.counter.Delivery? && InWindow(rows.samples, r.sampleId, w) :: r.counter;
    ghost var all := todo;
    while todo != {}
      invariant todo <= all
      invariant NoTotalTwice(totals)
      invariant forall c: Counter | c in all :: c.Delivery? && (c in todo <==> !HasTotal(totals, c.brokerId, c.outcome))
      invariant forall t | t in totals :: t.total == Stored(rows, w, Delivery(t.brokerId, t.outcome))
      decreases |todo|
    {
      var c :| c in todo;
      ghost var before := totals;
      totals := totals + [BrokerTotal(c.brokerId, c.outcome, Stored(rows, w, c))];
      assert totals[..|before|] == before && totals[..|totals|] == totals;
      forall d: Counter | d in all
        ensures HasTotal(totals, d.brokerId, d.outcome) <==> HasTotal(before, d.brokerId, d.outcome) || d == c
      {
        TotalsStep(totals, |before|, d.brokerId, d.outcome);
      }
      todo := todo - {c};
    }
    forall id, o | Stored(rows, w, Delivery(id, o)) != 0
      ensures HasTotal(totals, id, o)
    {
      assert rows.children[..|rows.children|] == rows.children;
      CountedSomewhere(rows, w, Delivery(id, o), |rows.children|);
      assert Delivery(id, o) in all;
    }
  }

  function Put(c: Change, o: Outcome, n: int): Change {
    match o
    case Sent => c.(sent := n)
    case Skipped => c.(skipped := n)
    case Failed => c.(failed := n)
  }

  /** Every configured broker with what the window's rows sum to, zero where there are none. */
  method QueryDashboardBrokers(brokerIds: seq<string>, rows: Rows, w: Window) returns (out: seq<(string, Change)>)
    ensures |out| == |brokerIds|
    ensures forall i, o: Outcome {:trigger out[i].1.Of(o)} | 0 <= i < |brokerIds| ::
              out[i].0 == brokerIds[i] && out[i].1.Of(o) == Stored(rows, w, Delivery(brokerIds[i], o))
    ensures forall i | 0 <= i < |brokerIds| ::
              out[i].1 == Change(Stored(rows, w, Delivery(brokerIds[i], Sent)), Stored(rows, w, Delivery(brokerIds[i], Skipped)),
                                 Stored(rows, w, Delivery(brokerIds[i], Failed)))
  {
    var totals := QueryBrokerDeliveryTotals(rows, w);
    var countsByBroker: map<string, Change> := map[];
    for n := 0 to |totals|
      invariant forall id, o: Outcome {:trigger Found(countsByBroker, id).Of(o)} ::
                  Found(countsByBroker, id).Of(o)
                  == if HasTotal(totals[..n], id, o) then Stored(rows, w, Delivery(id, o)) else 0
    {
      var t := totals[n];
      ghost var before := countsByBroker;
      countsByBroker := countsByBroker[t.brokerId := Put(Found(countsByBroker, t.brokerId), t.outcome, t.total)];
      forall id, o: Outcome
        ensures Found(countsByBroker, id).Of(o) == if HasTotal(totals[..n + 1], id, o) then Stored(rows, w, Delivery(id, o)) else 0
      {
        assert Found(before, id).Of(o) == if HasTotal(totals[..n], id, o) then Stored(rows, w, Delivery(id, o)) else 0;
        TotalsStep(totals, n, id, o);
      }
    }
    assert totals[..|totals|] == totals;
    out := seq(|brokerIds|, i requires 0 <= i < |brokerIds| => (brokerIds[i], Found(countsByBroker, brokerIds[i])));
    forall i, o: Outcome | 0 <= i < |brokerIds|
      ensures out[i].1.Of(o) == Stored(rows, w, Delivery(brokerIds[i], o))
    {
      assert Found(countsByBroker, brokerIds[i]).Of(o)
             == if HasTotal(totals, brokerIds[i], o) then Stored(rows, w, Delivery(brokerIds[i], o)) else 0;
    }
  }

  function Found(counts: map<string, Change>, id: string): Change {
    if id in counts then counts[id] else Change(0, 0, 0)
  }

  lemma TotalsStep(totals: seq<BrokerTotal>, n: nat, id: string, o: Outcome)
    requires n < |totals|
    ensures HasTotal(totals[..n + 1], id, o)
            <==> HasTotal(totals[..n], id, o) || (totals[n].brokerId == id && totals[n].outcome == o)
  {
    var before, after := totals[..n], totals[..n + 1];
    assert after[n] == totals[n] && forall i | 0 <= i < n :: after[i] == before[i];
    if i :| 0 <= i < |before| && before[i].brokerId == id && before[i].outcome == o {
      assert after[i] == before[i];
    }
  }

  // ---------------------------------------------------------------- the comparison window

  /** The window of the same length just before, when samples reach back that far; earliest is MIN(sample_at). */
  function ComparisonWindow(w: Window, isOverview: bool, isAll: bool, earliest: Option<int>): Option<Window> {
    if !isOverview || isAll then None
    else
      var start := w.start - (w.end - w.start);
      if earliest.Some? && start >= earliest.value then Some(Window(start, w.start)) else None
  }

  /** An overview of a limited range is compared exactly when samples reach back over the whole window before it. */
  lemma ComparedExactlyWhen(w: Window, isOverview: bool, isAll: bool, earliest: Option<int>)
    ensures ComparisonWindow(w, isOverview, isAll, earliest).Some?
            <==> isOverview && !isAll && earliest.Some? && w.start - (w.end - w.start) >= earliest.value
  {
  }

  /** The two windows of a comparison do not overlap and leave no gap: their sums add up to the whole. */
  lemma ComparisonIsAdjacent(rows: WholeRows, w: Window, earliest: Option<int>, c: Counter)
    requires w.start <= w.end && ComparisonWindow(w, true, false, earliest).Some?
    ensures var before := ComparisonWindow(w, true, false, earliest).value;
            && before.end - before.start == w.end - w.start && before.start >= earliest.value
            && Stored(rows, Window(before.start, w.end), c) == Stored(rows, before, c) + Stored(rows, w, c)
  {
    var before := ComparisonWindow(w, true, false, earliest).value;
    WindowsSplit(rows.samples, before.start, w.start, w.end);
    SumsSplit(rows.samples, rows.children, before.start, w.start, w.end, c);
  }

  lemma SplitWindow(samples: seq<Sample>, id: int, a: int, b: int, z: int)
    requires OwnIds(samples) && a <= b <= z
    ensures InWindow(samples, id, Window(a, z)) <==> InWindow(samples, id, Window(a, b)) || InWindow(samples, id, Window(b, z))
    ensures !(InWindow(samples, id, Window(a, b)) && InWindow(samples, id, Window(b, z)))
  {
    if i :| 0 <= i < |samples| && samples[i].id == id && Window(a, z).Has(samples[i].at) {
      assert Window(a, b).Has(samples[i].at) || Window(b, z).Has(samples[i].at);
    }
    if i :| 0 <= i < |samples| && samples[i].id == id && Window(a, b).Has(samples[i].at) {
      assert Window(a, z).Has(samples[i].at);
    }
    if i :| 0 <= i < |samples| && samples[i].id == id && Window(b, z).Has(samples[i].at) {
      assert Window(a, z).Has(samples[i].at);
    }
  }

  lemma {:induction false} SumsSplit(samples: seq<Sample>, children: seq<Child>, a: int, b: int, z: int, c: Counter)
    requires OwnIds(samples) && a <= b <= z
    ensures SumOf(samples, children, Window(a, z), c)
            == SumOf(samples, children, Window(a, b), c) + SumOf(samples, children, Window(b, z), c)
  {
    if children != [] {
      SumsSplit(samples, children[..|children| - 1], a, b, z, c);
      SplitWindow(samples, children[|children| - 1].sampleId, a, b, z);
    }
  }

  lemma {:induction false} WindowsSplit(samples: seq<Sample>, a: int, b: int, z: int)
    requires a <= b <= z
    ensures QueryPacketTotals(samples, Window(a, z)).0
            == QueryPacketTotals(samples, Window(a, b)).0 + QueryPacketTotals(samples, Window(b, z)).0
    ensures QueryPacketTotals(samples, Window(a, z)).1
            == QueryPacketTotals(samples, Window(a, b)).1 + QueryPacketTotals(samples, Window(b, z)).1
  {
    if samples != [] {
      WindowsSplit(samples[..|samples| - 1], a, b, z);
    }
  }
}
