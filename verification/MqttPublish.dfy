/**
 * One publish to every broker: src/mqtt/mqtt-manager.js:78-105. The promises
 * that were started settle together, and a running index lines their results
 * up with the brokers again.
 */
module MqttPublish {
  import opened Prelude

  datatype Outcome = Sent | Skipped | Failed

  datatype PublishResult = PublishResult(brokerId: string, outcome: Outcome, error: Option<string>)

  /** How a started publish ends. */
  datatype Settlement = Fulfilled | Rejected(message: Option<string>)

  /** A broker as the call finds it, with the way its publish ends if one is started. */
  datatype Broker = Broker(id: string, connected: bool, ends: Settlement)

  datatype Attempt = Attempt(broker: Broker, promise: Option<Settlement>)

  /** What the caller is told of one broker. */
  ghost predicate Reports(r: PublishResult, b: Broker) {
    && r.brokerId == b.id
    && (r.outcome == Skipped <==> !b.connected)
    && (b.connected ==> (r.outcome == Sent <==> b.ends.Fulfilled?))
    && r.error == if b.connected && b.ends.Rejected? then b.ends.message else None
  }

  /** The promises started among the first i attempts, in order. */
  ghost function Started(attempts: seq<Attempt>, i: nat): seq<Settlement>
    requires i <= |attempts|
  {
    if i == 0 then []
    else if attempts[i - 1].promise.Some? then Started(attempts, i - 1) + [attempts[i - 1].promise.value]
    else Started(attempts, i - 1)
  }

  lemma {:induction false} StartedGrows(attempts: seq<Attempt>, i: nat, j: nat)
    requires i <= j <= |attempts|
    ensures Started(attempts, i) <= Started(attempts, j)
  {
    if i < j {
      StartedGrows(attempts, i, j - 1);
    }
  }

  /** Result i belongs to broker i, and reflects that broker's own promise. */
  method Publish(brokers: seq<Broker>) returns (results: seq<PublishResult>)
    ensures |results| == |brokers|
    ensures forall i | 0 <= i < |brokers| :: Reports(results[i], brokers[i])
  {
    var attempts: seq<Attempt> := [];
    for i := 0 to |brokers|
      invariant |attempts| == i
      invariant forall j | 0 <= j < i ::
                  attempts[j] == Attempt(brokers[j], if brokers[j].connected then Some(brokers[j].ends) else None)
    {
      attempts := attempts + [Attempt(brokers[i], if brokers[i].connected then Some(brokers[i].ends) else None)];
    }

    var settled: seq<Settlement> := [];
    for i := 0 to |attempts|
      invariant settled == Started(attempts, i)
    {
      if attempts[i].promise.Some? {
        settled := settled + [attempts[i].promise.value];
      }
    }

    var settledIndex := 0;
    results := [];
    for i := 0 to |attempts|
      invariant settledIndex == |Started(attempts, i)|
      invariant |results| == i
      invariant forall j | 0 <= j < i :: Reports(results[j], brokers[j])
    {
      var broker := attempts[i].broker;
      if attempts[i].promise.None? {
        results := results + [PublishResult(broker.id, Skipped, None)];
      } else {
        StartedGrows(attempts, i + 1, |attempts|);
        var result := settled[settledIndex];
        settledIndex := settledIndex + 1;
        results := results + [if result.Rejected? then PublishResult(broker.id, Failed, result.message)
                              else PublishResult(broker.id, Sent, None)];
      }
    }
  }

  // ---------------------------------------------------------------- counting outcomes

  datatype Deliveries = Deliveries(sent: nat, skipped: nat, failed: nat) {
    function Plus(outcome: Outcome): Deliveries {
      match outcome
      case Sent => this.(sent := sent + 1)
      case Skipped => this.(skipped := skipped + 1)
      case Failed => this.(failed := failed + 1)
    }

    function Of(outcome: Outcome): nat {
      match outcome
      case Sent => sent
      case Skipped => skipped
      case Failed => failed
    }
  }

  const ZERO_DELIVERIES := Deliveries(0, 0, 0)

  /** The tally of one broker after these results. */
  function Tally(before: Deliveries, results: seq<PublishResult>, brokerId: string): Deliveries {
    if results == [] then before
    else
      var earlier, last := Tally(before, results[..|results| - 1], brokerId), results[|results| - 1];
      if last.brokerId == brokerId then earlier.Plus(last.outcome) else earlier
  }

  /** How often a broker is named. */
  ghost function Mentions(results: seq<PublishResult>, brokerId: string): nat {
    if results == [] then 0
    else Mentions(results[..|results| - 1], brokerId) + if results[|results| - 1].brokerId == brokerId then 1 else 0
  }

  lemma {:induction false} TallyCountsMentions(before: Deliveries, results: seq<PublishResult>, brokerId: string)
    ensures var d := Tally(before, results, brokerId);
            d.sent + d.skipped + d.failed == before.sent + before.skipped + before.failed + Mentions(results, brokerId)
  {
    if results != [] {
      TallyCountsMentions(before, results[..|results| - 1], brokerId);
    }
  }

  /** How many results name this broker with this outcome. */
  ghost function Results(results: seq<PublishResult>, brokerId: string, outcome: Outcome): nat {
    if results == [] then 0
    else
      var last := results[|results| - 1];
      Results(results[..|results| - 1], brokerId, outcome) + if last.brokerId == brokerId && last.outcome == outcome then 1 else 0
  }

  /** A tally counts each outcome as what it is. */
  lemma {:induction false} TallyCountsOutcomes(before: Deliveries, results: seq<PublishResult>, brokerId: string)
    ensures var d := Tally(before, results, brokerId);
            && d.sent == before.sent + Results(results, brokerId, Sent)
            && d.skipped == before.skipped + Results(results, brokerId, Skipped)
            && d.failed == before.failed + Results(results, brokerId, Failed)
            && forall o :: d.Of(o) == before.Of(o) + Results(results, brokerId, o)
  {
    if results != [] {
      TallyCountsOutcomes(before, results[..|results| - 1], brokerId);
    }
  }

  ghost predicate DistinctIds(brokers: seq<Broker>) {
    forall i, j | 0 <= i < j < |brokers| :: brokers[i].id != brokers[j].id
  }

  /** One publish names each broker once. */
  lemma {:induction false} NamedOnce(brokers: seq<Broker>, results: seq<PublishResult>, brokerId: string)
    requires DistinctIds(brokers) && |results| == |brokers|
    requires forall i | 0 <= i < |brokers| :: Reports(results[i], brokers[i])
    ensures Mentions(results, brokerId) == if exists i :: 0 <= i < |brokers| && brokers[i].id == brokerId then 1 else 0
  {
    if brokers != [] {
      var n := |brokers| - 1;
      NamedOnce(brokers[..n], results[..n], brokerId);
      if i :| 0 <= i < n && brokers[i].id == brokerId {
        assert brokers[..n][i].id == brokerId;
      }
    }
  }

  /** The tally after a sequence of recorded publishes. */
  function TallyAll(publishes: seq<seq<PublishResult>>, brokerId: string): Deliveries {
    if publishes == [] then ZERO_DELIVERIES
    else Tally(TallyAll(publishes[..|publishes| - 1], brokerId), publishes[|publishes| - 1], brokerId)
  }

  /** How many of all recorded results name this broker with this outcome. */
  ghost function AllResults(publishes: seq<seq<PublishResult>>, brokerId: string, outcome: Outcome): nat {
    if publishes == [] then 0
    else
      AllResults(publishes[..|publishes| - 1], brokerId, outcome) + Results(publishes[|publishes| - 1], brokerId, outcome)
  }

  lemma {:induction false} TallyAllCountsOutcomes(publishes: seq<seq<PublishResult>>, brokerId: string)
    ensures var d := TallyAll(publishes, brokerId);
            && d.sent == AllResults(publishes, brokerId, Sent)
            && d.skipped == AllResults(publishes, brokerId, Skipped)
            && d.failed == AllResults(publishes, brokerId, Failed)
  {
    if publishes != [] {
      var init, last := publishes[..|publishes| - 1], publishes[|publishes| - 1];
      TallyAllCountsOutcomes(init, brokerId);
      TallyCountsOutcomes(TallyAll(init, brokerId), last, brokerId);
    }
  }

  /** A publish of these brokers, whatever their connections and promises at that moment. */
  ghost predicate IsPublish(results: seq<PublishResult>, ids: seq<string>) {
    exists brokers: seq<Broker> ::
      && |brokers| == |ids| == |results|
      && (forall i | 0 <= i < |ids| :: brokers[i].id == ids[i])
      && forall i | 0 <= i < |ids| :: Reports(results[i], brokers[i])
  }

  /** A publish names each configured broker once, so its tally grows by one. */
  lemma PublishAddsOne(before: Deliveries, results: seq<PublishResult>, ids: seq<string>, k: nat)
    requires k < |ids| && forall i, j | 0 <= i < j < |ids| :: ids[i] != ids[j]
    requires IsPublish(results, ids)
    ensures var d := Tally(before, results, ids[k]);
            d.sent + d.skipped + d.failed == before.sent + before.skipped + before.failed + 1
  {
    var brokers: seq<Broker> :| |brokers| == |ids| == |results| && (forall i | 0 <= i < |ids| :: brokers[i].id == ids[i])
                                && forall i | 0 <= i < |ids| :: Reports(results[i], brokers[i]);
    NamedOnce(brokers, results, ids[k]);
    assert brokers[k].id == ids[k];
    TallyCountsMentions(before, results, ids[k]);
  }

  /** After n recorded publishes each configured broker has n outcomes in all. */
  lemma {:induction false} OutcomesAddUp(publishes: seq<seq<PublishResult>>, ids: seq<string>, k: nat)
    requires k < |ids| && forall i, j | 0 <= i < j < |ids| :: ids[i] != ids[j]
    requires forall results | results in publishes :: IsPublish(results, ids)
    ensures var d := TallyAll(publishes, ids[k]); d.sent + d.skipped + d.failed == |publishes|
  {
    if publishes != [] {
      var init, last := publishes[..|publishes| - 1], publishes[|publishes| - 1];
      assert publishes == init + [last];
      OutcomesAddUp(init, ids, k);
      PublishAddsOne(TallyAll(init, ids[k]), last, ids, k);
    }
  }
}
