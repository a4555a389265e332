/**
 * The counters of src/health/service-health.js. Per-broker counts are objects
 * that recording mutates in place, so a snapshot has to copy them.
 */
module Health {
  import opened MqttPublish
  import opened PacketTypes

  /** The counts object of one broker. */
  class DeliveryCounts {
    ghost const brokerId: string
    var sent: nat
    var skipped: nat
    var failed: nat

    ghost function Value(): Deliveries
      reads this
    {
      Deliveries(sent, skipped, failed)
    }

    constructor (from: Deliveries, ghost brokerId: string)
      ensures Value() == from && this.brokerId == brokerId
    {
      this.brokerId := brokerId;
      sent, skipped, failed := from.sent, from.skipped, from.failed;
    }

    constructor Copy(other: DeliveryCounts)
      ensures Value() == other.Value() && brokerId == other.brokerId
    {
      brokerId := other.brokerId;
      sent, skipped, failed := other.sent, other.skipped, other.failed;
    }

    /** `counts[outcome] += 1`. */
    method Increment(outcome: Outcome)
      modifies this
      ensures Value() == old(Value()).Plus(outcome)
    {
      match outcome
      case Sent => sent := sent + 1;
      case Skipped => skipped := skipped + 1;
      case Failed => failed := failed + 1;
    }
  }

  /** What the counters add up to at one moment. */
  datatype Totals = Totals(received: nat, decoded: nat, byType: map<string, int>, deliveries: map<string, Deliveries>)

  datatype BrokerState = BrokerState(connected: bool, deliveries: DeliveryCounts)

  datatype Snapshot = Snapshot(packetsReceived: nat, packetsDecoded: nat, packetsByType: map<string, int>,
                               mqtt: map<string, BrokerState>)
  {
    ghost function Objects(): set<DeliveryCounts> {
      set id | id in mqtt :: mqtt[id].deliveries
    }

    /** The totals a holder of this snapshot reads from it now. */
    ghost function Reading(): Totals
      reads Objects()
    {
      Totals(packetsReceived, packetsDecoded, packetsByType, map id | id in mqtt :: mqtt[id].deliveries.Value())
    }

    /** None of its counts objects is one of these. */
    ghost predicate Apart(counts: set<DeliveryCounts>) {
      forall id | id in mqtt :: mqtt[id].deliveries !in counts
    }

    ghost predicate Shows(t: Totals)
      reads Objects()
    {
      && packetsReceived == t.received && packetsDecoded == t.decoded && packetsByType == t.byType
      && mqtt.Keys == t.deliveries.Keys
      && forall id | id in mqtt ::
           && mqtt[id].deliveries.sent == t.deliveries[id].sent
           && mqtt[id].deliveries.skipped == t.deliveries[id].skipped
           && mqtt[id].deliveries.failed == t.deliveries[id].failed
    }
  }

  /** No counter is below what it was. */
  ghost predicate Grows(a: Totals, b: Totals) {
    && a.received <= b.received && a.decoded <= b.decoded
    && (forall code :: Get(a.byType, code) <= Get(b.byType, code))
    && a.deliveries.Keys <= b.deliveries.Keys
    && forall id, o {:trigger a.deliveries[id].Of(o)} | id in a.deliveries :: a.deliveries[id].Of(o) <= b.deliveries[id].Of(o)
  }

  ghost predicate PositiveCodes(t: Totals) {
    forall code | code in t.byType :: t.byType[code] > 0
  }

  lemma GrowsOn(a: Totals, b: Totals, c: Totals)
    requires Grows(a, b) && Grows(b, c)
    ensures Grows(a, c)
  {
    forall code
      ensures Get(a.byType, code) <= Get(c.byType, code)
    {
      assert Get(a.byType, code) <= Get(b.byType, code);
    }
    forall id, o | id in a.deliveries
      ensures a.deliveries[id].Of(o) <= c.deliveries[id].Of(o)
    {
      assert a.deliveries[id].Of(o) <= b.deliveries[id].Of(o);
    }
  }

  lemma {:induction false} TallyGrows(before: Deliveries, results: seq<PublishResult>, brokerId: string, o: Outcome)
    ensures before.Of(o) <= Tally(before, results, brokerId).Of(o)
  {
    if results != [] {
      TallyGrows(before, results[..|results| - 1], brokerId, o);
    }
  }

  /** Counting only went up. */
  ghost predicate Counted(a: Totals, b: Totals) {
    Grows(a, b) && PositiveCodes(b)
  }

  ghost function TallyIn(tallies: map<string, Deliveries>, id: string): Deliveries {
    if id in tallies then tallies[id] else ZERO_DELIVERIES
  }

  ghost function TalliesOf(tallies: map<string, Deliveries>, ids: set<string>): map<string, Deliveries> {
    map id | id in ids :: TallyIn(tallies, id)
  }

  /** Recording results moves every tally by its own results, which only adds. */
  ghost predicate Recorded(before: map<string, Deliveries>, after: map<string, Deliveries>, results: seq<PublishResult>) {
    forall id {:trigger TallyIn(after, id)} :: TallyIn(after, id) == Tally(TallyIn(before, id), results, id)
  }

  /** The tallies are those of these publishes. */
  ghost predicate AllRecorded(tallies: map<string, Deliveries>, publishes: seq<seq<PublishResult>>) {
    forall id {:trigger TallyIn(tallies, id)} :: TallyIn(tallies, id) == TallyAll(publishes, id)
  }

  lemma RecordedAll(before: map<string, Deliveries>, after: map<string, Deliveries>, publishes: seq<seq<PublishResult>>,
                    results: seq<PublishResult>)
    requires AllRecorded(before, publishes) && Recorded(before, after, results)
    ensures AllRecorded(after, publishes + [results])
  {
    forall id
      ensures TallyIn(after, id) == TallyAll(publishes + [results], id)
    {
      assert TallyIn(before, id) == TallyAll(publishes, id);
      assert (publishes + [results])[..|publishes|] == publishes;
    }
  }

  lemma RecordedGrows(before: Totals, after: Totals, a: map<string, Deliveries>, b: map<string, Deliveries>,
                         results: seq<PublishResult>, ids: set<string>)
    requires Recorded(a, b, results) && PositiveCodes(before)
    requires before.deliveries == TalliesOf(a, ids) && after == before.(deliveries := TalliesOf(b, ids))
    ensures Counted(before, after)
  {
    forall id, o | id in before.deliveries
      ensures before.deliveries[id].Of(o) <= after.deliveries[id].Of(o)
    {
      assert TallyIn(b, id) == Tally(TallyIn(a, id), results, id);
      TallyGrows(TallyIn(a, id), results, id, o);
    }
  }

  class ServiceHealth {
    var packetsReceived: nat
    var packetsDecoded: nat
    var packetsByType: map<string, int>
    var brokerDeliveries: map<string, DeliveryCounts>
    /** What the counts objects hold. */
    ghost var tallies: map<string, Deliveries>
    /** The publishes recorded so far. */
    ghost var publishes: seq<seq<PublishResult>>

    /** Each broker's counts object is its own, and no other's. */
    ghost predicate Owned()
      reads this, brokerDeliveries.Values
    {
      && (forall code | code in packetsByType :: packetsByType[code] > 0)
      && tallies.Keys == brokerDeliveries.Keys
      && forall id | id in brokerDeliveries :: brokerDeliveries[id].brokerId == id && brokerDeliveries[id].Value() == tallies[id]
    }

    ghost predicate Valid()
      reads this, brokerDeliveries.Values
    {
      Owned() && AllRecorded(tallies, publishes)
    }

    ghost function Current(ids: set<string>): Totals
      reads this
    {
      Totals(packetsReceived, packetsDecoded, packetsByType, TalliesOf(tallies, ids))
    }

    constructor ()
      ensures Valid() && brokerDeliveries == map[] && tallies == map[] && publishes == []
      ensures packetsReceived == 0 && packetsDecoded == 0 && packetsByType == map[]
    {
      packetsReceived, packetsDecoded, packetsByType, brokerDeliveries, tallies, publishes := 0, 0, map[], map[], map[], [];
    }

    method PacketReceived()
      requires Valid()
      modifies this`packetsReceived
      ensures Valid() && packetsReceived == old(packetsReceived) + 1
    {
      packetsReceived := packetsReceived + 1;
    }

    method PacketDecoded(packetType: string)
      requires Valid()
      modifies this`packetsDecoded, this`packetsByType
      ensures Valid() && packetsDecoded == old(packetsDecoded) + 1
      ensures forall code :: Get(packetsByType, code) == Get(old(packetsByType), code) + if code == packetType then 1 else 0
    {
      packetsDecoded := packetsDecoded + 1;
      packetsByType := packetsByType[packetType := Get(packetsByType, packetType) + 1];
    }

    method RecordResult(brokerId: string, outcome: Outcome)
      requires Owned()
      modifies this`brokerDeliveries, this`tallies, brokerDeliveries.Values
      ensures Owned()
      ensures tallies == old(tallies)[brokerId := TallyIn(old(tallies), brokerId).Plus(outcome)]
      ensures forall counts | counts in brokerDeliveries.Values :: counts in old(brokerDeliveries.Values) || fresh(counts)
    {
      tallies := tallies[brokerId := TallyIn(tallies, brokerId).Plus(outcome)];
      if brokerId in brokerDeliveries {
        var counts := brokerDeliveries[brokerId];
        counts.Increment(outcome);
      } else {
        var counts := new DeliveryCounts(ZERO_DELIVERIES, brokerId);
        counts.Increment(outcome);
        brokerDeliveries := brokerDeliveries[brokerId := counts];
      }
    }

    /** Every result adds one to its broker's count of its outcome. */
    method RecordResults(results: seq<PublishResult>)
      requires Owned()
      modifies this`brokerDeliveries, this`tallies, brokerDeliveries.Values
      ensures Owned() && Recorded(old(tallies), tallies, results)
      ensures forall counts | counts in brokerDeliveries.Values :: counts in old(brokerDeliveries.Values) || fresh(counts)
    {
      for i := 0 to |results|
        invariant Owned() && Recorded(old(tallies), tallies, results[..i])
        invariant forall counts | counts in brokerDeliveries.Values :: counts in old(brokerDeliveries.Values) || fresh(counts)
      {
        RecordedOne(old(tallies), tallies, results[..i], results[i]);
        RecordResult(results[i].brokerId, results[i].outcome);
        assert results[..i + 1] == results[..i] + [results[i]];
      }
      assert results[..|results|] == results;
    }

    method RecordPublishResults(results: seq<PublishResult>)
      requires Valid()
      modifies this`brokerDeliveries, this`tallies, this`publishes, brokerDeliveries.Values
      ensures Valid() && Recorded(old(tallies), tallies, results) && publishes == old(publishes) + [results]
      ensures forall counts | counts in brokerDeliveries.Values :: counts in old(brokerDeliveries.Values) || fresh(counts)
    {
      RecordResults(results);
      RecordedAll(old(tallies), tallies, publishes, results);
      publishes := publishes + [results];
    }

    /** Each counts object holds, outcome by outcome, how many of all recorded results were of its broker. */
    lemma CountsAreOutcomes(id: string)
      requires Valid()
      ensures if id in brokerDeliveries then
                var counts := brokerDeliveries[id];
                && counts.sent == AllResults(publishes, id, Sent)
                && counts.skipped == AllResults(publishes, id, Skipped)
                && counts.failed == AllResults(publishes, id, Failed)
              else
                && AllResults(publishes, id, Sent) == 0
                && AllResults(publishes, id, Skipped) == 0
                && AllResults(publishes, id, Failed) == 0
    {
      TallyAllCountsOutcomes(publishes, id);
      assert TallyIn(tallies, id) == TallyAll(publishes, id);
    }

    /** As many outcomes as publishes for every configured broker, in the counts object itself. */
    lemma CountsAreComplete(ids: seq<string>, k: nat)
      requires Valid() && k < |ids| && forall i, j | 0 <= i < j < |ids| :: ids[i] != ids[j]
      requires forall results | results in publishes :: IsPublish(results, ids)
      ensures publishes != [] ==> ids[k] in brokerDeliveries
      ensures ids[k] in brokerDeliveries ==>
                var counts := brokerDeliveries[ids[k]]; counts.sent + counts.skipped + counts.failed == |publishes|
    {
      OutcomesAddUp(publishes, ids, k);
      assert TallyIn(tallies, ids[k]) == TallyAll(publishes, ids[k]);
    }

    /** A copy of a broker's counts, or of the zeros of a broker without any. */
    method CopyCounts(id: string) returns (copy: DeliveryCounts)
      requires Owned()
      ensures fresh(copy) && copy.Value() == TallyIn(tallies, id)
    {
      if id in brokerDeliveries {
        copy := new DeliveryCounts.Copy(brokerDeliveries[id]);
      } else {
        copy := new DeliveryCounts(ZERO_DELIVERIES, id);
      }
    }

    /** The broker part of a snapshot, with counts objects of its own. */
    method CopyBrokers(states: map<string, bool>) returns (mqtt: map<string, BrokerState>)
      requires Owned()
      ensures mqtt.Keys == states.Keys
      ensures forall id | id in mqtt :: fresh(mqtt[id].deliveries) && mqtt[id].connected == states[id]
      ensures forall id | id in mqtt :: mqtt[id].deliveries.Value() == TallyIn(tallies, id)
    {
      mqtt := map[];
      var todo := states.Keys;
      while todo != {}
        invariant todo <= states.Keys && mqtt.Keys == states.Keys - todo
        invariant forall id | id in mqtt :: fresh(mqtt[id].deliveries) && mqtt[id].connected == states[id]
        invariant forall id | id in mqtt :: mqtt[id].deliveries.Value() == TallyIn(tallies, id)
        decreases |todo|
      {
        var id :| id in todo;
        var copy := CopyCounts(id);
        mqtt := mqtt[id := BrokerState(states[id], copy)];
        todo := todo - {id};
      }
    }

    /** A snapshot of the configured brokers; its counts objects are its own. */
    method TakeSnapshot(states: map<string, bool>) returns (s: Snapshot)
      requires Valid()
      ensures s.mqtt.Keys == states.Keys && s.Reading() == Current(states.Keys)
      ensures forall id | id in states :: s.mqtt[id].connected == states[id]
      ensures forall id | id in s.mqtt :: fresh(s.mqtt[id].deliveries)
    {
      var mqtt := CopyBrokers(states);
      s := Snapshot(packetsReceived, packetsDecoded, packetsByType, mqtt);
      assert s.Reading().deliveries == Current(states.Keys).deliveries;
    }
  }

  lemma RecordedOne(before: map<string, Deliveries>, now: map<string, Deliveries>, results: seq<PublishResult>, r: PublishResult)
    requires Recorded(before, now, results)
    ensures Recorded(before, now[r.brokerId := TallyIn(now, r.brokerId).Plus(r.outcome)], results + [r])
  {
    var after := now[r.brokerId := TallyIn(now, r.brokerId).Plus(r.outcome)];
    forall id
      ensures TallyIn(after, id) == Tally(TallyIn(before, id), results + [r], id)
    {
      assert TallyIn(now, id) == Tally(TallyIn(before, id), results, id);
      assert (results + [r])[..|results|] == results;
    }
  }
}
