/** Sums over grouped rows: what GROUP BY computes, and that grouping loses nothing. */
module WeightedRows {

  /** One amount with the two columns a query may group by. */
  datatype Row = Row(idx: nat, key: string, amount: int)

  function SumAll(rows: seq<Row>): int {
    if rows == [] then 0 else SumAll(rows[..|rows| - 1]) + rows[|rows| - 1].amount
  }

  function OfIdx(rows: seq<Row>, idx: nat): seq<Row> {
    if rows == [] then []
    else if rows[|rows| - 1].idx == idx then OfIdx(rows[..|rows| - 1], idx) + [rows[|rows| - 1]]
    else OfIdx(rows[..|rows| - 1], idx)
  }

  function OfKey(rows: seq<Row>, key: string): seq<Row> {
    if rows == [] then []
    else if rows[|rows| - 1].key == key then OfKey(rows[..|rows| - 1], key) + [rows[|rows| - 1]]
    else OfKey(rows[..|rows| - 1], key)
  }

  function Indices(rows: seq<Row>): set<nat> {
    set r | r in rows :: r.idx
  }

  function Keys(rows: seq<Row>): set<string> {
    set r | r in rows :: r.key
  }

  ghost predicate Distinct(idxs: seq<nat>) {
    forall i, j | 0 <= i < j < |idxs| :: idxs[i] != idxs[j]
  }

  /** The sum over groups of the group sums. */
  ghost function SumOfGroups(rows: seq<Row>, idxs: seq<nat>): int {
    if idxs == [] then 0 else SumOfGroups(rows, idxs[..|idxs| - 1]) + SumAll(OfIdx(rows, idxs[|idxs| - 1]))
  }

  lemma SumAppend(rows: seq<Row>, r: Row)
    ensures SumAll(rows + [r]) == SumAll(rows) + r.amount
  {
    assert (rows + [r])[..|rows|] == rows;
  }

  lemma MemberSplit(idxs: seq<nat>, x: nat)
    requires Distinct(idxs) && idxs != []
    ensures x in idxs <==> x in idxs[..|idxs| - 1] || x == idxs[|idxs| - 1]
    ensures !(x in idxs[..|idxs| - 1] && x == idxs[|idxs| - 1])
  {
    assert idxs == idxs[..|idxs| - 1] + [idxs[|idxs| - 1]];
  }

  lemma {:induction false} OneMoreRow(rows: seq<Row>, r: Row, idxs: seq<nat>)
    requires Distinct(idxs)
    ensures SumOfGroups(rows + [r], idxs) == SumOfGroups(rows, idxs) + if r.idx in idxs then r.amount else 0
  {
    if idxs != [] {
      var init, last := idxs[..|idxs| - 1], idxs[|idxs| - 1];
      OneMoreRow(rows, r, init);
      AppendOfIdx(rows, r, last);
      SumAppend(OfIdx(rows, last), r);
      MemberSplit(idxs, r.idx);
    }
  }

  lemma {:induction false} NoRowsNoSum(idxs: seq<nat>)
    ensures SumOfGroups([], idxs) == 0
  {
    if idxs != [] {
      NoRowsNoSum(idxs[..|idxs| - 1]);
    }
  }

  /** Grouping by distinct indices that cover every row conserves the total. */
  lemma {:induction false} GroupsConserve(rows: seq<Row>, idxs: seq<nat>)
    requires Distinct(idxs) && forall r | r in rows :: r.idx in idxs
    ensures SumOfGroups(rows, idxs) == SumAll(rows)
  {
    if rows == [] {
      NoRowsNoSum(idxs);
    } else {
      var init, last := rows[..|rows| - 1], rows[|rows| - 1];
      GroupsConserve(init, idxs);
      assert rows == init + [last];
      assert last in rows;
      OneMoreRow(init, last, idxs);
    }
  }

  lemma {:induction false} OfKeyShape(rows: seq<Row>, key: string)
    ensures forall r | r in OfKey(rows, key) :: r in rows && r.key == key
    ensures key !in Keys(rows) ==> OfKey(rows, key) == []
  {
    if rows != [] {
      var init, last := rows[..|rows| - 1], rows[|rows| - 1];
      OfKeyShape(init, key);
      assert rows == init + [last];
      assert last in rows;
    }
  }

  /** Restricting to a group and to a key commute. */
  lemma {:induction false} OfIdxOfKey(rows: seq<Row>, idx: nat, key: string)
    ensures OfKey(OfIdx(rows, idx), key) == OfIdx(OfKey(rows, key), idx)
  {
    if rows != [] {
      var init, last := rows[..|rows| - 1], rows[|rows| - 1];
      OfIdxOfKey(init, idx, key);
      if last.idx == idx {
        AppendOfKey(OfIdx(init, idx), last, key);
      }
      if last.key == key {
        AppendOfIdx(OfKey(init, key), last, idx);
      }
    }
  }

  lemma AppendOfKey(rows: seq<Row>, r: Row, key: string)
    ensures OfKey(rows + [r], key) == if r.key == key then OfKey(rows, key) + [r] else OfKey(rows, key)
  {
    assert (rows + [r])[..|rows|] == rows;
  }

  lemma AppendOfIdx(rows: seq<Row>, r: Row, idx: nat)
    ensures OfIdx(rows + [r], idx) == if r.idx == idx then OfIdx(rows, idx) + [r] else OfIdx(rows, idx)
  {
    assert (rows + [r])[..|rows|] == rows;
  }

  lemma {:induction false} OfIdxShape(rows: seq<Row>, idx: nat)
    ensures forall r | r in OfIdx(rows, idx) :: r in rows && r.idx == idx
  {
    if rows != [] {
      OfIdxShape(rows[..|rows| - 1], idx);
    }
  }
}
