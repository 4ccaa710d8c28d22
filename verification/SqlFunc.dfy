/**
 runSQLFunc's reading of the rows a handler function returns: one slot per
 input, filled by the row's own index, the first bad row ending the group.
 */
module SqlFunc {
  import opened Prelude

  /** `result` is None for a NULL; `decoded` is None when it does not decode. */
  datatype Row = Row(idx: int, ok: bool, code: string, message: string, result: Option<Option<string>>)

  datatype Failure = Rejected(index: int, code: string, message: string) | Protocol

  datatype Outcome = Filled(outs: seq<Option<string>>) | Failed(failure: Failure)

  predicate Fits(r: Row, n: nat) {
    0 <= r.idx < n && r.ok && r.result.Some? && r.result.value.Some?
  }

  function Fault(r: Row, n: nat): Failure
    requires !Fits(r, n)
  {
    if 0 <= r.idx < n && !r.ok then Rejected(r.idx, r.code, r.message) else Protocol
  }

  /** What the rows read so far have left in a slot: the last one wins. */
  function Slot(rows: seq<Row>, n: nat, i: int): Option<string>
    requires forall k :: 0 <= k < |rows| ==> Fits(rows[k], n)
  {
    if rows == [] then None
    else if rows[|rows| - 1].idx == i then
      assert Fits(rows[|rows| - 1], n);
      rows[|rows| - 1].result.value
    else Slot(rows[..|rows| - 1], n, i)
  }

  /** Row k refuses its input, and every row before it filled a slot. */
  predicate Refuses(rows: seq<Row>, n: nat, k: int) {
    && 0 <= k < |rows| && 0 <= rows[k].idx < n && !rows[k].ok
    && forall j :: 0 <= j < k ==>
         0 <= rows[j].idx < n && rows[j].ok && rows[j].result.Some? && rows[j].result.value.Some?
  }

  /** The row loop, over rows ordered as the statement returned them. */
  method ReadRows(rows: seq<Row>, n: nat) returns (outcome: Outcome)
    ensures outcome.Filled? <==> |rows| == n && forall k :: 0 <= k < |rows| ==> Fits(rows[k], n)
    ensures outcome.Filled? ==> |outcome.outs| == n && forall i :: 0 <= i < n ==> outcome.outs[i] == Slot(rows, n, i)
    ensures outcome.Failed? && (forall k :: 0 <= k < |rows| ==> Fits(rows[k], n)) ==> outcome.failure == Protocol
    ensures forall k | 0 <= k < |rows| && !Fits(rows[k], n) && (forall j :: 0 <= j < k ==> Fits(rows[j], n)) ::
      outcome == Failed(Fault(rows[k], n))
    ensures forall k | Refuses(rows, n, k) :: outcome == Failed(Rejected(rows[k].idx, rows[k].code, rows[k].message))
    ensures outcome.Failed? && outcome.failure.Rejected? ==> exists k :: Refuses(rows, n, k)
  {
    var outs := new Option<string>[n](i => None);
    var filled, j := 0, 0;
    while j < |rows|
      invariant 0 <= j <= |rows| && filled == j
      invariant forall k :: 0 <= k < j ==> Fits(rows[k], n)
      invariant forall i :: 0 <= i < n ==> outs[i] == Slot(rows[..j], n, i)
    {
      var r := rows[j];
      if r.idx < 0 || r.idx >= n { return Failed(Protocol); }
      if !r.ok {
        assert Refuses(rows, n, j);
        return Failed(Rejected(r.idx, r.code, r.message));
      }
      if r.result.None? { return Failed(Protocol); }
      if r.result.value.None? { return Failed(Protocol); }
      assert rows[..j + 1][..j] == rows[..j];
      outs[r.idx] := r.result.value;
      filled, j := filled + 1, j + 1;
    }
    assert rows[..j] == rows;
    if filled != n { return Failed(Protocol); }
    return Filled(outs[..]);
  }

  ghost predicate Distinct(rows: seq<Row>) {
    forall j, k :: 0 <= j < k < |rows| ==> rows[j].idx != rows[k].idx
  }

  ghost predicate Covers(rows: seq<Row>, n: nat) {
    forall i :: 0 <= i < n ==> HasRow(rows, i)
  }

  predicate HasRow(rows: seq<Row>, i: int) {
    exists k :: 0 <= k < |rows| && rows[k].idx == i
  }

  function Indices(rows: seq<Row>): set<int> {
    set k | 0 <= k < |rows| :: rows[k].idx
  }

  function UpTo(n: nat): (s: set<int>)
    ensures |s| == n && forall i :: i in s <==> 0 <= i < n
  {
    if n == 0 then {} else UpTo(n - 1) + {n - 1}
  }

  lemma {:induction false} HowManyIndices(rows: seq<Row>)
    ensures |Indices(rows)| <= |rows|
    ensures |Indices(rows)| == |rows| <==> Distinct(rows)
  {
    if rows != [] {
      var init, last := rows[..|rows| - 1], rows[|rows| - 1];
      HowManyIndices(init);
      assert forall k | 0 <= k < |init| :: rows[k] == init[k];
      assert Indices(rows) == Indices(init) + {last.idx};
      if last.idx in Indices(init) {
        var k :| 0 <= k < |init| && init[k].idx == last.idx;
        assert rows[k].idx == rows[|init|].idx;
        assert Indices(rows) == Indices(init);
      } else {
        assert forall k | 0 <= k < |init| :: rows[k].idx in Indices(init);
      }
    }
  }

  lemma SubsetOfSameSize(a: set<int>, b: set<int>)
    requires a <= b
    ensures |a| <= |b| && (|a| == |b| <==> a == b)
  {
    assert b == a + (b - a);
    if |a| == |b| { assert |b - a| == 0; }
  }

  /** The pigeonhole: n rows in range fill every slot exactly when no index repeats. */
  lemma DistinctFills(rows: seq<Row>, n: nat)
    requires |rows| == n && forall k :: 0 <= k < n ==> 0 <= rows[k].idx < n
    ensures Covers(rows, n) <==> Distinct(rows)
  {
    HowManyIndices(rows);
    assert Indices(rows) <= UpTo(n);
    SubsetOfSameSize(Indices(rows), UpTo(n));
    assert Covers(rows, n) <==> UpTo(n) <= Indices(rows) by {
      assert forall i :: HasRow(rows, i) <==> i in Indices(rows);
    }
  }

  lemma {:induction false} SlotOfRow(rows: seq<Row>, n: nat, k: nat)
    requires k < |rows| && Distinct(rows) && forall j :: 0 <= j < |rows| ==> Fits(rows[j], n)
    ensures Slot(rows, n, rows[k].idx) == rows[k].result.value
  {
    if k < |rows| - 1 { SlotOfRow(rows[..|rows| - 1], n, k); }
  }

  lemma {:induction false} SlotNeedsRow(rows: seq<Row>, n: nat, i: int)
    requires forall j :: 0 <= j < |rows| ==> Fits(rows[j], n)
    ensures Slot(rows, n, i).Some? <==> HasRow(rows, i)
  {
    if rows != [] {
      var init, last := rows[..|rows| - 1], rows[|rows| - 1];
      SlotNeedsRow(init, n, i);
      assert Fits(last, n);
      if HasRow(init, i) {
        var k :| 0 <= k < |init| && init[k].idx == i;
        assert rows[k].idx == i;
      }
      if HasRow(rows, i) && last.idx != i {
        var k :| 0 <= k < |rows| && rows[k].idx == i;
        assert init[k].idx == i;
      }
    }
  }

  ghost predicate Complete(rows: seq<Row>, n: nat)
    requires forall j :: 0 <= j < |rows| ==> Fits(rows[j], n)
  {
    forall i :: 0 <= i < n ==> Slot(rows, n, i).Some?
  }

  /** A group the loop accepts has an output for every input exactly when the
      function returned no index twice; the loop counts rows and does not check. */
  lemma AcceptedIsComplete(rows: seq<Row>, n: nat)
    requires |rows| == n && forall k :: 0 <= k < n ==> Fits(rows[k], n)
    ensures Complete(rows, n) <==> Distinct(rows)
    ensures Distinct(rows) ==> forall k :: 0 <= k < n ==> Slot(rows, n, rows[k].idx) == rows[k].result.value
  {
    DistinctFills(rows, n);
    if Complete(rows, n) {
      forall i | 0 <= i < n ensures HasRow(rows, i) {
        SlotNeedsRow(rows, n, i);
      }
    }
    if Covers(rows, n) {
      forall i | 0 <= i < n ensures Slot(rows, n, i).Some? {
        SlotNeedsRow(rows, n, i);
      }
    }
    if Distinct(rows) {
      forall k | 0 <= k < n ensures Slot(rows, n, rows[k].idx) == rows[k].result.value {
        SlotOfRow(rows, n, k);
      }
    }
  }
}
