/** Rows of equal width stored one after the other in a flat sequence. */
module FlatLayout {

  function Flat<T>(rows: seq<seq<T>>): seq<T> {
    if rows == [] then [] else Flat(rows[..|rows| - 1]) + rows[|rows| - 1]
  }

  lemma {:induction false} FlatLength<T>(rows: seq<seq<T>>, width: nat)
    requires forall j :: 0 <= j < |rows| ==> |rows[j]| == width
    ensures |Flat(rows)| == |rows| * width
  {
    if rows != [] {
      var n := |rows| - 1;
      FlatLength(rows[..n], width);
      assert n * width + width == (n + 1) * width;
    }
  }

  /** The flat array up to, at and after row i. */
  lemma {:induction false} FlatSplit<T>(rows: seq<seq<T>>, i: nat) returns (after: seq<T>)
    requires i < |rows|
    ensures Flat(rows) == Flat(rows[..i]) + rows[i] + after
  {
    var n := |rows| - 1;
    if i == n {
      after := [];
    } else {
      var mid := FlatSplit(rows[..n], i);
      assert rows[..n][..i] == rows[..i];
      after := mid + rows[n];
    }
  }

  /** Row i of the flat array starts at i * width. */
  lemma FlatRow<T>(rows: seq<seq<T>>, width: nat, i: nat)
    requires i < |rows| && forall j :: 0 <= j < |rows| ==> |rows[j]| == width
    ensures i * width + width <= |Flat(rows)|
    ensures Flat(rows)[i * width..i * width + width] == rows[i]
  {
    FlatLength(rows[..i], width);
    var after := FlatSplit(rows, i);
    var before := Flat(rows[..i]);
    assert |before| == i * width;
    assert (before + rows[i] + after)[|before|..|before| + width] == rows[i];
  }

  lemma FlatAppend<T>(rows: seq<seq<T>>, row: seq<T>)
    ensures Flat(rows + [row]) == Flat(rows) + row
  {
    assert (rows + [row])[..|rows|] == rows;
  }
}
