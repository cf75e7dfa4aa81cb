/** Python's sequence slicing and `int()` truncation, and flattening a list of rows. */
module Seqs {

  /** How Python normalises one slice bound against a sequence of length `n`. */
  function SliceBound(i: int, n: nat): (k: nat)
    ensures k <= n
    ensures 0 <= i <= n ==> k == i
    ensures i < 0 && -i <= n ==> k == n + i
    ensures i > n ==> k == n
    ensures i + n < 0 ==> k == 0
  {
    if i < 0 then (if i + n < 0 then 0 else i + n) else if i > n then n else i
  }

  /**
   * `s[i:j]`, including negative and out-of-range bounds: the elements between the two
   * normalised bounds, and nothing when they cross.
   */
  function Slice<T>(s: seq<T>, i: int, j: int): (r: seq<T>)
    ensures SliceBound(i, |s|) <= SliceBound(j, |s|) ==> r == s[SliceBound(i, |s|)..SliceBound(j, |s|)]
    ensures SliceBound(j, |s|) < SliceBound(i, |s|) ==> r == []
    ensures 0 <= i <= j <= |s| ==> r == s[i..j]
    ensures |r| <= |s|
    ensures forall k :: 0 <= k < |r| ==> r[k] in s
  {
    var a := SliceBound(i, |s|);
    var b := SliceBound(j, |s|);
    if a <= b then s[a..b] else []
  }

  /** `s[i:]` */
  function SliceFrom<T>(s: seq<T>, i: int): (r: seq<T>)
    ensures 0 <= i <= |s| ==> r == s[i..]
    ensures i > |s| ==> r == []
  {
    Slice(s, i, |s|)
  }

  /** `int(x)` for a float `x`: truncation toward zero. */
  function Trunc(x: real): (r: int)
    ensures 0.0 <= x ==> 0 <= r && r as real <= x < r as real + 1.0
    ensures x < 0.0 ==> r <= 0 && r as real - 1.0 < x <= r as real
  {
    if x >= 0.0 then x.Floor else -((-x).Floor)
  }

  /** The rows one after the other. */
  function Flatten<T>(rows: seq<seq<T>>): seq<T>
  {
    if rows == [] then [] else Flatten(rows[..|rows| - 1]) + rows[|rows| - 1]
  }

  lemma {:induction false} FlattenAppend<T>(a: seq<seq<T>>, b: seq<seq<T>>)
    ensures Flatten(a + b) == Flatten(a) + Flatten(b)
  {
    if b != [] {
      assert (a + b)[..|a + b| - 1] == a + b[..|b| - 1];
      FlattenAppend(a, b[..|b| - 1]);
    } else {
      assert a + b == a;
    }
  }
}
