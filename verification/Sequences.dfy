/** Facts about concatenating sequences of equally long pieces, used for pages, blocks and records. */
module Sequences {

  function Concat<T>(pieces: seq<seq<T>>): seq<T> {
    if pieces == [] then [] else Concat(pieces[..|pieces| - 1]) + pieces[|pieces| - 1]
  }

  ghost predicate AllWidth<T>(pieces: seq<seq<T>>, width: nat) {
    forall k :: 0 <= k < |pieces| ==> |pieces[k]| == width
  }

  lemma ConcatSnoc<T>(pieces: seq<seq<T>>, last: seq<T>)
    ensures Concat(pieces + [last]) == Concat(pieces) + last
  {
    assert (pieces + [last])[..|pieces|] == pieces;
  }

  lemma {:induction false} ConcatLength<T>(pieces: seq<seq<T>>, width: nat)
    requires AllWidth(pieces, width)
    ensures |Concat(pieces)| == |pieces| * width
  {
    if pieces == [] {
    } else {
      ConcatLength(pieces[..|pieces| - 1], width);
      assert |pieces| * width == (|pieces| - 1) * width + width;
    }
  }

  /** Piece `q`, element `r` of equally long pieces sits at `q * width + r` of the concatenation. */
  lemma {:induction false} ConcatIndex<T>(pieces: seq<seq<T>>, width: nat, q: nat, r: nat)
    requires AllWidth(pieces, width) && q < |pieces| && r < width
    ensures q * width + r < |Concat(pieces)|
    ensures Concat(pieces)[q * width + r] == pieces[q][r]
  {
    var front := pieces[..|pieces| - 1];
    ConcatLength(front, width);
    if q < |front| {
      ConcatIndex(front, width, q, r);
      assert front[q] == pieces[q];
    } else {
      assert q == |front|;
    }
  }

  /** The slice of `width` elements starting at `q * width` is piece `q`. */
  lemma {:induction false} ConcatSlice<T>(pieces: seq<seq<T>>, width: nat, q: nat)
    requires AllWidth(pieces, width) && q < |pieces|
    ensures q * width + width <= |Concat(pieces)|
    ensures Concat(pieces)[q * width..q * width + width] == pieces[q]
  {
    var front, last := pieces[..|pieces| - 1], pieces[|pieces| - 1];
    ConcatLength(front, width);
    if q < |front| {
      ConcatSlice(front, width, q);
      PrefixSlice(Concat(front), last, q * width, width);
    } else {
      assert q == |front|;
      SuffixSlice(Concat(front), last);
    }
  }

  lemma PrefixSlice<T>(s: seq<T>, t: seq<T>, at: nat, count: nat)
    requires at + count <= |s|
    ensures (s + t)[at..at + count] == s[at..at + count]
  {
  }

  lemma SuffixSlice<T>(s: seq<T>, t: seq<T>)
    ensures (s + t)[|s|..|s| + |t|] == t
  {
  }

  lemma MulLe(a: nat, b: nat, k: nat)
    requires a <= b
    ensures a * k <= b * k
  {
    assert (b - a) * k >= 0;
    assert b * k == a * k + (b - a) * k;
  }

  function Fill<T>(value: T, count: nat): seq<T> {
    seq(count, _ => value)
  }
}
