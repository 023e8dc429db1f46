/** Sequence operations that pandas and Python slicing perform on row lists. */
module Seqs {

  /** Length of Python's `s[:n]` (and of pandas' `head(n)`) for a sequence of length `len`:
      a non-negative `n` keeps at most `n` elements, a negative `n` drops the last `-n`. */
  function HeadLength(len: nat, n: int): nat
  {
    if n >= 0 then (if n < len then n else len)
    else if len + n > 0 then len + n else 0
  }

  /** Python's `s[:n]`, pandas' `df.head(n)`. */
  function Head<T>(s: seq<T>, n: int): (r: seq<T>)
    ensures |r| <= |s| && r == s[..|r|]
    ensures n >= 0 ==> |r| == (if n < |s| then n else |s|)
    ensures n < 0 ==> |r| == (if |s| + n > 0 then |s| + n else 0)
  {
    s[..HeadLength(|s|, n)]
  }

  /** Number of positions where a boolean mask holds. */
  function Count(mask: seq<bool>): (c: nat)
    ensures c <= |mask|
  {
    if mask == [] then 0 else Count(mask[..|mask| - 1]) + (if mask[|mask| - 1] then 1 else 0)
  }

  /** `r` lists, in increasing order, exactly the positions where `mask` holds. */
  ghost predicate ListsTrueIndices(r: seq<nat>, mask: seq<bool>)
  {
    && (forall k :: 0 <= k < |r| ==> r[k] < |mask| && mask[r[k]])
    && (forall a, b :: 0 <= a < b < |r| ==> r[a] < r[b])
    && (forall i :: 0 <= i < |mask| && mask[i] ==> i in r && r[0] <= i)
  }

  /** The positions where `mask` holds, in increasing order. */
  function TrueIndices(mask: seq<bool>): (r: seq<nat>)
    ensures |r| == Count(mask)
    ensures forall k :: 0 <= k < |r| ==> r[k] < |mask| && mask[r[k]]
    ensures forall a, b :: 0 <= a < b < |r| ==> r[a] < r[b]
    ensures forall i :: 0 <= i < |mask| && mask[i] ==> i in r && r[0] <= i
  {
    if mask == [] then []
    else
      var n := |mask| - 1;
      var prefix := TrueIndices(mask[..n]);
      assert ListsTrueIndices(prefix, mask[..n]);
      TrueIndicesStep(prefix, mask);
      var r := prefix + (if mask[n] then [n] else []);
      assert ListsTrueIndices(r, mask);
      r
  }

  /** Appending the last position, when it holds, to the list for all earlier positions. */
  lemma TrueIndicesStep(prefix: seq<nat>, mask: seq<bool>)
    requires |mask| > 0 && ListsTrueIndices(prefix, mask[..|mask| - 1])
    ensures ListsTrueIndices(prefix + (if mask[|mask| - 1] then [|mask| - 1] else []), mask)
  {
    var n := |mask| - 1;
    var r := prefix + (if mask[n] then [n] else []);
    assert forall i :: 0 <= i < n ==> mask[..n][i] == mask[i];
    forall i | 0 <= i < |mask| && mask[i] ensures i in r && r[0] <= i {
      if i < n {
        assert mask[..n][i];
      }
    }
  }

  /** pandas boolean indexing `df[mask]`: the rows where the mask holds, in their original order. */
  function Select<T>(s: seq<T>, mask: seq<bool>): (r: seq<T>)
    requires |mask| == |s|
    ensures |r| == |TrueIndices(mask)| && |r| <= |s|
    ensures forall k :: 0 <= k < |r| ==> r[k] == s[TrueIndices(mask)[k]]
  {
    if s == [] then []
    else
      var n := |s| - 1;
      assert mask[..n] + [mask[n]] == mask;
      Select(s[..n], mask[..n]) + (if mask[n] then [s[n]] else [])
  }

  /** A property every element has, every selected element has. */
  lemma SelectAll<T>(s: seq<T>, mask: seq<bool>, P: T -> bool)
    requires |mask| == |s|
    requires forall i :: 0 <= i < |s| ==> P(s[i])
    ensures forall k :: 0 <= k < |Select(s, mask)| ==> P(Select(s, mask)[k])
  {
  }

  /** Selection drops nothing the mask marks, and takes nothing that was not there. */
  lemma SelectKeeps<T>(s: seq<T>, mask: seq<bool>)
    requires |mask| == |s|
    ensures forall i :: 0 <= i < |s| && mask[i] ==> s[i] in Select(s, mask)
    ensures forall k :: 0 <= k < |Select(s, mask)| ==> Select(s, mask)[k] in s
  {
    var r, idx := Select(s, mask), TrueIndices(mask);
    forall i | 0 <= i < |s| && mask[i] ensures s[i] in r {
      var k :| 0 <= k < |idx| && idx[k] == i;
      assert r[k] == s[i];
    }
  }

  /** A relation every earlier element has to every later one survives selection, which keeps
      the elements' order. */
  lemma SelectPairwise<T>(s: seq<T>, mask: seq<bool>, R: (T, T) -> bool)
    requires |mask| == |s|
    requires forall a, b :: 0 <= a < b < |s| ==> R(s[a], s[b])
    ensures forall a, b :: 0 <= a < b < |Select(s, mask)| ==> R(Select(s, mask)[a], Select(s, mask)[b])
  {
    var r, idx := Select(s, mask), TrueIndices(mask);
    forall a, b | 0 <= a < b < |r| ensures R(r[a], r[b]) {
      assert idx[a] < idx[b];
    }
  }

  /** Position-wise conjunction of two masks (pandas `mask_a & mask_b`). */
  function And(a: seq<bool>, b: seq<bool>): (r: seq<bool>)
    requires |a| == |b|
    ensures |r| == |a| && forall i :: 0 <= i < |a| ==> (r[i] <==> a[i] && b[i])
  {
    seq(|a|, i requires 0 <= i < |a| => a[i] && b[i])
  }

  /** `Head(Select(s, mask), n)` is the first rows of `s` that the mask admits: each comes from a
      position where the mask holds, the positions increase, they are the first such positions,
      and for n >= 0 there are min(n, Count(mask)) of them. */
  lemma {:induction false} HeadOfSelect<T>(s: seq<T>, mask: seq<bool>, n: int)
    requires |mask| == |s|
    ensures var r, idx := Head(Select(s, mask), n), TrueIndices(mask);
      && |r| == HeadLength(Count(mask), n)
      && (n >= 0 ==> |r| == if n < Count(mask) then n else Count(mask))
      && (forall k :: 0 <= k < |r| ==> idx[k] < |s| && mask[idx[k]] && r[k] == s[idx[k]])
      && (forall a, b :: 0 <= a < b < |r| ==> idx[a] < idx[b])
      && (forall i, k :: 0 <= i < |s| && mask[i] && 0 <= k < |r| && i !in idx[..|r|] ==> idx[k] < i)
  {
    var r, idx := Head(Select(s, mask), n), TrueIndices(mask);
    forall i, k | 0 <= i < |s| && mask[i] && 0 <= k < |r| && i !in idx[..|r|]
      ensures idx[k] < i
    {
      var p :| 0 <= p < |idx| && idx[p] == i;
      assert k < p;
    }
  }

  /** A mask that holds nowhere selects nothing. */
  lemma {:induction false} NoneTrue(mask: seq<bool>)
    requires forall i :: 0 <= i < |mask| ==> !mask[i]
    ensures Count(mask) == 0 && TrueIndices(mask) == []
  {
    if mask != [] {
      NoneTrue(mask[..|mask| - 1]);
    }
  }

  /** Python's `s[::-1]`. */
  function Reverse<T>(s: seq<T>): (r: seq<T>)
    ensures |r| == |s| && forall k :: 0 <= k < |s| ==> r[k] == s[|s| - 1 - k]
  {
    seq(|s|, k requires 0 <= k < |s| => s[|s| - 1 - k])
  }

  predicate Distinct<T(==)>(s: seq<T>)
  {
    forall a, b :: 0 <= a < b < |s| ==> s[a] != s[b]
  }
}
