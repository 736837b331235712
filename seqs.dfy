/**
 * Sequence helpers shared by the scene graph and the subrenderer: runs of
 * equal elements, and the swap-with-last-and-pop removal both the scene
 * node's child list and the subrenderer's entity list use.
 */
module Seqs {

  /** `k` copies of `x`: one per swapchain image, or a column of equal slots. */
  function Fill<T>(k: nat, x: T): (r: seq<T>)
    ensures |r| == k && forall i :: 0 <= i < k ==> r[i] == x
  {
    if k == 0 then [] else [x] + Fill(k - 1, x)
  }

  /** Remove position `i` by moving the last element into it and dropping the last position. */
  function SwapPop<T>(s: seq<T>, i: nat): (r: seq<T>)
    requires i < |s|
    ensures |r| == |s| - 1
    ensures forall j :: 0 <= j < |r| && j != i ==> r[j] == s[j]
    ensures i < |r| ==> r[i] == s[|s| - 1]
  {
    s[i := s[|s| - 1]][..|s| - 1]
  }

  /** Swap-and-pop removes exactly one occurrence of `s[i]` and keeps everything else. */
  lemma SwapPopMultiset<T>(s: seq<T>, i: nat)
    requires i < |s|
    ensures multiset(SwapPop(s, i)) == multiset(s) - multiset{s[i]}
  {
    var n := |s|;
    if i == n - 1 {
      assert s == s[..n - 1] + [s[i]];
      assert SwapPop(s, i) == s[..n - 1];
    } else {
      assert s == s[..i] + [s[i]] + s[i + 1..n - 1] + [s[n - 1]];
      assert SwapPop(s, i) == s[..i] + [s[n - 1]] + s[i + 1..n - 1];
    }
  }

  /** Position of the first occurrence of `x`. */
  function FirstIndex<T(==)>(s: seq<T>, x: T): (r: nat)
    requires x in s
    ensures r < |s| && s[r] == x
    ensures forall j :: 0 <= j < r ==> s[j] != x
  {
    if s[0] == x then 0 else 1 + FirstIndex(s[1..], x)
  }

  /** Elements are pairwise distinct. */
  predicate Distinct<T(==)>(s: seq<T>) {
    forall i, j :: 0 <= i < j < |s| ==> s[i] != s[j]
  }

  /** Removing by swap-and-pop from a distinct sequence removes the element entirely. */
  lemma SwapPopRemoves<T>(s: seq<T>, i: nat)
    requires i < |s| && Distinct(s)
    ensures s[i] !in SwapPop(s, i)
    ensures Distinct(SwapPop(s, i))
    ensures forall x :: x in s && x != s[i] ==> x in SwapPop(s, i)
  {
    var r := SwapPop(s, i);
    var n := |s|;
    forall a, b | 0 <= a < b < |r| ensures r[a] != r[b] {
      var ia := if a == i then n - 1 else a;
      var ib := if b == i then n - 1 else b;
      assert r[a] == s[ia] && r[b] == s[ib] && ia != ib;
    }
    forall j | 0 <= j < |r| ensures r[j] != s[i] {
      var ij := if j == i then n - 1 else j;
      assert r[j] == s[ij] && ij != i;
    }
    forall x | x in s && x != s[i] ensures x in r {
      var k :| 0 <= k < n && s[k] == x;
      var j := if k == n - 1 then i else k;
      assert r[j] == x;
    }
  }

  /** Concatenation is associative. */
  lemma AppendAssoc<T>(a: seq<T>, b: seq<T>, c: seq<T>)
    ensures a + b + c == a + (b + c)
  {
  }

  /** A second update of the same index overrides the first. */
  lemma UpdateTwice<T>(s: seq<T>, i: nat, x: T, y: T)
    requires i < |s|
    ensures s[i := x][i := y] == s[i := y]
  {
  }

  /** A sequence one longer than `a` that starts with `a` is `a` plus its last element. */
  lemma PrefixThenLast<T>(s: seq<T>, a: seq<T>)
    requires |s| == |a| + 1 && s[..|a|] == a
    ensures s == a + [s[|a|]]
  {
  }

  /** Overwriting the appended element is appending the new one. */
  lemma UpdateAppended<T>(a: seq<T>, x: T, y: T)
    ensures (a + [x])[|a| := y] == a + [y]
  {
  }

  /** Appending one element and then two is appending the three. */
  lemma AppendOneThenTwo<T>(a: seq<T>, x: T, y: T, z: T)
    ensures a + [x] + [y, z] == a + [x, y, z]
  {
  }
}
