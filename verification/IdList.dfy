/**
 Vocabulary for the ID lists of the key/value store (`midl.c`): arrays whose slot 0 holds the number of ids and
 whose ids, in slots 1 to that number, are kept in descending order.
 */
module IdList {

  /** `MDB_ID` is a 64-bit unsigned integer. */
  const MAX_ID: nat := 0xffff_ffff_ffff_ffff

  ghost predicate Descending(s: seq<nat>, l: int, r: int) {
    forall x, y :: l <= x < y <= r && 0 <= x && y < |s| ==> s[x] >= s[y]
  }

  /** `t` is `s` with slots `l` to `r` rearranged. */
  ghost predicate Permuted(s: seq<nat>, t: seq<nat>, l: int, r: int)
    requires 0 <= l <= r + 1 <= |s|
  {
    && |s| == |t|
    && (forall k :: 0 <= k < |s| && (k < l || r < k) ==> s[k] == t[k])
    && multiset(s[l..r + 1]) == multiset(t[l..r + 1])
  }

  lemma PermutedTrans(s: seq<nat>, t: seq<nat>, u: seq<nat>, l: int, r: int)
    requires 0 <= l <= r + 1 <= |s| && Permuted(s, t, l, r) && Permuted(t, u, l, r)
    ensures Permuted(s, u, l, r)
  {
  }

  /** Rearranging part of a range rearranges the range. */
  lemma PermutedWiden(s: seq<nat>, t: seq<nat>, l: int, r: int, l': int, r': int)
    requires 0 <= l' <= l <= r + 1 <= r' + 1 <= |s| && Permuted(s, t, l, r)
    ensures Permuted(s, t, l', r')
  {
    assert s[l'..r' + 1] == s[l'..l] + s[l..r + 1] + s[r + 1..r' + 1];
    assert t[l'..r' + 1] == t[l'..l] + t[l..r + 1] + t[r + 1..r' + 1];
    assert s[l'..l] == t[l'..l] && s[r + 1..r' + 1] == t[r + 1..r' + 1];
  }

  ghost function Swapped(s: seq<nat>, i: nat, j: nat): seq<nat>
    requires i < |s| && j < |s|
  {
    s[i := s[j]][j := s[i]]
  }

  lemma SwapPermutes(s: seq<nat>, i: nat, j: nat, l: int, r: int)
    requires 0 <= l <= i <= r < |s| && l <= j <= r
    ensures Permuted(s, Swapped(s, i, j), l, r)
  {
    var m := s[l..r + 1];
    assert Swapped(s, i, j)[l..r + 1] == Swapped(m, i - l, j - l);
  }

  /** An element of the rearranged range was somewhere in the range before. */
  lemma PermutedSource(s: seq<nat>, t: seq<nat>, l: int, r: int, y: int) returns (x: int)
    requires 0 <= l <= r + 1 <= |s| && Permuted(s, t, l, r) && l <= y <= r
    ensures l <= x <= r && s[x] == t[y]
  {
    assert t[l..r + 1][y - l] == t[y];
    assert t[y] in multiset(t[l..r + 1]);
    assert t[y] in s[l..r + 1];
    var k :| 0 <= k < |s[l..r + 1]| && s[l..r + 1][k] == t[y];
    x := k + l;
  }

  /** Nothing at or before slot `p` is smaller than anything after it, among slots 1 to `n`. */
  ghost predicate Cut(s: seq<nat>, n: int, p: int) {
    forall x, y :: 1 <= x <= p < y <= n && y < |s| ==> s[x] >= s[y]
  }

  /** A cut survives rearranging a range on one side of it. */
  lemma CutSurvives(s: seq<nat>, t: seq<nat>, n: int, l: int, r: int, p: int)
    requires 1 <= l <= r + 1 <= n + 1 <= |s| && Permuted(s, t, l, r) && Cut(s, n, p) && (p < l || r <= p)
    ensures Cut(t, n, p)
  {
    forall x, y | 1 <= x <= p < y <= n ensures t[x] >= t[y] {
      var x', y' := x, y;
      if l <= x <= r {
        x' := PermutedSource(s, t, l, r, x);
      }
      if l <= y <= r {
        y' := PermutedSource(s, t, l, r, y);
      }
      assert s[x'] >= s[y'];
    }
  }
}
