/** Reordering a sequence by a bijection of its indices keeps its multiset. */
module Permutations {

  /** `f` and `g` are mutually inverse maps of the indices `0 .. m - 1`. */
  ghost predicate Bijection(m: nat, f: int -> int, g: int -> int) {
    (forall i :: 0 <= i < m ==> 0 <= f(i) < m && g(f(i)) == i) &&
    (forall j :: 0 <= j < m ==> 0 <= g(j) < m && f(g(j)) == j)
  }

  /** `t` lists the elements of `s` in the order `f` picks them. */
  ghost predicate Reordered(s: seq<int>, t: seq<int>, f: int -> int)
    requires |s| == |t|
  {
    forall i :: 0 <= i < |t| ==> 0 <= f(i) < |s| && t[i] == s[f(i)]
  }

  /** `s` without its element at `k`. */
  function RemoveAt(s: seq<int>, k: int): (r: seq<int>)
    requires 0 <= k < |s|
    ensures |r| == |s| - 1
    ensures forall j :: 0 <= j < |r| ==> r[j] == s[if j < k then j else j + 1]
    ensures multiset(s) == multiset(r) + multiset{s[k]}
  {
    assert s == s[..k] + [s[k]] + s[k + 1..];
    s[..k] + s[k + 1..]
  }

  /** Index map `f` with the index `k` of the target squeezed out. */
  function Squeeze(f: int -> int, k: int): int -> int {
    i => if f(i) < k then f(i) else f(i) - 1
  }

  /** Inverse of `Squeeze(f, k)`, given an inverse `g` of `f`. */
  function Skip(g: int -> int, k: int): int -> int {
    j => g(if j < k then j else j + 1)
  }

  lemma SqueezeBijection(m: nat, f: int -> int, g: int -> int)
    requires m > 0 && Bijection(m, f, g)
    ensures Bijection(m - 1, Squeeze(f, f(m - 1)), Skip(g, f(m - 1)))
  {
    var k := f(m - 1);
    var sq, sk := Squeeze(f, k), Skip(g, k);
    forall i | 0 <= i < m - 1
      ensures 0 <= sq(i) < m - 1 && sk(sq(i)) == i
    {
      SqueezeThenSkip(m, f, g, k, i);
    }
    forall j | 0 <= j < m - 1
      ensures 0 <= sk(j) < m - 1 && sq(sk(j)) == j
    {
      SkipThenSqueeze(m, f, g, k, j);
    }
  }

  lemma SqueezeThenSkip(m: nat, f: int -> int, g: int -> int, k: int, i: int)
    requires m > 0 && Bijection(m, f, g) && k == f(m - 1) && 0 <= i < m - 1
    ensures 0 <= Squeeze(f, k)(i) < m - 1 && Skip(g, k)(Squeeze(f, k)(i)) == i
  {
    assert g(f(i)) == i && g(k) == m - 1;
  }

  lemma SkipThenSqueeze(m: nat, f: int -> int, g: int -> int, k: int, j: int)
    requires m > 0 && Bijection(m, f, g) && k == f(m - 1) && 0 <= j < m - 1
    ensures 0 <= Skip(g, k)(j) < m - 1 && Squeeze(f, k)(Skip(g, k)(j)) == j
  {
    var j' := if j < k then j else j + 1;
    assert 0 <= j' < m && j' != k;
    var i := g(j');
    assert 0 <= i < m && f(i) == j';
    assert i != m - 1;
    assert Skip(g, k)(j) == i;
  }

  /** Dropping the last element of `t` and its source element from `s` leaves a
      reordering by the squeezed index map. */
  lemma SqueezeReordered(s: seq<int>, t: seq<int>, f: int -> int, g: int -> int)
    requires |s| == |t| > 0 && Bijection(|t|, f, g) && Reordered(s, t, f)
    ensures var k := f(|t| - 1);
      Reordered(RemoveAt(s, k), t[..|t| - 1], Squeeze(f, k))
  {
    var m, k := |t|, f(|t| - 1);
    var s', t' := RemoveAt(s, k), t[..m - 1];
    forall i | 0 <= i < m - 1
      ensures 0 <= Squeeze(f, k)(i) < m - 1 && t'[i] == s'[Squeeze(f, k)(i)]
    {
      assert g(f(i)) == i && g(k) == m - 1;
    }
  }

  lemma {:induction false} ReorderedMultiset(s: seq<int>, t: seq<int>, f: int -> int, g: int -> int)
    requires |s| == |t| && Bijection(|t|, f, g) && Reordered(s, t, f)
    ensures multiset(t) == multiset(s)
    decreases |t|
  {
    var m := |t|;
    if m > 0 {
      var k := f(m - 1);
      var s', t' := RemoveAt(s, k), t[..m - 1];
      SqueezeBijection(m, f, g);
      SqueezeReordered(s, t, f, g);
      ReorderedMultiset(s', t', Squeeze(f, k), Skip(g, k));
      assert t == t' + [s[k]];
    }
  }
}
