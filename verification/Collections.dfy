/** Small facts about sequences, sets and maps of any type. */
module Collections {

  /** r lists exactly the elements of s. */
  ghost predicate Lists<T(!new)>(r: seq<T>, s: set<T>) {
    forall x :: x in r <==> x in s
  }

  ghost predicate AllIn<T(!new)>(s: seq<T>, t: set<T>) {
    forall x | x in s :: x in t
  }

  lemma AllInFront<T(!new)>(s: seq<T>, t: set<T>)
    requires AllIn(s, t) && s != []
    ensures AllIn(s[..|s| - 1], t) && s[|s| - 1] in t
  {
    assert s == s[..|s| - 1] + [s[|s| - 1]];
  }

  lemma AllInMore<T(!new)>(s: seq<T>, x: T, t: set<T>)
    requires AllIn(s, t) && x in t
    ensures AllIn(s + [x], t)
  {
  }

  /** The listed elements that are not in `keep`. */
  function Without<T(==)>(s: seq<T>, keep: set<T>): set<T> {
    set x | x in s && x !in keep
  }

  lemma WithoutStep<T>(s: seq<T>, n: nat, keep: set<T>)
    requires n < |s|
    ensures Without(s[..n + 1], keep) == Without(s[..n], keep) + (if s[n] in keep then {} else {s[n]})
  {
    assert s[..n + 1] == s[..n] + [s[n]];
  }

  function Only<K, V>(m: map<K, V>, keys: set<K>): map<K, V> {
    map x | x in m && x in keys :: m[x]
  }

  lemma WithoutIsOnly<K(!new), V>(m: map<K, V>, listing: seq<K>, keep: set<K>)
    requires Lists(listing, m.Keys)
    ensures m - Without(listing, keep) == Only(m, keep)
  {
  }

  lemma ListsAt<T(!new)>(r: seq<T>, s: set<T>, i: nat)
    requires Lists(r, s) && i < |r|
    ensures r[i] in s
  {
    assert r[i] in r;
  }

  lemma ListsMore<T(!new)>(r: seq<T>, s: set<T>, x: T)
    requires Lists(r, s)
    ensures Lists(r + [x], s + {x})
  {
  }

  lemma ListsNothing<T(!new)>()
    ensures Lists<T>([], {})
  {
  }

  predicate Increasing(s: seq<int>) {
    forall i, j | 0 <= i < j < |s| :: s[i] < s[j]
  }

  ghost predicate NoRepeats<T>(s: seq<T>) {
    forall i, j | 0 <= i < j < |s| :: s[i] != s[j]
  }

  lemma SliceOfSlice<T>(s: seq<T>, a: int, b: int, i: int, j: int)
    requires 0 <= a <= b <= |s| && 0 <= i <= j <= b - a
    ensures s[a..b][i..j] == s[a + i..a + j]
  {
    var x, y := s[a..b][i..j], s[a + i..a + j];
    assert |x| == |y| && forall k | 0 <= k < |x| :: x[k] == y[k];
  }

  lemma Assoc<T>(a: seq<T>, b: seq<T>, c: seq<T>)
    ensures a + b + c == a + (b + c)
  {
  }

  lemma NilLeft<T>(a: seq<T>)
    ensures [] + a == a
  {
  }

  lemma NilRight<T>(a: seq<T>)
    ensures a + [] == a
  {
  }

  lemma DropFront<T>(a: seq<T>, b: seq<T>)
    ensures (a + b)[|a|..] == b
  {
  }

  lemma {:induction false} SmallerSet<K>(a: set<K>, b: set<K>)
    requires a <= b
    ensures |a| <= |b|
    decreases |a|
  {
    if a != {} {
      var x :| x in a;
      SmallerSet(a - {x}, b - {x});
    }
  }

  function Members<T(==)>(s: seq<T>): set<T> {
    set x | x in s
  }

  /** A list is at least as long as the number of different elements in it. */
  lemma {:induction false} LongEnough<T>(s: seq<T>, t: set<T>)
    requires forall x | x in t :: x in s
    ensures |t| <= |s|
    decreases |s|
  {
    SmallerSet(t, Members(s));
    MembersSize(s);
  }

  lemma {:induction false} MembersSize<T>(s: seq<T>)
    ensures |Members(s)| <= |s|
    decreases |s|
  {
    if s != [] {
      var n := |s| - 1;
      MembersSize(s[..n]);
      assert Members(s) == Members(s[..n]) + {s[n]};
    }
  }
}
