/** std::sort by an integer key. */
module Sorting {
  import opened Collections

  ghost predicate Ordered<T>(s: seq<T>, key: T -> int) {
    forall i, j | 0 <= i < j < |s| :: key(s[i]) <= key(s[j])
  }

  function Insert<T>(x: T, s: seq<T>, key: T -> int): seq<T> {
    if s == [] || key(x) <= key(s[0]) then [x] + s else [s[0]] + Insert(x, s[1..], key)
  }

  lemma {:induction false} InsertContents<T>(x: T, s: seq<T>, key: T -> int)
    ensures multiset(Insert(x, s, key)) == multiset{x} + multiset(s)
  {
    if s != [] {
      assert s == [s[0]] + s[1..];
      InsertContents(x, s[1..], key);
    }
  }

  lemma OrderedCons<T>(x: T, s: seq<T>, key: T -> int)
    requires Ordered(s, key) && forall i | 0 <= i < |s| :: key(x) <= key(s[i])
    ensures Ordered([x] + s, key)
  {
  }

  lemma OrderedRest<T>(s: seq<T>, key: T -> int)
    requires Ordered(s, key) && s != []
    ensures Ordered(s[1..], key) && forall i | 0 <= i < |s| :: key(s[0]) <= key(s[i])
  {
  }

  lemma {:induction false} InsertOrder<T>(x: T, s: seq<T>, key: T -> int)
    requires Ordered(s, key)
    ensures Ordered(Insert(x, s, key), key)
  {
    hide Ordered;
    if s != [] {
      OrderedRest(s, key);
    }
    if s == [] || key(x) <= key(s[0]) {
      OrderedCons(x, s, key);
    } else {
      var rest := Insert(x, s[1..], key);
      InsertOrder(x, s[1..], key);
      InsertContents(x, s[1..], key);
      forall i | 0 <= i < |rest| ensures key(s[0]) <= key(rest[i]) {
        assert rest[i] in multiset(rest);
        if rest[i] != x {
          assert rest[i] in s[1..];
        }
      }
      OrderedCons(s[0], rest, key);
    }
  }

  function Sort<T>(s: seq<T>, key: T -> int): (r: seq<T>)
    ensures multiset(r) == multiset(s)
    ensures Ordered(r, key)
  {
    if s == [] then []
    else
      assert s == [s[0]] + s[1..];
      var rest := Sort(s[1..], key);
      InsertContents(s[0], rest, key);
      InsertOrder(s[0], rest, key);
      Insert(s[0], rest, key)
  }

  // ---------------------------------------------------------------- lists with one element per key

  ghost predicate Distinct<T>(s: seq<T>, key: T -> int) {
    forall i, j | 0 <= i < j < |s| :: key(s[i]) != key(s[j])
  }

  ghost predicate Strict<T>(s: seq<T>, key: T -> int) {
    forall i, j | 0 <= i < j < |s| :: key(s[i]) < key(s[j])
  }

  /** The list as a lookup table. */
  function Table<T>(s: seq<T>, key: T -> int): map<int, T>
    decreases |s|
  {
    if s == [] then map[] else Table(s[..|s| - 1], key)[key(s[|s| - 1]) := s[|s| - 1]]
  }

  lemma {:induction false} TableAt<T>(s: seq<T>, key: T -> int, x: int)
    requires Distinct(s, key)
    ensures x in Table(s, key) <==> exists i :: 0 <= i < |s| && key(s[i]) == x
    ensures forall i | 0 <= i < |s| && key(s[i]) == x :: Table(s, key)[x] == s[i]
    decreases |s|
  {
    if s != [] {
      var n := |s| - 1;
      TableAt(s[..n], key, x);
      if x in Table(s[..n], key) {
        var i :| 0 <= i < n && key(s[..n][i]) == x;
        assert key(s[i]) == x;
      }
    }
  }

  /** One more element at the end of a prefix is one more row. */
  lemma TableStep<T>(s: seq<T>, key: T -> int, n: nat)
    requires Distinct(s, key) && n < |s|
    ensures key(s[n]) !in Table(s[..n], key)
    ensures Table(s[..n + 1], key) == Table(s[..n], key)[key(s[n]) := s[n]]
  {
    assert s[..n + 1][..n] == s[..n];
    TableAt(s[..n], key, key(s[n]));
  }

  lemma DuplicateCount<T>(s: seq<T>, i: int, j: int)
    requires 0 <= i < j < |s| && s[i] == s[j]
    ensures multiset(s)[s[i]] >= 2
  {
    assert s == s[..i] + [s[i]] + s[i + 1..j] + [s[j]] + s[j + 1..];
  }

  lemma {:induction false} DistinctCount<T>(s: seq<T>, key: T -> int, x: T)
    requires Distinct(s, key)
    ensures multiset(s)[x] <= 1
    decreases |s|
  {
    if s != [] {
      assert s == s[..|s| - 1] + [s[|s| - 1]];
      DistinctCount(s[..|s| - 1], key, x);
      if x == s[|s| - 1] {
        assert x !in s[..|s| - 1];
      }
    }
  }

  lemma SameKeySameElement<T>(s: seq<T>, t: seq<T>, key: T -> int, i: int, j: int)
    requires Distinct(s, key) && multiset(t) == multiset(s)
    requires 0 <= i < j < |t| && key(t[i]) == key(t[j])
    ensures t[i] == t[j]
  {
    assert t[i] in multiset(t) && t[j] in multiset(t);
    var m :| 0 <= m < |s| && s[m] == t[i];
    var n :| 0 <= n < |s| && s[n] == t[j];
  }

  lemma SortIsStrict<T>(s: seq<T>, key: T -> int)
    requires Distinct(s, key)
    ensures Strict(Sort(s, key), key)
  {
    hide Sort;
    var t := Sort(s, key);
    forall i, j | 0 <= i < j < |t| ensures key(t[i]) < key(t[j]) {
      if key(t[i]) == key(t[j]) {
        SameKeySameElement(s, t, key, i, j);
        DuplicateCount(t, i, j);
        DistinctCount(s, key, t[i]);
      }
    }
  }

  lemma SameElementsSameRow<T>(a: seq<T>, b: seq<T>, key: T -> int, x: int)
    requires Distinct(a, key) && Distinct(b, key) && multiset(a) == multiset(b)
    ensures x in Table(a, key) ==> x in Table(b, key) && Table(b, key)[x] == Table(a, key)[x]
  {
    hide Table;
    TableAt(a, key, x);
    TableAt(b, key, x);
    if x in Table(a, key) {
      var i :| 0 <= i < |a| && key(a[i]) == x;
      assert a[i] in multiset(a);
      var j :| 0 <= j < |b| && b[j] == a[i];
    }
  }

  /** Sorting changes the order of the rows and nothing else. */
  lemma SortedTable<T>(s: seq<T>, key: T -> int)
    requires Distinct(s, key)
    ensures Strict(Sort(s, key), key) && Distinct(Sort(s, key), key)
    ensures Table(Sort(s, key), key) == Table(s, key)
  {
    hide Sort, Table;
    var t := Sort(s, key);
    SortIsStrict(s, key);
    forall x
      ensures x in Table(t, key) <==> x in Table(s, key)
      ensures x in Table(s, key) ==> Table(t, key)[x] == Table(s, key)[x]
    {
      SameElementsSameRow(t, s, key, x);
      SameElementsSameRow(s, t, key, x);
    }
  }

  function Keys<T>(s: seq<T>, key: T -> int): (r: seq<int>)
    ensures |r| == |s|
  {
    seq(|s|, i requires 0 <= i < |s| => key(s[i]))
  }

  lemma {:induction false} TableKeys<T>(s: seq<T>, key: T -> int)
    ensures Lists(Keys(s, key), Table(s, key).Keys)
    decreases |s|
  {
    hide Lists;
    if s == [] {
      ListsNothing<int>();
      assert Keys(s, key) == [] && Table(s, key).Keys == {};
    } else {
      var n := |s| - 1;
      TableKeys(s[..n], key);
      ListsMore(Keys(s[..n], key), Table(s[..n], key).Keys, key(s[n]));
      assert Keys(s, key) == Keys(s[..n], key) + [key(s[n])];
      assert Table(s, key).Keys == Table(s[..n], key).Keys + {key(s[n])};
    }
  }
}
