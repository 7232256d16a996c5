/** src/libtorrent_webui.cpp: moving a selection of torrents within the session's queue. The queue
    is a sequence of distinct torrents; a torrent that is not queued has position -1. The handlers
    sort by the position in the last status the history received, which may be out of date. */
module QueueMoves {
  import opened Collections
  import Sorting

  // ---------------------------------------------------------------- libtorrent's moves

  function Remove<T(==)>(q: seq<T>, x: T): seq<T> {
    if q == [] then [] else if q[0] == x then Remove(q[1..], x) else [q[0]] + Remove(q[1..], x)
  }

  /** torrent_handle::queue_position_top */
  function MoveTop<T(==)>(q: seq<T>, x: T): seq<T> {
    if x in q then [x] + Remove(q, x) else q
  }

  /** torrent_handle::queue_position_bottom */
  function MoveBottom<T(==)>(q: seq<T>, x: T): seq<T> {
    if x in q then Remove(q, x) + [x] else q
  }

  function Position<T(==)>(q: seq<T>, x: T): (p: int)
    ensures x in q ==> 0 <= p < |q| && q[p] == x
    ensures x !in q ==> p == -1
    ensures -1 <= p < |q|
  {
    if q == [] then -1
    else if q[0] == x then 0
    else
      var p := Position(q[1..], x);
      if p == -1 then -1 else p + 1
  }

  /** torrent_handle::queue_position_up */
  function MoveUp<T(==)>(q: seq<T>, x: T): seq<T> {
    var p := Position(q, x);
    if p <= 0 then q else q[p := q[p - 1]][p - 1 := x]
  }

  // ---------------------------------------------------------------- the selection

  /** The torrents of q that are, or are not, on the list, in their order. */
  function Pick<T(==)>(q: seq<T>, list: seq<T>, listed: bool): seq<T> {
    if q == [] then []
    else (if (q[0] in list) == listed then [q[0]] else []) + Pick(q[1..], list, listed)
  }

  lemma {:induction false} PickConcat<T>(a: seq<T>, b: seq<T>, list: seq<T>, listed: bool)
    ensures Pick(a + b, list, listed) == Pick(a, list, listed) + Pick(b, list, listed)
    decreases |a|
  {
    if a == [] {
      NilLeft(b);
      NilLeft(Pick(b, list, listed));
    } else {
      assert (a + b)[1..] == a[1..] + b;
      PickConcat(a[1..], b, list, listed);
      Assoc(if (a[0] in list) == listed then [a[0]] else [], Pick(a[1..], list, listed), Pick(b, list, listed));
    }
  }

  /** Only whether the torrents of q are on the list matters. */
  lemma {:induction false} PickSame<T>(q: seq<T>, a: seq<T>, b: seq<T>, listed: bool)
    requires forall i | 0 <= i < |q| :: q[i] in a <==> q[i] in b
    ensures Pick(q, a, listed) == Pick(q, b, listed)
    decreases |q|
  {
    if q != [] {
      forall i | 0 <= i < |q[1..]| ensures q[1..][i] in a <==> q[1..][i] in b {
        assert q[1..][i] == q[i + 1];
      }
      PickSame(q[1..], a, b, listed);
    }
  }

  lemma {:induction false} PickNone<T>(q: seq<T>, list: seq<T>, listed: bool)
    requires forall i | 0 <= i < |q| :: (q[i] in list) != listed
    ensures Pick(q, list, listed) == []
    decreases |q|
  {
    if q != [] {
      forall i | 0 <= i < |q[1..]| ensures (q[1..][i] in list) != listed {
        assert q[1..][i] == q[i + 1];
      }
      PickNone(q[1..], list, listed);
    }
  }

  lemma {:induction false} PickHas<T>(q: seq<T>, list: seq<T>, listed: bool, x: T)
    ensures x in Pick(q, list, listed) <==> x in q && (x in list) == listed
    decreases |q|
  {
    if q != [] {
      PickHas(q[1..], list, listed, x);
      assert q == [q[0]] + q[1..];
    }
  }

  lemma {:induction false} RemoveAbsent<T>(q: seq<T>, x: T)
    requires x !in q
    ensures Remove(q, x) == q
    decreases |q|
  {
    if q != [] {
      assert q == [q[0]] + q[1..];
      RemoveAbsent(q[1..], x);
    }
  }

  lemma {:induction false} RemoveConcat<T>(a: seq<T>, b: seq<T>, x: T)
    ensures Remove(a + b, x) == Remove(a, x) + Remove(b, x)
    decreases |a|
  {
    if a == [] {
      assert a + b == b;
    } else {
      assert (a + b)[1..] == a[1..] + b;
      RemoveConcat(a[1..], b, x);
    }
  }

  lemma {:induction false} RemovePicked<T>(q: seq<T>, list: seq<T>, x: T)
    ensures Remove(Pick(q, list, false), x) == Pick(q, list + [x], false)
    decreases |q|
  {
    if q != [] {
      RemovePicked(q[1..], list, x);
      var rest := Pick(q[1..], list, false);
      if q[0] !in list {
        assert ([q[0]] + rest)[1..] == rest;
      } else {
        assert [] + rest == rest;
      }
    }
  }

  lemma AbsentPick<T>(q: seq<T>, x: T, done: seq<T>, listed: bool)
    requires x !in q
    ensures Pick(q, done + [x], listed) == Pick(q, done, listed)
  {
    PickSame(q, done, done + [x], listed);
  }

  lemma {:induction false} NothingPicked<T>(q: seq<T>)
    ensures Pick(q, [], true) == [] && Pick(q, [], false) == q
    decreases |q|
  {
    if q != [] {
      NothingPicked(q[1..]);
      assert q == [q[0]] + q[1..];
    }
  }

  lemma {:induction false} PickDistinct<T>(q: seq<T>, list: seq<T>, listed: bool)
    requires NoRepeats(q)
    ensures NoRepeats(Pick(q, list, listed))
    decreases |q|
  {
    if q != [] {
      forall j, k | 0 <= j < k < |q[1..]| ensures q[1..][j] != q[1..][k] {
        assert q[1..][j] == q[j + 1] && q[1..][k] == q[k + 1];
      }
      var rest := Pick(q[1..], list, listed);
      PickDistinct(q[1..], list, listed);
      PickHas(q[1..], list, listed, q[0]);
      assert forall k | 0 <= k < |rest| :: rest[k] in rest;
    }
  }

  // ---------------------------------------------------------------- queue_top and queue_bottom

  function TopAll<T(==)>(q: seq<T>, list: seq<T>): seq<T>
    decreases |list|
  {
    if list == [] then q else MoveTop(TopAll(q, list[..|list| - 1]), list[|list| - 1])
  }

  function BottomAll<T(==)>(q: seq<T>, list: seq<T>): seq<T>
    decreases |list|
  {
    if list == [] then q else MoveBottom(BottomAll(q, list[..|list| - 1]), list[|list| - 1])
  }

  /** The torrents moved, the last one moved first. */
  function Front<T(==)>(q: seq<T>, list: seq<T>): seq<T>
    decreases |list|
  {
    if list == [] then []
    else
      var x, before := list[|list| - 1], Front(q, list[..|list| - 1]);
      if x in q then [x] + Remove(before, x) else before
  }

  /** The torrents moved, the last one moved last. */
  function Back<T(==)>(q: seq<T>, list: seq<T>): seq<T>
    decreases |list|
  {
    if list == [] then []
    else
      var x, before := list[|list| - 1], Back(q, list[..|list| - 1]);
      if x in q then Remove(before, x) + [x] else before
  }

  lemma {:induction false} RemoveHas<T>(q: seq<T>, x: T, y: T)
    ensures y in Remove(q, x) <==> y in q && y != x
    decreases |q|
  {
    if q != [] {
      assert q == [q[0]] + q[1..];
      RemoveHas(q[1..], x, y);
    }
  }

  lemma {:induction false} FrontHas<T>(q: seq<T>, list: seq<T>, y: T)
    ensures y in Front(q, list) <==> y in q && y in list
    decreases |list|
  {
    hide Remove;
    if list != [] {
      var n := |list| - 1;
      assert list == list[..n] + [list[n]];
      FrontHas(q, list[..n], y);
      RemoveHas(Front(q, list[..n]), list[n], y);
    }
  }

  lemma {:induction false} BackHas<T>(q: seq<T>, list: seq<T>, y: T)
    ensures y in Back(q, list) <==> y in q && y in list
    decreases |list|
  {
    hide Remove;
    if list != [] {
      var n := |list| - 1;
      assert list == list[..n] + [list[n]];
      BackHas(q, list[..n], y);
      RemoveHas(Back(q, list[..n]), list[n], y);
    }
  }

  /** Where moving to the top leaves everything, whatever the order of the list, with repetitions
      and with torrents that are not queued. */
  lemma {:induction false} TopAllIs<T>(q: seq<T>, list: seq<T>)
    ensures TopAll(q, list) == Front(q, list) + Pick(q, list, false)
    decreases |list|
  {
    hide Pick, Remove;
    if list == [] {
      NothingPicked(q);
      NilLeft(q);
    } else {
      var n := |list| - 1;
      var done, x := list[..n], list[n];
      var top, rest := Front(q, done), Pick(q, done, false);
      assert list == done + [x];
      TopAllIs(q, done);
      FrontHas(q, done, x);
      PickHas(q, done, false, x);
      if x in q {
        RemoveConcat(top, rest, x);
        RemovePicked(q, done, x);
        Assoc([x], Remove(top, x), Remove(rest, x));
      } else {
        AbsentPick(q, x, done, false);
      }
    }
  }

  lemma {:induction false} BottomAllIs<T>(q: seq<T>, list: seq<T>)
    ensures BottomAll(q, list) == Pick(q, list, false) + Back(q, list)
    decreases |list|
  {
    hide Pick, Remove;
    if list == [] {
      NothingPicked(q);
      NilRight(q);
    } else {
      var n := |list| - 1;
      var done, x := list[..n], list[n];
      var rest, bottom := Pick(q, done, false), Back(q, done);
      assert list == done + [x];
      BottomAllIs(q, done);
      BackHas(q, done, x);
      PickHas(q, done, false, x);
      if x in q {
        RemoveConcat(rest, bottom, x);
        RemovePicked(q, done, x);
        Assoc(Remove(rest, x), Remove(bottom, x), [x]);
      } else {
        AbsentPick(q, x, done, false);
      }
    }
  }

  // ---------------------------------------------------------------- the order of the selection

  /** The listed torrents of q, each once, with ascending cached positions. */
  ghost predicate Listing<T>(pos: T -> int, q: seq<T>, list: seq<T>, r: seq<T>) {
    && NoRepeats(r) && Sorting.Ordered(r, pos)
    && (forall i | 0 <= i < |r| :: r[i] in q && r[i] in list)
    && (forall i | 0 <= i < |q| && q[i] in list :: q[i] in r)
  }

  /** The cached positions order the listed torrents of q as q does. */
  ghost predicate Orders<T>(pos: T -> int, q: seq<T>, list: seq<T>) {
    Sorting.Strict(Pick(q, list, true), pos)
  }

  /** No two listed torrents of q have the same cached position. */
  ghost predicate Apart<T>(pos: T -> int, q: seq<T>, list: seq<T>) {
    Sorting.Distinct(Pick(q, list, true), pos)
  }

  ghost predicate Descending<T>(list: seq<T>, pos: T -> int) {
    forall i, j | 0 <= i < j < |list| :: pos(list[i]) >= pos(list[j])
  }

  lemma {:induction false} RemoveKeeps<T>(q: seq<T>, x: T, pos: T -> int)
    requires NoRepeats(q) && Sorting.Ordered(q, pos)
    ensures NoRepeats(Remove(q, x)) && Sorting.Ordered(Remove(q, x), pos)
    decreases |q|
  {
    if q != [] {
      var rest := Remove(q[1..], x);
      forall j, k | 0 <= j < k < |q[1..]| ensures q[1..][j] != q[1..][k] {
        assert q[1..][j] == q[j + 1] && q[1..][k] == q[k + 1];
      }
      Sorting.OrderedRest(q, pos);
      RemoveKeeps(q[1..], x, pos);
      if q[0] != x {
        forall k | 0 <= k < |rest| ensures rest[k] != q[0] && pos(q[0]) <= pos(rest[k]) {
          RemoveHas(q[1..], x, rest[k]);
          var j :| 0 <= j < |q[1..]| && q[1..][j] == rest[k];
          assert q[j + 1] == rest[k];
        }
      }
    }
  }

  lemma NothingInOrder<T>(pos: T -> int)
    ensures NoRepeats<T>([]) && Sorting.Ordered<T>([], pos)
  {
  }

  lemma OrderedBefore<T>(s: seq<T>, x: T, pos: T -> int)
    requires NoRepeats(s) && Sorting.Ordered(s, pos)
    requires forall i | 0 <= i < |s| :: s[i] != x && pos(x) <= pos(s[i])
    ensures NoRepeats([x] + s) && Sorting.Ordered([x] + s, pos)
  {
  }

  lemma OrderedAfter<T>(s: seq<T>, x: T, pos: T -> int)
    requires NoRepeats(s) && Sorting.Ordered(s, pos)
    requires forall i | 0 <= i < |s| :: s[i] != x && pos(s[i]) <= pos(x)
    ensures NoRepeats(s + [x]) && Sorting.Ordered(s + [x], pos)
  {
  }

  lemma {:induction false} FrontInOrder<T>(q: seq<T>, list: seq<T>, pos: T -> int)
    requires Descending(list, pos)
    ensures NoRepeats(Front(q, list)) && Sorting.Ordered(Front(q, list), pos)
    decreases |list|
  {
    hide Remove, NoRepeats, Sorting.Ordered;
    NothingInOrder(pos);
    if list != [] {
      var n := |list| - 1;
      var x, before := list[n], Front(q, list[..n]);
      var rest := Remove(before, x);
      FrontInOrder(q, list[..n], pos);
      RemoveKeeps(before, x, pos);
      forall k | 0 <= k < |rest| ensures rest[k] != x && pos(x) <= pos(rest[k]) {
        RemoveHas(before, x, rest[k]);
        FrontHas(q, list[..n], rest[k]);
        var j :| 0 <= j < n && list[j] == rest[k];
      }
      OrderedBefore(rest, x, pos);
    }
  }

  lemma {:induction false} BackInOrder<T>(q: seq<T>, list: seq<T>, pos: T -> int)
    requires Sorting.Ordered(list, pos)
    ensures NoRepeats(Back(q, list)) && Sorting.Ordered(Back(q, list), pos)
    decreases |list|
  {
    hide Remove, NoRepeats, Sorting.Ordered;
    NothingInOrder(pos);
    if list != [] {
      var n := |list| - 1;
      var x, before := list[n], Back(q, list[..n]);
      var rest := Remove(before, x);
      OrderedInit(list, pos);
      BackInOrder(q, list[..n], pos);
      RemoveKeeps(before, x, pos);
      forall k | 0 <= k < |rest| ensures rest[k] != x && pos(rest[k]) <= pos(x) {
        RemoveHas(before, x, rest[k]);
        BackHas(q, list[..n], rest[k]);
        var j :| 0 <= j < n && list[j] == rest[k];
      }
      OrderedAfter(rest, x, pos);
    }
  }

  lemma OrderedInit<T>(s: seq<T>, pos: T -> int)
    requires Sorting.Ordered(s, pos) && s != []
    ensures Sorting.Ordered(s[..|s| - 1], pos)
    ensures forall i | 0 <= i < |s| - 1 :: pos(s[i]) <= pos(s[|s| - 1])
  {
  }

  lemma FrontIsListing<T>(q: seq<T>, list: seq<T>, pos: T -> int)
    requires Descending(list, pos)
    ensures Listing(pos, q, list, Front(q, list))
  {
    hide Front, NoRepeats, Sorting.Ordered, Descending;
    FrontInOrder(q, list, pos);
    var r := Front(q, list);
    forall i | 0 <= i < |r| ensures r[i] in q && r[i] in list {
      FrontHas(q, list, r[i]);
    }
    forall i | 0 <= i < |q| && q[i] in list ensures q[i] in r {
      FrontHas(q, list, q[i]);
    }
  }

  lemma BackIsListing<T>(q: seq<T>, list: seq<T>, pos: T -> int)
    requires Sorting.Ordered(list, pos)
    ensures Listing(pos, q, list, Back(q, list))
  {
    hide Back, NoRepeats, Sorting.Ordered;
    BackInOrder(q, list, pos);
    var r := Back(q, list);
    forall i | 0 <= i < |r| ensures r[i] in q && r[i] in list {
      BackHas(q, list, r[i]);
    }
    forall i | 0 <= i < |q| && q[i] in list ensures q[i] in r {
      BackHas(q, list, q[i]);
    }
  }

  /** A list in strictly ascending order is determined by its elements. */
  lemma {:induction false} StrictSame<T>(a: seq<T>, b: seq<T>, pos: T -> int)
    requires Sorting.Strict(a, pos) && Sorting.Strict(b, pos)
    requires forall i | 0 <= i < |a| :: a[i] in b
    requires forall i | 0 <= i < |b| :: b[i] in a
    ensures a == b
    decreases |a|
  {
    if b != [] {
      assert b[0] in a;
    }
    if a != [] {
      assert a[0] in b;
      assert a == [a[0]] + a[1..] && b == [b[0]] + b[1..];
      forall i | 0 <= i < |a[1..]| ensures a[1..][i] in b[1..] {
        assert a[1..][i] == a[i + 1] && a[i + 1] in b;
      }
      forall i | 0 <= i < |b[1..]| ensures b[1..][i] in a[1..] {
        assert b[1..][i] == b[i + 1] && b[i + 1] in a;
      }
      StrictSame(a[1..], b[1..], pos);
    }
  }

  /** A listing is in the queue's order if the cached positions are, and only then when they differ. */
  lemma ListingIsPick<T>(pos: T -> int, q: seq<T>, list: seq<T>, r: seq<T>)
    requires NoRepeats(q) && Listing(pos, q, list, r)
    ensures Orders(pos, q, list) ==> r == Pick(q, list, true)
    ensures Apart(pos, q, list) && r == Pick(q, list, true) ==> Orders(pos, q, list)
  {
    hide Pick;
    var p := Pick(q, list, true);
    forall i | 0 <= i < |r| ensures r[i] in p {
      PickHas(q, list, true, r[i]);
    }
    forall i | 0 <= i < |p| ensures p[i] in r {
      PickHas(q, list, true, p[i]);
    }
    if Orders(pos, q, list) {
      forall i, j | 0 <= i < j < |r| ensures pos(r[i]) < pos(r[j]) {
        assert r[i] in p && r[j] in p;
        var m :| 0 <= m < |p| && p[m] == r[i];
        var n :| 0 <= n < |p| && p[n] == r[j];
      }
      StrictSame(r, p, pos);
    }
  }

  /** queue_top for any list in descending order of the cached positions: the listed torrents in
      ascending order of these, then the others in theirs. The listed ones keep the order they have
      in the queue if, and with no two equal positions only if, the cached positions have it. */
  lemma TopKeepsOrder<T>(q: seq<T>, list: seq<T>, pos: T -> int)
    requires NoRepeats(q) && Descending(list, pos)
    ensures TopAll(q, list) == Front(q, list) + Pick(q, list, false)
    ensures Listing(pos, q, list, Front(q, list))
    ensures Orders(pos, q, list) ==> TopAll(q, list) == Pick(q, list, true) + Pick(q, list, false)
    ensures Apart(pos, q, list) && TopAll(q, list) == Pick(q, list, true) + Pick(q, list, false)
        ==> Orders(pos, q, list)
  {
    hide TopAll, Front, Pick, Listing, Orders, Apart;
    TopAllIs(q, list);
    FrontIsListing(q, list, pos);
    ListingIsPick(pos, q, list, Front(q, list));
    if TopAll(q, list) == Pick(q, list, true) + Pick(q, list, false) {
      SameRest(Front(q, list), Pick(q, list, true), Pick(q, list, false));
    }
  }

  lemma SameRest<T>(a: seq<T>, b: seq<T>, c: seq<T>)
    requires a + c == b + c
    ensures a == b
  {
    assert |a + c| == |a| + |c| && |b + c| == |b| + |c|;
    assert a == (a + c)[..|a|] == (b + c)[..|b|] == b;
  }

  lemma BottomKeepsOrder<T>(q: seq<T>, list: seq<T>, pos: T -> int)
    requires NoRepeats(q) && Sorting.Ordered(list, pos)
    ensures BottomAll(q, list) == Pick(q, list, false) + Back(q, list)
    ensures Listing(pos, q, list, Back(q, list))
    ensures Orders(pos, q, list) ==> BottomAll(q, list) == Pick(q, list, false) + Pick(q, list, true)
    ensures Apart(pos, q, list) && BottomAll(q, list) == Pick(q, list, false) + Pick(q, list, true)
        ==> Orders(pos, q, list)
  {
    hide BottomAll, Back, Pick, Listing, Orders, Apart;
    BottomAllIs(q, list);
    BackIsListing(q, list, pos);
    ListingIsPick(pos, q, list, Back(q, list));
    if BottomAll(q, list) == Pick(q, list, false) + Pick(q, list, true) {
      DropFront(Pick(q, list, false), Back(q, list));
      DropFront(Pick(q, list, false), Pick(q, list, true));
    }
  }

  // ---------------------------------------------------------------- queue_up

  lemma {:induction false} PositionIs<T>(q: seq<T>, i: nat)
    requires NoRepeats(q) && i < |q|
    ensures Position(q, q[i]) == i
    decreases |q|
  {
    if i > 0 {
      assert q[1..][i - 1] == q[i];
      forall j, k | 0 <= j < k < |q[1..]| ensures q[1..][j] != q[1..][k] {
        assert q[1..][j] == q[j + 1] && q[1..][k] == q[k + 1];
      }
      PositionIs(q[1..], i - 1);
    }
  }

  function UpAll<T(==)>(q: seq<T>, list: seq<T>): seq<T>
    decreases |list|
  {
    if list == [] then q else MoveUp(UpAll(q, list[..|list| - 1]), list[|list| - 1])
  }

  /** Where the torrent at position i goes if nothing stops it: up by one for every time it is
      listed, and no further than the top. */
  function Landing<T(==)>(q: seq<T>, list: seq<T>, i: nat): (l: nat)
    requires i < |q|
    ensures l <= i
  {
    if multiset(list)[q[i]] >= i then 0 else i - multiset(list)[q[i]]
  }

  /** The landing places of the listed ones of the first n torrents are in the queue's order. */
  ghost predicate SpacedTo<T>(q: seq<T>, list: seq<T>, n: nat)
    requires n <= |q|
  {
    forall i, j | 0 <= i < j < n && q[i] in list && q[j] in list :: Landing(q, list, i) < Landing(q, list, j)
  }

  ghost predicate Spaced<T>(q: seq<T>, list: seq<T>) {
    SpacedTo(q, list, |q|)
  }

  /** The queued torrents of the list come in the queue's order, with repetitions, and with torrents
      that are not queued anywhere between them. */
  ghost predicate Downwards<T>(q: seq<T>, list: seq<T>) {
    forall i, j | 0 <= i < j < |list| && list[i] in q && list[j] in q :: Position(q, list[i]) <= Position(q, list[j])
  }

  /** x moved up m times. */
  function UpBy<T(==)>(q: seq<T>, x: T, m: nat): seq<T> {
    if m == 0 then q else MoveUp(UpBy(q, x, m - 1), x)
  }

  /** Each of the first n torrents of q moved up as often as it is listed, the highest first. */
  function Sweep<T(==)>(q: seq<T>, list: seq<T>, n: nat): seq<T>
    requires n <= |q|
  {
    if n == 0 then q else UpBy(Sweep(q, list, n - 1), q[n - 1], multiset(list)[q[n - 1]])
  }

  /** The torrent at position p taken out and put back at position l. */
  function Shifted<T>(q: seq<T>, p: nat, l: nat): (r: seq<T>)
    requires l <= p < |q|
    ensures |r| == |q|
  {
    q[..l] + [q[p]] + (q[l..p] + q[p + 1..])
  }

  lemma ShiftedAt<T>(q: seq<T>, p: nat, l: nat, k: nat)
    requires l <= p < |q| && k < |q|
    ensures Shifted(q, p, l)[k] == if k < l || k > p then q[k] else if k == l then q[p] else q[k - 1]
  {
  }

  lemma ShiftedDistinct<T>(q: seq<T>, p: nat, l: nat)
    requires NoRepeats(q) && l <= p < |q|
    ensures NoRepeats(Shifted(q, p, l))
  {
    hide Shifted;
    var r := Shifted(q, p, l);
    forall i, j | 0 <= i < j < |r| ensures r[i] != r[j] {
      ShiftedAt(q, p, l, i);
      ShiftedAt(q, p, l, j);
    }
  }

  lemma ShiftOnce<T>(q: seq<T>, p: nat, l: nat)
    requires NoRepeats(q) && 0 < l <= p < |q|
    ensures MoveUp(Shifted(q, p, l), q[p]) == Shifted(q, p, l - 1)
  {
    hide Shifted, Position, NoRepeats;
    var r, s := Shifted(q, p, l), Shifted(q, p, l - 1);
    ShiftedAt(q, p, l, l);
    ShiftedDistinct(q, p, l);
    PositionIs(r, l);
    var up := MoveUp(r, q[p]);
    forall k | 0 <= k < |q| ensures up[k] == s[k] {
      ShiftedAt(q, p, l, k);
      ShiftedAt(q, p, l, l - 1);
      ShiftedAt(q, p, l - 1, k);
    }
  }

  lemma {:induction false} UpByShifts<T>(q: seq<T>, p: nat, m: nat)
    requires NoRepeats(q) && p < |q|
    ensures UpBy(q, q[p], m) == Shifted(q, p, if m >= p then 0 else p - m)
    decreases m
  {
    hide Shifted, Position, NoRepeats;
    if m == 0 {
      NoShift(q, p);
    } else {
      UpByShifts(q, p, m - 1);
      if m - 1 < p {
        ShiftOnce(q, p, p - m + 1);
      } else {
        ShiftedAt(q, p, 0, 0);
        ShiftedDistinct(q, p, 0);
        PositionIs(Shifted(q, p, 0), 0);
      }
    }
  }

  lemma NoShift<T>(q: seq<T>, p: nat)
    requires p < |q|
    ensures Shifted(q, p, p) == q
  {
    hide Shifted;
    forall k | 0 <= k < |q| ensures Shifted(q, p, p)[k] == q[k] {
      ShiftedAt(q, p, p, k);
    }
  }

  lemma {:induction false} UpAllHas<T>(q: seq<T>, list: seq<T>, x: T)
    ensures x in UpAll(q, list) <==> x in q
    decreases |list|
  {
    hide Position;
    if list != [] {
      var r := UpAll(q, list[..|list| - 1]);
      UpAllHas(q, list[..|list| - 1], x);
      var p := Position(r, list[|list| - 1]);
      var s := MoveUp(r, list[|list| - 1]);
      if p > 0 {
        assert s[p] == r[p - 1] && s[p - 1] == r[p];
        assert forall k | 0 <= k < |r| && k != p && k != p - 1 :: s[k] == r[k];
      }
    }
  }

  lemma {:induction false} SweepKeeps<T>(q: seq<T>, list: seq<T>, n: nat)
    requires NoRepeats(q) && n <= |q|
    ensures var r := Sweep(q, list, n);
            |r| == |q| && NoRepeats(r) && forall k | n <= k < |q| :: r[k] == q[k]
    decreases n
  {
    hide NoRepeats, Shifted, UpBy;
    if n > 0 {
      SweepKeeps(q, list, n - 1);
      var r := Sweep(q, list, n - 1);
      var l := Landing(q, list, n - 1);
      UpByShifts(r, n - 1, multiset(list)[q[n - 1]]);
      ShiftedDistinct(r, n - 1, l);
      forall k | n <= k < |q| ensures Shifted(r, n - 1, l)[k] == q[k] {
        ShiftedAt(r, n - 1, l, k);
      }
    }
  }

  /** The next torrent goes from its old place straight to its landing place. */
  lemma SweepStep<T>(q: seq<T>, list: seq<T>, n: nat)
    requires NoRepeats(q) && n < |q|
    ensures var r := Sweep(q, list, n);
            |r| == |q| && r[n] == q[n] && Sweep(q, list, n + 1) == Shifted(r, n, Landing(q, list, n))
  {
    hide NoRepeats, Shifted, UpBy;
    SweepKeeps(q, list, n);
    UpByShifts(Sweep(q, list, n), n, multiset(list)[q[n]]);
  }

  lemma {:induction false} SweepSame<T>(q: seq<T>, a: seq<T>, b: seq<T>, n: nat)
    requires n <= |q| && forall k | 0 <= k < n :: multiset(a)[q[k]] == multiset(b)[q[k]]
    ensures Sweep(q, a, n) == Sweep(q, b, n)
    decreases n
  {
    hide UpBy;
    if n > 0 {
      SweepSame(q, a, b, n - 1);
    }
  }

  lemma {:induction false} SweepRest<T>(q: seq<T>, list: seq<T>, n: nat, m: nat)
    requires n <= m <= |q| && forall k | n <= k < m :: q[k] !in list
    ensures Sweep(q, list, m) == Sweep(q, list, n)
    decreases m
  {
    if n < m {
      SweepRest(q, list, n, m - 1);
      assert multiset(list)[q[m - 1]] == 0;
    }
  }

  lemma NotLower<T>(q: seq<T>, list: seq<T>, k: nat)
    requires NoRepeats(q) && Downwards(q, list) && list != [] && list[|list| - 1] in q
    requires Position(q, list[|list| - 1]) < k < |q|
    ensures q[k] !in list
  {
    hide Position;
    PositionIs(q, k);
    forall i | 0 <= i < |list| ensures list[i] != q[k] {
      if i < |list| - 1 && list[i] in q {
        assert Position(q, list[i]) <= Position(q, list[|list| - 1]);
      }
    }
  }

  /** What is left to do is one more move of the lowest torrent listed so far. */
  lemma SweepMore<T>(q: seq<T>, done: seq<T>, x: T)
    requires NoRepeats(q) && Downwards(q, done + [x]) && x in q
    ensures Sweep(q, done + [x], |q|) == MoveUp(Sweep(q, done, |q|), x)
  {
    hide Position, NoRepeats, MoveUp, Downwards;
    var list := done + [x];
    var p := Position(q, x);
    forall k | p < k < |q| ensures q[k] !in list && q[k] !in done {
      NotLower(q, list, k);
    }
    SweepRest(q, list, p + 1, |q|);
    SweepRest(q, done, p + 1, |q|);
    forall k | 0 <= k < p ensures multiset(list)[q[k]] == multiset(done)[q[k]] {
      EarlierDiffers(q, x, k);
    }
    SweepSame(q, list, done, p);
    assert multiset(list)[x] == multiset(done)[x] + 1;
  }

  lemma EarlierDiffers<T>(q: seq<T>, x: T, k: nat)
    requires NoRepeats(q) && x in q && k < Position(q, x)
    ensures q[k] != x
  {
  }

  /** Handling a list in the queue's order is one sweep down the queue. */
  lemma {:induction false} UpAllSweeps<T>(q: seq<T>, list: seq<T>)
    requires NoRepeats(q) && Downwards(q, list)
    ensures UpAll(q, list) == Sweep(q, list, |q|)
    decreases |list|
  {
    hide Position, NoRepeats, Sweep;
    if list == [] {
      SweepRest(q, list, 0, |q|);
      SweepNothing(q, list);
    } else {
      var n := |list| - 1;
      var done, x := list[..n], list[n];
      assert list == done + [x];
      DownwardsFront(q, done, x);
      UpAllSweeps(q, done);
      if x in q {
        SweepMore(q, done, x);
      } else {
        UpAllHas(q, done, x);
        forall k | 0 <= k < |q| ensures multiset(list)[q[k]] == multiset(done)[q[k]] {
          assert q[k] != x;
        }
        SweepSame(q, list, done, |q|);
      }
    }
  }

  lemma SweepNothing<T>(q: seq<T>, list: seq<T>)
    ensures Sweep(q, list, 0) == q
  {
  }

  lemma DownwardsFront<T>(q: seq<T>, done: seq<T>, x: T)
    requires Downwards(q, done + [x])
    ensures Downwards(q, done)
  {
    hide Position;
    var list := done + [x];
    forall i, j | 0 <= i < j < |done| && done[i] in q && done[j] in q
      ensures Position(q, done[i]) <= Position(q, done[j])
    {
      assert list[i] == done[i] && list[j] == done[j];
    }
  }

  // ---------------------------------------------------------------- when the order is kept

  /** Swapping a listed torrent with anything keeps the order of those not listed. */
  lemma SwapKeepsOthers<T>(r: seq<T>, p: nat, list: seq<T>)
    requires 0 < p < |r| && r[p] in list
    ensures Pick(r[p := r[p - 1]][p - 1 := r[p]], list, false) == Pick(r, list, false)
  {
    hide Pick;
    var x, y := r[p], r[p - 1];
    var front, back := r[..p - 1], r[p + 1..];
    assert r == front + ([y] + [x]) + back;
    assert r[p := y][p - 1 := x] == front + ([x] + [y]) + back;
    PickAround(front, [y] + [x], back, list, false);
    PickAround(front, [x] + [y], back, list, false);
    PickConcat([y], [x], list, false);
    PickConcat([x], [y], list, false);
    PickNone([x], list, false);
    NilLeft(Pick([y], list, false));
    NilRight(Pick([y], list, false));
  }

  lemma PickAround<T>(front: seq<T>, middle: seq<T>, back: seq<T>, list: seq<T>, listed: bool)
    ensures Pick(front + middle + back, list, listed)
         == Pick(front, list, listed) + Pick(middle, list, listed) + Pick(back, list, listed)
  {
    hide Pick;
    PickConcat(front + middle, back, list, listed);
    PickConcat(front, middle, list, listed);
  }

  /** queue_up keeps the order of the torrents that are not listed, whatever the order of the list. */
  lemma {:induction false} UpKeepsOthers<T>(q: seq<T>, done: seq<T>, list: seq<T>)
    requires forall i | 0 <= i < |done| :: done[i] in list
    ensures Pick(UpAll(q, done), list, false) == Pick(q, list, false)
    decreases |done|
  {
    hide Pick, Position;
    if done != [] {
      var n := |done| - 1;
      UpKeepsOthers(q, done[..n], list);
      var r := UpAll(q, done[..n]);
      if Position(r, done[n]) > 0 {
        SwapKeepsOthers(r, Position(r, done[n]), list);
      }
    }
  }

  /** x is ahead of y. */
  ghost predicate Ahead<T>(q: seq<T>, x: T, y: T) {
    exists i, j :: 0 <= i < j < |q| && q[i] == x && q[j] == y
  }

  lemma PickAhead<T>(q: seq<T>, list: seq<T>, i: nat, j: nat)
    requires i < j < |q| && q[i] in list && q[j] in list
    ensures Ahead(Pick(q, list, true), q[i], q[j])
  {
    hide Pick;
    var front, back := Pick(q[..j], list, true), Pick(q[j..], list, true);
    assert q == q[..j] + q[j..];
    PickConcat(q[..j], q[j..], list, true);
    assert q[..j][i] == q[i] && q[j..][0] == q[j];
    PickHas(q[..j], list, true, q[i]);
    PickHas(q[j..], list, true, q[j]);
    var m :| 0 <= m < |front| && front[m] == q[i];
    var n :| 0 <= n < |back| && back[n] == q[j];
    assert (front + back)[m] == q[i] && (front + back)[|front| + n] == q[j];
  }

  lemma AheadInPick<T>(q: seq<T>, list: seq<T>, x: T, y: T)
    requires Ahead(q, x, y) && x in list && y in list
    ensures Ahead(Pick(q, list, true), x, y)
  {
    hide Pick;
    var i, j :| 0 <= i < j < |q| && q[i] == x && q[j] == y;
    PickAhead(q, list, i, j);
  }

  lemma NotBothAhead<T>(q: seq<T>, x: T, y: T)
    requires NoRepeats(q) && Ahead(q, x, y)
    ensures !Ahead(q, y, x)
  {
  }

  /** Only y's own moves can bring y back ahead of x. */
  lemma ShiftAhead<T>(q: seq<T>, p: nat, l: nat, x: T, y: T)
    requires l <= p < |q| && Ahead(q, x, y) && q[p] != y
    ensures Ahead(Shifted(q, p, l), x, y)
  {
    hide Shifted;
    var i, j :| 0 <= i < j < |q| && q[i] == x && q[j] == y;
    var m := if i == p then l else if l <= i < p then i + 1 else i;
    var n := if l <= j < p then j + 1 else j;
    ShiftedAt(q, p, l, m);
    ShiftedAt(q, p, l, n);
  }

  lemma {:induction false} SweepAhead<T>(q: seq<T>, list: seq<T>, n: nat, m: nat, x: T, y: T)
    requires NoRepeats(q) && n <= m <= |q| && Ahead(Sweep(q, list, n), x, y)
    requires forall k | n <= k < m :: q[k] != y
    ensures Ahead(Sweep(q, list, m), x, y)
    decreases m
  {
    hide NoRepeats, Ahead, Sweep, Shifted;
    if n < m {
      SweepAhead(q, list, n, m - 1, x, y);
      SweepStep(q, list, m - 1);
      ShiftAhead(Sweep(q, list, m - 1), m - 1, Landing(q, list, m - 1), x, y);
    }
  }

  /** k is behind the landing places of the listed ones of the first n torrents. */
  ghost predicate PastLandings<T>(q: seq<T>, list: seq<T>, n: nat, k: int)
    requires n <= |q|
  {
    forall i | 0 <= i < n && q[i] in list :: Landing(q, list, i) < k
  }

  /** After the first n torrents: the listed ones are at their landing places, none is behind the
      last of these, and their order is as before. */
  ghost predicate Landed<T>(q: seq<T>, list: seq<T>, n: nat, r: seq<T>)
    requires n <= |q|
  {
    && |r| == |q|
    && (forall i | 0 <= i < n && q[i] in list :: r[Landing(q, list, i)] == q[i])
    && (forall k | 0 <= k < n && PastLandings(q, list, n, k) :: r[k] !in list)
    && Pick(r, list, true) == Pick(q, list, true)
  }

  lemma ShiftKeepsPick<T>(q: seq<T>, p: nat, l: nat, list: seq<T>)
    requires l <= p < |q| && q[p] in list && forall k | l <= k < p :: q[k] !in list
    ensures Pick(Shifted(q, p, l), list, true) == Pick(q, list, true)
  {
    hide Pick;
    var front, between, back := q[..l], q[l..p], q[p + 1..];
    assert q == front + (between + [q[p]]) + back;
    assert Shifted(q, p, l) == front + ([q[p]] + between) + back;
    PickAround(front, between + [q[p]], back, list, true);
    PickAround(front, [q[p]] + between, back, list, true);
    PickConcat(between, [q[p]], list, true);
    PickConcat([q[p]], between, list, true);
    PickNone(between, list, true);
    NilLeft(Pick([q[p]], list, true));
    NilRight(Pick([q[p]], list, true));
  }

  lemma LandStep<T>(q: seq<T>, list: seq<T>, n: nat, r: seq<T>)
    requires n < |q| && q[n] in list && SpacedTo(q, list, n + 1) && Landed(q, list, n, r) && r[n] == q[n]
    ensures Landed(q, list, n + 1, Shifted(r, n, Landing(q, list, n)))
  {
    hide Landing, Shifted, Pick;
    var l := Landing(q, list, n);
    var s := Shifted(r, n, l);
    forall k | l <= k < n ensures r[k] !in list {
      assert PastLandings(q, list, n, k);
    }
    ShiftKeepsPick(r, n, l, list);
    forall i | 0 <= i < n + 1 && q[i] in list ensures s[Landing(q, list, i)] == q[i] {
      ShiftedAt(r, n, l, Landing(q, list, i));
    }
    forall k | 0 <= k < n + 1 && PastLandings(q, list, n + 1, k) ensures s[k] !in list {
      assert l < k;
      ShiftedAt(r, n, l, k);
    }
  }

  lemma {:induction false} SweepLands<T>(q: seq<T>, list: seq<T>, n: nat)
    requires NoRepeats(q) && n <= |q| && SpacedTo(q, list, n)
    ensures Landed(q, list, n, Sweep(q, list, n))
    decreases n
  {
    hide NoRepeats, Sweep, Shifted, Landing, Pick;
    if n == 0 {
      SweepNothing(q, list);
    } else {
      SweepLands(q, list, n - 1);
      SweepKeeps(q, list, n - 1);
      SweepStep(q, list, n - 1);
      var r := Sweep(q, list, n - 1);
      if q[n - 1] in list {
        LandStep(q, list, n - 1, r);
      } else {
        SweepRest(q, list, n - 1, n);
        forall k | 0 <= k < n && PastLandings(q, list, n, k) ensures r[k] !in list {
          assert PastLandings(q, list, n - 1, k);
        }
      }
    }
  }

  lemma {:induction false} FirstUnspaced<T>(q: seq<T>, list: seq<T>, n: nat) returns (j: nat)
    requires n <= |q| && !SpacedTo(q, list, n)
    ensures j < n && SpacedTo(q, list, j) && !SpacedTo(q, list, j + 1)
    decreases n
  {
    hide Landing;
    if SpacedTo(q, list, n - 1) {
      j := n - 1;
    } else {
      j := FirstUnspaced(q, list, n - 1);
    }
  }

  lemma UnspacedPair<T>(q: seq<T>, list: seq<T>, j: nat) returns (i: nat)
    requires j < |q| && SpacedTo(q, list, j) && !SpacedTo(q, list, j + 1)
    ensures i < j && q[i] in list && q[j] in list && Landing(q, list, i) >= Landing(q, list, j)
  {
    hide Landing;
    i :| 0 <= i < j && q[i] in list && q[j] in list && Landing(q, list, i) >= Landing(q, list, j);
  }

  lemma LandedAt<T>(q: seq<T>, list: seq<T>, n: nat, r: seq<T>, i: nat)
    requires i < n <= |q| && q[i] in list && Landed(q, list, n, r)
    ensures |r| == |q| && Landing(q, list, i) <= i && r[Landing(q, list, i)] == q[i]
  {
    hide Landing;
  }

  /** The first torrent that has no room to land goes past a listed one above it. */
  lemma Overtakes<T>(q: seq<T>, list: seq<T>, j: nat) returns (i: nat)
    requires NoRepeats(q) && j < |q| && SpacedTo(q, list, j) && !SpacedTo(q, list, j + 1)
    ensures i < j && q[i] in list && q[j] in list
    ensures Ahead(Sweep(q, list, j + 1), q[j], q[i])
  {
    hide NoRepeats, Sweep, Shifted, Landing, Landed, SpacedTo;
    i := UnspacedPair(q, list, j);
    SweepLands(q, list, j);
    SweepStep(q, list, j);
    var r := Sweep(q, list, j);
    LandedAt(q, list, j, r, i);
    var a, b := Landing(q, list, i), Landing(q, list, j);
    ShiftedAt(r, j, b, b);
    ShiftedAt(r, j, b, a + 1);
  }

  lemma LosesOrder<T>(q: seq<T>, list: seq<T>)
    requires NoRepeats(q) && !Spaced(q, list)
    ensures Pick(Sweep(q, list, |q|), list, true) != Pick(q, list, true)
  {
    hide NoRepeats, Sweep, SpacedTo, Pick, Ahead;
    var j := FirstUnspaced(q, list, |q|);
    var i := Overtakes(q, list, j);
    forall k | j < k < |q| ensures q[k] != q[i] {
      DistinctAt(q, i, k);
    }
    SweepAhead(q, list, j + 1, |q|, q[j], q[i]);
    AheadInPick(Sweep(q, list, |q|), list, q[j], q[i]);
    PickAhead(q, list, i, j);
    PickDistinct(q, list, true);
    NotBothAhead(Pick(q, list, true), q[i], q[j]);
  }

  lemma DistinctAt<T>(q: seq<T>, i: int, k: int)
    requires NoRepeats(q) && 0 <= i < k < |q|
    ensures q[i] != q[k]
  {
  }

  /** queue_up for any list that is in the queue's order, with repetitions and with torrents that
      are not queued: the listed torrents keep their order if and only if their landing places are
      in that order, and then that is where each of them is. */
  lemma UpKeepsOrderIff<T>(q: seq<T>, list: seq<T>)
    requires NoRepeats(q) && Downwards(q, list)
    ensures Pick(UpAll(q, list), list, true) == Pick(q, list, true) <==> Spaced(q, list)
    ensures Spaced(q, list) ==> Landed(q, list, |q|, UpAll(q, list))
    ensures Pick(UpAll(q, list), list, false) == Pick(q, list, false)
  {
    hide NoRepeats, Downwards, UpAll, Sweep, Pick, SpacedTo, Landed;
    UpAllSweeps(q, list);
    UpKeepsOthers(q, list, list);
    if Spaced(q, list) {
      SweepLands(q, list, |q|);
      LandedKeeps(q, list, UpAll(q, list));
    } else {
      LosesOrder(q, list);
    }
  }

  lemma LandedKeeps<T>(q: seq<T>, list: seq<T>, r: seq<T>)
    requires Landed(q, list, |q|, r)
    ensures Pick(r, list, true) == Pick(q, list, true)
  {
  }

  ghost predicate BothAtTop<T>(q: seq<T>, list: seq<T>) {
    |q| >= 2 && q[0] in list && q[1] in list
  }

  lemma {:induction false} ListedOnce<T>(list: seq<T>, x: T)
    requires NoRepeats(list)
    ensures multiset(list)[x] == if x in list then 1 else 0
    decreases |list|
  {
    if list != [] {
      var n := |list| - 1;
      assert list == list[..n] + [list[n]];
      ListedOnce(list[..n], x);
      if x == list[n] {
        assert x !in list[..n];
      }
    }
  }

  /** For a list without repetitions the only danger is at the very top. */
  lemma SpacedIffNotTop<T>(q: seq<T>, list: seq<T>)
    requires NoRepeats(list)
    ensures Spaced(q, list) <==> !BothAtTop(q, list)
  {
    hide NoRepeats;
    forall i | 0 <= i < |q| && q[i] in list ensures Landing(q, list, i) == if i == 0 then 0 else i - 1 {
      ListedOnce(list, q[i]);
    }
    if BothAtTop(q, list) {
      assert Landing(q, list, 0) == Landing(q, list, 1) == 0;
    }
  }

  // ---------------------------------------------------------------- a list in any order

  /** There is room for every listed torrent even if none above it has moved yet. */
  ghost predicate Roomy<T>(q: seq<T>, list: seq<T>) {
    forall i, j | 0 <= i < j < |q| && q[i] in list && q[j] in list :: i < Landing(q, list, j)
  }

  /** Each listed torrent has moved up as often as it is in `done`, and nothing has gone past it. */
  ghost predicate Climbed<T>(q: seq<T>, list: seq<T>, done: seq<T>, r: seq<T>) {
    && |r| == |q| && NoRepeats(r)
    && (forall k | 0 <= k < |r| :: r[k] in q)
    && (forall i | 0 <= i < |q| && q[i] in list :: r[Landing(q, done, i)] == q[i])
    && Pick(r, list, true) == Pick(q, list, true)
  }

  lemma LandingMore<T>(q: seq<T>, done: seq<T>, x: T, i: nat)
    requires i < |q|
    ensures var l := Landing(q, done, i);
            Landing(q, done + [x], i) == if q[i] == x && l > 0 then l - 1 else l
  {
  }

  lemma LandingOrder<T>(q: seq<T>, done: seq<T>, list: seq<T>, i: nat)
    requires i < |q| && multiset(done)[q[i]] <= multiset(list)[q[i]]
    ensures Landing(q, list, i) <= Landing(q, done, i)
  {
  }

  /** What is above a listed torrent that has yet to move is not listed. */
  lemma AboveIsFree<T>(q: seq<T>, list: seq<T>, done: seq<T>, x: T, r: seq<T>, i: nat)
    requires NoRepeats(q) && Roomy(q, list) && Climbed(q, list, done, r) && i < |q| && q[i] == x && x in list
    requires forall y :: multiset(done + [x])[y] <= multiset(list)[y]
    requires 0 < Landing(q, done, i)
    ensures r[Landing(q, done, i) - 1] !in list
  {
    hide Landing, Pick, NoRepeats;
    var p := Landing(q, done, i);
    var y := r[p - 1];
    if y in list {
      assert y in q;
      var j :| 0 <= j < |q| && q[j] == y;
      SameplaceIsSame(r, Landing(q, done, j), p - 1);
      LandingMore(q, done, x, i);
      LandingOrder(q, done + [x], list, i);
      MoreCount(done, x, y);
      LandingOrder(q, done, list, j);
    }
  }

  lemma SameplaceIsSame<T>(r: seq<T>, a: int, b: int)
    requires NoRepeats(r) && 0 <= a < |r| && 0 <= b < |r| && r[a] == r[b]
    ensures a == b
  {
  }

  lemma MoreCount<T>(done: seq<T>, x: T, y: T)
    ensures multiset(done)[y] <= multiset(done + [x])[y]
  {
  }

  lemma LandingElsewhere<T>(q: seq<T>, done: seq<T>, x: T, i: nat)
    requires i < |q| && (q[i] != x || Landing(q, done, i) == 0)
    ensures Landing(q, done + [x], i) == Landing(q, done, i)
  {
  }

  lemma ClimbNowhere<T>(q: seq<T>, list: seq<T>, done: seq<T>, x: T, r: seq<T>)
    requires Climbed(q, list, done, r)
    requires forall i | 0 <= i < |q| && q[i] == x :: Landing(q, done, i) == 0
    ensures Climbed(q, list, done + [x], r)
  {
    hide Landing, Pick, NoRepeats;
    forall i | 0 <= i < |q| ensures Landing(q, done + [x], i) == Landing(q, done, i) {
      LandingElsewhere(q, done, x, i);
    }
  }

  lemma MoveUpIsShift<T>(r: seq<T>, p: nat)
    requires NoRepeats(r) && 0 < p < |r|
    ensures MoveUp(r, r[p]) == Shifted(r, p, p - 1)
  {
    hide MoveUp, Shifted;
    NoShift(r, p);
    ShiftOnce(r, p, p);
  }

  lemma ClimbOne<T>(q: seq<T>, list: seq<T>, done: seq<T>, x: T, r: seq<T>, i: nat)
    requires NoRepeats(q) && Climbed(q, list, done, r) && i < |q| && q[i] == x && x in list
    requires 0 < Landing(q, done, i) && r[Landing(q, done, i) - 1] !in list
    ensures Climbed(q, list, done + [x], MoveUp(r, x))
  {
    hide Landing, Pick, NoRepeats, MoveUp, Shifted;
    var p := Landing(q, done, i);
    var s := Shifted(r, p, p - 1);
    MoveUpIsShift(r, p);
    ShiftKeepsPick(r, p, p - 1, list);
    ShiftedDistinct(r, p, p - 1);
    forall k | 0 <= k < |s| ensures s[k] in q {
      ShiftedAt(r, p, p - 1, k);
    }
    forall j | 0 <= j < |q| && q[j] in list ensures s[Landing(q, done + [x], j)] == q[j] {
      LandingMore(q, done, x, j);
      var l := Landing(q, done, j);
      ShiftedAt(r, p, p - 1, if j == i then p - 1 else l);
      if j != i {
        DistinctAt(q, if i < j then i else j, if i < j then j else i);
      }
    }
  }

  lemma ClimbStep<T>(q: seq<T>, list: seq<T>, done: seq<T>, x: T, r: seq<T>)
    requires NoRepeats(q) && Roomy(q, list) && Climbed(q, list, done, r)
    requires forall y :: multiset(done + [x])[y] <= multiset(list)[y]
    ensures Climbed(q, list, done + [x], MoveUp(r, x))
  {
    hide Landing, Pick, NoRepeats, Roomy, Climbed, Position;
    if x !in q {
      AbsentStays(q, list, done, r, x);
      ClimbNowhere(q, list, done, x, r);
    } else {
      var i :| 0 <= i < |q| && q[i] == x;
      CountedIsListed(done, x, list);
      ClimberAt(q, list, done, r, i);
      forall j | 0 <= j < |q| && q[j] == x ensures j == i {
        SameplaceIsSame(q, i, j);
      }
      if Landing(q, done, i) == 0 {
        UpAtTop(r);
        ClimbNowhere(q, list, done, x, r);
      } else {
        AboveIsFree(q, list, done, x, r, i);
        ClimbOne(q, list, done, x, r, i);
      }
    }
  }

  lemma AbsentStays<T>(q: seq<T>, list: seq<T>, done: seq<T>, r: seq<T>, x: T)
    requires Climbed(q, list, done, r) && x !in q
    ensures MoveUp(r, x) == r
  {
    hide Landing, Pick;
    assert x !in r;
  }

  lemma CountedIsListed<T>(done: seq<T>, x: T, list: seq<T>)
    requires multiset(done + [x])[x] <= multiset(list)[x]
    ensures x in list
  {
    assert multiset(list)[x] > 0;
  }

  lemma ClimberAt<T>(q: seq<T>, list: seq<T>, done: seq<T>, r: seq<T>, i: nat)
    requires Climbed(q, list, done, r) && i < |q| && q[i] in list
    ensures |r| == |q| && r[Landing(q, done, i)] == q[i]
  {
    hide Landing, Pick;
  }

  lemma UpAtTop<T>(q: seq<T>)
    requires q != []
    ensures MoveUp(q, q[0]) == q
  {
  }

  lemma {:induction false} UpAllClimbs<T>(q: seq<T>, list: seq<T>, done: seq<T>)
    requires NoRepeats(q) && Roomy(q, list) && forall y :: multiset(done)[y] <= multiset(list)[y]
    ensures Climbed(q, list, done, UpAll(q, done))
    decreases |done|
  {
    hide Pick, NoRepeats, Roomy, MoveUp;
    if done != [] {
      var init, x := done[..|done| - 1], done[|done| - 1];
      assert done == init + [x];
      hide Climbed;
      forall y ensures multiset(init)[y] <= multiset(list)[y] {
        MoreCount(init, x, y);
      }
      UpAllClimbs(q, list, init);
      ClimbStep(q, list, init, x, UpAll(q, init));
    }
  }

  ghost predicate AtLandings<T>(q: seq<T>, list: seq<T>, r: seq<T>) {
    |r| == |q| && forall i | 0 <= i < |q| && q[i] in list :: r[Landing(q, list, i)] == q[i]
  }

  /** queue_up for a list in any order, whatever the cached positions: with room for every torrent
      the order of the selection is kept, and each torrent is at its landing place. */
  lemma UpKeepsOrderAnyway<T>(q: seq<T>, list: seq<T>)
    requires NoRepeats(q) && Roomy(q, list)
    ensures Pick(UpAll(q, list), list, true) == Pick(q, list, true) && AtLandings(q, list, UpAll(q, list))
    ensures Pick(UpAll(q, list), list, false) == Pick(q, list, false)
  {
    hide Landing, Pick, NoRepeats, Roomy, UpAll;
    UpAllClimbs(q, list, list);
    UpKeepsOthers(q, list, list);
  }

  // ---------------------------------------------------------------- the handlers

  /** The listed torrents the history knows, each with the position it last heard of. */
  function Known<T(==)>(hashes: seq<T>, cache: map<T, int>): seq<T>
    decreases |hashes|
  {
    if hashes == [] then []
    else
      var n := |hashes| - 1;
      Known(hashes[..n], cache) + (if hashes[n] in cache then [hashes[n]] else [])
  }

  function Cached<T(==)>(cache: map<T, int>): T -> int {
    x => if x in cache then cache[x] else 0
  }

  function CachedDown<T(==)>(cache: map<T, int>): T -> int {
    x => -Cached(cache)(x)
  }

  /** r is the listed torrents of q in ascending cached position, and then the others in theirs. */
  ghost predicate AtTop<T>(pos: T -> int, q: seq<T>, list: seq<T>, r: seq<T>) {
    var rest := Pick(q, list, false);
    |rest| <= |r| && r[|r| - |rest|..] == rest && Listing(pos, q, list, r[..|r| - |rest|])
  }

  /** r is the torrents that are not listed in their order, and then the listed ones of q in
      ascending cached position. */
  ghost predicate AtBottom<T>(pos: T -> int, q: seq<T>, list: seq<T>, r: seq<T>) {
    var rest := Pick(q, list, false);
    rest <= r && Listing(pos, q, list, r[|rest|..])
  }

  /** resolve_torrent_list, without the parsing of the message. */
  method Resolve<T(==)>(hashes: seq<T>, cache: map<T, int>) returns (known: seq<T>)
    ensures known == Known(hashes, cache)
  {
    known := [];
    for i := 0 to |hashes|
      invariant known == Known(hashes[..i], cache)
    {
      assert hashes[..i + 1][..i] == hashes[..i];
      if hashes[i] in cache {
        known := known + [hashes[i]];
      }
    }
    assert hashes[..|hashes|] == hashes;
  }

  /** The session, as far as its queue goes. `cache` is what the history last heard, which the
      queue's own moves do not refresh. */
  class Session<T(==)> {
    var queue: seq<T>

    constructor (queue: seq<T>)
      ensures this.queue == queue
    {
      this.queue := queue;
    }

    /** queue_top: the last in the cached order first. */
    method QueueTop(hashes: seq<T>, cache: map<T, int>) returns (count: nat)
      requires NoRepeats(queue)
      modifies this
      ensures count == |Known(hashes, cache)|
      ensures AtTop(Cached(cache), old(queue), Known(hashes, cache), queue)
      ensures Orders(Cached(cache), old(queue), Known(hashes, cache))
          ==> queue == Selected(old(queue), hashes, cache) + Others(old(queue), hashes, cache)
      ensures Apart(Cached(cache), old(queue), Known(hashes, cache))
           && queue == Selected(old(queue), hashes, cache) + Others(old(queue), hashes, cache)
          ==> Orders(Cached(cache), old(queue), Known(hashes, cache))
    {
      hide Pick, MoveTop, Sorting.Sort, Known, NoRepeats, Descending, Orders, Apart, Listing, AtTop;
      ghost var q := queue;
      var known := Resolve(hashes, cache);
      var ordered := Sorting.Sort(known, CachedDown(cache));
      for i := 0 to |ordered|
        invariant queue == TopAll(q, ordered[..i])
      {
        assert ordered[..i + 1][..i] == ordered[..i];
        queue := MoveTop(queue, ordered[i]);
      }
      assert ordered[..|ordered|] == ordered;
      SortedLength(known, ordered);
      SortedDown(known, cache);
      TopAsListed(q, known, ordered, Cached(cache));
      count := |ordered|;
    }

    /** queue_bottom: the first in the cached order first. */
    method QueueBottom(hashes: seq<T>, cache: map<T, int>) returns (count: nat)
      requires NoRepeats(queue)
      modifies this
      ensures count == |Known(hashes, cache)|
      ensures AtBottom(Cached(cache), old(queue), Known(hashes, cache), queue)
      ensures Orders(Cached(cache), old(queue), Known(hashes, cache))
          ==> queue == Others(old(queue), hashes, cache) + Selected(old(queue), hashes, cache)
      ensures Apart(Cached(cache), old(queue), Known(hashes, cache))
           && queue == Others(old(queue), hashes, cache) + Selected(old(queue), hashes, cache)
          ==> Orders(Cached(cache), old(queue), Known(hashes, cache))
    {
      hide Pick, MoveBottom, Sorting.Sort, Known, NoRepeats, Orders, Apart, Listing, AtBottom;
      ghost var q := queue;
      var known := Resolve(hashes, cache);
      var ordered := Sorting.Sort(known, Cached(cache));
      for i := 0 to |ordered|
        invariant queue == BottomAll(q, ordered[..i])
      {
        assert ordered[..i + 1][..i] == ordered[..i];
        queue := MoveBottom(queue, ordered[i]);
      }
      assert ordered[..|ordered|] == ordered;
      SortedLength(known, ordered);
      BottomAsListed(q, known, ordered, Cached(cache));
      count := |ordered|;
    }

    /** queue_up: the first in the cached order first. */
    method QueueUp(hashes: seq<T>, cache: map<T, int>) returns (count: nat)
      requires NoRepeats(queue)
      modifies this
      ensures count == |Known(hashes, cache)|
      ensures Others(queue, hashes, cache) == Others(old(queue), hashes, cache)
      ensures Orders(Cached(cache), old(queue), Known(hashes, cache)) ==>
        && (Selected(queue, hashes, cache) == Selected(old(queue), hashes, cache)
            <==> Spaced(old(queue), Known(hashes, cache)))
        && (Spaced(old(queue), Known(hashes, cache))
            ==> Landed(old(queue), Known(hashes, cache), |old(queue)|, queue))
      ensures Roomy(old(queue), Known(hashes, cache)) ==>
        && Selected(queue, hashes, cache) == Selected(old(queue), hashes, cache)
        && AtLandings(old(queue), Known(hashes, cache), queue)
    {
      hide Pick, MoveUp, Sorting.Sort, Known, NoRepeats, Orders, Spaced, Landed, Roomy, AtLandings;
      ghost var q := queue;
      var known := Resolve(hashes, cache);
      var ordered := Sorting.Sort(known, Cached(cache));
      for i := 0 to |ordered|
        invariant queue == UpAll(q, ordered[..i])
      {
        assert ordered[..i + 1][..i] == ordered[..i];
        queue := MoveUp(queue, ordered[i]);
      }
      assert ordered[..|ordered|] == ordered;
      SortedLength(known, ordered);
      UpAsListed(q, known, ordered, Cached(cache));
      count := |ordered|;
    }
  }

  ghost function Selected<T>(q: seq<T>, hashes: seq<T>, cache: map<T, int>): seq<T> {
    Pick(q, Known(hashes, cache), true)
  }

  ghost function Others<T>(q: seq<T>, hashes: seq<T>, cache: map<T, int>): seq<T> {
    Pick(q, Known(hashes, cache), false)
  }

  lemma SortedLength<T>(a: seq<T>, b: seq<T>)
    requires multiset(a) == multiset(b)
    ensures |a| == |b|
  {
    assert |multiset(a)| == |a| && |multiset(b)| == |b|;
  }

  lemma SortedDown<T>(list: seq<T>, cache: map<T, int>)
    ensures Descending(Sorting.Sort(list, CachedDown(cache)), Cached(cache))
  {
    hide Sorting.Sort;
    var pos, down, s := Cached(cache), CachedDown(cache), Sorting.Sort(list, CachedDown(cache));
    forall i, j | 0 <= i < j < |s| ensures pos(s[i]) >= pos(s[j]) {
      assert down(s[i]) <= down(s[j]);
    }
  }

  lemma SameMembers<T>(a: seq<T>, b: seq<T>, x: T)
    requires multiset(a) == multiset(b)
    ensures x in a <==> x in b
  {
    assert x in a <==> x in multiset(a);
    assert x in b <==> x in multiset(b);
  }

  lemma SameList<T>(q: seq<T>, a: seq<T>, b: seq<T>, listed: bool)
    requires multiset(a) == multiset(b)
    ensures Pick(q, a, listed) == Pick(q, b, listed)
  {
    hide Pick;
    forall i | 0 <= i < |q| ensures q[i] in a <==> q[i] in b {
      SameMembers(a, b, q[i]);
    }
    PickSame(q, a, b, listed);
  }

  lemma SameListing<T>(pos: T -> int, q: seq<T>, a: seq<T>, b: seq<T>, r: seq<T>)
    requires multiset(a) == multiset(b) && Listing(pos, q, a, r)
    ensures Listing(pos, q, b, r)
  {
    forall i | 0 <= i < |r| ensures r[i] in b {
      SameMembers(a, b, r[i]);
    }
    forall i | 0 <= i < |q| && q[i] in b ensures q[i] in r {
      SameMembers(a, b, q[i]);
    }
  }

  lemma TopAsListed<T>(q: seq<T>, known: seq<T>, ordered: seq<T>, pos: T -> int)
    requires NoRepeats(q) && multiset(known) == multiset(ordered) && Descending(ordered, pos)
    ensures AtTop(pos, q, known, TopAll(q, ordered))
    ensures Orders(pos, q, known) ==> TopAll(q, ordered) == Pick(q, known, true) + Pick(q, known, false)
    ensures Apart(pos, q, known) && TopAll(q, ordered) == Pick(q, known, true) + Pick(q, known, false)
        ==> Orders(pos, q, known)
  {
    hide NoRepeats, Descending, Listing, Pick, TopAll, Front;
    TopKeepsOrder(q, ordered, pos);
    SameList(q, known, ordered, true);
    SameList(q, known, ordered, false);
    SameListing(pos, q, ordered, known, Front(q, ordered));
    var top, rest := Front(q, ordered), Pick(q, known, false);
    DropFront(top, rest);
    TakeFront(top, rest);
  }

  lemma TakeFront<T>(a: seq<T>, b: seq<T>)
    ensures (a + b)[..|a|] == a
  {
  }

  lemma BottomAsListed<T>(q: seq<T>, known: seq<T>, ordered: seq<T>, pos: T -> int)
    requires NoRepeats(q) && multiset(known) == multiset(ordered) && Sorting.Ordered(ordered, pos)
    ensures AtBottom(pos, q, known, BottomAll(q, ordered))
    ensures Orders(pos, q, known) ==> BottomAll(q, ordered) == Pick(q, known, false) + Pick(q, known, true)
    ensures Apart(pos, q, known) && BottomAll(q, ordered) == Pick(q, known, false) + Pick(q, known, true)
        ==> Orders(pos, q, known)
  {
    hide NoRepeats, Sorting.Ordered, Listing, Pick, BottomAll, Back;
    BottomKeepsOrder(q, ordered, pos);
    SameList(q, known, ordered, true);
    SameList(q, known, ordered, false);
    SameListing(pos, q, ordered, known, Back(q, ordered));
    DropFront(Pick(q, known, false), Back(q, ordered));
  }

  lemma PositionAhead<T>(q: seq<T>, x: T, y: T)
    requires x in q && y in q && Position(q, x) < Position(q, y)
    ensures Ahead(q, x, y)
  {
  }

  /** Sorted by cached positions that have the queue's order, the list is in the queue's order. */
  lemma OrderedIsDownwards<T>(q: seq<T>, list: seq<T>, pos: T -> int)
    requires Sorting.Ordered(list, pos) && Orders(pos, q, list)
    ensures Downwards(q, list)
  {
    hide Position, Pick;
    forall i, j | 0 <= i < j < |list| && list[i] in q && list[j] in q
      ensures Position(q, list[i]) <= Position(q, list[j])
    {
      if Position(q, list[j]) < Position(q, list[i]) {
        PositionAhead(q, list[j], list[i]);
        AheadInPick(q, list, list[j], list[i]);
      }
    }
  }

  lemma SameSpaced<T>(q: seq<T>, a: seq<T>, b: seq<T>)
    requires multiset(a) == multiset(b)
    ensures Spaced(q, a) <==> Spaced(q, b)
  {
    forall i | 0 <= i < |q| ensures (q[i] in a <==> q[i] in b) && Landing(q, a, i) == Landing(q, b, i) {
      SameMembers(a, b, q[i]);
    }
  }

  lemma SameOrders<T>(pos: T -> int, q: seq<T>, a: seq<T>, b: seq<T>)
    requires multiset(a) == multiset(b) && Orders(pos, q, a)
    ensures Orders(pos, q, b)
  {
    SameList(q, a, b, true);
  }

  lemma SameLanded<T>(q: seq<T>, a: seq<T>, b: seq<T>, r: seq<T>)
    requires multiset(a) == multiset(b)
    ensures Landed(q, a, |q|, r) ==> Landed(q, b, |q|, r)
  {
    hide Pick;
    SameList(q, a, b, true);
    SameList(r, a, b, true);
    forall i | 0 <= i < |q| ensures (q[i] in a <==> q[i] in b) && Landing(q, a, i) == Landing(q, b, i) {
      SameMembers(a, b, q[i]);
    }
    if Landed(q, a, |q|, r) {
      forall k | 0 <= k < |q| && PastLandings(q, b, |q|, k) ensures r[k] !in b {
        SameMembers(a, b, r[k]);
        assert PastLandings(q, a, |q|, k);
      }
    }
  }

  lemma SameRoom<T>(q: seq<T>, a: seq<T>, b: seq<T>, r: seq<T>)
    requires multiset(a) == multiset(b)
    ensures Roomy(q, a) ==> Roomy(q, b)
    ensures AtLandings(q, a, r) ==> AtLandings(q, b, r)
  {
    forall i | 0 <= i < |q| ensures (q[i] in a <==> q[i] in b) && Landing(q, a, i) == Landing(q, b, i) {
      SameMembers(a, b, q[i]);
    }
  }

  lemma UpAsListed<T>(q: seq<T>, known: seq<T>, ordered: seq<T>, pos: T -> int)
    requires NoRepeats(q) && multiset(known) == multiset(ordered) && Sorting.Ordered(ordered, pos)
    ensures Pick(UpAll(q, ordered), known, false) == Pick(q, known, false)
    ensures Orders(pos, q, known) ==>
      && (Pick(UpAll(q, ordered), known, true) == Pick(q, known, true) <==> Spaced(q, known))
      && (Spaced(q, known) ==> Landed(q, known, |q|, UpAll(q, ordered)))
    ensures Roomy(q, known) ==>
      Pick(UpAll(q, ordered), known, true) == Pick(q, known, true) && AtLandings(q, known, UpAll(q, ordered))
  {
    hide NoRepeats, Pick, UpAll, Sorting.Ordered, Downwards, Spaced, Landed, Roomy, AtLandings;
    var r := UpAll(q, ordered);
    SameList(q, known, ordered, false);
    SameList(r, known, ordered, false);
    UpKeepsOthers(q, ordered, ordered);
    if Roomy(q, known) {
      SameList(q, known, ordered, true);
      SameList(r, known, ordered, true);
      SameRoom(q, known, ordered, r);
      UpKeepsOrderAnyway(q, ordered);
      SameRoom(q, ordered, known, r);
    }
    if Orders(pos, q, known) {
      SameList(q, known, ordered, true);
      SameList(r, known, ordered, true);
      SameOrders(pos, q, known, ordered);
      OrderedIsDownwards(q, ordered, pos);
      UpKeepsOrderIff(q, ordered);
      SameSpaced(q, known, ordered);
      SameLanded(q, ordered, known, r);
    }
  }

  // ---------------------------------------------------------------- runs that lose the order

  lemma RemoveBetween<T>(front: seq<T>, x: T, back: seq<T>, q: seq<T>)
    requires x !in front && x !in back && q == front + [x] + back
    ensures Remove(q, x) == front + back
  {
    hide Remove;
    RemoveConcat(front + [x], back, x);
    RemoveConcat(front, [x], x);
    RemoveAbsent(front, x);
    RemoveAbsent(back, x);
    RemoveIt(x);
    NilRight(front);
  }

  lemma MoveTopIs<T>(front: seq<T>, x: T, back: seq<T>, q: seq<T>, r: seq<T>)
    requires x !in front && x !in back && q == front + [x] + back && r == [x] + (front + back)
    ensures MoveTop(q, x) == r
  {
    hide Remove;
    RemoveBetween(front, x, back, q);
  }

  lemma MoveBottomIs<T>(front: seq<T>, x: T, back: seq<T>, q: seq<T>, r: seq<T>)
    requires x !in front && x !in back && q == front + [x] + back && r == front + back + [x]
    ensures MoveBottom(q, x) == r
  {
    hide Remove;
    RemoveBetween(front, x, back, q);
  }

  lemma RemoveIt<T>(x: T)
    ensures Remove([x], x) == []
  {
    assert [x][1..] == [];
  }

  lemma PickTwo<T>(a: T, b: T, list: seq<T>)
    requires a in list && b in list
    ensures Pick([a, b], list, true) == [a, b]
  {
    hide Pick;
    SinglePick(a, list);
    SinglePick(b, list);
    PickConcat([a], [b], list, true);
    assert [a, b] == [a] + [b];
  }

  lemma SinglePick<T>(x: T, list: seq<T>)
    ensures Pick([x], list, true) == if x in list then [x] else []
  {
    assert Pick([x][1..], list, true) == [];
  }

  lemma TopAllMore<T>(q: seq<T>, list: seq<T>, x: T)
    ensures TopAll(q, []) == q && TopAll(q, list + [x]) == MoveTop(TopAll(q, list), x)
  {
    assert (list + [x])[..|list|] == list;
  }

  lemma BottomAllMore<T>(q: seq<T>, list: seq<T>, x: T)
    ensures BottomAll(q, []) == q && BottomAll(q, list + [x]) == MoveBottom(BottomAll(q, list), x)
  {
    assert (list + [x])[..|list|] == list;
  }

  lemma Reversed<T>(pos: T -> int, q: seq<T>, list: seq<T>, a: T, b: T)
    requires Pick(q, list, true) == [a, b] && pos(b) < pos(a)
    ensures Apart(pos, q, list) && !Orders(pos, q, list)
    ensures Descending([a, b], pos) && Sorting.Ordered([b, a], pos)
  {
    hide Pick;
    var p := Pick(q, list, true);
    assert p[0] == a && p[1] == b;
  }

  /** The history knows 1, 2, 3 in this order. Moving 3 to the top, and then 1 and 3 before the next
      state update, puts 1 above 3. */
  lemma StaleTop()
    ensures var pos := Cached(map[1 := 0, 2 := 1, 3 := 2]);
            && TopAll([1, 2, 3], [3]) == [3, 1, 2] && Descending([3, 1], pos)
            && TopAll([3, 1, 2], [3, 1]) == [1, 3, 2] && Pick([3, 1, 2], [3, 1], true) == [3, 1]
            && Apart(pos, [3, 1, 2], [3, 1]) && !Orders(pos, [3, 1, 2], [3, 1])
  {
    hide TopAll, MoveTop, Pick, Apart, Orders, Descending;
    TopAllMore([1, 2, 3], [], 3);
    TopAllMore([3, 1, 2], [], 3);
    TopAllMore([3, 1, 2], [3], 1);
    MoveTopIs([1, 2], 3, [], [1, 2, 3], [3, 1, 2]);
    MoveTopIs([], 3, [1, 2], [3, 1, 2], [3, 1, 2]);
    MoveTopIs([3], 1, [2], [3, 1, 2], [1, 3, 2]);
    assert [] + [3] == [3] && [3] + [1] == [3, 1] && [3, 1] + [2] == [3, 1, 2];
    PickConcat([3, 1], [2], [3, 1], true);
    PickTwo(3, 1, [3, 1]);
    SinglePick(2, [3, 1]);
    NilRight([3, 1]);
    Reversed(Cached(map[1 := 0, 2 := 1, 3 := 2]), [3, 1, 2], [3, 1], 3, 1);
  }

  /** The mirror image: 1 is moved to the bottom first. */
  lemma StaleBottom()
    ensures var pos := Cached(map[1 := 0, 2 := 1, 3 := 2]);
            && BottomAll([1, 2, 3], [1]) == [2, 3, 1] && Sorting.Ordered([1, 3], pos)
            && BottomAll([2, 3, 1], [1, 3]) == [2, 1, 3] && Pick([2, 3, 1], [1, 3], true) == [3, 1]
            && Apart(pos, [2, 3, 1], [1, 3]) && !Orders(pos, [2, 3, 1], [1, 3])
  {
    hide BottomAll, MoveBottom, Pick, Apart, Orders, Sorting.Ordered;
    BottomAllMore([1, 2, 3], [], 1);
    BottomAllMore([2, 3, 1], [], 1);
    BottomAllMore([2, 3, 1], [1], 3);
    MoveBottomIs([], 1, [2, 3], [1, 2, 3], [2, 3, 1]);
    MoveBottomIs([2, 3], 1, [], [2, 3, 1], [2, 3, 1]);
    MoveBottomIs([2], 3, [1], [2, 3, 1], [2, 1, 3]);
    assert [] + [1] == [1] && [1] + [3] == [1, 3] && [2] + [3, 1] == [2, 3, 1];
    PickConcat([2], [3, 1], [1, 3], true);
    PickTwo(3, 1, [1, 3]);
    SinglePick(2, [1, 3]);
    NilLeft([3, 1]);
    Reversed(Cached(map[1 := 0, 2 := 1, 3 := 2]), [2, 3, 1], [1, 3], 3, 1);
  }

  lemma UpAt<T>(q: seq<T>, i: nat, r: seq<T>)
    requires NoRepeats(q) && 0 < i < |q| && r == q[i := q[i - 1]][i - 1 := q[i]]
    ensures MoveUp(q, q[i]) == r
  {
    hide Position;
    PositionIs(q, i);
  }

  lemma UpAllMore<T>(q: seq<T>, list: seq<T>, x: T)
    ensures UpAll(q, list + [x]) == MoveUp(UpAll(q, list), x)
  {
    assert (list + [x])[..|list|] == list;
  }

  lemma UpAllNothing<T>(q: seq<T>)
    ensures UpAll(q, []) == q
  {
  }

  lemma UpAllThree<T>(q: seq<T>, x: T, y: T, z: T)
    ensures UpAll(q, [x, y, z]) == MoveUp(MoveUp(MoveUp(q, x), y), z)
  {
    hide MoveUp, UpAll;
    UpAllNothing(q);
    UpAllMore(q, [], x);
    UpAllMore(q, [x], y);
    UpAllMore(q, [x, y], z);
    assert [] + [x] == [x] && [x] + [y] == [x, y] && [x, y] + [z] == [x, y, z];
  }

  lemma UpAllTwo<T>(q: seq<T>, x: T, y: T)
    ensures UpAll(q, [x, y]) == MoveUp(MoveUp(q, x), y)
  {
    hide MoveUp, UpAll;
    UpAllNothing(q);
    UpAllMore(q, [], x);
    UpAllMore(q, [x], y);
    assert [] + [x] == [x] && [x] + [y] == [x, y];
  }

  /** The history knows 9, 2, 3, 1. Moving 1 up twice, and then all but 9 before the next state
      update, puts 2 above 1 although there is room for all of them. */
  lemma StaleUp()
    ensures var pos := Cached(map[9 := 0, 2 := 1, 3 := 2, 1 := 3]);
            && UpAll([9, 2, 3, 1], [1, 1]) == [9, 1, 2, 3] && Sorting.Ordered([2, 3, 1], pos)
            && UpAll([9, 1, 2, 3], [2, 3, 1]) == [9, 2, 1, 3]
            && Spaced([9, 1, 2, 3], [2, 3, 1]) && !BothAtTop([9, 1, 2, 3], [2, 3, 1])
  {
    hide UpAll, MoveUp, Spaced;
    UpAllTwo([9, 2, 3, 1], 1, 1);
    UpAt([9, 2, 3, 1], 3, [9, 2, 1, 3]);
    UpAt([9, 2, 1, 3], 2, [9, 1, 2, 3]);
    UpAllThree([9, 1, 2, 3], 2, 3, 1);
    UpAt([9, 1, 2, 3], 2, [9, 2, 1, 3]);
    UpAt([9, 2, 1, 3], 3, [9, 2, 3, 1]);
    UpAt([9, 2, 3, 1], 3, [9, 2, 1, 3]);
    SpacedIffNotTop([9, 1, 2, 3], [2, 3, 1]);
  }

  /** The two ways in which queue_up alone loses the order: both of the top two are listed, and a
      repetition lifts a torrent over one above it. */
  lemma UpLosesOrder()
    ensures UpAll([1, 2], [1, 2]) == [2, 1]
    ensures UpAll([1, 2, 3], [2, 3, 3]) == [3, 2, 1] && !BothAtTop([1, 2, 3], [2, 3, 3])
  {
    hide UpAll, MoveUp;
    UpAllTwo([1, 2], 1, 2);
    UpAtTop([1, 2]);
    UpAt([1, 2], 1, [2, 1]);
    UpAllThree([1, 2, 3], 2, 3, 3);
    UpAt([1, 2, 3], 1, [2, 1, 3]);
    UpAt([2, 1, 3], 2, [2, 3, 1]);
    UpAt([2, 3, 1], 1, [3, 2, 1]);
  }
}
