/** Which keys a history holds, since when, and what it remembers of those that left: the part
    that piece_history::update and peer_history::update have in common. */
module Presence {
  import opened Tombstones
  import opened Collections

  type Stone = Tombstone<()>

  datatype Presence = Presence(live: map<int, nat>, removed: seq<Stone>, frame: nat, horizon: nat, limit: nat)

  // ---------------------------------------------------------------- keys in order

  predicate IsLeast(m: int, s: set<int>) {
    m in s && forall x | x in s :: m <= x
  }

  lemma Pick<T>(s: set<T>) returns (x: T)
    requires s != {}
    ensures x in s
  {
    x :| x in s;
  }

  lemma {:induction false} LeastExists(s: set<int>)
    requires s != {}
    ensures exists m :: IsLeast(m, s)
    decreases |s|
  {
    var x := Pick(s);
    var rest := s - {x};
    assert forall y | y in s :: y == x || y in rest;
    if rest == {} {
      assert IsLeast(x, s);
    } else {
      LeastExists(rest);
      var r :| IsLeast(r, rest);
      assert IsLeast(if r < x then r else x, s);
    }
  }

  function Least(s: set<int>): (m: int)
    requires s != {}
    ensures IsLeast(m, s)
  {
    LeastExists(s);
    var m :| IsLeast(m, s);
    m
  }

  /** A set in ascending order: how std::map iterates. */
  function Ascending(s: set<int>): (r: seq<int>)
    ensures forall x :: x in r <==> x in s
    ensures Lists(r, s)
    ensures Increasing(r)
    decreases |s|
  {
    if s == {} then []
    else
      var m := Least(s);
      [m] + Ascending(s - {m})
  }

  lemma ListsRest<T(!new)>(a: seq<T>, s: set<T>)
    requires Lists(a, s) && a != [] && a[0] !in a[1..]
    ensures Lists(a[1..], s - {a[0]})
  {
    assert a == [a[0]] + a[1..];
  }

  lemma ListsSize<T(!new)>(a: seq<T>, s: set<T>)
    requires Lists(a, s)
    ensures a == [] <==> s == {}
  {
    if a != [] {
      assert a[0] in a;
    }
  }

  /** A key is at some position of a listing. */
  lemma ListsHas<T(!new)>(a: seq<T>, s: set<T>, x: T)
    requires Lists(a, s) && x in s
    ensures exists i :: 0 <= i < |a| && a[i] == x
  {
    assert x in a;
  }

  /** There is only one ascending listing of a set. */
  lemma {:induction false} ListingIsUnique(a: seq<int>, b: seq<int>, s: set<int>)
    requires Increasing(a) && Increasing(b) && Lists(a, s) && Lists(b, s)
    ensures a == b
    decreases |a|
  {
    hide Lists;
    ListsSize(a, s);
    ListsSize(b, s);
    if a != [] {
      ListsAt(a, s, 0);
      ListsAt(b, s, 0);
      ListsHas(a, s, b[0]);
      ListsHas(b, s, a[0]);
      assert a[0] == b[0];
      ListsRest(a, s);
      ListsRest(b, s);
      ListingIsUnique(a[1..], b[1..], s - {a[0]});
    }
  }

  // ---------------------------------------------------------------- one update

  function StoneOf(live: map<int, nat>, frame: nat, key: int): Stone
    requires key in live
  {
    Tombstone(frame, live[key], key, ())
  }

  /** The listed keys that are not in `keys`. */
  function Missing<T(==,!new)>(s: seq<T>, keys: set<T>): (r: seq<T>)
    ensures forall x :: x in r <==> x in s && x !in keys
    decreases |s|
  {
    if s == [] then []
    else
      var init, last := s[..|s| - 1], s[|s| - 1];
      assert s == init + [last];
      Missing(init, keys) + (if last in keys then [] else [last])
  }

  lemma MissingAllIn<T(!new)>(s: seq<T>, keys: set<T>, t: set<T>)
    requires AllIn(s, t)
    ensures AllIn(Missing(s, keys), t)
  {
  }

  /** push_front for each key that left, in order. */
  ghost function Push(removed: seq<Stone>, live: map<int, nat>, frame: nat, gone: seq<int>): seq<Stone>
    requires AllIn(gone, live.Keys)
    decreases |gone|
  {
    if gone == [] then removed
    else
      AllInFront(gone, live.Keys);
      var last := gone[|gone| - 1];
      [StoneOf(live, frame, last)] + Push(removed, live, frame, gone[..|gone| - 1])
  }

  lemma {:induction false} PushHas(removed: seq<Stone>, live: map<int, nat>, frame: nat, gone: seq<int>, t: Stone)
    requires AllIn(gone, live.Keys)
    ensures t in Push(removed, live, frame, gone)
       <==> t in removed || (t.key in gone && t.key in live && t == StoneOf(live, frame, t.key))
    decreases |gone|
  {
    if gone != [] {
      AllInFront(gone, live.Keys);
      var init, last := gone[..|gone| - 1], gone[|gone| - 1];
      assert gone == init + [last];
      PushHas(removed, live, frame, init, t);
    }
  }

  ghost function Pushed(p: Presence, gone: seq<int>): seq<Stone> {
    if AllIn(gone, p.live.Keys) then Push(p.removed, p.live, p.frame + 1, gone) else []
  }

  lemma MissingStep<T(!new)>(keys: seq<T>, n: nat, ids: set<T>)
    requires n < |keys|
    ensures Missing(keys[..n + 1], ids) ==
            if keys[n] in ids then Missing(keys[..n], ids) else Missing(keys[..n], ids) + [keys[n]]
  {
    assert keys[..n + 1] == keys[..n] + [keys[n]];
  }

  lemma NothingPushed(p: Presence, keys: seq<int>, ids: set<int>)
    ensures Without(keys[..0], ids) == {} && Pushed(p, Missing(keys[..0], ids)) == p.removed
  {
  }

  lemma PushedOneMore(p: Presence, gone: seq<int>, k: int)
    requires AllIn(gone, p.live.Keys) && k in p.live
    ensures Pushed(p, gone + [k]) == [StoneOf(p.live, p.frame + 1, k)] + Pushed(p, gone)
  {
    AllInMore(gone, k, p.live.Keys);
    assert (gone + [k])[..|gone|] == gone;
  }

  lemma ListsPrefix<T(!new)>(keys: seq<T>, s: set<T>, n: nat)
    requires Lists(keys, s) && n <= |keys|
    ensures AllIn(keys[..n], s)
  {
    forall x | x in keys[..n] ensures x in s {
      assert x in keys;
    }
  }

  /** What one turn of a removal loop does to the tombstones, whichever branch it takes. */
  lemma RemovalStep(p: Presence, keys: seq<int>, n: nat, ids: set<int>)
    requires n < |keys| && keys == Ascending(p.live.Keys)
    ensures var k := keys[n];
            && k in p.live && k !in Without(keys[..n], ids)
            && Without(keys[..n + 1], ids) == Without(keys[..n], ids) + (if k in ids then {} else {k})
            && Pushed(p, Missing(keys[..n + 1], ids))
               == if k in ids then Pushed(p, Missing(keys[..n], ids))
                  else [StoneOf(p.live, p.frame + 1, k)] + Pushed(p, Missing(keys[..n], ids))
  {
    hide Missing, Pushed, Ascending, Lists, AllIn;
    var k := keys[n];
    WithoutStep(keys, n, ids);
    MissingStep(keys, n, ids);
    ListsAt(keys, p.live.Keys, n);
    ListsPrefix(keys, p.live.Keys, n);
    MissingAllIn(keys[..n], ids, p.live.Keys);
    PushedOneMore(p, Missing(keys[..n], ids), k);
  }

  /** All that left, in key order. */
  ghost function Stones(p: Presence, keys: set<int>): (r: seq<Stone>) {
    Pushed(p, Missing(Ascending(p.live.Keys), keys))
  }

  /** remove_if: forget the tombstones of keys that are back. */
  function Forget(removed: seq<Stone>, back: set<int>): (r: seq<Stone>)
    ensures forall t :: t in r <==> t in removed && t.key !in back
    ensures |r| <= |removed|
    ensures NewestFirst(removed) ==> NewestFirst(r)
  {
    if removed == [] then []
    else
      var rest := Forget(removed[1..], back);
      assert removed == [removed[0]] + removed[1..];
      assert forall i | 0 <= i < |rest| :: rest[i] in rest && rest[i] in removed[1..];
      if removed[0].key in back then rest else [removed[0]] + rest
  }

  lemma {:induction false} ForgetNobody(removed: seq<Stone>, back: set<int>)
    requires forall t | t in removed :: t.key !in back
    ensures Forget(removed, back) == removed
    decreases |removed|
  {
    if removed != [] {
      assert forall t | t in removed[1..] :: t in removed;
      ForgetNobody(removed[1..], back);
    }
  }

  lemma {:induction false} ForgetSame(removed: seq<Stone>, a: set<int>, b: set<int>)
    requires forall t | t in removed :: t.key in a <==> t.key in b
    ensures Forget(removed, a) == Forget(removed, b)
    decreases |removed|
  {
    if removed != [] {
      assert forall t | t in removed[1..] :: t in removed;
      ForgetSame(removed[1..], a, b);
    }
  }

  lemma {:induction false} ForgetTwice(removed: seq<Stone>, a: set<int>, b: set<int>)
    ensures Forget(Forget(removed, a), b) == Forget(removed, a + b)
    decreases |removed|
  {
    if removed != [] {
      ForgetTwice(removed[1..], a, b);
      var rest := Forget(removed[1..], a);
      assert removed[0].key !in a ==> ([removed[0]] + rest)[1..] == rest;
    }
  }

  /** The tombstones of an update before eviction. */
  ghost function Candidates(p: Presence, keys: set<int>): seq<Stone> {
    Forget(Stones(p, keys), keys)
  }

  /** The new key set replaces the old one in the next frame. */
  ghost function Refresh(p: Presence, keys: set<int>): Presence {
    var frame := p.frame + 1;
    var kept := Evict(Candidates(p, keys), p.horizon, p.limit);
    Presence(
      map x | x in keys :: if x in p.live then p.live[x] else frame,
      kept.0, frame, kept.1, p.limit)
  }

  lemma {:induction false} MissingNone<T(!new)>(s: seq<T>, keys: set<T>)
    requires AllIn(s, keys)
    ensures Missing(s, keys) == []
    decreases |s|
  {
    if s != [] {
      AllInFront(s, keys);
      MissingNone(s[..|s| - 1], keys);
    }
  }

  lemma SameCandidates(p: Presence)
    requires Inv(p)
    ensures Candidates(p, p.live.Keys) == p.removed
  {
    hide Ascending, Missing, AllIn, Stones, Forget, NewestFirst;
    AscendingAllIn(p.live.Keys);
    MissingNone(Ascending(p.live.Keys), p.live.Keys);
    SameStones(p);
    ForgetNobody(p.removed, p.live.Keys);
  }

  /** When the same keys come back, only the frame moves. */
  lemma RefreshSame(p: Presence)
    requires Inv(p)
    ensures Refresh(p, p.live.Keys) == p.(frame := p.frame + 1)
  {
    hide Candidates, NewestFirst;
    SameCandidates(p);
    SameLive(p);
  }

  lemma SameLive(p: Presence)
    ensures Refresh(p, p.live.Keys).live == p.live
  {
    hide Candidates, Evict;
    var live := Refresh(p, p.live.Keys).live;
    forall x ensures (x in live <==> x in p.live) && (x in live ==> live[x] == p.live[x]) {
    }
  }

  lemma SameStones(p: Presence)
    requires Missing(Ascending(p.live.Keys), p.live.Keys) == []
    ensures Stones(p, p.live.Keys) == p.removed
  {
    hide Ascending, Missing;
  }

  // ---------------------------------------------------------------- what a client can rely on

  ghost predicate Inv(p: Presence) {
    && NewestFirst(p.removed)
    && |p.removed| <= p.limit
    && p.horizon <= p.frame + 1
    && (forall x | x in p.live :: 0 < p.live[x] <= p.frame)
    && (forall t | t in p.removed :: 0 < t.addedFrame && t.removedFrame <= p.frame && t.key !in p.live)
    && (forall t, u | t in p.removed && u in p.removed && t.key == u.key :: t == u)
  }

  ghost predicate HasStone(p: Presence, x: int, since: nat) {
    exists t :: t in p.removed && t.key == x && since < t.removedFrame
  }

  /** `base` is the key set at frame `since`. */
  ghost predicate Tracks(p: Presence, since: nat, base: set<int>) {
    && since <= p.frame
    && (forall x | x in p.live && p.live[x] <= since :: x in base)
    && (forall t | t in p.removed && Crosses(t, since) :: t.key in base)
    && (forall x | x in base && x !in p.live :: since < p.horizon || HasStone(p, x, since))
  }

  lemma TracksNow(p: Presence)
    requires Inv(p)
    ensures Tracks(p, p.frame, p.live.Keys)
  {
  }

  lemma StoneInFront(t: Stone, removed: seq<Stone>, frame: nat)
    requires t.removedFrame == frame && NewestFirst(removed)
    requires forall u | u in removed :: u.removedFrame <= frame
    ensures NewestFirst([t] + removed)
    ensures forall u | u in [t] + removed :: u.removedFrame <= frame
  {
    assert forall i | 0 <= i < |removed| :: removed[i] in removed;
  }

  lemma {:induction false} PushKeepsOrder(removed: seq<Stone>, live: map<int, nat>, frame: nat, gone: seq<int>)
    requires AllIn(gone, live.Keys)
    requires NewestFirst(removed) && forall t | t in removed :: t.removedFrame <= frame
    ensures NewestFirst(Push(removed, live, frame, gone))
    ensures forall t | t in Push(removed, live, frame, gone) :: t.removedFrame <= frame
    decreases |gone|
  {
    hide NewestFirst;
    if gone != [] {
      AllInFront(gone, live.Keys);
      var init, last := gone[..|gone| - 1], gone[|gone| - 1];
      PushKeepsOrder(removed, live, frame, init);
      StoneInFront(StoneOf(live, frame, last), Push(removed, live, frame, init), frame);
    }
  }

  lemma EvictMembers(s: seq<Stone>, horizon: nat, limit: nat)
    requires NewestFirst(s)
    ensures var (kept, h) := Evict(s, horizon, limit);
            && NewestFirst(kept) && horizon <= h
            && (forall t | t in kept :: t in s)
            && (forall t | t in s :: t in kept || t.removedFrame < h)
            && (h == horizon || exists t :: t in s && h == t.removedFrame + 1)
  {
    var (kept, h) := Evict(s, horizon, limit);
    forall t | t in s ensures t in kept || t.removedFrame < h {
      var i :| 0 <= i < |s| && s[i] == t;
      if i < |kept| {
        assert kept[i] == t;
      }
    }
  }

  lemma StonesArePushed(p: Presence, keys: set<int>)
    ensures var gone := Missing(Ascending(p.live.Keys), keys);
            && AllIn(gone, p.live.Keys)
            && Stones(p, keys) == Push(p.removed, p.live, p.frame + 1, gone)
  {
    hide Missing, Push, Ascending, AllIn;
    AscendingAllIn(p.live.Keys);
    MissingAllIn(Ascending(p.live.Keys), keys, p.live.Keys);
  }

  lemma AscendingAllIn(s: set<int>)
    ensures AllIn(Ascending(s), s)
  {
    hide Lists, AllIn;
    ListsPrefix(Ascending(s), s, |Ascending(s)|);
    assert Ascending(s)[..|Ascending(s)|] == Ascending(s);
  }

  lemma StonesHas(p: Presence, keys: set<int>, t: Stone)
    ensures t in Stones(p, keys)
       <==> t in p.removed || (t.key in p.live && t.key !in keys && t == StoneOf(p.live, p.frame + 1, t.key))
  {
    hide Stones, Push, AllIn;
    StonesArePushed(p, keys);
    PushHas(p.removed, p.live, p.frame + 1, Missing(Ascending(p.live.Keys), keys), t);
  }

  lemma PushedMembers(p: Presence, keys: set<int>, t: Stone)
    ensures t in Candidates(p, keys)
       <==> t.key !in keys && (t in p.removed || (t.key in p.live && t == StoneOf(p.live, p.frame + 1, t.key)))
  {
    hide Stones, Forget;
    StonesHas(p, keys, t);
  }

  lemma CandidatesOrder(p: Presence, keys: set<int>)
    requires Inv(p)
    ensures NewestFirst(Candidates(p, keys))
    ensures forall t | t in Candidates(p, keys) :: t.removedFrame <= p.frame + 1
  {
    hide Inv, Push, Forget, Missing, Stones, AllIn, NewestFirst;
    InvOrder(p);
    StonesArePushed(p, keys);
    PushKeepsOrder(p.removed, p.live, p.frame + 1, Missing(Ascending(p.live.Keys), keys));
  }

  lemma RefreshOrder(p: Presence, keys: set<int>)
    requires Inv(p)
    ensures var q := Refresh(p, keys);
            NewestFirst(q.removed) && |q.removed| <= q.limit && p.horizon <= q.horizon <= p.frame + 2
    ensures forall t | t in Refresh(p, keys).removed :: t.removedFrame <= p.frame + 1
  {
    hide Inv, Candidates, NewestFirst;
    InvOrder(p);
    CandidatesOrder(p, keys);
    EvictMembers(Candidates(p, keys), p.horizon, p.limit);
  }

  /** One tombstone after an update: what it can be, and that it is kept or behind the horizon. */
  lemma StoneAfter(p: Presence, keys: set<int>, t: Stone)
    requires Inv(p)
    ensures var q := Refresh(p, keys);
            var entitled :=
              t.key !in keys && (t in p.removed || (t.key in p.live && t == StoneOf(p.live, q.frame, t.key)));
            && (t in q.removed ==> entitled)
            && (entitled ==> t in q.removed || t.removedFrame < q.horizon)
  {
    hide Inv, Candidates, NewestFirst;
    CandidatesOrder(p, keys);
    EvictMembers(Candidates(p, keys), p.horizon, p.limit);
    PushedMembers(p, keys, t);
  }

  lemma InvOrder(p: Presence)
    requires Inv(p)
    ensures NewestFirst(p.removed) && p.horizon <= p.frame + 1
    ensures forall t | t in p.removed :: t.removedFrame <= p.frame + 1
  {
  }

  /** The tombstones after an update, as a set. */
  lemma RefreshStones(p: Presence, keys: set<int>)
    requires Inv(p)
    ensures var q := Refresh(p, keys);
            && (forall t | t in q.removed ::
                  t.key !in keys && (t in p.removed || (t.key in p.live && t == StoneOf(p.live, q.frame, t.key))))
            && (forall t | t in p.removed && t.key !in keys :: t in q.removed || t.removedFrame < q.horizon)
            && (forall x | x in p.live && x !in keys ::
                  StoneOf(p.live, q.frame, x) in q.removed || q.frame < q.horizon)
  {
    hide Inv;
    var q := Refresh(p, keys);
    forall t | t in q.removed
      ensures t.key !in keys && (t in p.removed || (t.key in p.live && t == StoneOf(p.live, q.frame, t.key)))
    {
      StoneAfter(p, keys, t);
    }
    forall t | t in p.removed && t.key !in keys ensures t in q.removed || t.removedFrame < q.horizon {
      StoneAfter(p, keys, t);
    }
    forall x | x in p.live && x !in keys ensures StoneOf(p.live, q.frame, x) in q.removed || q.frame < q.horizon {
      StoneAfter(p, keys, StoneOf(p.live, q.frame, x));
    }
  }

  lemma RefreshTracks(p: Presence, keys: set<int>, since: nat, base: set<int>)
    requires Inv(p)
    ensures Inv(Refresh(p, keys))
    ensures Tracks(p, since, base) ==> Tracks(Refresh(p, keys), since, base)
  {
    hide Candidates, Evict, NewestFirst;
    RefreshOrder(p, keys);
    RefreshStones(p, keys);
    var q := Refresh(p, keys);
    if Tracks(p, since, base) {
      forall x | x in base && x !in q.live && q.horizon <= since ensures HasStone(q, x, since) {
        if x in p.live {
          assert StoneOf(p.live, q.frame, x) in q.removed;
        } else {
          var t :| t in p.removed && t.key == x && since < t.removedFrame;
          assert t in q.removed;
        }
      }
    }
  }

  function Always(): Stone -> bool {
    (_: Stone) => true
  }

  /** The keys a delta lists as removed. */
  function RemovedSince(p: Presence, since: nat): seq<int> {
    Reported(p.removed, since, Always())
  }

  /** A key some client still shows: it was there at `since`, it is gone, but its last
      incarnation came after `since`, so its tombstone is not reported. */
  ghost predicate Lingers(p: Presence, since: nat, x: int) {
    exists t :: t in p.removed && t.key == x && since < t.addedFrame
  }

  /** Exactly what a delta removes: of the keys at `since`, those that are gone and do not
      linger; and nothing that is live. */
  lemma RemovedExactly(p: Presence, since: nat, base: set<int>, x: int)
    requires Inv(p) && Tracks(p, since, base) && p.horizon <= since
    ensures x in RemovedSince(p, since) ==> x in base && x !in p.live
    ensures x in base && x !in p.live ==> (x in RemovedSince(p, since) <==> !Lingers(p, since, x))
  {
    hide Reported, NewestFirst;
    ReportedExactly(p.removed, since, Always(), x);
    if x in RemovedSince(p, since) {
      var i :| 0 <= i < |p.removed| && p.removed[i].key == x && Crosses(p.removed[i], since);
      assert p.removed[i] in p.removed;
    }
    if x in base && x !in p.live {
      var t :| t in p.removed && t.key == x && since < t.removedFrame;
      var i :| 0 <= i < |p.removed| && p.removed[i] == t;
      if !Lingers(p, since, x) {
        assert Crosses(p.removed[i], since);
      }
    }
  }

  // ---------------------------------------------------------------- what lingers, over runs

  /** The key sets of a run replace each other in turn. */
  ghost function RefreshAll(p: Presence, keySets: seq<set<int>>): Presence
    decreases |keySets|
  {
    if keySets == [] then p
    else Refresh(RefreshAll(p, keySets[..|keySets| - 1]), keySets[|keySets| - 1])
  }

  /** x was gone and came back. */
  ghost predicate CameBack<T>(keySets: seq<set<T>>, x: T) {
    exists i, j :: 0 <= i < j < |keySets| && x !in keySets[i] && x in keySets[j]
  }

  /** What came back and is there again came after `since`, and so did what came back and left. */
  ghost predicate Remembers(p: Presence, since: nat, x: int, cameBack: bool) {
    && (x in p.live ==> (p.live[x] > since <==> cameBack))
    && (forall t | t in p.removed && t.key == x && x !in p.live && since < t.removedFrame ::
          t.addedFrame > since <==> cameBack)
  }

  lemma CameBackMore<T>(keySets: seq<set<T>>, keys: set<T>, x: T)
    ensures CameBack(keySets + [keys], x)
       <==> CameBack(keySets, x) || (x in keys && exists i :: 0 <= i < |keySets| && x !in keySets[i])
  {
    var all := keySets + [keys];
    if CameBack(all, x) {
      var i, j :| 0 <= i < j < |all| && x !in all[i] && x in all[j];
      if j < |keySets| {
        assert x !in keySets[i] && x in keySets[j];
      } else {
        assert x !in keySets[i];
      }
    }
    if CameBack(keySets, x) {
      var i, j :| 0 <= i < j < |keySets| && x !in keySets[i] && x in keySets[j];
      assert x !in all[i] && x in all[j];
    }
    if i :| x in keys && 0 <= i < |keySets| && x !in keySets[i] {
      assert x !in all[i] && x in all[|keySets|];
    }
  }

  /** The last key set is what is live. */
  lemma LiveIs(p: Presence, keySets: seq<set<int>>, x: int)
    ensures x in RefreshAll(p, keySets).live
       <==> if keySets == [] then x in p.live else x in keySets[|keySets| - 1]
  {
    hide Candidates, Evict;
  }

  lemma RememberStep(p: Presence, keys: set<int>, since: nat, x: int, before: bool, after: bool)
    requires Inv(p) && since <= p.frame && Remembers(p, since, x, before)
    requires after <==> before || (x in keys && x !in p.live)
    ensures Remembers(Refresh(p, keys), since, x, after)
  {
    hide Inv, NewestFirst, Candidates, Evict;
    LiveAfter(p, keys, x);
    var q := Refresh(p, keys);
    forall t | t in q.removed && t.key == x && x !in q.live && since < t.removedFrame
      ensures t.addedFrame > since <==> after
    {
      StoneAfter(p, keys, t);
      if t in p.removed {
        LiveHasNoStone(p, t);
      }
    }
  }

  lemma LiveAfter(p: Presence, keys: set<int>, x: int)
    ensures x in Refresh(p, keys).live <==> x in keys
    ensures x in keys ==> Refresh(p, keys).live[x] == if x in p.live then p.live[x] else p.frame + 1
    ensures Refresh(p, keys).frame == p.frame + 1
  {
    hide Candidates, Evict;
  }

  lemma LiveHasNoStone(p: Presence, t: Stone)
    requires Inv(p) && t in p.removed
    ensures t.key !in p.live
  {
  }

  /** Coming back now is being listed now and not before. */
  lemma CameBackNow(p: Presence, keySets: seq<set<int>>, keys: set<int>, x: int)
    requires x in p.live
    ensures CameBack(keySets + [keys], x)
       <==> CameBack(keySets, x) || (x in keys && x !in RefreshAll(p, keySets).live)
  {
    hide RefreshAll, CameBack;
    CameBackMore(keySets, keys, x);
    LiveIs(p, keySets, x);
    if x in keys && keySets != [] && x in keySets[|keySets| - 1] {
      AbsentBefore(keySets, x);
    }
  }

  lemma AbsentBefore<T>(keySets: seq<set<T>>, x: T)
    requires keySets != [] && x in keySets[|keySets| - 1]
    ensures (exists i :: 0 <= i < |keySets| && x !in keySets[i]) ==> CameBack(keySets, x)
  {
    if i :| 0 <= i < |keySets| && x !in keySets[i] {
      assert i < |keySets| - 1 && x !in keySets[i] && x in keySets[|keySets| - 1];
    }
  }

  lemma {:induction false} RunRemembers(p: Presence, keySets: seq<set<int>>, x: int)
    requires Inv(p) && x in p.live
    ensures var q := RefreshAll(p, keySets);
            Inv(q) && p.frame <= q.frame && Remembers(q, p.frame, x, CameBack(keySets, x))
    decreases |keySets|
  {
    hide Inv, CameBack, Remembers, Refresh;
    if keySets == [] {
      NothingRemembered(p, x);
    } else {
      var init, keys := keySets[..|keySets| - 1], keySets[|keySets| - 1];
      RunRemembers(p, init, x);
      CameBackNow(p, init, keys, x);
      assert init + [keys] == keySets;
      var q := RefreshAll(p, init);
      LiveAfter(q, keys, x);
      RefreshTracks(q, keys, 0, {});
      RememberStep(q, keys, p.frame, x, CameBack(init, x), CameBack(keySets, x));
    }
  }

  lemma NothingRemembered(p: Presence, x: int)
    requires Inv(p) && x in p.live
    ensures Remembers(p, p.frame, x, CameBack([], x))
  {
  }

  lemma {:induction false} RunTracks(p: Presence, keySets: seq<set<int>>, since: nat, base: set<int>)
    requires Inv(p) && Tracks(p, since, base)
    ensures Inv(RefreshAll(p, keySets)) && Tracks(RefreshAll(p, keySets), since, base)
    decreases |keySets|
  {
    hide Inv, Tracks, Refresh;
    if keySets != [] {
      RunTracks(p, keySets[..|keySets| - 1], since, base);
      RefreshTracks(RefreshAll(p, keySets[..|keySets| - 1]), keySets[|keySets| - 1], since, base);
    }
  }

  /** Over every run within the horizon: of the keys that were there and are gone, exactly those
      linger that left, came back and left again. */
  lemma LingersIff(p: Presence, keySets: seq<set<int>>, x: int)
    requires Inv(p) && x in p.live
    requires var q := RefreshAll(p, keySets); x !in q.live && q.horizon <= p.frame
    ensures Lingers(RefreshAll(p, keySets), p.frame, x) <==> CameBack(keySets, x)
  {
    hide Inv, CameBack, RefreshAll, NewestFirst;
    var q := RefreshAll(p, keySets);
    RunRemembers(p, keySets, x);
    TracksNow(p);
    RunTracks(p, keySets, p.frame, p.live.Keys);
    var t :| t in q.removed && t.key == x && p.frame < t.removedFrame;
    if Lingers(q, p.frame, x) {
      var u :| u in q.removed && u.key == x && p.frame < u.addedFrame;
      OneStone(q, t, u);
    }
  }

  lemma OneStone(p: Presence, t: Stone, u: Stone)
    requires Inv(p) && t in p.removed && u in p.removed && t.key == u.key
    ensures t == u
  {
  }
}
