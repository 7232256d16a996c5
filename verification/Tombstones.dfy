/** The bounded, newest-first list of removals that torrent_history, piece_history and
    peer_history each keep, together with the horizon that says how far back it reaches. */
module Tombstones {
  import opened Basics

  /** One removal: the frame it happened in, the frame the removed incarnation was added in,
      and whatever the history recorded about it at that moment. */
  datatype Tombstone<T> = Tombstone(removedFrame: nat, addedFrame: nat, key: int, info: T)

  /** A client whose cursor is `since` had seen this incarnation and has not seen it go. */
  predicate Crosses<T>(t: Tombstone<T>, since: nat) {
    t.addedFrame <= since < t.removedFrame
  }

  predicate NewestFirst<T>(s: seq<Tombstone<T>>) {
    forall i, j | 0 <= i < j < |s| :: s[i].removedFrame >= s[j].removedFrame
  }

  /** Drops tombstones from the old end until at most `limit` are left; the horizon moves past
      every one that is dropped. */
  function Evict<T>(s: seq<Tombstone<T>>, horizon: nat, limit: nat): (r: (seq<Tombstone<T>>, nat))
    ensures r.0 == if |s| <= limit then s else s[..limit]
    ensures horizon <= r.1
    ensures forall i | |r.0| <= i < |s| :: s[i].removedFrame < r.1
    ensures r.1 == horizon || exists i | |r.0| <= i < |s| :: s[i].removedFrame + 1 == r.1
    decreases |s|
  {
    if |s| <= limit then (s, horizon)
    else
      var last := s[|s| - 1];
      Evict(s[..|s| - 1], Max(horizon, last.removedFrame + 1), limit)
  }

  /** The eviction loop: pop from the old end while there are too many. */
  method DropOldest<T>(s: seq<Tombstone<T>>, horizon: nat, limit: nat)
    returns (kept: seq<Tombstone<T>>, newHorizon: nat)
    ensures (kept, newHorizon) == Evict(s, horizon, limit)
  {
    kept, newHorizon := s, horizon;
    while |kept| > limit
      invariant Evict(kept, newHorizon, limit) == Evict(s, horizon, limit)
      decreases |kept|
    {
      newHorizon := Max(newHorizon, kept[|kept| - 1].removedFrame + 1);
      kept := kept[..|kept| - 1];
    }
  }

  /** The keys a query at `since` reports: scan from the newest, stop at the first tombstone
      that is not newer than `since`, skip incarnations the client never saw. */
  function Reported<T>(s: seq<Tombstone<T>>, since: nat, keep: Tombstone<T> -> bool): seq<int> {
    if s == [] || s[0].removedFrame <= since then []
    else
      (if s[0].addedFrame <= since && keep(s[0]) then [s[0].key] else [])
      + Reported(s[1..], since, keep)
  }

  /** Stopping at the first old tombstone loses nothing: exactly the keys of the crossing
      tombstones that pass `keep` are reported. */
  lemma {:induction false} ReportedExactly<T>(s: seq<Tombstone<T>>, since: nat, keep: Tombstone<T> -> bool, key: int)
    requires NewestFirst(s)
    ensures key in Reported(s, since, keep)
       <==> exists i :: 0 <= i < |s| && s[i].key == key && Crosses(s[i], since) && keep(s[i])
  {
    if s == [] {
    } else if s[0].removedFrame <= since {
      assert forall i | 0 <= i < |s| :: s[i].removedFrame <= since;
    } else {
      var rest := s[1..];
      ReportedExactly(rest, since, keep, key);
      assert forall i | 0 <= i < |rest| :: rest[i] == s[i + 1];
      if key in Reported(rest, since, keep) {
        var i :| 0 <= i < |rest| && rest[i].key == key && Crosses(rest[i], since) && keep(rest[i]);
        assert s[i + 1].key == key && Crosses(s[i + 1], since) && keep(s[i + 1]);
      }
      if i :| 0 <= i < |s| && s[i].key == key && Crosses(s[i], since) && keep(s[i]) {
        if i > 0 {
          assert rest[i - 1].key == key && Crosses(rest[i - 1], since) && keep(rest[i - 1]);
        }
      }
    }
  }

  lemma ReportedStep<T>(s: seq<Tombstone<T>>, i: nat, since: nat, keep: Tombstone<T> -> bool, before: seq<int>)
    requires i < |s| && s[i].removedFrame > since
    ensures before + Reported(s[i..], since, keep)
         == (if s[i].addedFrame <= since && keep(s[i]) then before + [s[i].key] else before)
            + Reported(s[i + 1..], since, keep)
  {
    assert s[i..][1..] == s[i + 1..];
  }

  /** The scan itself, as the queries run it. */
  method ScanReported<T>(s: seq<Tombstone<T>>, since: nat, keep: Tombstone<T> -> bool) returns (keys: seq<int>)
    ensures keys == Reported(s, since, keep)
  {
    keys := [];
    var i := 0;
    assert s[0..] == s;
    while i < |s| && s[i].removedFrame > since
      invariant i <= |s|
      invariant keys + Reported(s[i..], since, keep) == Reported(s, since, keep)
    {
      ReportedStep(s, i, since, keep, keys);
      if s[i].addedFrame <= since && keep(s[i]) {
        keys := keys + [s[i].key];
      }
      i := i + 1;
    }
    assert Reported(s[i..], since, keep) == [];
  }
}
