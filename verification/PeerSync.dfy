/** A client of get-peers-updates: what applying a delta gives it, exactly, over whole runs. */
module PeerSync {
  import opened Maps
  import opened Presence
  import opened PeerHistory
  import Sorting

  /** What a client holds of one peer: the values of the fields it asked for. */
  type Record = map<nat, int>

  type View = map<int, Record>

  /** The peers and their values at one moment. */
  type Snapshot = map<int, Info>

  function FieldsOf(info: Info, mask: set<nat>): Record {
    map k | k in mask && k < NUM_FIELDS :: info[k]
  }

  function ViewOf(s: Snapshot, wanted: set<nat>): View {
    map x | x in s :: FieldsOf(s[x], wanted)
  }

  function Infos(peers: map<int, Entry>): Snapshot {
    map x | x in peers :: peers[x].info
  }

  function Merge(view: View, u: PeerUpdate): View {
    view[u.id := (if u.id in view then view[u.id] else map[]) + FieldsOf(u.info, u.mask)]
  }

  function MergeAll(view: View, us: seq<PeerUpdate>): View
    decreases |us|
  {
    if us == [] then view else Merge(MergeAll(view, us[..|us| - 1]), us[|us| - 1])
  }

  function Apply(view: View, r: QueryResult): View {
    MergeAll(if r.snapshot then map[] else view - (set x | x in r.removed), r.updated)
  }

  /** The query of a history whose vector of peers is `peers`. */
  function Answer(h: History, peers: seq<Entry>, sinceFrame: nat, requested: set<nat>): QueryResult {
    var since := if sinceFrame < h.horizon then 0 else sinceFrame;
    QueryResult(
      since == 0, UpdatesFor(peers, since, Wanted(requested)),
      if since == 0 then [] else RemovedSince(PresenceOf(h), since))
  }

  ghost predicate Ok(h: History, peers: seq<Entry>) {
    Sorting.Strict(peers, ByEntryId()) && h.peers == Sorting.Table(peers, ByEntryId()) && Inv(PresenceOf(h))
  }

  // ---------------------------------------------------------------- updates, peer by peer

  lemma MergeOneMore(view: View, us: seq<PeerUpdate>, more: seq<PeerUpdate>)
    requires |more| <= 1
    ensures MergeAll(view, us + more) == if more == [] then MergeAll(view, us) else Merge(MergeAll(view, us), more[0])
  {
    if more == [] {
      assert us + more == us;
    } else {
      assert (us + more)[..|us|] == us;
    }
  }

  /** The record a client ends up with for one peer that is live. */
  function Updated(old_: Record, e: Entry, since: nat, wanted: set<nat>): Record {
    if UpdateFor(e, since, wanted) == [] then old_
    else old_ + FieldsOf(e.info, UpdateFor(e, since, wanted)[0].mask)
  }

  lemma {:induction false} UpdatesElsewhere(view: View, peers: seq<Entry>, since: nat, wanted: set<nat>, x: int)
    requires forall i | 0 <= i < |peers| :: peers[i].id != x
    ensures SameAt(MergeAll(view, UpdatesFor(peers, since, wanted)), view, x)
    decreases |peers|
  {
    hide UpdateFor, FieldsOf, MergeAll;
    if peers == [] {
      NothingToMerge(view);
    } else {
      var n := |peers| - 1;
      UpdatesElsewhere(view, peers[..n], since, wanted, x);
      UpdateIsOne(peers[n], since, wanted);
      MergeOneMore(view, UpdatesFor(peers[..n], since, wanted), UpdateFor(peers[n], since, wanted));
    }
  }

  lemma NothingToMerge(view: View)
    ensures MergeAll(view, []) == view
  {
  }

  lemma {:induction false} UpdatesAt(view: View, peers: seq<Entry>, since: nat, wanted: set<nat>, i: nat)
    requires Sorting.Strict(peers, ByEntryId()) && i < |peers|
    ensures var after := MergeAll(view, UpdatesFor(peers, since, wanted));
            var x := peers[i].id;
            && (x in after <==> x in view || UpdateFor(peers[i], since, wanted) != [])
            && (x in after ==>
                  after[x] == Updated(if x in view then view[x] else map[], peers[i], since, wanted))
    decreases |peers|
  {
    hide UpdateFor, FieldsOf, MergeAll;
    var n := |peers| - 1;
    var last := peers[n];
    UpdateIsOne(last, since, wanted);
    MergeOneMore(view, UpdatesFor(peers[..n], since, wanted), UpdateFor(last, since, wanted));
    if i < n {
      assert ByEntryId()(peers[i]) < ByEntryId()(last);
      UpdatesAt(view, peers[..n], since, wanted, i);
    } else {
      LastIsNew(peers);
      UpdatesElsewhere(view, peers[..n], since, wanted, last.id);
    }
  }

  lemma LastIsNew(peers: seq<Entry>)
    requires Sorting.Strict(peers, ByEntryId()) && peers != []
    ensures forall j | 0 <= j < |peers| - 1 :: peers[j].id != peers[|peers| - 1].id
  {
    forall j | 0 <= j < |peers| - 1 ensures peers[j].id != peers[|peers| - 1].id {
      assert ByEntryId()(peers[j]) < ByEntryId()(peers[|peers| - 1]);
    }
  }

  lemma UpdateIsOne(e: Entry, since: nat, wanted: set<nat>)
    ensures |UpdateFor(e, since, wanted)| <= 1
    ensures UpdateFor(e, since, wanted) != [] ==> UpdateFor(e, since, wanted)[0].id == e.id
                                                  && UpdateFor(e, since, wanted)[0].info == e.info
  {
  }

  // ---------------------------------------------------------------- tracking an old frame

  /** Fields not changed since `since` still have the values they had. */
  ghost predicate Agrees(e: Entry, then_: Info, since: nat) {
    forall k | 0 <= k < NUM_FIELDS && e.frame[k] <= since :: e.info[k] == then_[k]
  }

  ghost predicate Knows(h: History, since: nat, base: Snapshot) {
    && Tracks(PresenceOf(h), since, base.Keys)
    && (forall x | x in h.peers && h.peers[x].added <= since && x in base :: Agrees(h.peers[x], base[x], since))
    && (forall x | x in h.peers :: FramesOk(h.peers[x]))
  }

  ghost predicate FramesOk(e: Entry) {
    forall k | 0 <= k < NUM_FIELDS :: e.added <= e.frame[k]
  }

  lemma AgreesLater(e: Entry, info: Info, frame: nat, then_: Info, since: nat)
    requires Agrees(e, then_, since) && since < frame
    ensures Agrees(UpdatedEntry(e, info, frame), then_, since)
  {
  }

  lemma FramesLater(peers: map<int, Entry>, p: Peer, frame: nat)
    requires p.id in peers ==> FramesOk(peers[p.id]) && peers[p.id].added <= frame
    ensures FramesOk(NextEntry(peers, p, frame))
  {
  }

  lemma UpdateKnows(h: History, input: map<int, Peer>, since: nat, base: Snapshot)
    requires Inv(PresenceOf(h)) && Keyed(input) && Knows(h, since, base)
    ensures Inv(PresenceOf(Update(h, input))) && Knows(Update(h, input), since, base)
  {
    hide Inv, Tracks, Candidates, Agrees, UpdatedEntry, NewEntry, FramesOk;
    var h' := Update(h, input);
    UpdatePresence(h, input);
    RefreshTracks(PresenceOf(h), input.Keys, since, base.Keys);
    TracksBound(PresenceOf(h), since, base.Keys);
    forall x | x in h'.peers
      ensures FramesOk(h'.peers[x])
      ensures h'.peers[x].added <= since && x in base ==> Agrees(h'.peers[x], base[x], since)
    {
      AddedOf(h.peers, input[x], h.frame + 1);
      AddedBound(h, x);
      FramesLater(h.peers, input[x], h.frame + 1);
      if x in h.peers && h.peers[x].added <= since && x in base {
        AgreesLater(h.peers[x], input[x].info, h.frame + 1, base[x], since);
      }
    }
  }

  lemma TracksBound(p: Presence, since: nat, base: set<int>)
    requires Tracks(p, since, base)
    ensures since <= p.frame
  {
  }

  lemma AddedBound(h: History, x: int)
    requires Inv(PresenceOf(h))
    ensures x in h.peers ==> 0 < h.peers[x].added <= h.frame
  {
    if x in h.peers {
      assert PresenceOf(h).live[x] == h.peers[x].added;
    }
  }

  lemma KnowsNow(h: History)
    requires Inv(PresenceOf(h)) && forall x | x in h.peers :: FramesOk(h.peers[x])
    ensures Knows(h, h.frame, Infos(h.peers))
  {
    TracksNow(PresenceOf(h));
    assert Infos(h.peers).Keys == PresenceOf(h).live.Keys;
  }

  // ---------------------------------------------------------------- the delta, exactly

  /** Peers the client keeps although they are gone. */
  ghost function Lingering(h: History, since: nat, view: View): View {
    map x | x in view && x !in h.peers && Lingers(PresenceOf(h), since, x) :: view[x]
  }

  predicate SameField(a: Record, b: Record, k: nat) {
    (k in a <==> k in b) && (k in a ==> a[k] == b[k])
  }

  lemma SameFields(a: Record, b: Record)
    requires forall k: nat :: SameField(a, b, k)
    ensures a == b
  {
    forall k: nat ensures (k in a <==> k in b) && (k in a ==> a[k] == b[k]) {
      assert SameField(a, b, k);
    }
  }

  lemma FieldAfter(e: Entry, then_: Info, since: nat, wanted: set<nat>, k: nat)
    requires 0 < since && FramesOk(e) && (e.added <= since ==> Agrees(e, then_, since))
    ensures SameField(Updated(FieldsOf(then_, wanted), e, since, wanted), FieldsOf(e.info, wanted), k)
  {
    if k in wanted && k < NUM_FIELDS && e.added <= since && e.frame[k] > since {
      assert k in ChangedFields(e, since, wanted);
    }
  }

  /** Merging a peer's delta into what the client had of it gives its current record. */
  lemma RecordAfter(e: Entry, then_: Info, since: nat, wanted: set<nat>)
    requires 0 < since && FramesOk(e) && (e.added <= since ==> Agrees(e, then_, since))
    ensures Updated(FieldsOf(then_, wanted), e, since, wanted) == FieldsOf(e.info, wanted)
  {
    hide Updated, FieldsOf, SameField, FramesOk, Agrees;
    forall k: nat ensures SameField(Updated(FieldsOf(then_, wanted), e, since, wanted), FieldsOf(e.info, wanted), k) {
      FieldAfter(e, then_, since, wanted, k);
    }
    SameFields(Updated(FieldsOf(then_, wanted), e, since, wanted), FieldsOf(e.info, wanted));
  }

  lemma NewRecord(e: Entry, since: nat, wanted: set<nat>)
    requires since == 0 || e.added > since
    ensures UpdateFor(e, since, wanted) != []
    ensures forall old_: Record | old_.Keys <= FieldsOf(e.info, wanted).Keys ::
      Updated(old_, e, since, wanted) == FieldsOf(e.info, wanted)
  {
  }

  lemma EntryOf(h: History, peers: seq<Entry>, x: int)
    requires Ok(h, peers)
    ensures x in h.peers <==> exists i :: 0 <= i < |peers| && peers[i].id == x
    ensures forall i | 0 <= i < |peers| && peers[i].id == x :: h.peers[x] == peers[i]
  {
    hide Inv, Sorting.Table;
    StrictIsDistinct(peers);
    Sorting.TableAt(peers, ByEntryId(), x);
    forall i | 0 <= i < |peers| ensures ByEntryId()(peers[i]) == peers[i].id {
    }
  }

  lemma RemovedAt(h: History, since: nat, base: Snapshot, x: int)
    requires Inv(PresenceOf(h)) && Knows(h, since, base) && h.horizon <= since
    ensures x in h.peers ==> x !in RemovedSince(PresenceOf(h), since)
    ensures x in base && x !in h.peers ==>
      (x in RemovedSince(PresenceOf(h), since) <==> !Lingers(PresenceOf(h), since, x))
    ensures x in h.peers && h.peers[x].added <= since ==> x in base
  {
    hide Inv, Agrees, FramesOk;
    RemovedExactly(PresenceOf(h), since, base.Keys, x);
  }

  lemma WantedBound(requested: set<nat>)
    ensures forall k | k in Wanted(requested) :: k < NUM_FIELDS
  {
  }

  /** Exactly the twenty fields of a peer can be had. */
  lemma TwentyFields(info: Info, requested: set<nat>, k: nat)
    ensures k in FieldsOf(info, Wanted(requested)) <==> k in requested && k < 20
  {
  }

  lemma DeltaAt(h: History, peers: seq<Entry>, since: nat, base: Snapshot, requested: set<nat>, x: int)
    requires Ok(h, peers) && Knows(h, since, base) && h.horizon <= since && 0 < since
    ensures var view := ViewOf(base, Wanted(requested));
            SameAt(Apply(view, Answer(h, peers, since, requested)),
                   ViewOf(Infos(h.peers), Wanted(requested)) + Lingering(h, since, view), x)
  {
    var wanted := Wanted(requested);
    var view := ViewOf(base, wanted);
    hide Inv, Tracks, Wanted, FieldsOf, Updated, UpdateFor, UpdatesFor, MergeAll, Lingers, Agrees, FramesOk,
         Sorting.Table, RemovedSince, Sorting.Strict;
    WantedBound(requested);
    EntryOf(h, peers, x);
    RemovedAt(h, since, base, x);
    var kept := view - (set y | y in RemovedSince(PresenceOf(h), since));
    if x !in h.peers {
      UpdatesElsewhere(kept, peers, since, wanted, x);
    } else {
      var i :| 0 <= i < |peers| && peers[i].id == x;
      UpdatesAt(kept, peers, since, wanted, i);
      var e := h.peers[x];
      if e.added > since {
        NewRecord(e, since, wanted);
        KeysOf(e.info, if x in base then base[x] else e.info, wanted);
      } else {
        RecordAfter(e, base[x], since, wanted);
      }
    }
  }

  lemma KeysOf(a: Info, b: Info, wanted: set<nat>)
    ensures FieldsOf(a, wanted).Keys == FieldsOf(b, wanted).Keys
    ensures var none: Record := map[]; none.Keys <= FieldsOf(a, wanted).Keys
  {
  }

  /** The delta, exactly, for every set of requested fields: applied to the view at `since` it
      gives the current peers and values and, besides, only the peers that linger. */
  lemma DeltaExactly(h: History, peers: seq<Entry>, since: nat, base: Snapshot, requested: set<nat>)
    requires Ok(h, peers) && Knows(h, since, base) && h.horizon <= since && 0 < since
    ensures var view := ViewOf(base, Wanted(requested));
            Apply(view, Answer(h, peers, since, requested))
            == ViewOf(Infos(h.peers), Wanted(requested)) + Lingering(h, since, view)
  {
    hide Ok, Knows, Apply, Answer, ViewOf, Lingering, SameAt, Wanted;
    var view := ViewOf(base, Wanted(requested));
    var after := Apply(view, Answer(h, peers, since, requested));
    var expected := ViewOf(Infos(h.peers), Wanted(requested)) + Lingering(h, since, view);
    forall x ensures SameAt(after, expected, x) {
      DeltaAt(h, peers, since, base, requested, x);
    }
    SameEverywhere(after, expected);
  }

  lemma SnapshotAt(h: History, peers: seq<Entry>, since: nat, requested: set<nat>, view: View, x: int)
    requires Ok(h, peers) && (since == 0 || since < h.horizon)
    ensures SameAt(Apply(view, Answer(h, peers, since, requested)), ViewOf(Infos(h.peers), Wanted(requested)), x)
  {
    hide Inv, Wanted, FieldsOf, Updated, UpdateFor, UpdatesFor, MergeAll, Sorting.Table, Sorting.Strict;
    EntryOf(h, peers, x);
    if x !in h.peers {
      UpdatesElsewhere(map[], peers, 0, Wanted(requested), x);
    } else {
      var i :| 0 <= i < |peers| && peers[i].id == x;
      UpdatesAt(map[], peers, 0, Wanted(requested), i);
      NewRecord(h.peers[x], 0, Wanted(requested));
      KeysOf(h.peers[x].info, h.peers[x].info, Wanted(requested));
    }
  }

  lemma SnapshotExactly(h: History, peers: seq<Entry>, since: nat, requested: set<nat>, view: View)
    requires Ok(h, peers) && (since == 0 || since < h.horizon)
    ensures Apply(view, Answer(h, peers, since, requested)) == ViewOf(Infos(h.peers), Wanted(requested))
  {
    hide Ok, Apply, Answer, ViewOf, SameAt, Wanted;
    var after, next := Apply(view, Answer(h, peers, since, requested)), ViewOf(Infos(h.peers), Wanted(requested));
    forall x ensures SameAt(after, next, x) {
      SnapshotAt(h, peers, since, requested, view, x);
    }
    SameEverywhere(after, next);
  }

  /** So the delta is right exactly when no peer the client holds has gone after coming back
      since its cursor. */
  lemma DeltaIsRightIff(h: History, peers: seq<Entry>, since: nat, base: Snapshot, requested: set<nat>)
    requires Ok(h, peers) && Knows(h, since, base) && h.horizon <= since && 0 < since
    ensures Apply(ViewOf(base, Wanted(requested)), Answer(h, peers, since, requested))
              == ViewOf(Infos(h.peers), Wanted(requested))
       <==> forall x | x in base && x !in h.peers :: !Lingers(PresenceOf(h), since, x)
  {
    hide Ok, Knows, Apply, Answer, Lingers, Wanted, FieldsOf;
    DeltaExactly(h, peers, since, base, requested);
    var next, left := ViewOf(Infos(h.peers), Wanted(requested)), Lingering(h, since, ViewOf(base, Wanted(requested)));
    if x :| x in base && x !in h.peers && Lingers(PresenceOf(h), since, x) {
      assert x in (next + left) && x !in next;
    } else {
      forall x ensures SameAt(next + left, next, x) {
      }
      SameEverywhere(next + left, next);
    }
  }

  // ---------------------------------------------------------------- whole runs

  ghost function Run(h: History, polls: seq<seq<Peer>>): History
    decreases |polls|
  {
    if polls == [] then h else Update(Run(h, polls[..|polls| - 1]), AsTable(polls[|polls| - 1]))
  }

  lemma {:induction false} RunKnows(h: History, polls: seq<seq<Peer>>, since: nat, base: Snapshot)
    requires Inv(PresenceOf(h)) && Knows(h, since, base)
    ensures Inv(PresenceOf(Run(h, polls))) && Knows(Run(h, polls), since, base)
    decreases |polls|
  {
    hide Inv, Knows, Update, AsTable, Keyed;
    if polls != [] {
      var n := |polls| - 1;
      RunKnows(h, polls[..n], since, base);
      PolledTableIsKeyed(polls[n]);
      UpdateKnows(Run(h, polls[..n]), AsTable(polls[n]), since, base);
    }
  }

  lemma PolledTableIsKeyed(polled: seq<Peer>)
    ensures Keyed(AsTable(polled))
  {
    hide Polled;
    PolledIsStrict(polled);
    PolledIsKeyed(Polled(polled));
  }

  lemma InitKnows(limit: nat)
    ensures Inv(PresenceOf(Init(limit))) && Knows(Init(limit), 0, map[])
  {
  }

  /** Whatever was polled before and after, with any list of peers in any order and with
      repeated identifiers, a client that held everything at frame K ends up with the current
      peers plus exactly those that linger. `peers` is the vector the history then holds. */
  lemma DeltaOverRuns(
    limit: nat, before: seq<seq<Peer>>, after: seq<seq<Peer>>, peers: seq<Entry>, requested: set<nat>)
    requires var h := Run(Run(Init(limit), before), after);
             Sorting.Strict(peers, ByEntryId()) && h.peers == Sorting.Table(peers, ByEntryId())
    ensures var h0 := Run(Init(limit), before);
            var h1 := Run(h0, after);
            var wanted := Wanted(requested);
            var view := ViewOf(Infos(h0.peers), wanted);
            Apply(view, Answer(h1, peers, h0.frame, requested))
            == if h0.frame == 0 || h0.frame < h1.horizon then ViewOf(Infos(h1.peers), wanted)
               else ViewOf(Infos(h1.peers), wanted) + Lingering(h1, h0.frame, view)
  {
    hide Inv, Knows, Run, Init, Apply, Answer, ViewOf, Lingering, Wanted, Sorting.Table, Sorting.Strict, Infos;
    var h0 := Run(Init(limit), before);
    var h1 := Run(h0, after);
    InitKnows(limit);
    RunKnows(Init(limit), before, 0, map[]);
    KnowsFrames(h0, 0, map[]);
    KnowsNow(h0);
    RunKnows(h0, after, h0.frame, Infos(h0.peers));
    if h0.frame == 0 || h0.frame < h1.horizon {
      SnapshotExactly(h1, peers, h0.frame, requested, ViewOf(Infos(h0.peers), Wanted(requested)));
    } else {
      DeltaExactly(h1, peers, h0.frame, Infos(h0.peers), requested);
    }
  }

  lemma KnowsFrames(h: History, since: nat, base: Snapshot)
    requires Knows(h, since, base)
    ensures forall x | x in h.peers :: FramesOk(h.peers[x])
  {
  }

  /** The identifiers of each poll. */
  function KeySets(polls: seq<seq<Peer>>): seq<set<int>> {
    seq(|polls|, i requires 0 <= i < |polls| => AsTable(polls[i]).Keys)
  }

  lemma {:induction false} RunPresence(h: History, polls: seq<seq<Peer>>)
    ensures PresenceOf(Run(h, polls)) == RefreshAll(PresenceOf(h), KeySets(polls))
    decreases |polls|
  {
    hide Update, Refresh, PresenceOf, AsTable, Keyed;
    if polls == [] {
      assert KeySets(polls) == [];
    } else {
      var n := |polls| - 1;
      RunPresence(h, polls[..n]);
      PolledTableIsKeyed(polls[n]);
      UpdatePresence(Run(h, polls[..n]), AsTable(polls[n]));
      assert KeySets(polls)[..n] == KeySets(polls[..n]);
    }
  }

  lemma LiveIsPeers(h: History, x: int)
    ensures x in PresenceOf(h).live <==> x in h.peers
  {
  }

  lemma LingersAfter(h: History, polls: seq<seq<Peer>>, x: int)
    requires Inv(PresenceOf(h)) && x in h.peers && x !in Run(h, polls).peers && Run(h, polls).horizon <= h.frame
    ensures Lingers(PresenceOf(Run(h, polls)), h.frame, x) <==> CameBack(KeySets(polls), x)
  {
    hide Inv, Run, RefreshAll, Lingers, CameBack, KeySets;
    RunPresence(h, polls);
    LiveIsPeers(h, x);
    LiveIsPeers(Run(h, polls), x);
    LingersIff(PresenceOf(h), KeySets(polls), x);
  }

  /** A peer is lost on the client: it was there, is gone, and has come back in between. */
  ghost predicate LeftTwice(h0: History, after: seq<seq<Peer>>, x: int) {
    x in h0.peers && x !in Run(h0, after).peers && CameBack(KeySets(after), x)
  }

  lemma ViewHas(s: Snapshot, wanted: set<nat>, x: int)
    ensures x in ViewOf(s, wanted) <==> x in s
  {
  }

  lemma InfosHas(peers: map<int, Entry>, x: int)
    ensures x in Infos(peers) <==> x in peers
  {
  }

  ghost predicate IsVector(h: History, peers: seq<Entry>) {
    Sorting.Strict(peers, ByEntryId()) && h.peers == Sorting.Table(peers, ByEntryId())
  }

  /** A poll after any run is right iff it is a snapshot or no peer left, came back and left again
      since the last one. */
  lemma RunIsRightIff(
    limit: nat, before: seq<seq<Peer>>, after: seq<seq<Peer>>, peers: seq<Entry>, requested: set<nat>)
    requires IsVector(Run(Run(Init(limit), before), after), peers)
    ensures var h0 := Run(Init(limit), before);
            var h1 := Run(h0, after);
            var wanted := Wanted(requested);
            Apply(ViewOf(Infos(h0.peers), wanted), Answer(h1, peers, h0.frame, requested))
              == ViewOf(Infos(h1.peers), wanted)
            <==> h0.frame == 0 || h0.frame < h1.horizon || forall x :: !LeftTwice(h0, after, x)
  {
    hide Inv, Knows, Run, Init, Apply, Answer, ViewOf, Wanted, Sorting.Table, Sorting.Strict, Infos, Lingers,
         CameBack, PresenceOf;
    var h0 := Run(Init(limit), before);
    var h1 := Run(h0, after);
    var base := Infos(h0.peers);
    InitKnows(limit);
    RunKnows(Init(limit), before, 0, map[]);
    KnowsFrames(h0, 0, map[]);
    KnowsNow(h0);
    RunKnows(h0, after, h0.frame, base);
    if h0.frame == 0 || h0.frame < h1.horizon {
      SnapshotExactly(h1, peers, h0.frame, requested, ViewOf(base, Wanted(requested)));
    } else {
      DeltaIsRightIff(h1, peers, h0.frame, base, requested);
      forall x
        ensures LeftTwice(h0, after, x) <==> x in base && x !in h1.peers && Lingers(PresenceOf(h1), h0.frame, x)
      {
        InfosHas(h0.peers, x);
        if x in h0.peers && x !in h1.peers {
          LingersAfter(h0, after, x);
        }
      }
    }
  }

  // ---------------------------------------------------------------- many polls

  /** Those of the peers a client should not hold that are still not there. */
  function StillGone(extra: View, h: History): View {
    map x | x in extra && x !in h.peers :: extra[x]
  }

  /** Records of no more than the wanted fields, of peers that are not in `base`. */
  ghost predicate IsExtra(extra: View, base: Snapshot, wanted: set<nat>) {
    forall x | x in extra :: x !in base && extra[x].Keys <= set k | k in wanted && k < NUM_FIELDS
  }

  lemma FieldKeys(info: Info, wanted: set<nat>)
    ensures FieldsOf(info, wanted).Keys == set k | k in wanted && k < NUM_FIELDS
  {
  }

  /** A client that also holds peers it should not keeps them until they come back. */
  lemma ExtendedDeltaAt(
    h: History, peers: seq<Entry>, since: nat, base: Snapshot, requested: set<nat>, extra: View, x: int)
    requires Ok(h, peers) && Knows(h, since, base) && h.horizon <= since && 0 < since
    requires IsExtra(extra, base, Wanted(requested))
    ensures var view := ViewOf(base, Wanted(requested));
            SameAt(Apply(view + extra, Answer(h, peers, since, requested)),
                   Apply(view, Answer(h, peers, since, requested)) + StillGone(extra, h), x)
  {
    var wanted := Wanted(requested);
    var view := ViewOf(base, wanted);
    hide Inv, Tracks, Wanted, FieldsOf, Updated, UpdateFor, UpdatesFor, MergeAll, Lingers, Agrees, FramesOk,
         Sorting.Table, RemovedSince, Sorting.Strict;
    EntryOf(h, peers, x);
    RemovedAt(h, since, base, x);
    RemovedWereThere(h, since, base, x);
    var gone := set y | y in RemovedSince(PresenceOf(h), since);
    if x !in h.peers {
      UpdatesElsewhere(view - gone, peers, since, wanted, x);
      UpdatesElsewhere(view + extra - gone, peers, since, wanted, x);
    } else {
      var i :| 0 <= i < |peers| && peers[i].id == x;
      UpdatesAt(view - gone, peers, since, wanted, i);
      UpdatesAt(view + extra - gone, peers, since, wanted, i);
      var e := h.peers[x];
      if e.added > since {
        NewRecord(e, since, wanted);
        KeysOf(e.info, if x in base then base[x] else e.info, wanted);
        FieldKeys(e.info, wanted);
      }
    }
  }

  lemma RemovedWereThere(h: History, since: nat, base: Snapshot, x: int)
    requires Inv(PresenceOf(h)) && Knows(h, since, base) && h.horizon <= since
    ensures x in RemovedSince(PresenceOf(h), since) ==> x in base
  {
    hide Inv, Agrees, FramesOk;
    RemovedExactly(PresenceOf(h), since, base.Keys, x);
  }

  lemma ExtendedDelta(
    h: History, peers: seq<Entry>, since: nat, base: Snapshot, requested: set<nat>, extra: View)
    requires Ok(h, peers) && Knows(h, since, base) && h.horizon <= since && 0 < since
    requires IsExtra(extra, base, Wanted(requested))
    ensures var view := ViewOf(base, Wanted(requested));
            Apply(view + extra, Answer(h, peers, since, requested))
            == ViewOf(Infos(h.peers), Wanted(requested)) + (Lingering(h, since, view) + StillGone(extra, h))
  {
    hide Ok, Knows, Apply, Answer, ViewOf, Lingering, SameAt, StillGone, Wanted, IsExtra;
    var view := ViewOf(base, Wanted(requested));
    var r := Answer(h, peers, since, requested);
    DeltaExactly(h, peers, since, base, requested);
    forall x ensures SameAt(Apply(view + extra, r), Apply(view, r) + StillGone(extra, h), x) {
      ExtendedDeltaAt(h, peers, since, base, requested, extra, x);
    }
    SameEverywhere(Apply(view + extra, r), Apply(view, r) + StillGone(extra, h));
    MergeAssoc(ViewOf(Infos(h.peers), Wanted(requested)), Lingering(h, since, view), StillGone(extra, h));
  }

  /** One interval between two polls of a client: what was polled from libtorrent, and the vector
      the history then holds. */
  datatype Round = Round(polls: seq<seq<Peer>>, peers: seq<Entry>)

  ghost function Server(limit: nat, rounds: seq<Round>): History
    decreases |rounds|
  {
    if rounds == [] then Init(limit) else Run(Server(limit, rounds[..|rounds| - 1]), rounds[|rounds| - 1].polls)
  }

  ghost predicate Legal(limit: nat, rounds: seq<Round>)
    decreases |rounds|
  {
    rounds == []
    || (Legal(limit, rounds[..|rounds| - 1]) && IsVector(Server(limit, rounds), rounds[|rounds| - 1].peers))
  }

  /** What a client that always asks for the same fields holds, whatever it held at first. */
  ghost function Client(limit: nat, rounds: seq<Round>, requested: set<nat>, stale: View): View
    decreases |rounds|
  {
    if rounds == [] then stale
    else
      var init := rounds[..|rounds| - 1];
      Apply(
        Client(limit, init, requested, stale),
        Answer(Server(limit, rounds), rounds[|rounds| - 1].peers, Server(limit, init).frame, requested))
  }

  /** The peers it should not hold: a snapshot clears them, a delta adds those that linger. */
  ghost function Ghosts(limit: nat, rounds: seq<Round>, requested: set<nat>, stale: View): View
    decreases |rounds|
  {
    if rounds == [] then stale
    else
      var init := rounds[..|rounds| - 1];
      var h0, h := Server(limit, init), Server(limit, rounds);
      if h0.frame == 0 || h0.frame < h.horizon then map[]
      else
        Lingering(h, h0.frame, ViewOf(Infos(h0.peers), Wanted(requested)))
        + StillGone(Ghosts(limit, init, requested, stale), h)
  }

  lemma {:induction false} ServerOk(limit: nat, rounds: seq<Round>)
    ensures Inv(PresenceOf(Server(limit, rounds)))
    ensures forall x | x in Server(limit, rounds).peers :: FramesOk(Server(limit, rounds).peers[x])
    decreases |rounds|
  {
    hide Inv, Knows, Run, PresenceOf, FramesOk;
    InitKnows(limit);
    if rounds == [] {
      KnowsFrames(Init(limit), 0, map[]);
    } else {
      var h := Server(limit, rounds[..|rounds| - 1]);
      ServerOk(limit, rounds[..|rounds| - 1]);
      KnowsNow(h);
      RunKnows(h, rounds[|rounds| - 1].polls, h.frame, Infos(h.peers));
      KnowsFrames(Server(limit, rounds), h.frame, Infos(h.peers));
    }
  }

  lemma StillExtra(h: History, since: nat, base: Snapshot, wanted: set<nat>, extra: View)
    requires IsExtra(extra, base, wanted)
    ensures IsExtra(Lingering(h, since, ViewOf(base, wanted)) + StillGone(extra, h), Infos(h.peers), wanted)
  {
    hide Lingers, FieldsOf, PresenceOf;
    forall x | x in base ensures FieldsOf(base[x], wanted).Keys == set k | k in wanted && k < NUM_FIELDS {
      FieldKeys(base[x], wanted);
    }
  }

  lemma {:induction false} GhostsAreExtra(limit: nat, rounds: seq<Round>, requested: set<nat>, stale: View)
    ensures rounds != [] ==>
      IsExtra(Ghosts(limit, rounds, requested, stale), Infos(Server(limit, rounds).peers), Wanted(requested))
    decreases |rounds|
  {
    hide Run, IsExtra, ViewOf, Lingering, StillGone, Wanted, Infos;
    if rounds != [] {
      var init := rounds[..|rounds| - 1];
      var h0, h := Server(limit, init), Server(limit, rounds);
      GhostsAreExtra(limit, init, requested, stale);
      if h0.frame == 0 || h0.frame < h.horizon {
        NothingIsExtra(Infos(h.peers), Wanted(requested));
      } else {
        StillExtra(h, h0.frame, Infos(h0.peers), Wanted(requested), Ghosts(limit, init, requested, stale));
      }
    }
  }

  lemma NothingIsExtra(base: Snapshot, wanted: set<nat>)
    ensures IsExtra(map[], base, wanted)
  {
  }

  /** Over any number of polls: the client holds the current peers and besides exactly the ghosts
      that have gathered since the last snapshot, none of which is a current peer. */
  lemma {:induction false} SessionExactly(limit: nat, rounds: seq<Round>, requested: set<nat>, stale: View)
    requires Legal(limit, rounds)
    ensures Client(limit, rounds, requested, stale)
         == ViewOf(Infos(Server(limit, rounds).peers), Wanted(requested)) + Ghosts(limit, rounds, requested, stale)
    ensures forall x | x in Ghosts(limit, rounds, requested, stale) :: x !in Server(limit, rounds).peers
    decreases |rounds|
  {
    hide Inv, Knows, Run, Apply, Answer, ViewOf, Lingering, StillGone, Wanted, Infos, IsExtra, PresenceOf, FramesOk,
         Sorting.Table, Sorting.Strict;
    if rounds == [] {
      NothingYet(limit, requested, stale);
    } else {
      var init, last := rounds[..|rounds| - 1], rounds[|rounds| - 1];
      var h0, h := Server(limit, init), Server(limit, rounds);
      var base, extra := Infos(h0.peers), Ghosts(limit, init, requested, stale);
      ServerOk(limit, init);
      ServerOk(limit, rounds);
      KnowsNow(h0);
      RunKnows(h0, last.polls, h0.frame, base);
      SessionExactly(limit, init, requested, stale);
      GhostsAreExtra(limit, init, requested, stale);
      GhostsAreExtra(limit, rounds, requested, stale);
      ExtraIsGone(Ghosts(limit, rounds, requested, stale), h, Wanted(requested));
      if h0.frame == 0 || h0.frame < h.horizon {
        SnapshotExactly(h, last.peers, h0.frame, requested, ViewOf(base, Wanted(requested)) + extra);
        assert ViewOf(Infos(h.peers), Wanted(requested)) + map[] == ViewOf(Infos(h.peers), Wanted(requested));
      } else {
        ExtendedDelta(h, last.peers, h0.frame, base, requested, extra);
      }
    }
  }

  lemma ExtraIsGone(extra: View, h: History, wanted: set<nat>)
    requires IsExtra(extra, Infos(h.peers), wanted)
    ensures forall x | x in extra :: x !in h.peers
  {
  }

  lemma NothingYet(limit: nat, requested: set<nat>, stale: View)
    ensures stale == ViewOf(Infos(Init(limit).peers), Wanted(requested)) + stale
    ensures forall x | x in stale :: x !in Init(limit).peers
  {
    hide Wanted;
    forall x ensures SameAt(stale, ViewOf(Infos(Init(limit).peers), Wanted(requested)) + stale, x) {
    }
    SameEverywhere(stale, ViewOf(Infos(Init(limit).peers), Wanted(requested)) + stale);
  }
}
