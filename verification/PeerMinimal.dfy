/** What a peer delta leaves out: no field is sent that has not changed, over whole runs. */
module PeerMinimal {
  import opened Presence
  import opened PeerHistory
  import opened PeerSync
  import Sorting

  /** Every poll reports the peer, with the same value of field k. */
  ghost predicate Unchanged(polls: seq<seq<Peer>>, x: int, k: nat, value: int)
    requires k < NUM_FIELDS
  {
    forall n | 0 <= n < |polls| :: x in AsTable(polls[n]) && AsTable(polls[n])[x].info[k] == value
  }

  /** A field that does not change keeps its frame, whatever happens to the others. */
  lemma {:induction false} FieldKeepsFrame(h: History, polls: seq<seq<Peer>>, x: int, k: nat)
    requires k < NUM_FIELDS && x in h.peers && Unchanged(polls, x, k, h.peers[x].info[k])
    ensures var h' := Run(h, polls);
            && x in h'.peers && h'.peers[x].info[k] == h.peers[x].info[k]
            && h'.peers[x].frame[k] == h.peers[x].frame[k] && h'.peers[x].added == h.peers[x].added
    decreases |polls|
  {
    hide Refresh, PresenceOf, AsTable;
    if polls != [] {
      var n := |polls| - 1;
      FieldKeepsFrame(h, polls[..n], x, k);
      assert x in AsTable(polls[n]);
      PolledTableIsKeyed(polls[n]);
      StepKeepsFrame(Run(h, polls[..n]), AsTable(polls[n]), x, k);
    }
  }

  lemma StepKeepsFrame(h: History, input: map<int, Peer>, x: int, k: nat)
    requires k < NUM_FIELDS && x in h.peers && x in input && Keyed(input) && input[x].info[k] == h.peers[x].info[k]
    ensures var h' := Update(h, input);
            && x in h'.peers && h'.peers[x].info[k] == h.peers[x].info[k]
            && h'.peers[x].frame[k] == h.peers[x].frame[k] && h'.peers[x].added == h.peers[x].added
  {
    hide Refresh, PresenceOf;
  }

  // ---------------------------------------------------------------- frames are not ahead

  ghost predicate Bounded(e: Entry, frame: nat) {
    e.added <= frame && forall k | 0 <= k < NUM_FIELDS :: e.frame[k] <= frame
  }

  ghost predicate FramesBounded(h: History) {
    forall x | x in h.peers :: Bounded(h.peers[x], h.frame)
  }

  lemma PeerBounded(peers: map<int, Entry>, input: map<int, Peer>, frame: nat, x: int)
    requires x in input && Keyed(input) && (x in peers ==> Bounded(peers[x], frame))
    ensures Bounded(NextPeers(peers, input, frame + 1)[x], frame + 1)
  {
  }

  lemma NextFrame(h: History, input: map<int, Peer>)
    ensures Update(h, input).frame == h.frame + 1 && Update(h, input).peers.Keys == input.Keys
  {
  }

  lemma {:induction false} RunBounded(h: History, polls: seq<seq<Peer>>)
    requires FramesBounded(h)
    ensures FramesBounded(Run(h, polls))
    decreases |polls|
  {
    hide Bounded, Refresh, PresenceOf, NextPeers, AsTable;
    if polls != [] {
      var n := |polls| - 1;
      RunBounded(h, polls[..n]);
      var g := Run(h, polls[..n]);
      var h' := Update(g, AsTable(polls[n]));
      PolledTableIsKeyed(polls[n]);
      NextFrame(g, AsTable(polls[n]));
      forall x | x in h'.peers ensures Bounded(h'.peers[x], h'.frame) {
        PeerBounded(g.peers, AsTable(polls[n]), g.frame, x);
      }
    }
  }

  // ---------------------------------------------------------------- what is sent

  lemma {:induction false} UpdateIsOfPeer(peers: seq<Entry>, since: nat, wanted: set<nat>, u: PeerUpdate)
    returns (i: nat)
    requires u in UpdatesFor(peers, since, wanted)
    ensures i < |peers| && UpdateFor(peers[i], since, wanted) == [u]
    decreases |peers|
  {
    hide UpdateFor;
    var n := |peers| - 1;
    UpdateIsOne(peers[n], since, wanted);
    if u in UpdateFor(peers[n], since, wanted) {
      i := n;
    } else {
      i := UpdateIsOfPeer(peers[..n], since, wanted, u);
    }
  }

  lemma MaskIsChanged(e: Entry, since: nat, wanted: set<nat>, u: PeerUpdate)
    requires UpdateFor(e, since, wanted) == [u] && 0 < since && e.added <= since
    ensures u.id == e.id && u.mask != {}
    ensures forall k | k in u.mask :: k in wanted && k < NUM_FIELDS && e.frame[k] > since
  {
  }

  /** A peer that every poll reports is the one that was there. */
  lemma {:induction false} StaysTheSame(h: History, polls: seq<seq<Peer>>, x: int)
    requires x in h.peers && forall n | 0 <= n < |polls| :: x in AsTable(polls[n])
    ensures x in Run(h, polls).peers && Run(h, polls).peers[x].added == h.peers[x].added
    decreases |polls|
  {
    hide Refresh, PresenceOf, AsTable, NextEntry;
    if polls != [] {
      var n := |polls| - 1;
      StaysTheSame(h, polls[..n], x);
      PolledTableIsKeyed(polls[n]);
      AddedOf(Run(h, polls[..n]).peers, AsTable(polls[n])[x], Run(h, polls[..n]).frame + 1);
    }
  }

  /** The entry behind an update. */
  lemma UpdateSource(h: History, peers: seq<Entry>, since: nat, requested: set<nat>, u: PeerUpdate)
    requires Sorting.Strict(peers, ByEntryId()) && h.peers == Sorting.Table(peers, ByEntryId())
    requires 0 < since && h.horizon <= since && u in Answer(h, peers, since, requested).updated
    ensures u.id in h.peers
    ensures h.peers[u.id].added <= since ==>
              && u.mask != {}
              && forall k | k in u.mask :: k in requested && k < NUM_FIELDS && h.peers[u.id].frame[k] > since
  {
    hide UpdateFor, Sorting.Strict, Sorting.Table, PresenceOf, RemovedSince;
    var i := UpdateIsOfPeer(peers, since, Wanted(requested), u);
    EntryAt(peers, i);
    UpdateIsOne(peers[i], since, Wanted(requested));
    if peers[i].added <= since {
      MaskIsChanged(peers[i], since, Wanted(requested), u);
    }
  }

  /** Over any run behind a cursor: a delta reports a peer that was there all the time only if one of
      the requested fields was polled with another value, and then only such fields. */
  lemma OnlyChangesAreSent(
    limit: nat, before: seq<seq<Peer>>, after: seq<seq<Peer>>, peers: seq<Entry>, requested: set<nat>,
    u: PeerUpdate)
    requires var h0 := Run(Init(limit), before);
             var h1 := Run(h0, after);
             && Sorting.Strict(peers, ByEntryId()) && h1.peers == Sorting.Table(peers, ByEntryId())
             && 0 < h0.frame && h1.horizon <= h0.frame
             && u in Answer(h1, peers, h0.frame, requested).updated
             && u.id in h0.peers && (forall n | 0 <= n < |after| :: u.id in AsTable(after[n]))
    ensures var h0 := Run(Init(limit), before);
            u.mask != {} && forall k | k in u.mask ::
              k in requested && k < NUM_FIELDS && !Unchanged(after, u.id, k, h0.peers[u.id].info[k])
  {
    hide Run, Init, FramesBounded, AsTable, UpdateFor, Answer, Unchanged, Sorting.Strict, Sorting.Table;
    var h0 := Run(Init(limit), before);
    var h1 := Run(h0, after);
    InitBounded(limit);
    RunBounded(Init(limit), before);
    BoundedAt(h0, u.id);
    StaysTheSame(h0, after, u.id);
    UpdateSource(h1, peers, h0.frame, requested, u);
    forall k | k in u.mask ensures !Unchanged(after, u.id, k, h0.peers[u.id].info[k]) {
      if Unchanged(after, u.id, k, h0.peers[u.id].info[k]) {
        FieldKeepsFrame(h0, after, u.id, k);
      }
    }
  }

  lemma InitBounded(limit: nat)
    ensures FramesBounded(Init(limit))
  {
  }

  lemma BoundedAt(h: History, x: int)
    requires FramesBounded(h) && x in h.peers
    ensures Bounded(h.peers[x], h.frame)
  {
  }
}
