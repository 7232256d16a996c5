/** src/peer_history.cpp: the connected peers of one torrent, as per-field deltas. */
module PeerHistory {
  import opened Basics
  import opened Tombstones
  import opened Presence
  import opened Collections
  import Sorting

  const NUM_FIELDS := 20

  /** One value per field of peer_info that is tracked. */
  type Info = i: seq<int> | |i| == NUM_FIELDS witness seq(NUM_FIELDS, _ => 0)

  type Frames = f: seq<nat> | |f| == NUM_FIELDS witness seq(NUM_FIELDS, _ => 0)

  /** A polled peer and its identifier. */
  datatype Peer = Peer(id: int, info: Info)

  datatype Entry = Entry(id: int, info: Info, added: nat, frame: Frames)

  datatype History = History(
    peers: map<int, Entry>, removed: seq<Stone>, frame: nat, horizon: nat, limit: nat)

  function PresenceOf(h: History): Presence {
    Presence(map x | x in h.peers :: h.peers[x].added, h.removed, h.frame, h.horizon, h.limit)
  }

  function Init(limit: nat): History {
    History(map[], [], 0, 0, limit)
  }

  // ---------------------------------------------------------------- update, as a function

  function NewEntry(p: Peer, frame: nat): Entry {
    Entry(p.id, p.info, frame, seq(NUM_FIELDS, _ => frame))
  }

  /** update_info: each field that differs gets the new frame. */
  function UpdatedEntry(e: Entry, info: Info, frame: nat): Entry {
    e.(info := info,
       frame := seq(NUM_FIELDS, k requires 0 <= k < NUM_FIELDS => if info[k] != e.info[k] then frame else e.frame[k]))
  }

  function NextEntry(peers: map<int, Entry>, p: Peer, frame: nat): Entry {
    if p.id in peers then UpdatedEntry(peers[p.id], p.info, frame) else NewEntry(p, frame)
  }

  function NextPeers(peers: map<int, Entry>, input: map<int, Peer>, frame: nat): map<int, Entry> {
    map x | x in input :: NextEntry(peers, input[x], frame)
  }

  /** `input` is what was polled, by identifier. */
  ghost function Update(h: History, input: map<int, Peer>): History {
    var p := Refresh(PresenceOf(h), input.Keys);
    History(NextPeers(h.peers, input, h.frame + 1), p.removed, p.frame, p.horizon, h.limit)
  }

  ghost predicate Keyed(input: map<int, Peer>) {
    forall x | x in input :: input[x].id == x
  }

  lemma UpdatePresence(h: History, input: map<int, Peer>)
    requires Keyed(input)
    ensures PresenceOf(Update(h, input)) == Refresh(PresenceOf(h), input.Keys)
  {
    hide Candidates, UpdatedEntry, NewEntry;
    var a, b := PresenceOf(Update(h, input)).live, Refresh(PresenceOf(h), input.Keys).live;
    forall x ensures (x in a <==> x in b) && (x in a ==> a[x] == b[x]) {
      if x in input {
        AddedOf(h.peers, input[x], h.frame + 1);
      }
    }
    assert a == b;
  }

  lemma AddedOf(peers: map<int, Entry>, p: Peer, frame: nat)
    ensures NextEntry(peers, p, frame).added == if p.id in peers then peers[p.id].added else frame
  {
  }

  lemma UpdateKeepsInv(h: History, input: map<int, Peer>)
    requires Inv(PresenceOf(h)) && Keyed(input)
    ensures Inv(PresenceOf(Update(h, input)))
  {
    hide Inv, Candidates, Tracks, PresenceOf, Update;
    UpdatePresence(h, input);
    RefreshTracks(PresenceOf(h), input.Keys, 0, {});
  }

  // ---------------------------------------------------------------- the polled list

  function ById(): Peer -> int {
    (p: Peer) => p.id
  }

  function ByEntryId(): Entry -> int {
    (e: Entry) => e.id
  }

  /** std::unique on a sorted list: the first of each run of equal ids stays. */
  function Dedup(s: seq<Peer>): (r: seq<Peer>)
    ensures Sorting.Ordered(s, ById()) ==> Sorting.Strict(r, ById())
    ensures |r| <= |s| && (s != [] ==> r != [] && r[|r| - 1].id == s[|s| - 1].id)
    decreases |s|
  {
    if s == [] then []
    else
      var n := |s| - 1;
      var init := Dedup(s[..n]);
      if n > 0 && s[n - 1].id == s[n].id then init
      else
        assert Sorting.Ordered(s, ById()) && n > 0 ==> ById()(s[n - 1]) <= ById()(s[n]);
        init + [s[n]]
  }

  function Polled(polled: seq<Peer>): seq<Peer> {
    Dedup(Sorting.Sort(polled, ById()))
  }

  /** What a poll reports, by identifier. */
  function AsTable(polled: seq<Peer>): map<int, Peer> {
    Sorting.Table(Polled(polled), ById())
  }

  lemma PolledIsStrict(polled: seq<Peer>)
    ensures Sorting.Strict(Polled(polled), ById()) && Sorting.Distinct(Polled(polled), ById())
  {
    hide Sorting.Sort, Dedup;
    var idx := Polled(polled);
    forall i, j | 0 <= i < j < |idx| ensures ById()(idx[i]) != ById()(idx[j]) {
      assert ById()(idx[i]) < ById()(idx[j]);
    }
  }

  /** When no two peers share an identifier nothing is lost. */
  lemma {:induction false} DedupOfStrict(s: seq<Peer>)
    requires Sorting.Strict(s, ById())
    ensures Dedup(s) == s
    decreases |s|
  {
    if s != [] {
      var n := |s| - 1;
      DedupOfStrict(s[..n]);
      assert s == s[..n] + [s[n]];
      if n > 0 {
        assert ById()(s[n - 1]) < ById()(s[n]);
      }
    }
  }

  lemma DistinctPollIsKept(polled: seq<Peer>)
    requires Sorting.Distinct(polled, ById())
    ensures AsTable(polled) == Sorting.Table(polled, ById())
  {
    Sorting.SortedTable(polled, ById());
    DedupOfStrict(Sorting.Sort(polled, ById()));
  }

  /** The first peer of a list with this identifier. */
  function First(s: seq<Peer>, x: int): Option<Peer> {
    if s == [] then None else if s[0].id == x then Some(s[0]) else First(s[1..], x)
  }

  lemma {:induction false} FirstOfInserted(p: Peer, s: seq<Peer>, x: int)
    ensures First(Sorting.Insert(p, s, ById()), x) == if p.id == x then Some(p) else First(s, x)
    decreases |s|
  {
    if s == [] || p.id <= s[0].id {
      assert ([p] + s)[1..] == s;
    } else {
      FirstOfInserted(p, s[1..], x);
      assert ([s[0]] + Sorting.Insert(p, s[1..], ById()))[1..] == Sorting.Insert(p, s[1..], ById());
    }
  }

  lemma {:induction false} FirstOfSorted(s: seq<Peer>, x: int)
    ensures First(Sorting.Sort(s, ById()), x) == First(s, x)
    decreases |s|
  {
    if s != [] {
      FirstOfSorted(s[1..], x);
      FirstOfInserted(s[0], Sorting.Sort(s[1..], ById()), x);
    }
  }

  lemma {:induction false} FirstOfMore(s: seq<Peer>, p: Peer, x: int)
    ensures First(s + [p], x) == if First(s, x).Some? then First(s, x) else if p.id == x then Some(p) else None
    decreases |s|
  {
    if s == [] {
      assert s + [p] == [p];
    } else {
      assert (s + [p])[1..] == s[1..] + [p];
      FirstOfMore(s[1..], p, x);
    }
  }

  lemma {:induction false} FirstOfDedup(s: seq<Peer>, x: int)
    ensures First(Dedup(s), x) == First(s, x)
    decreases |s|
  {
    if s != [] {
      var n := |s| - 1;
      assert s == s[..n] + [s[n]];
      FirstOfDedup(s[..n], x);
      FirstOfMore(s[..n], s[n], x);
      FirstOfMore(Dedup(s[..n]), s[n], x);
      if n > 0 {
        assert s[..n] == s[..n - 1] + [s[n - 1]];
        FirstOfMore(s[..n - 1], s[n - 1], x);
      }
    }
  }

  lemma {:induction false} TableIsFirst(s: seq<Peer>, x: int)
    requires Sorting.Distinct(s, ById())
    ensures var t := Sorting.Table(s, ById());
            First(s, x) == if x in t then Some(t[x]) else None
    decreases |s|
  {
    hide Sorting.Distinct;
    if s != [] {
      var n := |s| - 1;
      assert s == s[..n] + [s[n]] && s[..|s|] == s;
      DistinctInit(s);
      TableIsFirst(s[..n], x);
      Sorting.TableStep(s, ById(), n);
      FirstOfMore(s[..n], s[n], x);
    }
  }

  lemma DistinctInit(s: seq<Peer>)
    requires Sorting.Distinct(s, ById()) && s != []
    ensures Sorting.Distinct(s[..|s| - 1], ById())
  {
  }

  /** Of several polled peers with one identifier the first polled is kept. */
  lemma FirstPolledIsKept(polled: seq<Peer>, x: int)
    ensures First(polled, x) == if x in AsTable(polled) then Some(AsTable(polled)[x]) else None
  {
    hide Sorting.Sort, Sorting.Distinct, Sorting.Table, Dedup, First;
    PolledIsStrict(polled);
    FirstOfSorted(polled, x);
    FirstOfDedup(Sorting.Sort(polled, ById()), x);
    TableIsFirst(Polled(polled), x);
  }

  // ---------------------------------------------------------------- the two paths

  predicate SameLayout(peers: seq<Entry>, idx: seq<Peer>) {
    |peers| == |idx| && forall i | 0 <= i < |idx| :: idx[i].id == peers[i].id
  }

  /** The fast path: every entry updated where it stands. */
  function InPlace(peers: seq<Entry>, idx: seq<Peer>, frame: nat): seq<Entry>
    requires |peers| == |idx|
  {
    seq(|idx|, i requires 0 <= i < |idx| => UpdatedEntry(peers[i], idx[i].info, frame))
  }

  /** The slow path: the entries of the fresh vector, in id order. */
  function Merged(table: map<int, Entry>, idx: seq<Peer>, frame: nat): seq<Entry> {
    seq(|idx|, i requires 0 <= i < |idx| => NextEntry(table, idx[i], frame))
  }

  lemma EntryAt(peers: seq<Entry>, i: nat)
    requires Sorting.Strict(peers, ByEntryId()) && i < |peers|
    ensures Sorting.Distinct(peers, ByEntryId())
    ensures peers[i].id in Sorting.Table(peers, ByEntryId())
    ensures Sorting.Table(peers, ByEntryId())[peers[i].id] == peers[i]
  {
    StrictIsDistinct(peers);
    Sorting.TableAt(peers, ByEntryId(), peers[i].id);
    assert ByEntryId()(peers[i]) == peers[i].id;
  }

  lemma StrictIsDistinct(peers: seq<Entry>)
    requires Sorting.Strict(peers, ByEntryId())
    ensures Sorting.Distinct(peers, ByEntryId())
  {
    forall i, j | 0 <= i < j < |peers| ensures ByEntryId()(peers[i]) != ByEntryId()(peers[j]) {
      assert ByEntryId()(peers[i]) < ByEntryId()(peers[j]);
    }
  }

  lemma MergedIsStrict(table: map<int, Entry>, idx: seq<Peer>, frame: nat)
    requires Sorting.Strict(idx, ById()) && forall x | x in table :: table[x].id == x
    ensures Sorting.Strict(Merged(table, idx, frame), ByEntryId())
  {
    var m := Merged(table, idx, frame);
    forall i, j | 0 <= i < j < |m| ensures ByEntryId()(m[i]) < ByEntryId()(m[j]) {
      assert ById()(idx[i]) < ById()(idx[j]);
    }
  }

  /** The merged vector is the next table. */
  lemma MergedTable(table: map<int, Entry>, idx: seq<Peer>, frame: nat)
    requires Sorting.Strict(idx, ById()) && Sorting.Distinct(idx, ById()) && forall x | x in table :: table[x].id == x
    ensures Sorting.Table(Merged(table, idx, frame), ByEntryId())
         == NextPeers(table, Sorting.Table(idx, ById()), frame)
  {
    var m := Merged(table, idx, frame);
    var a, b := Sorting.Table(m, ByEntryId()), NextPeers(table, Sorting.Table(idx, ById()), frame);
    MergedIsStrict(table, idx, frame);
    StrictIsDistinct(m);
    hide Sorting.Table, Sorting.Strict, Sorting.Distinct;
    forall x ensures (x in a <==> x in b) && (x in a ==> a[x] == b[x]) {
      Sorting.TableAt(m, ByEntryId(), x);
      Sorting.TableAt(idx, ById(), x);
      forall i | 0 <= i < |idx| ensures ByEntryId()(m[i]) == ById()(idx[i]) && m[i] == NextEntry(table, idx[i], frame) {
      }
    }
  }

  lemma TableIds(peers: seq<Entry>)
    requires Sorting.Strict(peers, ByEntryId())
    ensures var t := Sorting.Table(peers, ByEntryId());
            forall x | x in t :: t[x].id == x
  {
    StrictIsDistinct(peers);
    hide Sorting.Table, Sorting.Strict, Sorting.Distinct;
    var t := Sorting.Table(peers, ByEntryId());
    forall x | x in t ensures t[x].id == x {
      Sorting.TableAt(peers, ByEntryId(), x);
      var i :| 0 <= i < |peers| && ByEntryId()(peers[i]) == x;
    }
  }

  /** The fast path writes what the merge would write. */
  lemma InPlaceIsMerged(peers: seq<Entry>, idx: seq<Peer>, frame: nat)
    requires Sorting.Strict(peers, ByEntryId()) && SameLayout(peers, idx)
    ensures InPlace(peers, idx, frame) == Merged(Sorting.Table(peers, ByEntryId()), idx, frame)
  {
    hide Sorting.Table, UpdatedEntry;
    forall i | 0 <= i < |idx|
      ensures UpdatedEntry(peers[i], idx[i].info, frame)
           == NextEntry(Sorting.Table(peers, ByEntryId()), idx[i], frame)
    {
      EntryAt(peers, i);
    }
  }

  lemma PresenceKeys(h: History)
    ensures PresenceOf(h).live.Keys == h.peers.Keys
  {
  }

  lemma SameLayoutSameKeys(peers: seq<Entry>, idx: seq<Peer>)
    requires SameLayout(peers, idx)
    ensures Sorting.Table(idx, ById()).Keys == Sorting.Table(peers, ByEntryId()).Keys
  {
    var a, b := Sorting.Keys(idx, ById()), Sorting.Keys(peers, ByEntryId());
    assert a == b;
    Sorting.TableKeys(idx, ById());
    Sorting.TableKeys(peers, ByEntryId());
    SameListing(a, Sorting.Table(idx, ById()).Keys, Sorting.Table(peers, ByEntryId()).Keys);
  }

  lemma SameListing<T(!new)>(a: seq<T>, s: set<T>, t: set<T>)
    requires Lists(a, s) && Lists(a, t)
    ensures s == t
  {
  }

  lemma PolledIsKeyed(idx: seq<Peer>)
    requires Sorting.Distinct(idx, ById())
    ensures Keyed(Sorting.Table(idx, ById()))
  {
    hide Sorting.Table, Sorting.Distinct;
    var t := Sorting.Table(idx, ById());
    forall x | x in t ensures t[x].id == x {
      Sorting.TableAt(idx, ById(), x);
      var i :| 0 <= i < |idx| && ById()(idx[i]) == x;
    }
  }

  /** The fast path refines the merge: with an unchanged id set, updating in place leaves the
      same peers, frames, tombstones and horizon as the full update. */
  lemma FastPathRefinesMerge(h: History, peers: seq<Entry>, idx: seq<Peer>)
    requires Sorting.Strict(peers, ByEntryId()) && h.peers == Sorting.Table(peers, ByEntryId())
    requires Sorting.Strict(idx, ById()) && Sorting.Distinct(idx, ById()) && SameLayout(peers, idx)
    requires Inv(PresenceOf(h))
    ensures Update(h, Sorting.Table(idx, ById()))
         == h.(peers := Sorting.Table(InPlace(peers, idx, h.frame + 1), ByEntryId()), frame := h.frame + 1)
  {
    hide Inv, Candidates, Sorting.Table, Sorting.Strict, Sorting.Distinct, InPlace, Merged, NextPeers, SameLayout;
    PresenceKeys(h);
    SameLayoutSameKeys(peers, idx);
    RefreshSame(PresenceOf(h));
    TableIds(peers);
    InPlaceIsMerged(peers, idx, h.frame + 1);
    MergedTable(h.peers, idx, h.frame + 1);
  }

  // ---------------------------------------------------------------- the merge walk

  /** Identifiers of the first n polled peers that were not connected before. */
  function Added(table: map<int, Entry>, idx: seq<Peer>): set<int>
    decreases |idx|
  {
    if idx == [] then {}
    else
      var n := |idx| - 1;
      Added(table, idx[..n]) + (if idx[n].id in table then {} else {idx[n].id})
  }

  /** Old peers still ahead have larger ids than polled peers already handled, and vice versa. */
  ghost predicate Apart(peers: seq<Entry>, idx: seq<Peer>, p: nat, i: nat) {
    && p <= |peers| && i <= |idx|
    && (forall m, n | 0 <= m < i && p <= n < |peers| :: idx[m].id < peers[n].id)
    && (forall m, n | i <= m < |idx| && 0 <= n < p :: peers[n].id < idx[m].id)
  }

  ghost predicate WalkedTo(h: History, peers: seq<Entry>, idx: seq<Peer>, p: nat, i: nat,
    next: seq<Entry>, removed: seq<Stone>) {
    && p <= |peers| && i <= |idx| && Apart(peers, idx, p, i)
    && next == Merged(h.peers, idx[..i], h.frame + 1)
    && removed == Forget(
         Pushed(PresenceOf(h), Missing(Sorting.Keys(peers, ByEntryId())[..p], Sorting.Table(idx, ById()).Keys)),
         Added(h.peers, idx[..i]))
  }

  ghost predicate WalkOk(h: History, peers: seq<Entry>, idx: seq<Peer>) {
    && Sorting.Strict(peers, ByEntryId()) && h.peers == Sorting.Table(peers, ByEntryId())
    && Sorting.Strict(idx, ById()) && Sorting.Distinct(idx, ById())
  }

  lemma KeysAreAscending(h: History, peers: seq<Entry>)
    requires Sorting.Strict(peers, ByEntryId()) && h.peers == Sorting.Table(peers, ByEntryId())
    ensures Sorting.Keys(peers, ByEntryId()) == Ascending(PresenceOf(h).live.Keys)
  {
    var keys := Sorting.Keys(peers, ByEntryId());
    assert Increasing(keys) by {
      forall i, j | 0 <= i < j < |keys| ensures keys[i] < keys[j] {
        assert ByEntryId()(peers[i]) < ByEntryId()(peers[j]);
      }
    }
    hide Increasing, Lists, Sorting.Table, Ascending;
    PresenceKeys(h);
    Sorting.TableKeys(peers, ByEntryId());
    ListingIsUnique(keys, Ascending(PresenceOf(h).live.Keys), PresenceOf(h).live.Keys);
  }

  lemma PolledAt(idx: seq<Peer>, i: nat, x: int)
    requires Sorting.Strict(idx, ById()) && Sorting.Distinct(idx, ById()) && i <= |idx|
    requires forall m | 0 <= m < i :: idx[m].id < x
    requires i < |idx| ==> x <= idx[i].id
    ensures x in Sorting.Table(idx, ById()) <==> i < |idx| && idx[i].id == x
  {
    Sorting.TableAt(idx, ById(), x);
    forall m | 0 <= m < |idx| ensures ById()(idx[m]) == idx[m].id && (m > i ==> idx[i].id < idx[m].id) {
      if m > i {
        assert ById()(idx[i]) < ById()(idx[m]);
      }
    }
  }

  lemma ConnectedAt(peers: seq<Entry>, p: nat, x: int)
    requires Sorting.Strict(peers, ByEntryId()) && p <= |peers|
    requires forall m | 0 <= m < p :: peers[m].id < x
    requires p < |peers| ==> x <= peers[p].id
    ensures x in Sorting.Table(peers, ByEntryId()) <==> p < |peers| && peers[p].id == x
  {
    StrictIsDistinct(peers);
    Sorting.TableAt(peers, ByEntryId(), x);
    forall m | 0 <= m < |peers| ensures ByEntryId()(peers[m]) == peers[m].id && (m > p ==> peers[p].id < peers[m].id) {
      if m > p {
        assert ByEntryId()(peers[p]) < ByEntryId()(peers[m]);
      }
    }
  }

  lemma ApartSteps(peers: seq<Entry>, idx: seq<Peer>, p: nat, i: nat)
    requires Sorting.Strict(peers, ByEntryId()) && Sorting.Strict(idx, ById()) && Apart(peers, idx, p, i)
    ensures p < |peers| && (i < |idx| ==> peers[p].id < idx[i].id) ==> Apart(peers, idx, p + 1, i)
    ensures i < |idx| && (p < |peers| ==> idx[i].id < peers[p].id) ==> Apart(peers, idx, p, i + 1)
    ensures p < |peers| && i < |idx| && peers[p].id == idx[i].id ==> Apart(peers, idx, p + 1, i + 1)
  {
    forall m, n | 0 <= m < n < |peers| ensures peers[m].id < peers[n].id {
      assert ByEntryId()(peers[m]) < ByEntryId()(peers[n]);
    }
    forall m, n | 0 <= m < n < |idx| ensures idx[m].id < idx[n].id {
      assert ById()(idx[m]) < ById()(idx[n]);
    }
  }

  lemma {:induction false} AddedIsPolled(table: map<int, Entry>, idx: seq<Peer>, x: int)
    ensures x in Added(table, idx) <==> x !in table && exists m :: 0 <= m < |idx| && idx[m].id == x
    decreases |idx|
  {
    if idx != [] {
      var n := |idx| - 1;
      AddedIsPolled(table, idx[..n], x);
      if m :| 0 <= m < |idx| && idx[m].id == x && m < n {
        assert idx[..n][m].id == x;
      }
    }
  }

  lemma GoneFacts(h: History, peers: seq<Entry>, idx: seq<Peer>, p: nat, i: nat)
    requires WalkOk(h, peers, idx) && Apart(peers, idx, p, i)
    requires p < |peers| && (i < |idx| ==> peers[p].id < idx[i].id)
    ensures peers[p].id !in Sorting.Table(idx, ById()) && peers[p].id !in Added(h.peers, idx[..i])
    ensures Apart(peers, idx, p + 1, i)
  {
    hide Sorting.Table, Sorting.Strict, Sorting.Distinct, Added;
    ApartSteps(peers, idx, p, i);
    PolledAt(idx, i, peers[p].id);
    AddedIsPolled(h.peers, idx[..i], peers[p].id);
    EntryAt(peers, p);
  }

  lemma StonesStep(h: History, peers: seq<Entry>, p: nat, ids: set<int>)
    requires Sorting.Strict(peers, ByEntryId()) && h.peers == Sorting.Table(peers, ByEntryId()) && p < |peers|
    ensures var keys := Sorting.Keys(peers, ByEntryId());
            var stones := Pushed(PresenceOf(h), Missing(keys[..p], ids));
            Pushed(PresenceOf(h), Missing(keys[..p + 1], ids))
            == if peers[p].id in ids then stones
               else [Tombstone(h.frame + 1, peers[p].added, peers[p].id, ())] + stones
  {
    hide Sorting.Table, Sorting.Strict, Pushed, Missing, Ascending;
    EntryAt(peers, p);
    KeysAreAscending(h, peers);
    RemovalStep(PresenceOf(h), Sorting.Keys(peers, ByEntryId()), p, ids);
  }

  lemma ForgetFirst(t: Stone, removed: seq<Stone>, back: set<int>)
    requires t.key !in back
    ensures Forget([t] + removed, back) == [t] + Forget(removed, back)
  {
    assert ([t] + removed)[1..] == removed;
  }

  /** The old peer is gone: one tombstone more. */
  lemma WalkGone(h: History, peers: seq<Entry>, idx: seq<Peer>, p: nat, i: nat, next: seq<Entry>, removed: seq<Stone>,
    t: Stone)
    requires WalkOk(h, peers, idx) && WalkedTo(h, peers, idx, p, i, next, removed)
    requires p < |peers| && (i < |idx| ==> peers[p].id < idx[i].id)
    requires t == Tombstone(h.frame + 1, peers[p].added, peers[p].id, ())
    ensures WalkedTo(h, peers, idx, p + 1, i, next, [t] + removed)
  {
    hide Sorting.Table, Sorting.Keys, Pushed, Missing, Added, Merged, Sorting.Strict, Sorting.Distinct, Apart, Forget,
         PresenceOf;
    var ids := Sorting.Table(idx, ById()).Keys;
    GoneFacts(h, peers, idx, p, i);
    StonesStep(h, peers, p, ids);
    ForgetFirst(
      t,
      Pushed(PresenceOf(h), Missing(Sorting.Keys(peers, ByEntryId())[..p], ids)),
      Added(h.peers, idx[..i]));
  }

  lemma MergedStep(table: map<int, Entry>, idx: seq<Peer>, i: nat, frame: nat)
    requires i < |idx|
    ensures Merged(table, idx[..i + 1], frame) == Merged(table, idx[..i], frame) + [NextEntry(table, idx[i], frame)]
    ensures Added(table, idx[..i + 1]) ==
            if idx[i].id in table then Added(table, idx[..i]) else Added(table, idx[..i]) + {idx[i].id}
  {
    hide NextEntry;
    assert idx[..i + 1][..i] == idx[..i];
  }

  lemma NewFacts(h: History, peers: seq<Entry>, idx: seq<Peer>, p: nat, i: nat)
    requires WalkOk(h, peers, idx) && Apart(peers, idx, p, i)
    requires i < |idx| && (p < |peers| ==> idx[i].id < peers[p].id)
    ensures idx[i].id !in h.peers && Apart(peers, idx, p, i + 1)
  {
    hide Sorting.Table, Sorting.Strict, Sorting.Distinct;
    ApartSteps(peers, idx, p, i);
    ConnectedAt(peers, p, idx[i].id);
  }

  /** A polled peer is new: one entry more, and its old tombstone is forgotten. */
  lemma WalkNew(h: History, peers: seq<Entry>, idx: seq<Peer>, p: nat, i: nat, next: seq<Entry>, removed: seq<Stone>)
    requires WalkOk(h, peers, idx) && WalkedTo(h, peers, idx, p, i, next, removed)
    requires i < |idx| && (p < |peers| ==> idx[i].id < peers[p].id)
    ensures WalkedTo(h, peers, idx, p, i + 1, next + [NewEntry(idx[i], h.frame + 1)], Forget(removed, {idx[i].id}))
  {
    hide Sorting.Table, Sorting.Keys, Pushed, Missing, Added, Merged, Sorting.Strict, Sorting.Distinct, Apart, Forget,
         PresenceOf;
    NewFacts(h, peers, idx, p, i);
    MergedStep(h.peers, idx, i, h.frame + 1);
    ForgetTwice(
      Pushed(PresenceOf(h), Missing(Sorting.Keys(peers, ByEntryId())[..p], Sorting.Table(idx, ById()).Keys)),
      Added(h.peers, idx[..i]), {idx[i].id});
  }

  /** The peer is still there: its entry, updated. */
  lemma WalkBoth(h: History, peers: seq<Entry>, idx: seq<Peer>, p: nat, i: nat, next: seq<Entry>, removed: seq<Stone>)
    requires WalkOk(h, peers, idx) && WalkedTo(h, peers, idx, p, i, next, removed)
    requires i < |idx| && p < |peers| && idx[i].id == peers[p].id
    ensures WalkedTo(h, peers, idx, p + 1, i + 1, next + [UpdatedEntry(peers[p], idx[i].info, h.frame + 1)], removed)
  {
    hide Sorting.Table, Sorting.Keys, Pushed, Missing, Added, Merged, Sorting.Strict, Sorting.Distinct, Apart, Forget,
         PresenceOf;
    BothFacts(h, peers, idx, p, i);
    MergedStep(h.peers, idx, i, h.frame + 1);
    StonesStep(h, peers, p, Sorting.Table(idx, ById()).Keys);
  }

  lemma BothFacts(h: History, peers: seq<Entry>, idx: seq<Peer>, p: nat, i: nat)
    requires WalkOk(h, peers, idx) && Apart(peers, idx, p, i)
    requires i < |idx| && p < |peers| && idx[i].id == peers[p].id
    ensures peers[p].id in Sorting.Table(idx, ById()) && peers[p].id in h.peers && h.peers[peers[p].id] == peers[p]
    ensures Apart(peers, idx, p + 1, i + 1)
  {
    hide Sorting.Table, Sorting.Strict, Sorting.Distinct;
    ApartSteps(peers, idx, p, i);
    PolledAt(idx, i, peers[p].id);
    EntryAt(peers, p);
  }

  lemma WalkStarts(h: History, peers: seq<Entry>, idx: seq<Peer>)
    requires h.peers == Sorting.Table(peers, ByEntryId())
    ensures WalkedTo(h, peers, idx, 0, 0, [], h.removed)
  {
    hide Sorting.Table, Sorting.Keys, Pushed, Missing, Forget, PresenceOf, Added, Merged;
    NothingMerged(h.peers, idx, h.frame + 1);
    StonesOf(h);
    NothingPushed(PresenceOf(h), Sorting.Keys(peers, ByEntryId()), Sorting.Table(idx, ById()).Keys);
    ForgetNobody(h.removed, {});
  }

  lemma NothingMerged(table: map<int, Entry>, idx: seq<Peer>, frame: nat)
    ensures Merged(table, idx[..0], frame) == [] && Added(table, idx[..0]) == {}
  {
  }

  lemma StonesOf(h: History)
    ensures PresenceOf(h).removed == h.removed
  {
  }

  lemma AddedAreBack(h: History, idx: seq<Peer>, t: Stone)
    requires Inv(PresenceOf(h)) && Sorting.Distinct(idx, ById())
    requires t in Stones(PresenceOf(h), Sorting.Table(idx, ById()).Keys)
    ensures t.key in Added(h.peers, idx) <==> t.key in Sorting.Table(idx, ById()).Keys
  {
    hide Sorting.Table, Sorting.Distinct, Added, Stones;
    StonesHas(PresenceOf(h), Sorting.Table(idx, ById()).Keys, t);
    AddedIsPolled(h.peers, idx, t.key);
    Sorting.TableAt(idx, ById(), t.key);
    forall m | 0 <= m < |idx| ensures ById()(idx[m]) == idx[m].id {
    }
  }

  /** At the end the walk has built the next table and the tombstones before eviction. */
  lemma WalkEnds(h: History, peers: seq<Entry>, idx: seq<Peer>, next: seq<Entry>, removed: seq<Stone>)
    requires WalkOk(h, peers, idx) && WalkedTo(h, peers, idx, |peers|, |idx|, next, removed)
    requires Inv(PresenceOf(h))
    ensures Sorting.Strict(next, ByEntryId())
    ensures Sorting.Table(next, ByEntryId()) == NextPeers(h.peers, Sorting.Table(idx, ById()), h.frame + 1)
    ensures removed == Candidates(PresenceOf(h), Sorting.Table(idx, ById()).Keys)
  {
    hide Sorting.Table, Sorting.Keys, Pushed, Missing, Added, Merged, Sorting.Strict, Sorting.Distinct, Apart, Forget,
         Inv, PresenceOf, Ascending, NextPeers;
    assert idx[..|idx|] == idx;
    TableIds(peers);
    MergedIsStrict(h.peers, idx, h.frame + 1);
    MergedTable(h.peers, idx, h.frame + 1);
    KeysAreAscending(h, peers);
    assert Sorting.Keys(peers, ByEntryId())[..|peers|] == Sorting.Keys(peers, ByEntryId());
    var ids := Sorting.Table(idx, ById()).Keys;
    forall t | t in Stones(PresenceOf(h), ids) ensures t.key in Added(h.peers, idx) <==> t.key in ids {
      AddedAreBack(h, idx, t);
    }
    ForgetSame(Stones(PresenceOf(h), ids), Added(h.peers, idx), ids);
  }

  // ---------------------------------------------------------------- query, as a function

  datatype PeerUpdate = PeerUpdate(id: int, info: Info, mask: set<nat>)

  datatype QueryResult = QueryResult(snapshot: bool, updated: seq<PeerUpdate>, removed: seq<int>)

  /** The requested fields that exist. */
  function Wanted(requested: set<nat>): set<nat> {
    set k | k in requested && k < NUM_FIELDS
  }

  function ChangedFields(e: Entry, since: nat, wanted: set<nat>): set<nat> {
    set k | k in wanted && k < NUM_FIELDS && e.frame[k] > since
  }

  /** The update for one peer, if any. A new peer is reported even if no field is asked for. */
  function UpdateFor(e: Entry, since: nat, wanted: set<nat>): seq<PeerUpdate> {
    if since == 0 || e.added > since then [PeerUpdate(e.id, e.info, wanted)]
    else
      var mask := ChangedFields(e, since, wanted);
      if mask == {} then [] else [PeerUpdate(e.id, e.info, mask)]
  }

  function UpdatesFor(peers: seq<Entry>, since: nat, wanted: set<nat>): seq<PeerUpdate>
    decreases |peers|
  {
    if peers == [] then []
    else UpdatesFor(peers[..|peers| - 1], since, wanted) + UpdateFor(peers[|peers| - 1], since, wanted)
  }

  // ---------------------------------------------------------------- the object

  class PeerHistory {
    var peers: seq<Entry>
    var removed: seq<Stone>
    var frame: nat
    var horizon: nat
    const limit: nat

    ghost function Model(): History
      reads this
    {
      History(Sorting.Table(peers, ByEntryId()), removed, frame, horizon, limit)
    }

    ghost predicate Valid()
      reads this
    {
      Sorting.Strict(peers, ByEntryId()) && Inv(PresenceOf(Model()))
    }

    constructor (maxTombstones: nat)
      ensures Valid() && Model() == Init(maxTombstones)
    {
      peers, removed, frame, horizon := [], [], 0, 0;
      limit := maxTombstones;
    }

    method UpdatePeers(polled: seq<Peer>) returns (newFrame: nat)
      requires Valid()
      modifies this
      ensures Valid() && Model() == Update(old(Model()), AsTable(polled)) && newFrame == frame
    {
      hide Inv, Update, PresenceOf, Sorting.Table, Sorting.Strict, Sorting.Distinct, InPlace, Polled;
      ghost var h := Model();
      var idx := Polled(polled);
      PolledIsStrict(polled);
      PolledIsKeyed(idx);
      UpdateKeepsInv(h, AsTable(polled));
      if SameLayout(peers, idx) {
        FastPathRefinesMerge(h, peers, idx);
        KeepsOrder(peers, idx, frame + 1);
        UpdateInPlace(idx, frame + 1);
      } else {
        MergeWalk(idx, frame + 1);
      }
      frame := frame + 1;
      newFrame := frame;
    }

    /** Same peers as last time: update each where it is. */
    method UpdateInPlace(idx: seq<Peer>, newFrame: nat)
      requires SameLayout(peers, idx)
      modifies this`peers
      ensures peers == InPlace(old(peers), idx, newFrame)
    {
      ghost var before := peers;
      for i := 0 to |idx|
        invariant |peers| == |before|
        invariant forall m | 0 <= m < |idx| ::
          peers[m] == if m < i then UpdatedEntry(before[m], idx[m].info, newFrame) else before[m]
      {
        hide UpdatedEntry;
        peers := peers[i := UpdatedEntry(peers[i], idx[i].info, newFrame)];
      }
    }

    /** Some peer came or went: merge both lists into a fresh vector, then evict. */
    method MergeWalk(idx: seq<Peer>, newFrame: nat)
      requires Valid() && newFrame == frame + 1
      requires Sorting.Strict(idx, ById()) && Sorting.Distinct(idx, ById())
      modifies this`peers, this`removed, this`horizon
      ensures Sorting.Strict(peers, ByEntryId())
      ensures Model().(frame := newFrame) == Update(old(Model()), Sorting.Table(idx, ById()))
    {
      hide WalkedTo, Sorting.Table, Sorting.Strict, Sorting.Distinct, Inv, Candidates, Forget, UpdatedEntry, NewEntry,
           NextPeers, PresenceOf;
      ghost var h := Model();
      ghost var old_ := peers;
      var next: seq<Entry> := [];
      var p: nat, i: nat := 0, 0;
      WalkStarts(h, old_, idx);
      while p < |peers| && i < |idx|
        invariant peers == old_ && frame == h.frame && horizon == h.horizon && p <= |peers| && i <= |idx|
        invariant WalkedTo(h, old_, idx, p, i, next, removed)
        decreases |peers| + |idx| - p - i
      {
        if peers[p].id < idx[i].id {
          WalkGone(h, old_, idx, p, i, next, removed, Tombstone(newFrame, peers[p].added, peers[p].id, ()));
          removed := [Tombstone(newFrame, peers[p].added, peers[p].id, ())] + removed;
          p := p + 1;
        } else if peers[p].id > idx[i].id {
          WalkNew(h, old_, idx, p, i, next, removed);
          next := next + [NewEntry(idx[i], newFrame)];
          removed := Forget(removed, {idx[i].id});
          i := i + 1;
        } else {
          WalkBoth(h, old_, idx, p, i, next, removed);
          next := next + [UpdatedEntry(peers[p], idx[i].info, newFrame)];
          p, i := p + 1, i + 1;
        }
      }
      while p < |peers|
        invariant peers == old_ && frame == h.frame && horizon == h.horizon && p <= |peers| && i <= |idx|
        invariant p == |peers| || i == |idx|
        invariant WalkedTo(h, old_, idx, p, i, next, removed)
      {
        WalkGone(h, old_, idx, p, i, next, removed, Tombstone(newFrame, peers[p].added, peers[p].id, ()));
        removed := [Tombstone(newFrame, peers[p].added, peers[p].id, ())] + removed;
        p := p + 1;
      }
      while i < |idx|
        invariant peers == old_ && frame == h.frame && horizon == h.horizon && p == |peers| && i <= |idx|
        invariant WalkedTo(h, old_, idx, p, i, next, removed)
      {
        WalkNew(h, old_, idx, p, i, next, removed);
        next := next + [NewEntry(idx[i], newFrame)];
        removed := Forget(removed, {idx[i].id});
        i := i + 1;
      }
      WalkEnds(h, old_, idx, next, removed);
      peers := next;
      removed, horizon := DropOldest(removed, horizon, limit);
      UpdateIs(h, Sorting.Table(idx, ById()), Model().(frame := newFrame));
    }

    method QuerySince(sinceFrame: nat, requested: set<nat>) returns (r: QueryResult)
      ensures var since := if sinceFrame < horizon then 0 else sinceFrame;
              r == QueryResult(
                since == 0,
                UpdatesFor(peers, since, Wanted(requested)),
                if since == 0 then [] else RemovedSince(PresenceOf(Model()), since))
    {
      hide Reported, UpdateFor;
      var since := if sinceFrame < horizon then 0 else sinceFrame;
      var wanted := Wanted(requested);
      var updated: seq<PeerUpdate> := [];
      var gone: seq<int> := [];
      if since != 0 {
        gone := ScanReported(removed, since, Always());
      }
      for i := 0 to |peers|
        invariant updated == UpdatesFor(peers[..i], since, wanted)
      {
        assert peers[..i + 1][..i] == peers[..i];
        updated := updated + UpdateFor(peers[i], since, wanted);
      }
      assert peers[..|peers|] == peers;
      r := QueryResult(since == 0, updated, gone);
    }
  }

  lemma KeepsOrder(peers: seq<Entry>, idx: seq<Peer>, frame: nat)
    requires Sorting.Strict(peers, ByEntryId()) && SameLayout(peers, idx)
    ensures Sorting.Strict(InPlace(peers, idx, frame), ByEntryId())
  {
    var next := InPlace(peers, idx, frame);
    forall i, j | 0 <= i < j < |next| ensures ByEntryId()(next[i]) < ByEntryId()(next[j]) {
      assert ByEntryId()(peers[i]) < ByEntryId()(peers[j]);
    }
  }

  lemma UpdateIs(h: History, input: map<int, Peer>, next: History)
    requires next.peers == NextPeers(h.peers, input, h.frame + 1) && next.frame == h.frame + 1 && next.limit == h.limit
    requires (next.removed, next.horizon) == Evict(Candidates(PresenceOf(h), input.Keys), h.horizon, h.limit)
    ensures next == Update(h, input)
  {
    hide Candidates, NextPeers;
  }
}
