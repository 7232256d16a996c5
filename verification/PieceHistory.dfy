/** src/piece_history.cpp: block states of the pieces being downloaded, as deltas. */
module PieceHistory {
  import opened Tombstones
  import opened Presence
  import opened Collections
  import Sorting

  datatype Block = Block(state: nat, frame: nat)

  datatype Piece = Piece(blocks: seq<Block>, added: nat)

  /** One entry of libtorrent's download queue. */
  datatype Incoming = Incoming(index: int, states: seq<nat>)

  datatype History = History(
    pieces: map<int, Piece>, removed: seq<Stone>, frame: nat, horizon: nat, limit: nat)

  function PresenceOf(h: History): Presence {
    Presence(map x | x in h.pieces :: h.pieces[x].added, h.removed, h.frame, h.horizon, h.limit)
  }

  function Init(limit: nat): History {
    History(map[], [], 0, 0, limit)
  }

  // ---------------------------------------------------------------- update

  function NewPiece(states: seq<nat>, frame: nat): Piece {
    Piece(seq(|states|, i requires 0 <= i < |states| => Block(states[i], frame)), frame)
  }

  /** The block array grows if the piece reports more blocks than stored; it never shrinks. */
  function Grown(blocks: seq<Block>, n: nat, frame: nat): seq<Block> {
    if |blocks| < n then blocks + seq(n - |blocks|, _ => Block(0, frame)) else blocks
  }

  function Restated(blocks: seq<Block>, states: seq<nat>, frame: nat): seq<Block>
    requires |states| <= |blocks|
  {
    seq(|blocks|, i requires 0 <= i < |blocks| =>
      if i < |states| && blocks[i].state != states[i] then Block(states[i], frame) else blocks[i])
  }

  function UpdatedPiece(p: Piece, states: seq<nat>, frame: nat): Piece {
    p.(blocks := Restated(Grown(p.blocks, |states|, frame), states, frame))
  }

  function NextPieces(pieces: map<int, Piece>, input: map<int, seq<nat>>, frame: nat): map<int, Piece> {
    map x | x in input ::
      if x in pieces then UpdatedPiece(pieces[x], input[x], frame) else NewPiece(input[x], frame)
  }

  ghost function Update(h: History, input: map<int, seq<nat>>): History {
    var p := Refresh(PresenceOf(h), input.Keys);
    History(NextPieces(h.pieces, input, h.frame + 1), p.removed, p.frame, p.horizon, h.limit)
  }

  lemma UpdatePresence(h: History, input: map<int, seq<nat>>)
    ensures PresenceOf(Update(h, input)) == Refresh(PresenceOf(h), input.Keys)
  {
    hide Candidates;
    var a, b := PresenceOf(Update(h, input)).live, Refresh(PresenceOf(h), input.Keys).live;
    forall x ensures (x in a <==> x in b) && (x in a ==> a[x] == b[x]) {
    }
    assert a == b;
  }

  // ---------------------------------------------------------------- query

  datatype BlockUpdate = BlockUpdate(piece: int, block: nat, state: nat)

  datatype QueryResult = QueryResult(
    snapshot: bool, full: seq<int>, blocks: seq<BlockUpdate>, removed: seq<int>)

  function Changed(blocks: seq<Block>, since: nat): nat {
    if blocks == [] then 0
    else Changed(blocks[..|blocks| - 1], since) + (if blocks[|blocks| - 1].frame > since then 1 else 0)
  }

  /** Whether the whole block array is sent. */
  predicate SendsFull(p: Piece, since: nat) {
    since == 0 || p.added > since
    || (Changed(p.blocks, since) > 0 && |p.blocks| + 6 <= 7 * Changed(p.blocks, since))
  }

  function BlockUpdates(piece: int, blocks: seq<Block>, since: nat): seq<BlockUpdate> {
    if blocks == [] then []
    else
      var n := |blocks| - 1;
      BlockUpdates(piece, blocks[..n], since)
      + (if blocks[n].frame > since then [BlockUpdate(piece, n, blocks[n].state)] else [])
  }

  function FullPieces(pieces: map<int, Piece>, keys: seq<int>, since: nat): seq<int>
    requires forall i | 0 <= i < |keys| :: keys[i] in pieces
  {
    if keys == [] then []
    else
      var n := |keys| - 1;
      FullPieces(pieces, keys[..n], since) + (if SendsFull(pieces[keys[n]], since) then [keys[n]] else [])
  }

  function PartialPieces(pieces: map<int, Piece>, keys: seq<int>, since: nat): seq<BlockUpdate>
    requires forall i | 0 <= i < |keys| :: keys[i] in pieces
  {
    if keys == [] then []
    else
      var n := |keys| - 1;
      PartialPieces(pieces, keys[..n], since)
      + (if SendsFull(pieces[keys[n]], since) then [] else BlockUpdates(keys[n], pieces[keys[n]].blocks, since))
  }

  function Clamp(h: History, since: nat): nat {
    if since < h.horizon then 0 else since
  }

  function Query(h: History, since: nat): QueryResult {
    var k := Clamp(h, since);
    var keys := Ascending(h.pieces.Keys);
    QueryResult(
      k == 0,
      FullPieces(h.pieces, keys, k),
      PartialPieces(h.pieces, keys, k),
      if k == 0 then [] else RemovedSince(PresenceOf(h), k))
  }

  // ---------------------------------------------------------------- the input as a map

  function ByIndex(): Incoming -> int {
    (p: Incoming) => p.index
  }

  /** libtorrent guarantees one entry per piece. */
  ghost predicate Distinct(input: seq<Incoming>) {
    Sorting.Distinct(input, ByIndex())
  }

  ghost predicate StrictlySorted(s: seq<Incoming>) {
    Sorting.Strict(s, ByIndex())
  }

  function StatesOf(rows: map<int, Incoming>): map<int, seq<nat>> {
    map x | x in rows :: rows[x].states
  }

  function AsMap(input: seq<Incoming>): map<int, seq<nat>> {
    StatesOf(Sorting.Table(input, ByIndex()))
  }

  lemma SortedInput(input: seq<Incoming>)
    requires Distinct(input)
    ensures var sorted := Sorting.Sort(input, ByIndex());
            StrictlySorted(sorted) && Distinct(sorted) && AsMap(sorted) == AsMap(input)
  {
    hide Sorting.Sort, Sorting.Table;
    Sorting.SortedTable(input, ByIndex());
  }

  lemma AsMapStep(s: seq<Incoming>, n: nat)
    requires Distinct(s) && n < |s|
    ensures s[n].index !in AsMap(s[..n]) && AsMap(s[..n + 1]) == AsMap(s[..n])[s[n].index := s[n].states]
  {
    hide Sorting.Table;
    Sorting.TableStep(s, ByIndex(), n);
  }

  // ---------------------------------------------------------------- lemmas for the loops

  /** pieces after the first n queue entries have been added or updated. */
  function Stage(pieces: map<int, Piece>, done: map<int, seq<nat>>, frame: nat): map<int, Piece> {
    pieces + NextPieces(pieces, done, frame)
  }

  lemma StageStep(pieces: map<int, Piece>, done: map<int, seq<nat>>, x: int, states: seq<nat>, frame: nat)
    requires x !in done
    ensures var s := Stage(pieces, done, frame);
            && (x in s <==> x in pieces) && (x in s ==> s[x] == pieces[x])
            && Stage(pieces, done[x := states], frame)
               == s[x := if x in pieces then UpdatedPiece(pieces[x], states, frame) else NewPiece(states, frame)]
  {
  }

  lemma StageDone(pieces: map<int, Piece>, input: map<int, seq<nat>>, frame: nat)
    ensures Stage(Only(pieces, input.Keys), input, frame) == NextPieces(pieces, input, frame)
  {
  }

  /** Nothing inserted means nobody came back, so there is no tombstone to forget. */
  lemma ForgetIsHarmless(h: History, input: map<int, seq<nat>>)
    requires Inv(PresenceOf(h)) && forall x | x in input :: x in h.pieces
    ensures Forget(Stones(PresenceOf(h), input.Keys), input.Keys) == Stones(PresenceOf(h), input.Keys)
  {
    hide Stones, Forget;
    var stones := Stones(PresenceOf(h), input.Keys);
    forall t | t in stones ensures t.key !in input.Keys {
      StonesHas(PresenceOf(h), input.Keys, t);
    }
    ForgetNobody(stones, input.Keys);
  }

  lemma PresenceKeys(h: History)
    ensures PresenceOf(h).live.Keys == h.pieces.Keys
  {
  }

  lemma UpdateKeepsInv(h: History, input: map<int, seq<nat>>)
    requires Inv(PresenceOf(h))
    ensures Inv(PresenceOf(Update(h, input)))
  {
    hide Inv, Candidates, Tracks, PresenceOf, Update;
    UpdatePresence(h, input);
    RefreshTracks(PresenceOf(h), input.Keys, 0, {});
  }

  /** The two-pointer test: is key k in the queue, given that the scan has passed all below it. */
  lemma TwoPointers(s: seq<Incoming>, j: nat, k: int)
    requires StrictlySorted(s) && Distinct(s) && j <= |s|
    requires forall i | 0 <= i < j :: s[i].index < k
    requires j < |s| ==> k <= s[j].index
    ensures k in AsMap(s) <==> j < |s| && s[j].index == k
  {
    Sorting.TableAt(s, ByIndex(), k);
    if j < |s| {
      assert ByIndex()(s[j]) == s[j].index;
    }
  }

  /** The history after the removal loop has dealt with the first n keys. */
  ghost predicate RemovedUpTo(h: History, keys: seq<int>, n: nat, ids: set<int>,
    pieces: map<int, Piece>, removed: seq<Stone>)
    requires n <= |keys|
  {
    pieces == h.pieces - Without(keys[..n], ids) && removed == Pushed(PresenceOf(h), Missing(keys[..n], ids))
  }

  lemma RemovalStarts(h: History, keys: seq<int>, ids: set<int>)
    ensures RemovedUpTo(h, keys, 0, ids, h.pieces, h.removed)
  {
    NothingPushed(PresenceOf(h), keys, ids);
  }

  lemma RemovalTurn(h: History, keys: seq<int>, n: nat, ids: set<int>, pieces: map<int, Piece>, removed: seq<Stone>)
    requires n < |keys| && keys == Ascending(h.pieces.Keys) && RemovedUpTo(h, keys, n, ids, pieces, removed)
    ensures var k := keys[n];
            && k in pieces && pieces[k] == h.pieces[k]
            && if k in ids then RemovedUpTo(h, keys, n + 1, ids, pieces, removed)
               else RemovedUpTo(h, keys, n + 1, ids, pieces - {k},
                                [Tombstone(h.frame + 1, pieces[k].added, k, ())] + removed)
  {
    hide Missing, Pushed, Ascending, Without;
    PresenceKeys(h);
    RemovalStep(PresenceOf(h), keys, n, ids);
  }

  lemma RemovalEnds(h: History, ids: set<int>, pieces: map<int, Piece>, removed: seq<Stone>)
    requires var keys := Ascending(h.pieces.Keys); RemovedUpTo(h, keys, |keys|, ids, pieces, removed)
    ensures pieces == Only(h.pieces, ids) && removed == Stones(PresenceOf(h), ids)
  {
    hide Missing, Pushed, Ascending, Without, Lists;
    var keys := Ascending(h.pieces.Keys);
    assert keys[..|keys|] == keys;
    PresenceKeys(h);
    WithoutIsOnly(h.pieces, keys, ids);
  }

  // ---------------------------------------------------------------- the object

  class PieceHistory {
    var pieces: map<int, Piece>
    var removed: seq<Stone>
    var frame: nat
    var horizon: nat
    const limit: nat

    ghost function Model(): History
      reads this
    {
      History(pieces, removed, frame, horizon, limit)
    }

    ghost predicate Valid()
      reads this
    {
      Inv(PresenceOf(Model()))
    }

    constructor (maxTombstones: nat)
      ensures Valid() && Model() == Init(maxTombstones)
    {
      pieces, removed, frame, horizon := map[], [], 0, 0;
      limit := maxTombstones;
    }

    method UpdateQueue(input: seq<Incoming>) returns (newFrame: nat)
      requires Valid() && Distinct(input)
      modifies this
      ensures Valid() && Model() == Update(old(Model()), AsMap(input)) && newFrame == frame
    {
      hide Inv, Candidates, Ascending, AsMap, Distinct, StrictlySorted, NextPieces, Only;
      ghost var h := Model();
      frame := frame + 1;
      newFrame := frame;
      var sorted := Sorting.Sort(input, ByIndex());
      SortedInput(input);
      RemoveAbsent(sorted, h);
      var anyInserted := AddOrUpdate(sorted);
      StageDone(h.pieces, AsMap(input), frame);
      ForgetReturned(anyInserted, h, AsMap(input));
      removed, horizon := DropOldest(removed, horizon, limit);
      UpdateKeepsInv(h, AsMap(input));
    }

    /** Walk the map and the sorted queue side by side and drop the pieces the queue lacks. */
    method RemoveAbsent(sorted: seq<Incoming>, ghost h: History)
      requires StrictlySorted(sorted) && Distinct(sorted)
      requires pieces == h.pieces && removed == h.removed && frame == h.frame + 1
      modifies this`pieces, this`removed
      ensures pieces == Only(h.pieces, AsMap(sorted).Keys)
      ensures removed == Stones(PresenceOf(h), AsMap(sorted).Keys)
    {
      hide Distinct, StrictlySorted, AsMap, Ascending, RemovedUpTo, Lists;
      ghost var ids := AsMap(sorted).Keys;
      var keys := Ascending(pieces.Keys);
      var j: nat := 0;
      RemovalStarts(h, keys, ids);
      for n := 0 to |keys|
        invariant j <= |sorted|
        invariant n < |keys| ==> forall i | 0 <= i < j :: sorted[i].index < keys[n]
        invariant RemovedUpTo(h, keys, n, ids, pieces, removed)
      {
        var k := keys[n];
        j := Advance(sorted, j, k);
        TwoPointers(sorted, j, k);
        RemovalTurn(h, keys, n, ids, pieces, removed);
        if j == |sorted| || sorted[j].index != k {
          removed := [Tombstone(frame, pieces[k].added, k, ())] + removed;
          pieces := pieces - {k};
        } else {
          j := j + 1;
        }
      }
      RemovalEnds(h, ids, pieces, removed);
    }

    static method Advance(sorted: seq<Incoming>, start: nat, k: int) returns (j: nat)
      requires start <= |sorted| && forall i | 0 <= i < start :: sorted[i].index < k
      ensures j <= |sorted| && forall i | 0 <= i < j :: sorted[i].index < k
      ensures j < |sorted| ==> k <= sorted[j].index
    {
      j := start;
      while j < |sorted| && sorted[j].index < k
        invariant j <= |sorted| && forall i | 0 <= i < j :: sorted[i].index < k
      {
        j := j + 1;
      }
    }

    /** Forget the tombstones of pieces that came back, if any piece was inserted. */
    method ForgetReturned(anyInserted: bool, ghost h: History, ghost input: map<int, seq<nat>>)
      requires Inv(PresenceOf(h)) && pieces == NextPieces(h.pieces, input, frame) && frame == h.frame + 1
      requires removed == Stones(PresenceOf(h), input.Keys)
      requires anyInserted <==> exists x :: x in input && x !in Only(h.pieces, input.Keys)
      modifies this`removed
      ensures removed == Candidates(PresenceOf(h), input.Keys)
    {
      hide Inv, Stones, Forget;
      NextKeys(h.pieces, input, frame);
      PresenceKeys(h);
      if removed != [] && anyInserted {
        removed := Forget(removed, pieces.Keys);
      } else if removed == [] {
        ForgetNobody(removed, input.Keys);
      } else {
        ForgetIsHarmless(h, input);
      }
    }

    /** emplace, then fill in or update the blocks. */
    method AddOrUpdate(sorted: seq<Incoming>) returns (anyInserted: bool)
      requires Distinct(sorted)
      modifies this`pieces
      ensures pieces == Stage(old(pieces), AsMap(sorted), frame)
      ensures anyInserted <==> exists x :: x in AsMap(sorted) && x !in old(pieces)
    {
      ghost var before := pieces;
      anyInserted := false;
      for n := 0 to |sorted|
        invariant pieces == Stage(before, AsMap(sorted[..n]), frame)
        invariant anyInserted <==> exists x :: x in AsMap(sorted[..n]) && x !in before
      {
        var p := sorted[n];
        AsMapStep(sorted, n);
        StageStep(before, AsMap(sorted[..n]), p.index, p.states, frame);
        if p.index in pieces {
          var blocks := UpdateBlocks(pieces[p.index].blocks, p.states);
          pieces := pieces[p.index := pieces[p.index].(blocks := blocks)];
        } else {
          pieces := pieces[p.index := NewPiece(p.states, frame)];
          anyInserted := true;
        }
      }
      assert sorted[..|sorted|] == sorted;
    }

    method UpdateBlocks(blocks: seq<Block>, states: seq<nat>) returns (r: seq<Block>)
      ensures r == Restated(Grown(blocks, |states|, frame), states, frame)
    {
      r := Grown(blocks, |states|, frame);
      ghost var grown := r;
      for i := 0 to |states|
        invariant |r| == |grown|
        invariant forall m | 0 <= m < |r| ::
          r[m] == if m < i && grown[m].state != states[m] then Block(states[m], frame) else grown[m]
      {
        if r[i].state != states[i] {
          r := r[i := Block(states[i], frame)];
        }
      }
    }

    method QuerySince(sinceFrame: nat) returns (r: QueryResult)
      ensures r == Query(Model(), sinceFrame)
    {
      hide FullPieces, PartialPieces, Reported, Ascending;
      var since := if sinceFrame < horizon then 0 else sinceFrame;
      var gone: seq<int> := [];
      if since != 0 {
        gone := ScanReported(removed, since, Always());
      }
      var full, blocks := ScanPieces(pieces, Ascending(pieces.Keys), since);
      r := QueryResult(since == 0, full, blocks, gone);
    }

    static method ScanPieces(pieces: map<int, Piece>, keys: seq<int>, since: nat)
      returns (full: seq<int>, blocks: seq<BlockUpdate>)
      requires forall i | 0 <= i < |keys| :: keys[i] in pieces
      ensures full == FullPieces(pieces, keys, since) && blocks == PartialPieces(pieces, keys, since)
    {
      hide SendsFull, BlockUpdates;
      full, blocks := [], [];
      for n := 0 to |keys|
        invariant full == FullPieces(pieces, keys[..n], since)
        invariant blocks == PartialPieces(pieces, keys[..n], since)
      {
        assert keys[..n + 1][..n] == keys[..n];
        var sendFull, updates := Choose(keys[n], pieces[keys[n]], since);
        if sendFull {
          full := full + [keys[n]];
        } else {
          blocks := blocks + updates;
        }
      }
      assert keys[..|keys|] == keys;
    }

    /** New pieces go whole; others in the cheaper of the two encodings. */
    static method Choose(key: int, p: Piece, since: nat) returns (sendFull: bool, updates: seq<BlockUpdate>)
      ensures sendFull == SendsFull(p, since)
      ensures !sendFull ==> updates == BlockUpdates(key, p.blocks, since)
    {
      if since == 0 || p.added > since {
        return true, [];
      }
      var changed;
      changed, updates := ScanBlocks(key, p.blocks, since);
      sendFull := changed != 0 && |p.blocks| + 6 <= changed * 7;
    }

    static method ScanBlocks(piece: int, blocks: seq<Block>, since: nat)
      returns (changed: nat, updates: seq<BlockUpdate>)
      ensures changed == Changed(blocks, since) && updates == BlockUpdates(piece, blocks, since)
    {
      changed, updates := 0, [];
      for i := 0 to |blocks|
        invariant changed == Changed(blocks[..i], since) && updates == BlockUpdates(piece, blocks[..i], since)
      {
        assert blocks[..i + 1][..i] == blocks[..i];
        if blocks[i].frame > since {
          changed := changed + 1;
          updates := updates + [BlockUpdate(piece, i, blocks[i].state)];
        }
      }
      assert blocks[..|blocks|] == blocks;
    }
  }

  lemma NextKeys(pieces: map<int, Piece>, input: map<int, seq<nat>>, frame: nat)
    ensures NextPieces(pieces, input, frame).Keys == input.Keys
  {
  }

  lemma {:induction false} NoUpdates(piece: int, blocks: seq<Block>, since: nat)
    ensures |BlockUpdates(piece, blocks, since)| == Changed(blocks, since)
    decreases |blocks|
  {
    if blocks != [] {
      NoUpdates(piece, blocks[..|blocks| - 1], since);
    }
  }
}
