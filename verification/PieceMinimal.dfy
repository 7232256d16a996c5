/** What a piece delta leaves out: nothing is sent of a block that has not changed, over whole runs. */
module PieceMinimal {
  import opened Collections
  import opened Presence
  import opened PieceHistory
  import opened PieceSync

  type Input = map<int, seq<nat>>

  ghost predicate HasBlock(h: History, x: int, i: nat) {
    x in h.pieces && i < |h.pieces[x].blocks|
  }

  /** The queue goes on reporting the piece, and never another state of block i. */
  ghost predicate Unchanged(inputs: seq<Input>, x: int, i: nat, state: nat) {
    forall n | 0 <= n < |inputs| :: x in inputs[n] && (i < |inputs[n][x]| ==> inputs[n][x][i] == state)
  }

  /** A block that does not change keeps its frame, whatever happens to the others. */
  lemma {:induction false} BlockKeepsFrame(h: History, inputs: seq<Input>, x: int, i: nat)
    requires HasBlock(h, x, i) && Unchanged(inputs, x, i, h.pieces[x].blocks[i].state)
    ensures var h' := Run(h, inputs);
            && HasBlock(h', x, i) && h'.pieces[x].blocks[i] == h.pieces[x].blocks[i]
            && h'.pieces[x].added == h.pieces[x].added
    decreases |inputs|
  {
    hide Refresh, PresenceOf;
    if inputs != [] {
      var n := |inputs| - 1;
      BlockKeepsFrame(h, inputs[..n], x, i);
      assert x in inputs[n];
    }
  }

  lemma {:induction false} NoUpdateOf(piece: int, blocks: seq<Block>, since: nat, u: BlockUpdate)
    requires u in BlockUpdates(piece, blocks, since)
    ensures u.piece == piece && u.block < |blocks| && blocks[u.block].frame > since
    ensures u.state == blocks[u.block].state
    decreases |blocks|
  {
    var n := |blocks| - 1;
    if u in BlockUpdates(piece, blocks[..n], since) {
      NoUpdateOf(piece, blocks[..n], since, u);
    }
  }

  lemma {:induction false} UpdateIsNew(pieces: map<int, Piece>, keys: seq<int>, since: nat, u: BlockUpdate)
    requires forall i | 0 <= i < |keys| :: keys[i] in pieces
    requires u in PartialPieces(pieces, keys, since)
    ensures u.piece in keys && u.piece in pieces && u.block < |pieces[u.piece].blocks|
    ensures pieces[u.piece].blocks[u.block].frame > since
    decreases |keys|
  {
    hide SendsFull;
    var n := |keys| - 1;
    assert keys == keys[..n] + [keys[n]];
    if u in PartialPieces(pieces, keys[..n], since) {
      UpdateIsNew(pieces, keys[..n], since, u);
    } else {
      NoUpdateOf(keys[n], pieces[keys[n]].blocks, since, u);
    }
  }

  /** No block is older than its piece, and nothing is newer than the history. */
  ghost predicate Bounded(p: Piece, frame: nat) {
    p.added <= frame && forall i | 0 <= i < |p.blocks| :: p.added <= p.blocks[i].frame <= frame
  }

  ghost predicate FramesBounded(h: History) {
    forall x | x in h.pieces :: Bounded(h.pieces[x], h.frame)
  }

  lemma PieceBounded(pieces: map<int, Piece>, input: Input, frame: nat, x: int)
    requires x in input && (x in pieces ==> Bounded(pieces[x], frame))
    ensures Bounded(NextPieces(pieces, input, frame + 1)[x], frame + 1)
  {
  }

  lemma {:induction false} RunBounded(h: History, inputs: seq<Input>)
    requires FramesBounded(h)
    ensures FramesBounded(Run(h, inputs))
    decreases |inputs|
  {
    hide Bounded, Refresh, PresenceOf;
    if inputs != [] {
      hide NextPieces;
      var n := |inputs| - 1;
      RunBounded(h, inputs[..n]);
      var g := Run(h, inputs[..n]);
      var h' := Update(g, inputs[n]);
      NextFrame(g, inputs[n]);
      forall x | x in h'.pieces ensures Bounded(h'.pieces[x], h'.frame) {
        PieceBounded(g.pieces, inputs[n], g.frame, x);
      }
    }
  }

  lemma NextFrame(h: History, input: Input)
    ensures Update(h, input).frame == h.frame + 1 && Update(h, input).pieces.Keys == input.Keys
  {
  }

  lemma {:induction false} NothingChanged(blocks: seq<Block>, since: nat)
    requires forall i | 0 <= i < |blocks| :: blocks[i].frame <= since
    ensures Changed(blocks, since) == 0
    decreases |blocks|
  {
    if blocks != [] {
      NothingChanged(blocks[..|blocks| - 1], since);
    }
  }

  lemma {:induction false} SameLength(h: History, inputs: seq<Input>, x: int)
    requires x in h.pieces
    requires forall n | 0 <= n < |inputs| :: x in inputs[n] && |inputs[n][x]| <= |h.pieces[x].blocks|
    ensures x in Run(h, inputs).pieces && |Run(h, inputs).pieces[x].blocks| == |h.pieces[x].blocks|
    decreases |inputs|
  {
    hide Refresh, PresenceOf;
    if inputs != [] {
      var n := |inputs| - 1;
      SameLength(h, inputs[..n], x);
      assert x in inputs[n];
    }
  }

  /** Over any run behind a cursor, a delta has no update of a block that was never reported in
      another state; and of a piece none of whose blocks was, it says nothing at all. */
  lemma OnlyChangesAreSent(limit: nat, before: seq<Input>, after: seq<Input>, x: int, i: nat)
    requires var h0 := Run(Init(limit), before);
             && 0 < h0.frame && Run(h0, after).horizon <= h0.frame
             && HasBlock(h0, x, i) && Unchanged(after, x, i, h0.pieces[x].blocks[i].state)
    ensures var h0 := Run(Init(limit), before);
            var r := Query(Run(h0, after), h0.frame);
            && !r.snapshot
            && (forall u | u in r.blocks :: !(u.piece == x && u.block == i))
            && ((forall j | 0 <= j < |h0.pieces[x].blocks| ::
                   Unchanged(after, x, j, h0.pieces[x].blocks[j].state))
                && (forall n | 0 <= n < |after| :: |after[n][x]| <= |h0.pieces[x].blocks|)
                ==> x !in r.full && forall u | u in r.blocks :: u.piece != x)
  {
    hide Run, Init, FramesBounded, Ok, Knows, RemovedSince, Changed;
    var h0 := Run(Init(limit), before);
    var h1 := Run(h0, after);
    var keys := Ascending(h1.pieces.Keys);
    InitOk(limit);
    RunKnows(Init(limit), before, 0, map[]);
    InitBounded(limit);
    RunBounded(Init(limit), before);
    BlockKeepsFrame(h0, after, x, i);
    BoundedAt(h0, x, i);
    AddedBefore(h0, x);
    forall u | u in PartialPieces(h1.pieces, keys, h0.frame)
      ensures u.piece in h1.pieces && u.block < |h1.pieces[u.piece].blocks|
      ensures h1.pieces[u.piece].blocks[u.block].frame > h0.frame
    {
      UpdateIsNew(h1.pieces, keys, h0.frame, u);
    }
    if (forall j | 0 <= j < |h0.pieces[x].blocks| :: Unchanged(after, x, j, h0.pieces[x].blocks[j].state))
       && (forall n | 0 <= n < |after| :: |after[n][x]| <= |h0.pieces[x].blocks|) {
      SameLength(h0, after, x);
      forall j | 0 <= j < |h1.pieces[x].blocks| ensures h1.pieces[x].blocks[j].frame <= h0.frame {
        BlockKeepsFrame(h0, after, x, j);
        BoundedAt(h0, x, j);
      }
      NothingChanged(h1.pieces[x].blocks, h0.frame);
      FullPiecesAt(h1.pieces, keys, h0.frame, x);
    }
  }

  lemma InitBounded(limit: nat)
    ensures FramesBounded(Init(limit))
  {
  }

  lemma BoundedAt(h: History, x: int, i: nat)
    requires FramesBounded(h) && HasBlock(h, x, i)
    ensures h.pieces[x].blocks[i].frame <= h.frame
  {
  }

  lemma AddedBefore(h: History, x: int)
    requires Ok(h) && x in h.pieces
    ensures h.pieces[x].added <= h.frame
  {
    assert PresenceOf(h).live[x] == h.pieces[x].added;
  }
}
