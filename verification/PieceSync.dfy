/** A client of get-piece-updates: what applying a delta gives it, exactly, over whole runs, and
    what the delta costs on the wire (src/libtorrent_webui.cpp, src/piece_history.cpp). */
module PieceSync {
  import opened Basics
  import opened Collections
  import opened Maps
  import opened Tombstones
  import opened Presence
  import opened PieceHistory

  // ---------------------------------------------------------------- the client

  /** Block states by piece. */
  type View = map<int, seq<nat>>

  datatype Response = Response(snapshot: bool, full: View, blocks: seq<BlockUpdate>, removed: seq<int>)

  function States(blocks: seq<Block>): seq<nat> {
    seq(|blocks|, i requires 0 <= i < |blocks| => blocks[i].state)
  }

  function ViewOf(pieces: map<int, Piece>): View {
    map x | x in pieces :: States(pieces[x].blocks)
  }

  /** What the lists of a query say, with the block states of the whole pieces. */
  function Filled(h: History, r: QueryResult): Response {
    Response(r.snapshot, map x | x in r.full && x in h.pieces :: States(h.pieces[x].blocks), r.blocks, r.removed)
  }

  function Answer(h: History, since: nat): Response {
    Filled(h, Query(h, since))
  }

  /** An array element is set; setting the one past the end appends it. */
  function SetAt(s: seq<nat>, i: nat, v: nat): seq<nat> {
    if i < |s| then s[i := v] else if i == |s| then s + [v] else s
  }

  function ApplyBlock(view: View, u: BlockUpdate): View {
    if u.piece in view then view[u.piece := SetAt(view[u.piece], u.block, u.state)] else view
  }

  function ApplyBlocks(view: View, us: seq<BlockUpdate>): View
    decreases |us|
  {
    if us == [] then view else ApplyBlock(ApplyBlocks(view, us[..|us| - 1]), us[|us| - 1])
  }

  function Apply(view: View, r: Response): View {
    var kept := if r.snapshot then map[] else view - (set x | x in r.removed);
    ApplyBlocks(kept + r.full, r.blocks)
  }

  // ---------------------------------------------------------------- block updates, piece by piece

  lemma {:induction false} ApplyBlocksConcat(view: View, a: seq<BlockUpdate>, b: seq<BlockUpdate>)
    ensures ApplyBlocks(view, a + b) == ApplyBlocks(ApplyBlocks(view, a), b)
    decreases |b|
  {
    if b == [] {
      assert a + b == a;
    } else {
      var init := b[..|b| - 1];
      assert (a + b)[..|a + b| - 1] == a + init;
      ApplyBlocksConcat(view, a, init);
    }
  }

  /** The changed blocks of one array written over an older copy of it. */
  function Patched(s: seq<nat>, blocks: seq<Block>, since: nat): seq<nat>
    decreases |blocks|
  {
    if blocks == [] then s
    else
      var n := |blocks| - 1;
      var p := Patched(s, blocks[..n], since);
      if blocks[n].frame > since then SetAt(p, n, blocks[n].state) else p
  }

  lemma {:induction false} BlockUpdatesAt(view: View, piece: int, blocks: seq<Block>, since: nat, x: int)
    requires piece in view
    ensures var after := ApplyBlocks(view, BlockUpdates(piece, blocks, since));
            && piece in after && after[piece] == Patched(view[piece], blocks, since)
            && (x != piece ==> SameAt(after, view, x))
    decreases |blocks|
  {
    if blocks != [] {
      var n := |blocks| - 1;
      BlockUpdatesAt(view, piece, blocks[..n], since, x);
      var us := BlockUpdates(piece, blocks[..n], since);
      if blocks[n].frame > since {
        assert (us + [BlockUpdate(piece, n, blocks[n].state)])[..|us|] == us;
      } else {
        assert us + [] == us;
      }
    }
  }

  lemma PartialStep(pieces: map<int, Piece>, keys: seq<int>, since: nat)
    requires keys != [] && forall i | 0 <= i < |keys| :: keys[i] in pieces
    ensures var n := |keys| - 1;
            PartialPieces(pieces, keys, since)
            == PartialPieces(pieces, keys[..n], since)
               + (if SendsFull(pieces[keys[n]], since) then []
                  else BlockUpdates(keys[n], pieces[keys[n]].blocks, since))
  {
    hide SendsFull, BlockUpdates;
  }

  lemma LastKeyIsNew(keys: seq<int>, x: int)
    requires Increasing(keys) && keys != []
    ensures x in keys <==> x in keys[..|keys| - 1] || x == keys[|keys| - 1]
    ensures keys[|keys| - 1] !in keys[..|keys| - 1]
  {
    assert keys == keys[..|keys| - 1] + [keys[|keys| - 1]];
  }

  /** All partial pieces applied: each piece is patched by its own updates and no others. */
  lemma {:induction false} PartialPiecesAt(view: View, pieces: map<int, Piece>, keys: seq<int>, since: nat, x: int)
    requires Increasing(keys) && forall i | 0 <= i < |keys| :: keys[i] in pieces && keys[i] in view
    ensures var after := ApplyBlocks(view, PartialPieces(pieces, keys, since));
            && (x in after <==> x in view)
            && (x in view ==>
                  after[x] == if x in keys && x in pieces && !SendsFull(pieces[x], since)
                              then Patched(view[x], pieces[x].blocks, since) else view[x])
    decreases |keys|
  {
    hide SendsFull, Patched, BlockUpdates;
    if keys != [] {
      hide PartialPieces, ApplyBlocks;
      var n := |keys| - 1;
      var init, k := keys[..n], keys[n];
      PartialPiecesAt(view, pieces, init, since, x);
      PartialPiecesAt(view, pieces, init, since, k);
      PartialStep(pieces, keys, since);
      LastKeyIsNew(keys, x);
      LastKeyIsNew(keys, k);
      var us := PartialPieces(pieces, init, since);
      if SendsFull(pieces[k], since) {
        assert us + [] == us;
      } else {
        ApplyBlocksConcat(view, us, BlockUpdates(k, pieces[k].blocks, since));
        BlockUpdatesAt(ApplyBlocks(view, us), k, pieces[k].blocks, since, x);
      }
    }
  }

  lemma {:induction false} FullPiecesAt(pieces: map<int, Piece>, keys: seq<int>, since: nat, x: int)
    requires forall i | 0 <= i < |keys| :: keys[i] in pieces
    ensures x in FullPieces(pieces, keys, since) <==> x in keys && x in pieces && SendsFull(pieces[x], since)
    decreases |keys|
  {
    hide SendsFull;
    if keys != [] {
      var n := |keys| - 1;
      FullPiecesAt(pieces, keys[..n], since, x);
      assert keys == keys[..n] + [keys[n]];
    }
  }

  // ---------------------------------------------------------------- old and new block arrays

  /** `then_` is the array as it was at `since`: unchanged blocks are still what they were. */
  ghost predicate Agrees(blocks: seq<Block>, then_: seq<nat>, since: nat) {
    |then_| <= |blocks|
    && forall i | 0 <= i < |blocks| && blocks[i].frame <= since :: i < |then_| && then_[i] == blocks[i].state
  }

  lemma {:induction false} PatchPrefix(then_: seq<nat>, blocks: seq<Block>, since: nat, n: nat)
    requires Agrees(blocks, then_, since) && n <= |blocks|
    ensures var p := Patched(then_, blocks[..n], since);
            && |p| == (if n < |then_| then |then_| else n)
            && (forall i | 0 <= i < n :: p[i] == blocks[i].state)
            && (forall i | n <= i < |then_| :: p[i] == then_[i])
    decreases n
  {
    if n > 0 {
      PatchPrefix(then_, blocks, since, n - 1);
      assert blocks[..n][..n - 1] == blocks[..n - 1];
    }
  }

  /** Both encodings rebuild the same array: patching the old one gives the whole current one. */
  lemma PatchIsWhole(then_: seq<nat>, blocks: seq<Block>, since: nat)
    requires Agrees(blocks, then_, since)
    ensures Patched(then_, blocks, since) == States(blocks)
  {
    PatchPrefix(then_, blocks, since, |blocks|);
    assert blocks[..|blocks|] == blocks;
  }

  // ---------------------------------------------------------------- tracking an old frame

  /** Everything the history still knows of `base`, the client's view at frame `since`. */
  ghost predicate Knows(h: History, since: nat, base: View) {
    && Tracks(PresenceOf(h), since, base.Keys)
    && (forall x | x in h.pieces && h.pieces[x].added <= since && x in base ::
          Agrees(h.pieces[x].blocks, base[x], since))
  }

  ghost predicate Ok(h: History) {
    Inv(PresenceOf(h))
  }

  lemma AgreesLater(p: Piece, states: seq<nat>, frame: nat, then_: seq<nat>, since: nat)
    requires Agrees(p.blocks, then_, since) && since < frame
    ensures Agrees(UpdatedPiece(p, states, frame).blocks, then_, since)
  {
  }

  lemma UpdateKnows(h: History, input: map<int, seq<nat>>, since: nat, base: View)
    requires Ok(h) && Knows(h, since, base)
    ensures Ok(Update(h, input)) && Knows(Update(h, input), since, base)
  {
    hide Inv, Tracks, Candidates, Agrees, UpdatedPiece, NewPiece;
    var h' := Update(h, input);
    UpdatePresence(h, input);
    RefreshTracks(PresenceOf(h), input.Keys, since, base.Keys);
    TracksBound(PresenceOf(h), since, base.Keys);
    forall x | x in h'.pieces && h'.pieces[x].added <= since && x in base
      ensures Agrees(h'.pieces[x].blocks, base[x], since)
    {
      PieceOrigin(h, input, x);
      if x in h.pieces {
        AgreesLater(h.pieces[x], input[x], h.frame + 1, base[x], since);
      }
    }
  }

  lemma TracksBound(p: Presence, since: nat, base: set<int>)
    requires Tracks(p, since, base)
    ensures since <= p.frame
  {
  }

  lemma PieceOrigin(h: History, input: map<int, seq<nat>>, x: int)
    requires x in Update(h, input).pieces
    ensures x in input
    ensures var p := Update(h, input).pieces[x];
            if x in h.pieces then p == UpdatedPiece(h.pieces[x], input[x], h.frame + 1) && p.added == h.pieces[x].added
            else p.added == h.frame + 1
  {
    hide Candidates, Restated, Grown;
  }

  lemma KnowsNow(h: History)
    requires Ok(h)
    ensures Knows(h, h.frame, ViewOf(h.pieces))
  {
    TracksNow(PresenceOf(h));
    assert ViewOf(h.pieces).Keys == PresenceOf(h).live.Keys;
  }

  // ---------------------------------------------------------------- the delta, exactly

  /** Pieces the client keeps although they are gone: those whose last incarnation was added
      after `since`. */
  ghost function Lingering(h: History, since: nat, base: View): View {
    map x | x in base && x !in h.pieces && Lingers(PresenceOf(h), since, x) :: base[x]
  }

  lemma KeptAt(h: History, since: nat, base: View, x: int)
    requires Ok(h) && Knows(h, since, base) && h.horizon <= since && 0 < since
    ensures var r := Answer(h, since);
            && (x in h.pieces ==> x !in r.removed)
            && (x in base && x !in h.pieces ==> (x in r.removed <==> !Lingers(PresenceOf(h), since, x)))
            && (x in r.full <==> x in h.pieces && SendsFull(h.pieces[x], since))
            && (x in r.full ==> r.full[x] == States(h.pieces[x].blocks))
            && (x in h.pieces && h.pieces[x].added <= since ==> x in base)
  {
    hide Inv, SendsFull, PartialPieces;
    RemovedExactly(PresenceOf(h), since, base.Keys, x);
    FullPiecesAt(h.pieces, Ascending(h.pieces.Keys), since, x);
  }

  /** The client's pieces after removals and whole pieces, before block updates. */
  function Start(h: History, since: nat, base: View): View {
    var r := Answer(h, since);
    (base - (set y | y in r.removed)) + r.full
  }

  lemma StartHolds(h: History, since: nat, base: View)
    requires Ok(h) && Knows(h, since, base) && h.horizon <= since && 0 < since
    ensures var keys := Ascending(h.pieces.Keys);
            forall i | 0 <= i < |keys| :: keys[i] in h.pieces && keys[i] in Start(h, since, base)
  {
    hide Ok, Knows, Answer;
    var keys := Ascending(h.pieces.Keys);
    forall i | 0 <= i < |keys| ensures keys[i] in h.pieces && keys[i] in Start(h, since, base) {
      KeptAt(h, since, base, keys[i]);
      if h.pieces[keys[i]].added > since {
        SentIfNew(h.pieces, keys[i], since);
      }
    }
  }

  lemma SentIfNew(pieces: map<int, Piece>, x: int, since: nat)
    requires x in pieces && pieces[x].added > since
    ensures SendsFull(pieces[x], since)
  {
  }

  lemma DeltaAt(h: History, since: nat, base: View, x: int)
    requires Ok(h) && Knows(h, since, base) && h.horizon <= since && 0 < since
    ensures SameAt(Apply(base, Answer(h, since)), ViewOf(h.pieces) + Lingering(h, since, base), x)
  {
    hide Ok, Tracks, Apply, Answer, Patched, Lingers, Agrees, PartialPieces, SendsFull, States, Increasing;
    StartHolds(h, since, base);
    AppliedIs(h, since, base);
    PartialPiecesAt(Start(h, since, base), h.pieces, Ascending(h.pieces.Keys), since, x);
    KeptAt(h, since, base, x);
    if x in h.pieces {
      AscendingHas(h.pieces, x);
      if h.pieces[x].added > since {
        SentIfNew(h.pieces, x, since);
      } else {
        PatchIsWhole(base[x], h.pieces[x].blocks, since);
      }
    }
  }

  lemma AscendingHas(pieces: map<int, Piece>, x: int)
    ensures x in Ascending(pieces.Keys) <==> x in pieces
  {
  }

  lemma AppliedIs(h: History, since: nat, base: View)
    requires h.horizon <= since && 0 < since
    ensures Apply(base, Answer(h, since))
         == ApplyBlocks(Start(h, since, base), PartialPieces(h.pieces, Ascending(h.pieces.Keys), since))
  {
    hide PartialPieces, FullPieces, Ascending;
  }

  /** The delta, exactly: applied to the view at `since` it gives the current pieces and blocks
      and, besides, only the pieces that linger. */
  lemma DeltaExactly(h: History, since: nat, base: View)
    requires Ok(h) && Knows(h, since, base) && h.horizon <= since && 0 < since
    ensures Apply(base, Answer(h, since)) == ViewOf(h.pieces) + Lingering(h, since, base)
  {
    hide Ok, Knows, Apply, Answer, ViewOf, Lingering, SameAt;
    var after, expected := Apply(base, Answer(h, since)), ViewOf(h.pieces) + Lingering(h, since, base);
    forall x ensures SameAt(after, expected, x) {
      DeltaAt(h, since, base, x);
    }
    SameEverywhere(after, expected);
  }

  /** So the delta is right exactly when no piece the client holds has gone after being
      re-added since its cursor. */
  lemma DeltaIsRightIff(h: History, since: nat, base: View)
    requires Ok(h) && Knows(h, since, base) && h.horizon <= since && 0 < since
    ensures Apply(base, Answer(h, since)) == ViewOf(h.pieces)
       <==> forall x | x in base && x !in h.pieces :: !Lingers(PresenceOf(h), since, x)
  {
    hide Ok, Knows, Apply, Answer, Lingers;
    DeltaExactly(h, since, base);
    var next, left := ViewOf(h.pieces), Lingering(h, since, base);
    if x :| x in base && x !in h.pieces && Lingers(PresenceOf(h), since, x) {
      assert x in (next + left) && x !in next;
    } else {
      forall x ensures SameAt(next + left, next, x) {
      }
      SameEverywhere(next + left, next);
    }
  }

  lemma {:induction false} EverythingIsFull(pieces: map<int, Piece>, keys: seq<int>)
    requires forall i | 0 <= i < |keys| :: keys[i] in pieces
    ensures PartialPieces(pieces, keys, 0) == []
    decreases |keys|
  {
    if keys != [] {
      EverythingIsFull(pieces, keys[..|keys| - 1]);
    }
  }

  /** A snapshot replaces whatever the client had. */
  lemma SnapshotExactly(h: History, since: nat, view: View)
    requires since == 0 || since < h.horizon
    ensures Apply(view, Answer(h, since)) == ViewOf(h.pieces)
  {
    hide PartialPieces, States;
    EverythingIsFull(h.pieces, Ascending(h.pieces.Keys));
    var after, next := Apply(view, Answer(h, since)), ViewOf(h.pieces);
    forall x ensures SameAt(after, next, x) {
      FullPiecesAt(h.pieces, Ascending(h.pieces.Keys), 0, x);
    }
    SameEverywhere(after, next);
  }

  // ---------------------------------------------------------------- the order of application

  lemma {:induction false} PartialKeys(pieces: map<int, Piece>, keys: seq<int>, since: nat, u: BlockUpdate)
    requires forall i | 0 <= i < |keys| :: keys[i] in pieces
    ensures u in PartialPieces(pieces, keys, since) ==> u.piece in pieces && !SendsFull(pieces[u.piece], since)
    decreases |keys|
  {
    hide SendsFull;
    if keys != [] {
      var n := |keys| - 1;
      PartialKeys(pieces, keys[..n], since, u);
      UpdatesAreOfPiece(keys[n], pieces[keys[n]].blocks, since, u);
    }
  }

  lemma {:induction false} UpdatesAreOfPiece(piece: int, blocks: seq<Block>, since: nat, u: BlockUpdate)
    ensures u in BlockUpdates(piece, blocks, since) ==> u.piece == piece
    decreases |blocks|
  {
    if blocks != [] {
      UpdatesAreOfPiece(piece, blocks[..|blocks| - 1], since, u);
    }
  }

  /** Removed pieces, whole pieces and block updates speak of three disjoint sets of pieces, so
      a client may apply the three lists in any order. */
  lemma ListsAreDisjoint(h: History, since: nat, base: View)
    requires Ok(h) && Knows(h, since, base) && h.horizon <= since && 0 < since
    ensures var r := Answer(h, since);
            && (forall x | x in r.removed :: x !in r.full && x in base)
            && (forall u | u in r.blocks :: u.piece !in r.removed && u.piece !in r.full && u.piece in h.pieces)
  {
    hide Ok, Knows, SendsFull, FullPieces, PartialPieces, Tracks;
    var r := Answer(h, since);
    forall x | x in r.removed ensures x !in r.full && x in base {
      KeptAt(h, since, base, x);
      RemovedWereThere(h, since, base, x);
    }
    forall u | u in r.blocks ensures u.piece !in r.removed && u.piece !in r.full && u.piece in h.pieces {
      KeptAt(h, since, base, u.piece);
      PartialKeys(h.pieces, Ascending(h.pieces.Keys), since, u);
    }
  }

  lemma RemovedWereThere(h: History, since: nat, base: View, x: int)
    requires Ok(h) && Knows(h, since, base) && h.horizon <= since && 0 < since && x in Answer(h, since).removed
    ensures x in base
  {
    hide FullPieces, PartialPieces;
    RemovedExactly(PresenceOf(h), since, base.Keys, x);
  }

  // ---------------------------------------------------------------- whole runs

  ghost function Run(h: History, inputs: seq<map<int, seq<nat>>>): History
    decreases |inputs|
  {
    if inputs == [] then h else Update(Run(h, inputs[..|inputs| - 1]), inputs[|inputs| - 1])
  }

  lemma {:induction false} RunKnows(h: History, inputs: seq<map<int, seq<nat>>>, since: nat, base: View)
    requires Ok(h) && Knows(h, since, base)
    ensures Ok(Run(h, inputs)) && Knows(Run(h, inputs), since, base)
    decreases |inputs|
  {
    hide Ok, Knows, Update;
    if inputs != [] {
      RunKnows(h, inputs[..|inputs| - 1], since, base);
      UpdateKnows(Run(h, inputs[..|inputs| - 1]), inputs[|inputs| - 1], since, base);
    }
  }

  lemma InitOk(limit: nat)
    ensures Ok(Init(limit)) && Knows(Init(limit), 0, map[])
  {
  }

  /** Whatever the server saw before and after, a client that got everything at frame K and asks
      again ends up with the current pieces plus exactly those that linger. */
  lemma DeltaOverRuns(limit: nat, before: seq<map<int, seq<nat>>>, after: seq<map<int, seq<nat>>>)
    ensures var h0 := Run(Init(limit), before);
            var h1 := Run(h0, after);
            var view := Apply(ViewOf(h0.pieces), Answer(h1, h0.frame));
            if h0.frame == 0 || h0.frame < h1.horizon then view == ViewOf(h1.pieces)
            else view == ViewOf(h1.pieces) + Lingering(h1, h0.frame, ViewOf(h0.pieces))
  {
    hide Ok, Knows, Run, Init, Apply, Answer, ViewOf, Lingering;
    var h0 := Run(Init(limit), before);
    var h1 := Run(h0, after);
    InitOk(limit);
    RunKnows(Init(limit), before, 0, map[]);
    KnowsNow(h0);
    RunKnows(h0, after, h0.frame, ViewOf(h0.pieces));
    if h0.frame == 0 || h0.frame < h1.horizon {
      SnapshotExactly(h1, h0.frame, ViewOf(h0.pieces));
    } else {
      DeltaExactly(h1, h0.frame, ViewOf(h0.pieces));
    }
  }

  /** The pieces of each update. */
  function KeySets(inputs: seq<map<int, seq<nat>>>): seq<set<int>> {
    seq(|inputs|, i requires 0 <= i < |inputs| => inputs[i].Keys)
  }

  lemma {:induction false} RunPresence(h: History, inputs: seq<map<int, seq<nat>>>)
    ensures PresenceOf(Run(h, inputs)) == RefreshAll(PresenceOf(h), KeySets(inputs))
    decreases |inputs|
  {
    hide Update, Refresh, PresenceOf;
    if inputs == [] {
      assert KeySets(inputs) == [];
    } else {
      var n := |inputs| - 1;
      RunPresence(h, inputs[..n]);
      UpdatePresence(Run(h, inputs[..n]), inputs[n]);
      assert KeySets(inputs)[..n] == KeySets(inputs[..n]);
    }
  }

  lemma LingersAfter(h: History, inputs: seq<map<int, seq<nat>>>, x: int)
    requires Ok(h) && x in h.pieces && x !in Run(h, inputs).pieces && Run(h, inputs).horizon <= h.frame
    ensures Lingers(PresenceOf(Run(h, inputs)), h.frame, x) <==> CameBack(KeySets(inputs), x)
  {
    hide Inv, Run, RefreshAll, Lingers, CameBack, KeySets;
    RunPresence(h, inputs);
    LiveIsPieces(h, x);
    LiveIsPieces(Run(h, inputs), x);
    LingersIff(PresenceOf(h), KeySets(inputs), x);
  }

  lemma LiveIsPieces(h: History, x: int)
    ensures x in PresenceOf(h).live <==> x in h.pieces
  {
  }

  /** A piece is lost on the client: it was there, is gone, and has come back in between. */
  ghost predicate LeftTwice(h0: History, after: seq<map<int, seq<nat>>>, x: int) {
    x in h0.pieces && x !in Run(h0, after).pieces && CameBack(KeySets(after), x)
  }

  /** A poll after any run is right iff it is a snapshot or no piece left, came back and left
      again since the last one. */
  lemma RunIsRightIff(limit: nat, before: seq<map<int, seq<nat>>>, after: seq<map<int, seq<nat>>>)
    ensures var h0 := Run(Init(limit), before);
            var h1 := Run(h0, after);
            Apply(ViewOf(h0.pieces), Answer(h1, h0.frame)) == ViewOf(h1.pieces)
            <==> h0.frame == 0 || h0.frame < h1.horizon || forall x :: !LeftTwice(h0, after, x)
  {
    hide Ok, Knows, Run, Init, Apply, Answer, ViewOf, Lingers, CameBack;
    var h0 := Run(Init(limit), before);
    var h1 := Run(h0, after);
    var base := ViewOf(h0.pieces);
    InitOk(limit);
    RunKnows(Init(limit), before, 0, map[]);
    KnowsNow(h0);
    RunKnows(h0, after, h0.frame, base);
    if h0.frame == 0 || h0.frame < h1.horizon {
      SnapshotExactly(h1, h0.frame, base);
    } else {
      DeltaIsRightIff(h1, h0.frame, base);
      forall x
        ensures LeftTwice(h0, after, x) <==> x in base && x !in h1.pieces && Lingers(PresenceOf(h1), h0.frame, x) {
        ViewHas(h0.pieces, x);
        if x in h0.pieces && x !in h1.pieces {
          LingersAfter(h0, after, x);
        }
      }
    }
  }

  lemma ViewHas(pieces: map<int, Piece>, x: int)
    ensures x in ViewOf(pieces) <==> x in pieces
  {
  }

  // ---------------------------------------------------------------- many polls

  /** Those of the pieces a client should not hold that are still not there. */
  function StillGone(extra: View, h: History): View {
    map x | x in extra && x !in h.pieces :: extra[x]
  }

  /** A client that also holds pieces it should not keeps them until they come back. */
  lemma ExtendedDeltaAt(h: History, since: nat, base: View, extra: View, x: int)
    requires Ok(h) && Knows(h, since, base) && h.horizon <= since && 0 < since
    requires forall y | y in extra :: y !in base
    ensures SameAt(Apply(base + extra, Answer(h, since)), Apply(base, Answer(h, since)) + StillGone(extra, h), x)
  {
    hide Ok, Knows, Apply, Answer, Patched, PartialPieces, SendsFull, States, Increasing;
    StartHolds(h, since, base);
    StartHoldsMore(h, since, base, extra);
    AppliedIs(h, since, base);
    AppliedIs(h, since, base + extra);
    PartialPiecesAt(Start(h, since, base), h.pieces, Ascending(h.pieces.Keys), since, x);
    PartialPiecesAt(Start(h, since, base + extra), h.pieces, Ascending(h.pieces.Keys), since, x);
    AscendingHas(h.pieces, x);
    KeptAt(h, since, base, x);
    if x in h.pieces && h.pieces[x].added > since {
      SentIfNew(h.pieces, x, since);
    }
    if x in Answer(h, since).removed {
      RemovedWereThere(h, since, base, x);
    }
  }

  lemma StartHoldsMore(h: History, since: nat, base: View, extra: View)
    requires Ok(h) && Knows(h, since, base) && h.horizon <= since && 0 < since
    ensures var keys := Ascending(h.pieces.Keys);
            forall i | 0 <= i < |keys| :: keys[i] in h.pieces && keys[i] in Start(h, since, base + extra)
  {
    hide Ok, Knows, Answer;
    StartHolds(h, since, base);
  }

  lemma ExtendedDelta(h: History, since: nat, base: View, extra: View)
    requires Ok(h) && Knows(h, since, base) && h.horizon <= since && 0 < since
    requires forall y | y in extra :: y !in base
    ensures Apply(base + extra, Answer(h, since))
         == ViewOf(h.pieces) + (Lingering(h, since, base) + StillGone(extra, h))
  {
    hide Ok, Knows, Apply, Answer, ViewOf, Lingering, SameAt, StillGone;
    var after := Apply(base + extra, Answer(h, since));
    DeltaExactly(h, since, base);
    forall x ensures SameAt(after, Apply(base, Answer(h, since)) + StillGone(extra, h), x) {
      ExtendedDeltaAt(h, since, base, extra, x);
    }
    SameEverywhere(after, Apply(base, Answer(h, since)) + StillGone(extra, h));
    MergeAssoc(ViewOf(h.pieces), Lingering(h, since, base), StillGone(extra, h));
  }

  /** The server after some intervals of updates; a client polls at the end of each. */
  ghost function Server(limit: nat, rounds: seq<seq<map<int, seq<nat>>>>): History
    decreases |rounds|
  {
    if rounds == [] then Init(limit) else Run(Server(limit, rounds[..|rounds| - 1]), rounds[|rounds| - 1])
  }

  /** What the client then holds, whatever it held at first. */
  ghost function Client(limit: nat, rounds: seq<seq<map<int, seq<nat>>>>, stale: View): View
    decreases |rounds|
  {
    if rounds == [] then stale
    else
      var init := rounds[..|rounds| - 1];
      Apply(Client(limit, init, stale), Answer(Server(limit, rounds), Server(limit, init).frame))
  }

  /** The pieces it should not hold: a snapshot clears them, a delta adds those that linger. */
  ghost function Ghosts(limit: nat, rounds: seq<seq<map<int, seq<nat>>>>, stale: View): View
    decreases |rounds|
  {
    if rounds == [] then stale
    else
      var init := rounds[..|rounds| - 1];
      var h0, h := Server(limit, init), Server(limit, rounds);
      if h0.frame == 0 || h0.frame < h.horizon then map[]
      else Lingering(h, h0.frame, ViewOf(h0.pieces)) + StillGone(Ghosts(limit, init, stale), h)
  }

  lemma {:induction false} ServerOk(limit: nat, rounds: seq<seq<map<int, seq<nat>>>>)
    ensures Ok(Server(limit, rounds))
    decreases |rounds|
  {
    hide Ok, Knows, Run;
    InitOk(limit);
    if rounds != [] {
      var h := Server(limit, rounds[..|rounds| - 1]);
      ServerOk(limit, rounds[..|rounds| - 1]);
      KnowsNow(h);
      RunKnows(h, rounds[|rounds| - 1], h.frame, ViewOf(h.pieces));
    }
  }

  lemma {:induction false} GhostsAreGone(limit: nat, rounds: seq<seq<map<int, seq<nat>>>>, stale: View, x: int)
    ensures x in Ghosts(limit, rounds, stale) ==> x !in ViewOf(Server(limit, rounds).pieces)
    decreases |rounds|
  {
    hide Run, Lingers;
    if rounds == [] {
      InitOk(limit);
    }
  }

  /** Over any number of polls: the client holds the current pieces and besides exactly the ghosts
      that have gathered since the last snapshot, none of which is a current piece. */
  lemma {:induction false} SessionExactly(limit: nat, rounds: seq<seq<map<int, seq<nat>>>>, stale: View)
    ensures Client(limit, rounds, stale) == ViewOf(Server(limit, rounds).pieces) + Ghosts(limit, rounds, stale)
    ensures forall x | x in Ghosts(limit, rounds, stale) :: x !in Server(limit, rounds).pieces
    decreases |rounds|
  {
    hide Ok, Knows, Run, Apply, Answer, ViewOf, Lingering, StillGone;
    forall x | x in Ghosts(limit, rounds, stale) ensures x !in Server(limit, rounds).pieces {
      GhostsAreGone(limit, rounds, stale, x);
      ViewHas(Server(limit, rounds).pieces, x);
    }
    if rounds == [] {
      NothingYet(limit, stale);
    } else {
      var init := rounds[..|rounds| - 1];
      var h0, h := Server(limit, init), Server(limit, rounds);
      var base, extra := ViewOf(h0.pieces), Ghosts(limit, init, stale);
      ServerOk(limit, init);
      KnowsNow(h0);
      RunKnows(h0, rounds[|rounds| - 1], h0.frame, base);
      SessionExactly(limit, init, stale);
      if h0.frame == 0 || h0.frame < h.horizon {
        SnapshotExactly(h, h0.frame, base + extra);
        assert ViewOf(h.pieces) + map[] == ViewOf(h.pieces);
      } else {
        forall y | y in extra ensures y !in base {
          GhostsAreGone(limit, init, stale, y);
        }
        ExtendedDelta(h, h0.frame, base, extra);
      }
    }
  }

  lemma NothingYet(limit: nat, stale: View)
    ensures stale == ViewOf(Init(limit).pieces) + stale
  {
    forall x ensures SameAt(stale, ViewOf(Init(limit).pieces) + stale, x) {
    }
    SameEverywhere(stale, ViewOf(Init(limit).pieces) + stale);
  }

  // ---------------------------------------------------------------- cost

  /** Bytes on the wire for the two lists: index, count and states; or index, block and state. */
  function WireBytes(pieces: map<int, Piece>, full: seq<int>, blocks: seq<BlockUpdate>): nat
    requires forall i | 0 <= i < |full| :: full[i] in pieces
    decreases |full|
  {
    if full == [] then 7 * |blocks|
    else
      var n := |full| - 1;
      WireBytes(pieces, full[..n], blocks) + 4 + 2 + |pieces[full[n]].blocks|
  }

  /** The least each piece can cost: new ones must go whole, others the cheaper way. */
  function LeastBytes(pieces: map<int, Piece>, keys: seq<int>, since: nat): nat
    requires forall i | 0 <= i < |keys| :: keys[i] in pieces
    decreases |keys|
  {
    if keys == [] then 0
    else
      var n := |keys| - 1;
      var p := pieces[keys[n]];
      LeastBytes(pieces, keys[..n], since)
      + if p.added > since then |p.blocks| + 6 else Min(|p.blocks| + 6, 7 * Changed(p.blocks, since))
  }

  lemma {:induction false} FullAreKeys(pieces: map<int, Piece>, keys: seq<int>, since: nat)
    requires forall i | 0 <= i < |keys| :: keys[i] in pieces
    ensures var full := FullPieces(pieces, keys, since);
            forall i | 0 <= i < |full| :: full[i] in pieces
    decreases |keys|
  {
    hide SendsFull;
    if keys != [] {
      var n := |keys| - 1;
      FullAreKeys(pieces, keys[..n], since);
      if !SendsFull(pieces[keys[n]], since) {
        assert FullPieces(pieces, keys, since) == FullPieces(pieces, keys[..n], since);
      }
    }
  }

  lemma {:induction false} WireBytesMore(
    pieces: map<int, Piece>, full: seq<int>, blocks: seq<BlockUpdate>, more: seq<BlockUpdate>)
    requires forall i | 0 <= i < |full| :: full[i] in pieces
    ensures WireBytes(pieces, full, blocks + more) == WireBytes(pieces, full, blocks) + 7 * |more|
    decreases |full|
  {
    if full != [] {
      WireBytesMore(pieces, full[..|full| - 1], blocks, more);
    }
  }

  /** The delta costs the least possible, piece by piece. */
  lemma {:induction false} DeltaIsCheapest(pieces: map<int, Piece>, keys: seq<int>, since: nat)
    requires 0 < since && forall i | 0 <= i < |keys| :: keys[i] in pieces
    ensures var full := FullPieces(pieces, keys, since);
            && (forall i | 0 <= i < |full| :: full[i] in pieces)
            && WireBytes(pieces, full, PartialPieces(pieces, keys, since)) == LeastBytes(pieces, keys, since)
    decreases |keys|
  {
    hide BlockUpdates, Changed;
    FullAreKeys(pieces, keys, since);
    if keys != [] {
      var n := |keys| - 1;
      DeltaIsCheapest(pieces, keys[..n], since);
      var p := pieces[keys[n]];
      var full, blocks := FullPieces(pieces, keys[..n], since), PartialPieces(pieces, keys[..n], since);
      if SendsFull(p, since) {
        assert (full + [keys[n]])[..|full|] == full;
        assert blocks + [] == blocks;
      } else {
        NoUpdates(keys[n], p.blocks, since);
        WireBytesMore(pieces, full, blocks, BlockUpdates(keys[n], p.blocks, since));
        assert full + [] == full;
      }
    }
  }

  // ---------------------------------------------------------------- a lingering piece

  function Empty5(removed: seq<Stone>, frame: nat): Presence {
    Presence(map[], removed, frame, 0, 1000)
  }

  function With5(added: nat, frame: nat): Presence {
    Presence(map[5 := added], [], frame, 0, 1000)
  }

  lemma Comes(removed: seq<Stone>, frame: nat)
    requires removed == [] || (|removed| == 1 && removed[0].key == 5)
    ensures Refresh(Empty5(removed, frame), {5}) == With5(frame + 1, frame + 1)
  {
    var p := Empty5(removed, frame);
    assert Missing(Ascending(p.live.Keys), {5}) == [];
    assert Candidates(p, {5}) == [];
  }

  lemma Goes(added: nat, frame: nat)
    ensures Refresh(With5(added, frame), {}) == Empty5([Tombstone(frame + 1, added, 5, ())], frame + 1)
  {
    var p := With5(added, frame);
    assert p.live.Keys == {5};
    JustFive();
    assert Missing([5], {}) == [5];
    assert [5][..0] == [];
    var stones := Push([], p.live, frame + 1, [5]);
    assert stones == [Tombstone(frame + 1, added, 5, ())];
    assert Forget(stones, {}) == stones;
  }

  lemma JustFive()
    ensures Ascending({5}) == [5]
  {
    assert {5} - {5} == {};
  }

  lemma UpdateIs(h: History, input: map<int, seq<nat>>, p: Presence)
    requires PresenceOf(h) == p
    ensures PresenceOf(Update(h, input)) == Refresh(p, input.Keys)
  {
    UpdatePresence(h, input);
  }

  const HERE: map<int, seq<nat>> := map[5 := [3]]

  const GONE: map<int, seq<nat>> := map[]

  lemma ComesAndGoes()
    ensures HERE.Keys == {5} && GONE.Keys == {}
    ensures PresenceOf(Run(Init(1000), [HERE])) == With5(1, 1)
    ensures PresenceOf(Run(Run(Init(1000), [HERE]), [GONE, HERE, GONE])) == Empty5([Tombstone(4, 3, 5, ())], 4)
  {
    hide Refresh, Update, Run, PresenceOf;
    assert HERE.Keys == {5} && GONE.Keys == {};
    assert [] + [HERE] == [HERE] && [] + [GONE] == [GONE] && [GONE] + [HERE] == [GONE, HERE];
    assert [GONE, HERE] + [GONE] == [GONE, HERE, GONE];
    RunMore(Init(1000), [], HERE);
    var h0 := Run(Init(1000), [HERE]);
    InitIsEmpty();
    UpdateIs(Init(1000), HERE, Empty5([], 0));
    Comes([], 0);
    RunMore(h0, [], GONE);
    UpdateIs(h0, GONE, With5(1, 1));
    Goes(1, 1);
    RunMore(h0, [GONE], HERE);
    UpdateIs(Run(h0, [GONE]), HERE, Empty5([Tombstone(2, 1, 5, ())], 2));
    Comes([Tombstone(2, 1, 5, ())], 2);
    RunMore(h0, [GONE, HERE], GONE);
    UpdateIs(Run(h0, [GONE, HERE]), GONE, With5(3, 3));
    Goes(3, 3);
  }

  lemma InitIsEmpty()
    ensures PresenceOf(Init(1000)) == Empty5([], 0)
  {
  }

  /** Piece 5 comes, goes, comes back and goes again; a client at frame 1 is never told. */
  lemma LingeringHappens()
    ensures var h0 := Run(Init(1000), [HERE]);
            var h1 := Run(h0, [GONE, HERE, GONE]);
            && h0.frame == 1 && 5 in ViewOf(h0.pieces) && h1.horizon == 0
            && 5 in Apply(ViewOf(h0.pieces), Answer(h1, 1)) && 5 !in h1.pieces
  {
    hide Ok, Knows, Apply, Answer, Run;
    ComesAndGoes();
    var h0 := Run(Init(1000), [HERE]);
    var h1 := Run(h0, [GONE, HERE, GONE]);
    Pieces5(h0, h1);
    InitOk(1000);
    RunKnows(Init(1000), [HERE], 0, map[]);
    KnowsNow(h0);
    RunKnows(h0, [GONE, HERE, GONE], 1, ViewOf(h0.pieces));
    DeltaExactly(h1, 1, ViewOf(h0.pieces));
  }

  lemma RunMore(h: History, inputs: seq<map<int, seq<nat>>>, input: map<int, seq<nat>>)
    ensures Run(h, []) == h && Run(h, inputs + [input]) == Update(Run(h, inputs), input)
  {
    assert (inputs + [input])[..|inputs|] == inputs;
  }

  lemma Pieces5(h0: History, h3: History)
    requires PresenceOf(h0) == With5(1, 1) && PresenceOf(h3) == Empty5([Tombstone(4, 3, 5, ())], 4)
    ensures 5 in ViewOf(h0.pieces) && 5 !in h3.pieces && 5 in Lingering(h3, 1, ViewOf(h0.pieces))
  {
    assert PresenceOf(h0).live.Keys == h0.pieces.Keys;
    assert PresenceOf(h3).live.Keys == h3.pieces.Keys;
    assert Tombstone(4, 3, 5, ()) in PresenceOf(h3).removed;
  }
}
