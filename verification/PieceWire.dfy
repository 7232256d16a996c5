/** The counts of a get-piece-updates response have sixteen bits (src/libtorrent_webui.cpp): when the
    client reads what the query returned, and exactly when it is right. */
module PieceWire {
  import opened Basics
  import opened Collections
  import opened Maps
  import opened Tombstones
  import opened Presence
  import opened PieceHistory
  import opened PieceSync

  const COUNT_MAX := 0xffff

  /** What every history of the handler is made with. */
  const MAX_TOMBSTONES := 1000

  function Cut<T>(s: seq<T>): seq<T> {
    s[..Min(|s|, COUNT_MAX)]
  }

  function Rest<T>(s: seq<T>): seq<T> {
    s[Min(|s|, COUNT_MAX)..]
  }

  /** The response as it is written: the lists are cut to sixteen-bit counts, and the largest count
      of removals stands for a snapshot. */
  datatype Packet = Packet(full: seq<int>, blocks: seq<BlockUpdate>, numRemoved: nat, removed: seq<int>)

  function Written(r: QueryResult): Packet {
    Packet(
      Cut(r.full), Cut(r.blocks), if r.snapshot then COUNT_MAX else Min(|r.removed|, COUNT_MAX),
      if r.snapshot then [] else Cut(r.removed))
  }

  function ReadBack(p: Packet): QueryResult {
    var snapshot := p.numRemoved == COUNT_MAX;
    QueryResult(snapshot, p.full, p.blocks, if snapshot then [] else p.removed)
  }

  predicate FitsCounts(r: QueryResult) {
    |r.full| <= COUNT_MAX && |r.blocks| <= COUNT_MAX && (r.snapshot || |r.removed| < COUNT_MAX)
  }

  /** The client reads what the query returned iff the lists fit their counts. */
  lemma CountsFitIff(h: History, since: nat)
    ensures ReadBack(Written(Query(h, since))) == Query(h, since) <==> FitsCounts(Query(h, since))
  {
    hide Query;
    SnapshotRemovesNothing(h, since);
  }

  lemma SnapshotRemovesNothing(h: History, since: nat)
    ensures Query(h, since).snapshot ==> Query(h, since).removed == []
  {
  }

  /** What the client makes of the bytes. */
  function Received(h: History, since: nat): Response {
    Filled(h, ReadBack(Written(Query(h, since))))
  }

  // ---------------------------------------------------------------- removals

  lemma {:induction false} ReportedLength<T>(s: seq<Tombstone<T>>, since: nat, keep: Tombstone<T> -> bool)
    ensures |Reported(s, since, keep)| <= |s|
    decreases |s|
  {
    if s != [] {
      ReportedLength(s[1..], since, keep);
    }
  }

  lemma FewRemovals(h: History, since: nat)
    requires Ok(h)
    ensures |Query(h, since).removed| <= h.limit
    ensures Query(h, since).snapshot ==> Query(h, since).removed == []
  {
    ReportedLength(h.removed, Clamp(h, since), Always());
  }

  /** With fewer tombstones than the marker the removals always get through, and with them whether
      it was a snapshot; only the two other lists can be cut. */
  lemma RemovalsGetThrough(h: History, since: nat)
    requires Ok(h) && h.limit < COUNT_MAX
    ensures var r := Query(h, since);
            ReadBack(Written(r)) == QueryResult(r.snapshot, Cut(r.full), Cut(r.blocks), r.removed)
  {
    hide Query, Ok;
    FewRemovals(h, since);
  }

  lemma {:induction false} RunOk(limit: nat, inputs: seq<map<int, seq<nat>>>)
    ensures var h := Run(Init(limit), inputs); Ok(h) && h.limit == limit
    decreases |inputs|
  {
    hide Ok, Knows, Refresh;
    InitOk(limit);
    RunKnows(Init(limit), inputs, 0, map[]);
    if inputs != [] {
      RunOk(limit, inputs[..|inputs| - 1]);
    }
  }

  // ---------------------------------------------------------------- a block array, cut short

  /** The first m updates of an array are the updates of its first n blocks. */
  lemma {:induction false} PrefixOfUpdates(piece: int, blocks: seq<Block>, since: nat, m: nat) returns (n: nat)
    requires m <= |BlockUpdates(piece, blocks, since)|
    ensures n <= |blocks| && BlockUpdates(piece, blocks, since)[..m] == BlockUpdates(piece, blocks[..n], since)
    ensures Tail(piece, blocks, since, n, BlockUpdates(piece, blocks, since)[m..])
    decreases |blocks|
  {
    var us := BlockUpdates(piece, blocks, since);
    if m == |us| {
      n := |blocks|;
      assert blocks[..n] == blocks && us[..m] == us;
    } else {
      var k := |blocks| - 1;
      var init := BlockUpdates(piece, blocks[..k], since);
      var last: seq<BlockUpdate> :=
        if blocks[k].frame > since then [BlockUpdate(piece, k, blocks[k].state)] else [];
      assert us == init + last;
      n := PrefixOfUpdates(piece, blocks[..k], since, m);
      assert us[..m] == init[..m] && us[m..] == init[m..] + last && blocks[..k][..n] == blocks[..n];
      TailMore(piece, blocks, since, n, init[m..], last);
    }
  }

  /** The updates of piece x in `rest` are those of its changed blocks from n on. */
  ghost predicate Tail(x: int, blocks: seq<Block>, since: nat, n: nat, rest: seq<BlockUpdate>) {
    && (forall i | n <= i < |blocks| && blocks[i].frame > since :: BlockUpdate(x, i, blocks[i].state) in rest)
    && (forall u | u in rest && u.piece == x ::
          n <= u.block < |blocks| && blocks[u.block].frame > since && u.state == blocks[u.block].state)
  }

  lemma TailMore(x: int, blocks: seq<Block>, since: nat, n: nat, rest: seq<BlockUpdate>, last: seq<BlockUpdate>)
    requires blocks != [] && n <= |blocks| - 1 && Tail(x, blocks[..|blocks| - 1], since, n, rest)
    requires var k := |blocks| - 1;
             last == if blocks[k].frame > since then [BlockUpdate(x, k, blocks[k].state)] else []
    ensures Tail(x, blocks, since, n, rest + last)
  {
    var k := |blocks| - 1;
    forall i | n <= i < |blocks| && blocks[i].frame > since
      ensures BlockUpdate(x, i, blocks[i].state) in rest + last
    {
      if i < k {
        assert blocks[..k][i] == blocks[i];
      }
    }
    forall u | u in rest + last && u.piece == x
      ensures n <= u.block < |blocks| && blocks[u.block].frame > since && u.state == blocks[u.block].state
    {
      if u in rest {
        assert blocks[..k][u.block] == blocks[u.block];
      }
    }
  }

  /** Patching with the updates of the first n blocks is enough iff the others did not really change. */
  lemma PatchedEnough(then_: seq<nat>, blocks: seq<Block>, since: nat, n: nat)
    requires Agrees(blocks, then_, since) && n <= |blocks|
    ensures Patched(then_, blocks[..n], since) == States(blocks)
       <==> forall i | n <= i < |blocks| && blocks[i].frame > since :: i < |then_| && then_[i] == blocks[i].state
  {
    hide Patched;
    PatchPrefix(then_, blocks, since, n);
    var p, all := Patched(then_, blocks[..n], since), States(blocks);
    if forall i | n <= i < |blocks| && blocks[i].frame > since :: i < |then_| && then_[i] == blocks[i].state {
      ShortEnough(then_, blocks, since, n);
      assert p == all;
    }
    if p == all {
      forall i | n <= i < |blocks| ensures i < |then_| && then_[i] == blocks[i].state {
        assert p[i] == all[i];
      }
    }
  }

  lemma EnoughAt(then_: seq<nat>, blocks: seq<Block>, since: nat, n: nat, i: nat)
    requires Agrees(blocks, then_, since) && n <= i < |blocks|
    requires forall j | n <= j < |blocks| && blocks[j].frame > since :: j < |then_| && then_[j] == blocks[j].state
    ensures i < |then_| && then_[i] == blocks[i].state
  {
    assert blocks[i].frame <= since || blocks[i].frame > since;
  }

  lemma ShortEnough(then_: seq<nat>, blocks: seq<Block>, since: nat, n: nat)
    requires Agrees(blocks, then_, since) && n <= |blocks|
    requires forall j | n <= j < |blocks| && blocks[j].frame > since :: j < |then_| && then_[j] == blocks[j].state
    ensures forall i | n <= i < |blocks| :: i < |then_| && then_[i] == blocks[i].state
    ensures |States(blocks)| == |blocks| == if n < |then_| then |then_| else n
  {
    hide Agrees;
    forall i | n <= i < |blocks| ensures i < |then_| && then_[i] == blocks[i].state {
      EnoughAt(then_, blocks, since, n, i);
    }
    if n < |blocks| {
      EnoughAt(then_, blocks, since, n, |blocks| - 1);
    }
    NeverLonger(then_, blocks, since);
  }

  lemma NeverLonger(then_: seq<nat>, blocks: seq<Block>, since: nat)
    requires Agrees(blocks, then_, since)
    ensures |then_| <= |blocks|
  {
  }

  // ---------------------------------------------------------------- the list of updates, cut short

  lemma {:induction false} OtherBlocks(view: View, us: seq<BlockUpdate>, x: int)
    requires forall i | 0 <= i < |us| :: us[i].piece != x
    ensures SameAt(ApplyBlocks(view, us), view, x)
    decreases |us|
  {
    if us != [] {
      OtherBlocks(view, us[..|us| - 1], x);
    }
  }

  lemma {:induction false} UpdateSource(pieces: map<int, Piece>, keys: seq<int>, since: nat, u: BlockUpdate)
    requires forall i | 0 <= i < |keys| :: keys[i] in pieces
    ensures u in PartialPieces(pieces, keys, since) ==>
              u.piece in keys && u.piece in pieces && !SendsFull(pieces[u.piece], since)
    decreases |keys|
  {
    hide SendsFull;
    if keys != [] {
      var n := |keys| - 1;
      assert keys == keys[..n] + [keys[n]];
      UpdateSource(pieces, keys[..n], since, u);
      UpdatesAreOfPiece(keys[n], pieces[keys[n]].blocks, since, u);
    }
  }

  /** No update in a part of the list is of a piece that is not among the keys or goes whole. */
  lemma NotOfPiece(pieces: map<int, Piece>, keys: seq<int>, since: nat, part: seq<BlockUpdate>, x: int)
    requires forall i | 0 <= i < |keys| :: keys[i] in pieces
    requires forall i | 0 <= i < |part| :: part[i] in PartialPieces(pieces, keys, since)
    requires x !in keys || (x in pieces && SendsFull(pieces[x], since))
    ensures forall i | 0 <= i < |part| :: part[i].piece != x
  {
    hide SendsFull, PartialPieces;
    forall i | 0 <= i < |part| ensures part[i].piece != x {
      UpdateSource(pieces, keys, since, part[i]);
    }
  }

  lemma NotOfThis(piece: int, blocks: seq<Block>, since: nat, part: seq<BlockUpdate>, x: int)
    requires x != piece && forall i | 0 <= i < |part| :: part[i] in BlockUpdates(piece, blocks, since)
    ensures forall i | 0 <= i < |part| :: part[i].piece != x
  {
    hide BlockUpdates;
    forall i | 0 <= i < |part| ensures part[i].piece != x {
      UpdatesAreOfPiece(piece, blocks, since, part[i]);
    }
  }

  lemma TailElsewhere(x: int, blocks: seq<Block>, since: nat, n: nat, rest: seq<BlockUpdate>, more: seq<BlockUpdate>)
    requires Tail(x, blocks, since, n, rest) && forall i | 0 <= i < |more| :: more[i].piece != x
    ensures Tail(x, blocks, since, n, rest + more) && Tail(x, blocks, since, n, more + rest)
  {
  }

  lemma TailNothing(x: int, blocks: seq<Block>, since: nat, n: nat, more: seq<BlockUpdate>)
    requires Tail(x, blocks, since, n, []) && forall i | 0 <= i < |more| :: more[i].piece != x
    ensures Tail(x, blocks, since, n, more)
  {
    TailElsewhere(x, blocks, since, n, [], more);
    NilLeft(more);
  }

  /** Where piece x stands after a part of all updates: patched with the updates of its first n
      blocks, and those of the others are in the rest of the list. */
  lemma {:induction false} CutUpdatesAt(
    view: View, pieces: map<int, Piece>, keys: seq<int>, since: nat, m: nat, x: int) returns (n: nat)
    requires Increasing(keys) && forall i | 0 <= i < |keys| :: keys[i] in pieces
    requires m <= |PartialPieces(pieces, keys, since)|
    requires x in keys && x in pieces && x in view && !SendsFull(pieces[x], since)
    ensures var us := PartialPieces(pieces, keys, since);
            var after := ApplyBlocks(view, us[..m]);
            var blocks := pieces[x].blocks;
            && n <= |blocks|
            && x in after && after[x] == Patched(view[x], blocks[..n], since)
            && Tail(x, blocks, since, n, us[m..])
    decreases |keys|
  {
    hide SendsFull, Patched, Tail, BlockUpdates, ApplyBlocks, PartialPieces;
    var k := |keys| - 1;
    var init, last := keys[..k], keys[k];
    LastKeyIsNew(keys, x);
    LastKeyIsNew(keys, last);
    PartialStep(pieces, keys, since);
    var us, before := PartialPieces(pieces, keys, since), PartialPieces(pieces, init, since);
    var own := if SendsFull(pieces[last], since) then [] else BlockUpdates(last, pieces[last].blocks, since);
    assert us == before + own;
    if x == last {
      NotOfPiece(pieces, init, since, before, x);
      n := CutLast(view, before, pieces[x].blocks, since, m, x);
    } else {
      NotOfLast(pieces[last], last, since, own, x);
      if m <= |before| {
        n := CutUpdatesAt(view, pieces, init, since, m, x);
        assert us[..m] == before[..m] && us[m..] == before[m..] + own;
        TailElsewhere(x, pieces[x].blocks, since, n, before[m..], own);
      } else {
        n := CutUpdatesAt(view, pieces, init, since, |before|, x);
        var front, back := own[..m - |before|], own[m - |before|..];
        assert us[..m] == before + front && us[m..] == back;
        assert before[..|before|] == before && before[|before|..] == [];
        ApplyBlocksConcat(view, before, front);
        OtherBlocks(ApplyBlocks(view, before), front, x);
        TailNothing(x, pieces[x].blocks, since, n, back);
      }
    }
  }

  lemma NotOfLast(p: Piece, piece: int, since: nat, own: seq<BlockUpdate>, x: int)
    requires x != piece
    requires own == if SendsFull(p, since) then [] else BlockUpdates(piece, p.blocks, since)
    ensures forall i | 0 <= i < |own| :: own[i].piece != x
  {
    hide SendsFull, BlockUpdates;
    if own != [] {
      NotOfThis(piece, p.blocks, since, own, x);
    }
  }

  /** The cut lies before, inside or behind the updates of the last piece. */
  lemma CutLast(view: View, before: seq<BlockUpdate>, blocks: seq<Block>, since: nat, m: nat, x: int) returns (n: nat)
    requires x in view && m <= |before| + |BlockUpdates(x, blocks, since)|
    requires forall i | 0 <= i < |before| :: before[i].piece != x
    ensures var us := before + BlockUpdates(x, blocks, since);
            var after := ApplyBlocks(view, us[..m]);
            && n <= |blocks|
            && x in after && after[x] == Patched(view[x], blocks[..n], since)
            && Tail(x, blocks, since, n, us[m..])
  {
    hide Patched, Tail, BlockUpdates, ApplyBlocks;
    var own := BlockUpdates(x, blocks, since);
    var us := before + own;
    if m <= |before| {
      n := 0;
      assert us[..m] == before[..m] && us[m..] == before[m..] + own;
      OtherBlocks(view, before[..m], x);
      NothingPatched(view[x], blocks, since);
      AllInTail(x, blocks, since);
      TailElsewhere(x, blocks, since, 0, own, before[m..]);
    } else {
      n := PrefixOfUpdates(x, blocks, since, m - |before|);
      assert us[..m] == before + own[..m - |before|] && us[m..] == own[m - |before|..];
      ApplyBlocksConcat(view, before, own[..m - |before|]);
      OtherBlocks(view, before, x);
      BlockUpdatesAt(ApplyBlocks(view, before), x, blocks[..n], since, x);
    }
  }

  lemma NothingPatched(s: seq<nat>, blocks: seq<Block>, since: nat)
    ensures Patched(s, blocks[..0], since) == s
  {
  }

  lemma AllInTail(x: int, blocks: seq<Block>, since: nat)
    ensures Tail(x, blocks, since, 0, BlockUpdates(x, blocks, since))
  {
    hide Tail;
    var us := BlockUpdates(x, blocks, since);
    var n := PrefixOfUpdates(x, blocks, since, 0);
    assert us[0..] == us;
    NoChangesBefore(x, blocks, since, n);
    TailFromStart(x, blocks, since, n, us);
  }

  lemma {:induction false} NoChangesBefore(x: int, blocks: seq<Block>, since: nat, n: nat)
    requires n <= |blocks| && BlockUpdates(x, blocks[..n], since) == []
    ensures forall i | 0 <= i < n :: blocks[i].frame <= since
    decreases n
  {
    if n > 0 {
      assert blocks[..n][..n - 1] == blocks[..n - 1];
      NoChangesBefore(x, blocks, since, n - 1);
    }
  }

  lemma TailFromStart(x: int, blocks: seq<Block>, since: nat, n: nat, rest: seq<BlockUpdate>)
    requires Tail(x, blocks, since, n, rest) && n <= |blocks| && forall i | 0 <= i < n :: blocks[i].frame <= since
    ensures Tail(x, blocks, since, 0, rest)
  {
  }

  // ---------------------------------------------------------------- when a cut does no harm

  /** What is left out of x's piece, or of its updates, is what the client has already. A snapshot
      makes it forget everything first. */
  ghost predicate HarmlessAt(h: History, since: nat, base: View, x: int) {
    var r := Query(h, since);
    var kept := if r.snapshot then map[] else base;
    && (x in Rest(r.full) ==> x in kept && x in h.pieces && kept[x] == States(h.pieces[x].blocks))
    && (forall u | u in Rest(r.blocks) && u.piece == x ::
          x in kept && u.block < |kept[x]| && kept[x][u.block] == u.state)
  }

  ghost predicate CutIsHarmless(h: History, since: nat, base: View) {
    forall x :: HarmlessAt(h, since, base, x)
  }

  lemma {:induction false} FullIncreasing(pieces: map<int, Piece>, keys: seq<int>, since: nat)
    requires Increasing(keys) && forall i | 0 <= i < |keys| :: keys[i] in pieces
    ensures Increasing(FullPieces(pieces, keys, since))
    decreases |keys|
  {
    hide SendsFull;
    if keys != [] {
      var n := |keys| - 1;
      var before := FullPieces(pieces, keys[..n], since);
      FullIncreasing(pieces, keys[..n], since);
      forall i | 0 <= i < |before| ensures before[i] < keys[n] {
        FullPiecesAt(pieces, keys[..n], since, before[i]);
        var j :| 0 <= j < n && keys[..n][j] == before[i];
      }
      assert before + [] == before;
    }
  }

  lemma CutOrRest<T>(s: seq<T>, x: T)
    ensures x in s <==> x in Cut(s) || x in Rest(s)
    ensures NoRepeats(s) ==> !(x in Cut(s) && x in Rest(s))
  {
    assert s == Cut(s) + Rest(s);
  }

  lemma IncreasingOnce(s: seq<int>)
    requires Increasing(s)
    ensures NoRepeats(s)
  {
  }

  lemma FullOnce(h: History, since: nat)
    ensures NoRepeats(Query(h, since).full)
  {
    hide SendsFull, PartialPieces, NoRepeats;
    FullIncreasing(h.pieces, Ascending(h.pieces.Keys), Clamp(h, since));
    IncreasingOnce(Query(h, since).full);
  }

  /** The client's pieces after removals and the whole pieces that got through. */
  function StartCut(h: History, since: nat, base: View): View {
    (base - (set y | y in Query(h, since).removed)) + Received(h, since).full
  }

  lemma AppliedCut(h: History, since: nat, base: View)
    requires Ok(h) && h.limit < COUNT_MAX && h.horizon <= since && 0 < since
    ensures Apply(base, Received(h, since)) == ApplyBlocks(StartCut(h, since, base), Cut(Query(h, since).blocks))
  {
    hide Ok, PartialPieces, FullPieces, Ascending, States;
    RemovalsGetThrough(h, since);
  }

  lemma StartCutAt(h: History, since: nat, base: View, x: int)
    requires Ok(h) && Knows(h, since, base) && h.limit < COUNT_MAX && h.horizon <= since && 0 < since
    ensures var start := StartCut(h, since, base);
            var whole := x in h.pieces && x in Cut(Query(h, since).full);
            var kept := x in base && (x !in h.pieces ==> Lingers(PresenceOf(h), since, x));
            && (x in start <==> whole || kept)
            && (whole ==> start[x] == States(h.pieces[x].blocks))
            && (kept && !whole ==> start[x] == base[x])
  {
    hide Ok, Knows, Query, States, Lingers;
    RemovalsGetThrough(h, since);
    KeptAt(h, since, base, x);
  }

  lemma BlocksAre(h: History, since: nat)
    requires h.horizon <= since && 0 < since
    ensures Query(h, since).blocks == PartialPieces(h.pieces, Ascending(h.pieces.Keys), since)
    ensures !Query(h, since).snapshot
  {
    hide PartialPieces, FullPieces, Ascending;
  }

  /** Every piece the updates are of is current and is not sent whole. */
  lemma BlocksNotOf(h: History, since: nat, x: int)
    requires h.horizon <= since && 0 < since && (x in h.pieces ==> SendsFull(h.pieces[x], since))
    ensures forall u | u in Query(h, since).blocks :: u.piece != x
  {
    hide SendsFull, PartialPieces, Query;
    BlocksAre(h, since);
    forall u | u in Query(h, since).blocks ensures u.piece != x {
      PartialKeys(h.pieces, Ascending(h.pieces.Keys), since, u);
    }
  }

  lemma CutUntouched(h: History, since: nat, base: View, x: int)
    requires Ok(h) && h.limit < COUNT_MAX && h.horizon <= since && 0 < since
    requires x in h.pieces ==> SendsFull(h.pieces[x], since)
    ensures SameAt(Apply(base, Received(h, since)), StartCut(h, since, base), x)
    ensures forall u | u in Rest(Query(h, since).blocks) :: u.piece != x
  {
    hide Ok, SendsFull, Query, StartCut, Apply, Received;
    AppliedCut(h, since, base);
    BlocksNotOf(h, since, x);
    var us := Query(h, since).blocks;
    forall i | 0 <= i < |Cut(us)| ensures Cut(us)[i].piece != x {
      CutOrRest(us, Cut(us)[i]);
    }
    forall u | u in Rest(us) ensures u.piece != x {
      CutOrRest(us, u);
    }
    OtherBlocks(StartCut(h, since, base), Cut(us), x);
  }

  lemma CutGone(h: History, since: nat, base: View, x: int)
    requires Ok(h) && Knows(h, since, base) && h.limit < COUNT_MAX && h.horizon <= since && 0 < since && x !in h.pieces
    ensures SameAt(Apply(base, Received(h, since)), Apply(base, Answer(h, since)), x)
    ensures HarmlessAt(h, since, base, x)
  {
    hide Ok, Knows, Apply, Answer, Received, Query, StartCut, Lingers;
    DeltaAt(h, since, base, x);
    CutUntouched(h, since, base, x);
    StartCutAt(h, since, base, x);
    CutOrRest(Query(h, since).full, x);
    FullAreCurrent(h, since, x);
  }

  lemma FullAreCurrent(h: History, since: nat, x: int)
    requires h.horizon <= since && 0 < since
    ensures x in Query(h, since).full <==> x in h.pieces && SendsFull(h.pieces[x], since)
    ensures !Query(h, since).snapshot
  {
    hide SendsFull, PartialPieces;
    FullPiecesAt(h.pieces, Ascending(h.pieces.Keys), since, x);
  }

  lemma CutWhole(h: History, since: nat, base: View, x: int)
    requires Ok(h) && Knows(h, since, base) && h.limit < COUNT_MAX && h.horizon <= since && 0 < since
    requires x in h.pieces && SendsFull(h.pieces[x], since)
    ensures SameAt(Apply(base, Received(h, since)), Apply(base, Answer(h, since)), x) <==> HarmlessAt(h, since, base, x)
  {
    hide Ok, Knows, Apply, Answer, Received, Query, StartCut, Lingers, SendsFull, States, Cut, Rest, NoRepeats;
    DeltaAt(h, since, base, x);
    CutUntouched(h, since, base, x);
    StartCutAt(h, since, base, x);
    CutOrRest(Query(h, since).full, x);
    FullOnce(h, since);
    FullAreCurrent(h, since, x);
    LingeringIsGone(h, since, base, x);
  }

  lemma LingeringIsGone(h: History, since: nat, base: View, x: int)
    requires x in h.pieces
    ensures SameAt(ViewOf(h.pieces) + Lingering(h, since, base), ViewOf(h.pieces), x)
    ensures x in ViewOf(h.pieces) && ViewOf(h.pieces)[x] == States(h.pieces[x].blocks)
  {
    hide Lingers, States;
  }

  lemma CutPatched(h: History, since: nat, base: View, x: int)
    requires Ok(h) && Knows(h, since, base) && h.limit < COUNT_MAX && h.horizon <= since && 0 < since
    requires x in h.pieces && !SendsFull(h.pieces[x], since)
    ensures SameAt(Apply(base, Received(h, since)), Apply(base, Answer(h, since)), x) <==> HarmlessAt(h, since, base, x)
  {
    hide Ok, Apply, Answer, Received, Query, StartCut, Lingers, SendsFull, States, Tail, Patched, Agrees, Tracks,
         Increasing, PartialPieces, Rest;
    var keys := Ascending(h.pieces.Keys);
    var us := Query(h, since).blocks;
    var blocks := h.pieces[x].blocks;
    DeltaAt(h, since, base, x);
    StartCutAt(h, since, base, x);
    AppliedCut(h, since, base);
    BlocksAre(h, since);
    FullAreCurrent(h, since, x);
    CutOrRest(Query(h, since).full, x);
    LingeringIsGone(h, since, base, x);
    NotWholeIsOld(h.pieces[x], since);
    KeptAt(h, since, base, x);
    AscendingHas(h.pieces, x);
    var n := CutUpdatesAt(StartCut(h, since, base), h.pieces, keys, since, |Cut(us)|, x);
    RestIs(us);
    PatchedEnough(base[x], blocks, since, n);
    TailIsHarmless(h, since, base, x, n);
  }

  lemma NotWholeIsOld(p: Piece, since: nat)
    requires !SendsFull(p, since)
    ensures p.added <= since && 0 < since
  {
  }

  lemma RestIs<T>(s: seq<T>)
    ensures |Cut(s)| <= |s| && Cut(s) == s[..|Cut(s)|] && Rest(s) == s[|Cut(s)|..]
  {
  }

  /** Among the updates left out, those of x are of its changed blocks from n on. */
  lemma TailIsHarmless(h: History, since: nat, base: View, x: int, n: nat)
    requires x in h.pieces && x in base && x !in Query(h, since).full && !Query(h, since).snapshot
    requires Tail(x, h.pieces[x].blocks, since, n, Rest(Query(h, since).blocks))
    ensures HarmlessAt(h, since, base, x)
       <==> var blocks := h.pieces[x].blocks;
            forall i | n <= i < |blocks| && blocks[i].frame > since :: i < |base[x]| && base[x][i] == blocks[i].state
  {
    hide Query;
    var blocks, rest := h.pieces[x].blocks, Rest(Query(h, since).blocks);
    CutOrRest(Query(h, since).full, x);
    if HarmlessAt(h, since, base, x) {
      forall i | n <= i < |blocks| && blocks[i].frame > since
        ensures i < |base[x]| && base[x][i] == blocks[i].state
      {
        assert BlockUpdate(x, i, blocks[i].state) in rest;
      }
    }
  }

  lemma CutAt(h: History, since: nat, base: View, x: int)
    requires Ok(h) && Knows(h, since, base) && h.limit < COUNT_MAX && h.horizon <= since && 0 < since
    ensures SameAt(Apply(base, Received(h, since)), Apply(base, Answer(h, since)), x) <==> HarmlessAt(h, since, base, x)
    ensures x !in h.pieces ==> HarmlessAt(h, since, base, x)
  {
    hide Ok, Knows, Apply, Answer, Received, SameAt, HarmlessAt, SendsFull;
    if x !in h.pieces {
      CutGone(h, since, base, x);
    } else if SendsFull(h.pieces[x], since) {
      CutWhole(h, since, base, x);
    } else {
      CutPatched(h, since, base, x);
    }
  }

  lemma FewAreHarmless(h: History, since: nat, base: View)
    requires |Query(h, since).full| <= 65535 && |Query(h, since).blocks| <= 65535
    ensures CutIsHarmless(h, since, base)
  {
    hide Query;
  }

  // ---------------------------------------------------------------- the client, exactly

  lemma {:induction false} AscendingSize(s: set<int>)
    ensures |Ascending(s)| == |s|
    decreases |s|
  {
    if s != {} {
      AscendingSize(s - {Least(s)});
    }
  }

  lemma {:induction false} EverythingGoesWhole(pieces: map<int, Piece>, keys: seq<int>)
    requires forall i | 0 <= i < |keys| :: keys[i] in pieces
    ensures FullPieces(pieces, keys, 0) == keys
    decreases |keys|
  {
    if keys != [] {
      EverythingGoesWhole(pieces, keys[..|keys| - 1]);
    }
  }

  lemma SnapshotIs(h: History, since: nat)
    requires since == 0 || since < h.horizon
    ensures Query(h, since) == QueryResult(true, Ascending(h.pieces.Keys), [], [])
  {
    EverythingGoesWhole(h.pieces, Ascending(h.pieces.Keys));
    EverythingIsFull(h.pieces, Ascending(h.pieces.Keys));
  }

  lemma LastIsCut(s: seq<int>)
    requires NoRepeats(s) && |s| > COUNT_MAX
    ensures s[COUNT_MAX] in s && s[COUNT_MAX] !in Cut(s)
  {
    CutOrRest(s, s[COUNT_MAX]);
    assert Rest(s)[0] == s[COUNT_MAX];
  }

  /** A snapshot is right iff there are no more pieces than the count can say. */
  lemma SnapshotIsRightIff(h: History, since: nat, view: View)
    requires since == 0 || since < h.horizon
    ensures Apply(view, Received(h, since)) == ViewOf(h.pieces) <==> |h.pieces| <= 65535
  {
    hide Query, Apply, States, NoRepeats;
    SnapshotIs(h, since);
    AscendingSize(h.pieces.Keys);
    var all := Ascending(h.pieces.Keys);
    if |all| <= COUNT_MAX {
      SnapshotExactly(h, since, view);
      assert Cut(all) == all;
    } else {
      FullOnce(h, since);
      LastIsCut(all);
      AscendingHas(h.pieces, all[COUNT_MAX]);
      SnapshotClears(view, Received(h, since), all[COUNT_MAX]);
      ViewHas(h.pieces, all[COUNT_MAX]);
    }
  }

  lemma {:induction false} BlocksAddNothing(view: View, us: seq<BlockUpdate>, x: int)
    ensures x in ApplyBlocks(view, us) ==> x in view
    decreases |us|
  {
    if us != [] {
      BlocksAddNothing(view, us[..|us| - 1], x);
    }
  }

  lemma SnapshotClears(view: View, r: PieceSync.Response, x: int)
    requires r.snapshot && x !in r.full
    ensures x !in Apply(view, r)
  {
    BlocksAddNothing(map[] + r.full, r.blocks, x);
  }

  /** A delta through the packet is the delta iff what is left out is what the client has. */
  lemma DeltaIsWholeIff(h: History, since: nat, base: View)
    requires Ok(h) && Knows(h, since, base) && h.limit < COUNT_MAX && h.horizon <= since && 0 < since
    ensures Apply(base, Received(h, since)) == Apply(base, Answer(h, since)) <==> CutIsHarmless(h, since, base)
  {
    hide Ok, Knows, Apply, Answer, Received, SameAt, HarmlessAt;
    var a, b := Apply(base, Received(h, since)), Apply(base, Answer(h, since));
    if CutIsHarmless(h, since, base) {
      forall x ensures SameAt(a, b, x) {
        assert HarmlessAt(h, since, base, x);
        CutAt(h, since, base, x);
      }
      SameEverywhere(a, b);
    } else if a == b {
      forall x ensures HarmlessAt(h, since, base, x) {
        CutAt(h, since, base, x);
        SameAsItself(a, x);
      }
    }
  }

  lemma RightAt(h0: History, after: seq<map<int, seq<nat>>>, x: int)
    requires var h := Run(h0, after);
             && Ok(h0) && Ok(h) && Knows(h, h0.frame, ViewOf(h0.pieces))
             && h.limit < COUNT_MAX && h.horizon <= h0.frame && 0 < h0.frame
    ensures var h := Run(h0, after);
            SameAt(Apply(ViewOf(h0.pieces), Received(h, h0.frame)), ViewOf(h.pieces), x)
            <==> HarmlessAt(h, h0.frame, ViewOf(h0.pieces), x) && !LeftTwice(h0, after, x)
  {
    hide Ok, Knows, Apply, Answer, Received, HarmlessAt, Run, Lingers, CameBack, States;
    var h, base := Run(h0, after), ViewOf(h0.pieces);
    CutAt(h, h0.frame, base, x);
    DeltaAt(h, h0.frame, base, x);
    ViewHas(h0.pieces, x);
    if x in h.pieces {
      LingeringIsGone(h, h0.frame, base, x);
    } else if x in h0.pieces {
      LingersAfter(h0, after, x);
    }
  }

  /** Over every run and for every limit below the marker, the client is right iff: for a snapshot,
      there are no more than 65535 pieces; for a delta, nothing is left out that the client does not
      have already, and no piece left, came back and left again. */
  lemma RightOverTheWireIff(limit: nat, before: seq<map<int, seq<nat>>>, after: seq<map<int, seq<nat>>>)
    requires limit < 65535
    ensures var h0 := Run(Init(limit), before);
            var h1 := Run(h0, after);
            Apply(ViewOf(h0.pieces), Received(h1, h0.frame)) == ViewOf(h1.pieces)
            <==> if h0.frame == 0 || h0.frame < h1.horizon then |h1.pieces| <= 65535
                 else CutIsHarmless(h1, h0.frame, ViewOf(h0.pieces)) && forall x :: !LeftTwice(h0, after, x)
  {
    hide Ok, Knows, Apply, Received, ViewOf, SameAt, HarmlessAt, LeftTwice, Run, Init;
    var h0 := Run(Init(limit), before);
    var h1 := Run(h0, after);
    var base, k := ViewOf(h0.pieces), h0.frame;
    BothKnown(limit, before, after);
    if k == 0 || k < h1.horizon {
      SnapshotIsRightIff(h1, k, base);
    } else {
      var a, b := Apply(base, Received(h1, k)), ViewOf(h1.pieces);
      if a == b {
        forall x ensures HarmlessAt(h1, k, base, x) && !LeftTwice(h0, after, x) {
          RightAt(h0, after, x);
          SameAsItself(a, x);
        }
      } else if CutIsHarmless(h1, k, base) && forall x :: !LeftTwice(h0, after, x) {
        forall x ensures SameAt(a, b, x) {
          assert HarmlessAt(h1, k, base, x) && !LeftTwice(h0, after, x);
          RightAt(h0, after, x);
        }
        SameEverywhere(a, b);
      }
    }
  }

  lemma BothKnown(limit: nat, before: seq<map<int, seq<nat>>>, after: seq<map<int, seq<nat>>>)
    ensures var h0 := Run(Init(limit), before);
            var h1 := Run(h0, after);
            Ok(h0) && Ok(h1) && Knows(h1, h0.frame, ViewOf(h0.pieces)) && h0.limit == limit && h1.limit == limit
  {
    hide Ok, Knows, Run, Init, ViewOf;
    var h0 := Run(Init(limit), before);
    RunOk(limit, before);
    KnowsNow(h0);
    RunKnows(h0, after, h0.frame, ViewOf(h0.pieces));
    RunLimit(h0, after);
  }

  lemma {:induction false} RunLimit(h: History, inputs: seq<map<int, seq<nat>>>)
    ensures Run(h, inputs).limit == h.limit
    decreases |inputs|
  {
    hide Refresh;
    if inputs != [] {
      RunLimit(h, inputs[..|inputs| - 1]);
    }
  }

  /** DeltaOverRuns through the packet, and exactly when it holds. */
  lemma DeltaOverTheWire(limit: nat, before: seq<map<int, seq<nat>>>, after: seq<map<int, seq<nat>>>)
    requires limit < 65535
    ensures var h0 := Run(Init(limit), before);
            var h1 := Run(h0, after);
            var view := Apply(ViewOf(h0.pieces), Received(h1, h0.frame));
            if h0.frame == 0 || h0.frame < h1.horizon
            then view == ViewOf(h1.pieces) <==> |h1.pieces| <= 65535
            else view == ViewOf(h1.pieces) + Lingering(h1, h0.frame, ViewOf(h0.pieces))
                 <==> CutIsHarmless(h1, h0.frame, ViewOf(h0.pieces))
  {
    hide Ok, Knows, Apply, Answer, Received, ViewOf, Lingering, CutIsHarmless, Run, Init;
    var h0 := Run(Init(limit), before);
    var h1 := Run(h0, after);
    BothKnown(limit, before, after);
    if h0.frame == 0 || h0.frame < h1.horizon {
      SnapshotIsRightIff(h1, h0.frame, ViewOf(h0.pieces));
    } else {
      DeltaExactly(h1, h0.frame, ViewOf(h0.pieces));
      DeltaIsWholeIff(h1, h0.frame, ViewOf(h0.pieces));
    }
  }

  /** In the handler a delta is never taken for a snapshot and no removal is lost, over any run. */
  lemma HandlerRemovalsFit(inputs: seq<map<int, seq<nat>>>, since: nat)
    ensures var r := Query(Run(Init(1000), inputs), since);
            && |r.removed| <= 1000
            && ReadBack(Written(r)) == QueryResult(r.snapshot, Cut(r.full), Cut(r.blocks), r.removed)
  {
    hide Ok, Query, Run, Init, ReadBack, Written;
    RunOk(MAX_TOMBSTONES, inputs);
    FewRemovals(Run(Init(MAX_TOMBSTONES), inputs), since);
    RemovalsGetThrough(Run(Init(MAX_TOMBSTONES), inputs), since);
  }

  // ---------------------------------------------------------------- many pieces

  function Upto(n: nat): seq<int> {
    seq(n, i => i)
  }

  /** A download queue of n pieces of one block. */
  function Crowd(n: nat): map<int, seq<nat>> {
    map x | x in Upto(n) :: [3]
  }

  lemma {:induction false} CrowdSize(n: nat)
    ensures |Crowd(n).Keys| == n
    decreases n
  {
    if n == 0 {
      assert Upto(0) == [] && Crowd(0).Keys == {};
    } else {
      CrowdSize(n - 1);
      assert Upto(n) == Upto(n - 1) + [n - 1];
      assert Crowd(n).Keys == Crowd(n - 1).Keys + {n - 1};
    }
  }

  lemma AfterOne(limit: nat, input: map<int, seq<nat>>)
    ensures var h := Run(Init(limit), [input]);
            h.pieces.Keys == input.Keys && h.frame == 1 && PresenceOf(h) == Refresh(PresenceOf(Init(limit)), input.Keys)
  {
    hide Refresh, PresenceOf, NextPieces;
    assert [] + [input] == [input];
    RunMore(Init(limit), [], input);
    UpdatePresence(Init(limit), input);
    OneUpdate(Init(limit), input);
  }

  lemma OneUpdate(h: History, input: map<int, seq<nat>>)
    ensures Update(h, input).pieces.Keys == input.Keys && Update(h, input).frame == h.frame + 1
  {
    hide Candidates, Evict, UpdatedPiece, NewPiece;
  }

  /** One piece too many for a snapshot, in a history of the handler. */
  lemma TooManyPieces(view: View)
    ensures var h := Run(Init(1000), [Crowd(65536)]);
            |h.pieces| == 65536 && Apply(view, Received(h, 0)) != ViewOf(h.pieces)
  {
    hide Run, Init, Apply, Received, ViewOf, Crowd;
    AfterOne(MAX_TOMBSTONES, Crowd(COUNT_MAX + 1));
    CrowdSize(COUNT_MAX + 1);
    SnapshotIsRightIff(Run(Init(MAX_TOMBSTONES), [Crowd(COUNT_MAX + 1)]), 0, view);
  }

  // ---------------------------------------------------------------- why the limit matters

  /** The client can tell a delta from a snapshot. */
  ghost predicate ToldApart(limit: nat, inputs: seq<map<int, seq<nat>>>, since: nat) {
    var r := Query(Run(Init(limit), inputs), since);
    ReadBack(Written(r)).snapshot == r.snapshot
  }

  lemma {:induction false} PushLength(removed: seq<Stone>, live: map<int, nat>, frame: nat, gone: seq<int>)
    requires AllIn(gone, live.Keys)
    ensures |Push(removed, live, frame, gone)| == |removed| + |gone|
    decreases |gone|
  {
    if gone != [] {
      AllInFront(gone, live.Keys);
      PushLength(removed, live, frame, gone[..|gone| - 1]);
    }
  }

  lemma {:induction false} MissingLength<T(!new)>(s: seq<T>, keys: set<T>)
    ensures |Missing(s, keys)| <= |s|
    decreases |s|
  {
    if s != [] {
      MissingLength(s[..|s| - 1], keys);
    }
  }

  lemma CandidatesLength(p: Presence, keys: set<int>)
    ensures |Candidates(p, keys)| <= |p.removed| + |p.live.Keys|
  {
    hide Push, Missing, Ascending, AllIn, Stones, Forget;
    StonesArePushed(p, keys);
    var gone := Missing(Ascending(p.live.Keys), keys);
    PushLength(p.removed, p.live, p.frame + 1, gone);
    MissingLength(Ascending(p.live.Keys), keys);
    AscendingSize(p.live.Keys);
  }

  /** Nothing is evicted as long as there is room for all. */
  lemma RoomForAll(p: Presence, keys: set<int>)
    requires |p.removed| + |p.live.Keys| <= p.limit
    ensures var q := Refresh(p, keys); q.horizon == p.horizon && |q.removed| <= |p.removed| + |p.live.Keys|
  {
    hide Candidates;
    CandidatesLength(p, keys);
  }

  /** n pieces come and go within the limit. */
  lemma CrowdLeaves(limit: nat, n: nat)
    requires n <= limit
    ensures var h0 := Run(Init(limit), [Crowd(n)]);
            var h1 := Run(h0, [map[]]);
            && h0.frame == 1 && h0.pieces.Keys == Crowd(n).Keys
            && h1.pieces.Keys == {} && h1.horizon == 0 && h1 == Run(Init(limit), [Crowd(n), map[]])
  {
    hide Run, Refresh, Crowd, Update;
    var none: map<int, seq<nat>> := map[];
    var h0 := Run(Init(limit), [Crowd(n)]);
    AfterOne(limit, Crowd(n));
    StartsEmpty(limit);
    RoomForAll(PresenceOf(Init(limit)), Crowd(n).Keys);
    RunLimit(Init(limit), [Crowd(n)]);
    assert [] + [none] == [none] && [Crowd(n)] + [none] == [Crowd(n), none];
    RunMore(h0, [], none);
    RunMore(Init(limit), [Crowd(n)], none);
    UpdatePresence(h0, none);
    OneUpdate(h0, none);
    CrowdSize(n);
    PresenceKeys(h0);
    PresenceKeys(Update(h0, none));
    RoomForAll(PresenceOf(h0), none.Keys);
  }

  lemma StartsEmpty(limit: nat)
    ensures var p := PresenceOf(Init(limit));
            p.removed == [] && p.live.Keys == {} && p.horizon == 0 && p.limit == limit
  {
  }

  lemma PresenceKeys(h: History)
    ensures var p := PresenceOf(h);
            p.live.Keys == h.pieces.Keys && p.removed == h.removed && p.horizon == h.horizon && p.limit == h.limit
  {
  }

  lemma CameBackNever(inputs: seq<map<int, seq<nat>>>, x: int)
    requires |inputs| <= 1
    ensures !CameBack(KeySets(inputs), x)
  {
  }

  /** With room for as many tombstones as the marker says, as many pieces can go between two polls. */
  lemma ManyRemovals(limit: nat)
    requires COUNT_MAX <= limit
    ensures !ToldApart(limit, [Crowd(COUNT_MAX), map[]], 1)
  {
    hide Run, Refresh, Crowd, Update, Query, Ok, Knows, Lingers, CameBack, KeySets, Init;
    var h0 := Run(Init(limit), [Crowd(COUNT_MAX)]);
    var h1 := Run(h0, [map[]]);
    CrowdLeaves(limit, COUNT_MAX);
    RunOk(limit, [Crowd(COUNT_MAX)]);
    KnowsNow(h0);
    RunKnows(h0, [map[]], 1, ViewOf(h0.pieces));
    BlocksAre(h1, 1);
    forall x | x in Crowd(COUNT_MAX).Keys ensures x in Query(h1, 1).removed {
      CameBackNever([map[]], x);
      LingersAfter(h0, [map[]], x);
      ViewHas(h0.pieces, x);
      KeptAt(h1, 1, ViewOf(h0.pieces), x);
    }
    CrowdSize(COUNT_MAX);
    LongEnough(Query(h1, 1).removed, Crowd(COUNT_MAX).Keys);
  }

  /** A client can always tell a delta from a snapshot iff the histories are made with fewer than
      65535 tombstones; the handler makes them with 1000. */
  lemma ToldApartIff(limit: nat)
    ensures (forall inputs: seq<map<int, seq<nat>>>, since: nat :: ToldApart(limit, inputs, since))
            <==> limit < 65535
  {
    hide Query, Run, Init, Crowd, ReadBack, Written;
    if limit < COUNT_MAX {
      forall inputs: seq<map<int, seq<nat>>>, since: nat ensures ToldApart(limit, inputs, since) {
        RunOk(limit, inputs);
        RemovalsGetThrough(Run(Init(limit), inputs), since);
      }
    } else {
      ManyRemovals(limit);
    }
  }
}
