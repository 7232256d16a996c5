/** What file_request_conn guarantees over every run of events, for any range of any torrent. */
module StreamerRuns {
  import opened Basics
  import opened Bytes
  import opened Collections
  import opened FileStreamer

  datatype Range = Range(content: seq<Byte>, pieceSize: int, lo: int, hi: int)

  /** Bytes lo up to hi of the content of a torrent. */
  type Request = r: Range | 0 < r.pieceSize && 0 <= r.lo <= r.hi <= |r.content| witness Range([], 1, 0, 0)

  /** The first n bytes asked for. */
  function Prefix(r: Request, n: nat): seq<Byte> {
    if n <= r.hi - r.lo then r.content[r.lo..r.lo + n] else []
  }

  function Whole(r: Request): seq<Byte> {
    r.content[r.lo..r.hi]
  }

  // ---------------------------------------------------------------- pieces

  /** Where a piece starts. */
  function Start(size: int, piece: int): int {
    piece * size
  }

  lemma StartNext(size: int, piece: int)
    ensures Start(size, piece + 1) == Start(size, piece) + size
  {
  }

  lemma StartMonotone(size: int, a: int, b: int)
    requires 0 < size && a <= b
    ensures Start(size, a) <= Start(size, b)
  {
    assert (b - a) * size >= 0;
  }

  lemma StartOf(size: int, x: int)
    requires 0 < size
    ensures Start(size, x / size) + x % size == x
  {
  }

  function FirstPiece(r: Request): int
  {
    r.lo / r.pieceSize
  }

  /** One past the piece of the last byte; the division truncates toward zero. */
  function EndPiece(r: Request): int
  {
    if r.hi == 0 then 1 else (r.hi - 1) / r.pieceSize + 1
  }

  /** The connection handle_http creates for a request. */
  function Open(r: Request): Conn
  {
    Init(FirstPiece(r), EndPiece(r), r.lo % r.pieceSize, r.pieceSize, r.hi - r.lo)
  }

  /** The end piece is the one the range ends in, or right behind. */
  predicate EndsIn(r: Request, end: int) {
    Start(r.pieceSize, end - 1) <= r.hi <= Start(r.pieceSize, end)
  }

  lemma Ends(r: Request)
    ensures 0 <= FirstPiece(r) <= EndPiece(r) && EndsIn(r, EndPiece(r))
    ensures Start(r.pieceSize, FirstPiece(r)) + r.lo % r.pieceSize == r.lo
    ensures FirstPiece(r) == EndPiece(r) ==> r.lo == r.hi
  {
    hide Start;
    var size := r.pieceSize;
    StartOf(size, r.lo);
    StartOf(size, r.hi - 1);
    if r.hi > 0 {
      StartNext(size, (r.hi - 1) / size);
    } else {
      StartOf(size, 0);
      StartNext(size, 0);
    }
    if EndPiece(r) < FirstPiece(r) {
      StartMonotone(size, EndPiece(r), FirstPiece(r) - 1);
      StartNext(size, FirstPiece(r) - 1);
    }
  }

  /** The bytes of a piece; the last piece of the torrent may be short. */
  function PieceBytes(r: Request, piece: int): seq<Byte> {
    var from, to := Start(r.pieceSize, piece), Min(Start(r.pieceSize, piece + 1), |r.content|);
    if 0 <= from <= to then r.content[from..to] else []
  }

  // ---------------------------------------------------------------- what has been sent

  predicate Fits(w: Write) {
    0 <= w.offset && 0 <= w.size && w.offset + w.size <= |w.buffer|
  }

  function Payload(w: Write): seq<Byte> {
    if Fits(w) then w.buffer[w.offset..w.offset + w.size] else []
  }

  function Sent(writes: seq<Write>): seq<Byte>
    decreases |writes|
  {
    if writes == [] then [] else Sent(writes[..|writes| - 1]) + Payload(writes[|writes| - 1])
  }

  lemma SentMore(writes: seq<Write>, w: Write)
    ensures Sent(writes + [w]) == Sent(writes) + Payload(w)
  {
    assert (writes + [w])[..|writes|] == writes;
  }

  // ---------------------------------------------------------------- the invariant

  /** What is on the wire is a prefix of the range, and the cursor points right behind it. */
  ghost predicate Sends(r: Request, c: Conn) {
    var n := |Sent(c.writes)|;
    && c.pieceSize == r.pieceSize && c.endPiece == EndPiece(r)
    && FirstPiece(r) <= c.nextPiece <= c.endPiece
    && (forall i | 0 <= i < |c.writes| :: Fits(c.writes[i]))
    && c.leftToSend == r.hi - r.lo - n && 0 <= c.leftToSend
    && Sent(c.writes) == Prefix(r, n)
    && (c.nextPiece < c.endPiece ==> At(r, c, n))
    && (c.nextPiece == c.endPiece ==> c.leftToSend == 0)
  }

  predicate At(r: Request, c: Conn, n: int) {
    0 <= c.offset <= c.pieceSize && r.lo + n == Start(r.pieceSize, c.nextPiece) + c.offset
  }

  /** Buffers kept for later are pieces still to be sent. */
  ghost predicate Stored(r: Request, c: Conn) {
    forall p :: Kept(r, c, p)
  }

  predicate Kept(r: Request, c: Conn, p: int) {
    p in c.outOfOrder ==> c.nextPiece <= p < c.endPiece && c.outOfOrder[p] == PieceBytes(r, p)
  }

  /** At most one write is outstanding, `done` is scheduled once, and the connection never waits
      for a piece it already has. */
  ghost predicate Lives(c: Conn) {
    && |c.writes| + 1 == c.completed + (if c.writing then 1 else 0)
    && (!c.writing && !c.stopped ==> c.nextPiece < c.endPiece && c.nextPiece !in c.outOfOrder)
    && |c.done| == (if c.stopped then 1 else 0)
    && (c.done == [false] ==> c.nextPiece == c.endPiece && !c.writing)
    && c.resets == (if c.done == [true] then Pieces(c.nextPiece, c.nextPriority) else [])
  }

  /** Every piece up to the end of the prefetch window has had its deadline set, once. */
  ghost predicate Prefetches(first: int, c: Conn) {
    && c.pieceSize > 0 && first <= c.nextPiece <= c.endPiece
    && |c.deadlines| == c.nextPriority - first
    && (forall i | 0 <= i < |c.deadlines| :: c.deadlines[i].piece == first + i && 1 <= c.deadlines[i].deadline)
    && (c.nextPriority == Target(c) || (c.nextPriority == first && c.nextPiece == first))
  }

  ghost predicate Inv(r: Request, c: Conn) {
    Sends(r, c) && Stored(r, c) && Lives(c) && Prefetches(FirstPiece(r), c)
  }

  /** What the environment promises: a piece alert carries that piece, and completions are of
      writes that were started. */
  predicate Genuine(r: Request, c: Conn, e: Event) {
    && (e.OnPiece? ==> e.buffer == PieceBytes(r, e.piece))
    && (e.OnWrite? ==> c.writing)
  }

  lemma OpenInv(r: Request)
    ensures Inv(r, Open(r))
  {
    hide Start, EndPiece;
    Ends(r);
    assert Prefix(r, 0) == [];
  }

  // ---------------------------------------------------------------- one write

  /** The rest of a piece is in its buffer, as far as the range goes. */
  lemma RestOfPiece(r: Request, p: int, from: int, size: int)
    requires 0 <= p && 0 <= from && 0 <= size && from + size <= r.pieceSize
    requires Start(r.pieceSize, p) + from + size <= r.hi
    ensures var w := Write(PieceBytes(r, p), from, size);
            Fits(w) && Payload(w) == r.content[Start(r.pieceSize, p) + from..Start(r.pieceSize, p) + from + size]
  {
    hide Start;
    StartNext(r.pieceSize, p);
    StartMonotone(r.pieceSize, 0, p);
    StartIsZero(r.pieceSize);
    var a, b := Start(r.pieceSize, p), Min(Start(r.pieceSize, p + 1), |r.content|);
    SliceOfSlice(r.content, a, b, from, from + size);
  }

  /** The next write stays inside the piece's buffer and continues the range. */
  lemma NextWrite(r: Request, c: Conn, n: int)
    requires c.pieceSize == r.pieceSize && c.endPiece == EndPiece(r) && 0 <= c.nextPiece < c.endPiece
    requires c.leftToSend == r.hi - r.lo - n && 0 <= c.leftToSend && 0 <= n && At(r, c, n)
    ensures var size := Min(c.pieceSize - c.offset, c.leftToSend);
            var w := Write(PieceBytes(r, c.nextPiece), c.offset, size);
            && Fits(w) && Payload(w) == r.content[r.lo + n..r.lo + n + size]
            && (c.nextPiece + 1 < c.endPiece ==> r.lo + n + size == Start(r.pieceSize, c.nextPiece + 1))
            && (c.nextPiece + 1 == c.endPiece ==> size == c.leftToSend)
  {
    hide Start, EndPiece, PieceBytes, Fits, Payload;
    Ends(r);
    StartNext(r.pieceSize, c.nextPiece);
    if c.nextPiece + 1 < c.endPiece {
      StartMonotone(r.pieceSize, c.nextPiece + 1, c.endPiece - 1);
    }
    RestOfPiece(r, c.nextPiece, c.offset, Min(c.pieceSize - c.offset, c.leftToSend));
  }

  lemma StartIsZero(size: int)
    ensures Start(size, 0) == 0
  {
  }

  lemma PrefixMore(r: Request, n: nat, size: nat)
    requires n + size <= r.hi - r.lo
    ensures Prefix(r, n) + r.content[r.lo + n..r.lo + n + size] == Prefix(r, n + size)
    ensures |Prefix(r, n + size)| == n + size
  {
  }

  /** The write a connection makes next. */
  function NextOf(r: Request, c: Conn): Write {
    Write(PieceBytes(r, c.nextPiece), c.offset, Min(c.pieceSize - c.offset, c.leftToSend))
  }

  lemma SentNext(r: Request, c: Conn)
    requires Sends(r, c) && c.nextPiece < c.endPiece
    ensures var n, w := |Sent(c.writes)|, NextOf(r, c);
            && Fits(w) && 0 <= w.size <= c.leftToSend
            && Sent(c.writes + [w]) == Prefix(r, n + w.size) && |Sent(c.writes + [w])| == n + w.size
            && (c.nextPiece + 1 < c.endPiece ==> r.lo + n + w.size == Start(r.pieceSize, c.nextPiece + 1))
            && (c.nextPiece + 1 == c.endPiece ==> w.size == c.leftToSend)
  {
    hide Start, EndPiece, FirstPiece, PieceBytes, Fits, Payload, Sent, At, Prefix;
    var n, w := |Sent(c.writes)|, NextOf(r, c);
    Ends(r);
    NextWrite(r, c, n);
    FitsSize(w);
    SentMore(c.writes, w);
    PrefixMore(r, n, w.size);
  }

  lemma FitsMore(writes: seq<Write>, w: Write)
    requires Fits(w) && forall i | 0 <= i < |writes| :: Fits(writes[i])
    ensures forall i | 0 <= i < |writes + [w]| :: Fits((writes + [w])[i])
  {
    hide Fits;
  }

  lemma WriteSends(r: Request, c: Conn)
    requires Sends(r, c) && c.nextPiece < c.endPiece
    ensures Sends(r, WriteNext(c, PieceBytes(r, c.nextPiece)))
  {
    hide Start, EndPiece, FirstPiece, PieceBytes, Fits, Payload, Sent, WithDeadlines, At, Prefix;
    SentNext(r, c);
    FitsMore(c.writes, NextOf(r, c));
    var d := WriteNext(c, PieceBytes(r, c.nextPiece));
    DeadlinesOnly(c, PieceBytes(r, c.nextPiece));
    if d.nextPiece < d.endPiece {
      SizeIsPositive(r);
      AtStart(r, d, |Sent(c.writes)| + NextOf(r, c).size);
    }
  }

  lemma SizeIsPositive(r: Request)
    ensures 0 < r.pieceSize
  {
  }

  lemma FitsSize(w: Write)
    requires Fits(w)
    ensures 0 <= w.size && |Payload(w)| == w.size
  {
  }

  lemma AtStart(r: Request, c: Conn, n: int)
    requires c.offset == 0 <= c.pieceSize && r.lo + n == Start(r.pieceSize, c.nextPiece)
    ensures At(r, c, n)
  {
  }

  lemma DeadlinesOnly(c: Conn, buffer: seq<Byte>)
    ensures var size := Min(c.pieceSize - c.offset, c.leftToSend);
            WriteNext(c, buffer) == c.(
              writes := c.writes + [Write(buffer, c.offset, size)], writing := true, nextPiece := c.nextPiece + 1,
              leftToSend := c.leftToSend - size, offset := 0,
              nextPriority := WriteNext(c, buffer).nextPriority, deadlines := WriteNext(c, buffer).deadlines)
  {
  }

  lemma DeadlinesPrefetch(first: int, c: Conn)
    requires c.pieceSize > 0 && first <= c.nextPiece <= c.endPiece
    requires |c.deadlines| == c.nextPriority - first && c.nextPriority <= Target(c)
    requires forall i | 0 <= i < |c.deadlines| :: c.deadlines[i].piece == first + i && 1 <= c.deadlines[i].deadline
    ensures !c.stopped ==> Prefetches(first, WithDeadlines(c)) && WithDeadlines(c).nextPriority == Target(c)
  {
    hide Prefetch;
  }

  lemma WritePrefetches(first: int, c: Conn, buffer: seq<Byte>)
    requires Prefetches(first, c) && c.nextPiece < c.endPiece && !c.stopped
    ensures Prefetches(first, WriteNext(c, buffer))
    ensures WriteNext(c, buffer).nextPriority == Target(WriteNext(c, buffer))
  {
    hide WithDeadlines, Prefetch;
    PrefetchIsPositive(c.pieceSize);
    var size := Min(c.pieceSize - c.offset, c.leftToSend);
    var d := c.(
      writes := c.writes + [Write(buffer, c.offset, size)], writing := true,
      nextPiece := c.nextPiece + 1, leftToSend := c.leftToSend - size, offset := 0);
    DeadlinesPrefetch(first, d);
    TargetAfter(d);
  }

  lemma TargetAfter(c: Conn)
    ensures Target(WithDeadlines(c)) == Target(c)
  {
  }

  lemma PrefetchIsPositive(size: int)
    requires size > 0
    ensures Prefetch(size) >= 1
  {
  }

  // ---------------------------------------------------------------- every event keeps it

  lemma SameSends(r: Request, c: Conn, d: Conn)
    requires Sends(r, c)
    requires d.pieceSize == c.pieceSize && d.endPiece == c.endPiece && d.nextPiece == c.nextPiece
    requires d.writes == c.writes && d.leftToSend == c.leftToSend && d.offset == c.offset
    ensures Sends(r, d)
  {
    hide Start, EndPiece, FirstPiece, Sent, Fits, Prefix;
  }

  lemma SamePrefetches(first: int, c: Conn, d: Conn)
    requires Prefetches(first, c)
    requires d.pieceSize == c.pieceSize && d.endPiece == c.endPiece && d.nextPiece == c.nextPiece
    requires d.nextPriority == c.nextPriority && d.deadlines == c.deadlines
    ensures Prefetches(first, d)
  {
    hide Prefetch;
  }

  /** Fewer kept pieces, or none. */
  lemma FewerStored(r: Request, c: Conn, d: Conn)
    requires Stored(r, c) && d.nextPiece == c.nextPiece && d.endPiece == c.endPiece
    requires d.outOfOrder == c.outOfOrder || d.outOfOrder == map[]
    ensures Stored(r, d)
  {
    hide PieceBytes;
    forall p ensures Kept(r, d, p) {
      assert Kept(r, c, p);
    }
  }

  /** The piece that is about to be sent is not kept any longer. */
  lemma NextIsTaken(r: Request, c: Conn, d: Conn)
    requires Stored(r, c) && d.nextPiece == c.nextPiece + 1 && d.endPiece == c.endPiece
    requires d.outOfOrder == c.outOfOrder - {c.nextPiece}
    ensures Stored(r, d)
  {
    hide PieceBytes;
    forall p ensures Kept(r, d, p) {
      assert Kept(r, c, p);
    }
  }

  lemma WithoutAbsent(m: map<int, seq<Byte>>, p: int)
    requires p !in m
    ensures m - {p} == m
  {
  }

  /** Lives, but for a connection that has just stopped writing. */
  predicate Completed(c: Conn) {
    && |c.writes| + 1 == c.completed + (if c.writing then 1 else 0)
    && |c.done| == (if c.stopped then 1 else 0)
    && (c.done == [false] ==> c.nextPiece == c.endPiece && !c.writing)
    && c.resets == (if c.done == [true] then Pieces(c.nextPiece, c.nextPriority) else [])
  }

  ghost predicate Steady(r: Request, c: Conn) {
    Sends(r, c) && Stored(r, c) && Prefetches(FirstPiece(r), c) && Completed(c)
  }

  lemma InvIsSteady(r: Request, c: Conn)
    requires Inv(r, c)
    ensures Steady(r, c)
  {
    hide Sends, Stored, Prefetches, FirstPiece;
  }

  lemma AbortKeeps(r: Request, c: Conn)
    requires Steady(r, c)
    ensures Inv(r, Abort(c))
  {
    hide Sends, Stored, Prefetches, FirstPiece;
    SameSends(r, c, Abort(c));
    SamePrefetches(FirstPiece(r), c, Abort(c));
    FewerStored(r, c, Abort(c));
    if !c.stopped {
      assert c.done + [true] == [true];
      assert c.resets + Pieces(c.nextPiece, c.nextPriority) == Pieces(c.nextPiece, c.nextPriority);
    }
  }

  lemma WriteKeeps(r: Request, c: Conn)
    requires Steady(r, c) && !c.writing && !c.stopped && c.nextPiece < c.endPiece
    ensures Inv(r, WriteNext(c.(outOfOrder := c.outOfOrder - {c.nextPiece}), PieceBytes(r, c.nextPiece)))
  {
    hide Sends, Stored, Prefetches, FirstPiece, PieceBytes, WriteNext;
    var d := c.(outOfOrder := c.outOfOrder - {c.nextPiece});
    var buffer := PieceBytes(r, c.nextPiece);
    SameSends(r, c, d);
    SamePrefetches(FirstPiece(r), c, d);
    WriteSends(r, d);
    WritePrefetches(FirstPiece(r), d, buffer);
    DeadlinesOnly(d, buffer);
    NextIsTaken(r, c, WriteNext(d, buffer));
  }

  lemma DeadlinesKeep(r: Request, c: Conn)
    requires Inv(r, c)
    ensures Inv(r, WithDeadlines(c))
  {
    hide Sends, Stored, Prefetches, FirstPiece, Target;
    var d := WithDeadlines(c);
    SameSends(r, c, d);
    FewerStored(r, c, d);
    if c.stopped {
      SamePrefetches(FirstPiece(r), c, d);
    } else {
      PrefetchTarget(FirstPiece(r), c);
      DeadlinesPrefetch(FirstPiece(r), c);
    }
  }

  lemma StorePiece(r: Request, c: Conn, p: int)
    requires Inv(r, c) && c.nextPiece <= p < c.endPiece && !c.stopped && !(p == c.nextPiece && !c.writing)
    ensures Inv(r, c.(outOfOrder := c.outOfOrder[p := PieceBytes(r, p)]))
  {
    hide Sends, Prefetches, FirstPiece, PieceBytes;
    var d := c.(outOfOrder := c.outOfOrder[p := PieceBytes(r, p)]);
    SameSends(r, c, d);
    SamePrefetches(FirstPiece(r), c, d);
    forall q ensures Kept(r, d, q) {
      assert Kept(r, c, q);
    }
  }

  lemma CompleteKeeps(r: Request, c: Conn)
    requires Inv(r, c) && c.writing
    ensures Steady(r, Complete(c))
    ensures c.nextPiece != c.endPiece ==> c.nextPiece < c.endPiece
    ensures c.nextPiece in c.outOfOrder ==> c.outOfOrder[c.nextPiece] == PieceBytes(r, c.nextPiece)
  {
    hide Stored, Prefetches, FirstPiece, PieceBytes, EndPiece, Sent, Fits, At;
    var d := Complete(c);
    SameSends(r, c, d);
    SamePrefetches(FirstPiece(r), c, d);
    FewerStored(r, c, d);
    StoredAt(r, c, c.nextPiece);
  }

  lemma StoredAt(r: Request, c: Conn, p: int)
    requires Stored(r, c)
    ensures Kept(r, c, p)
  {
  }

  lemma FinishKeeps(r: Request, c: Conn)
    requires Steady(r, c) && !c.writing && !c.stopped && c.nextPiece == c.endPiece
    ensures Inv(r, Finish(c))
  {
    hide Sends, Stored, Prefetches, FirstPiece;
    SameSends(r, c, Finish(c));
    SamePrefetches(FirstPiece(r), c, Finish(c));
    FewerStored(r, c, Finish(c));
    assert c.done + [false] == [false];
  }

  lemma WriteDoneKeeps(r: Request, c: Conn, failed: bool)
    requires Inv(r, c) && c.writing
    ensures Inv(r, Step(c, OnWrite(failed)))
  {
    hide Sends, Prefetches, Stored, FirstPiece, PieceBytes, WriteNext, Abort;
    CompleteKeeps(r, c);
    var d := Complete(c);
    if d.stopped {
      AbortStopped(d);
    } else if failed {
      AbortKeeps(r, d);
    } else if d.nextPiece == d.endPiece {
      FinishKeeps(r, d);
    } else if d.nextPiece in d.outOfOrder {
      WriteKeeps(r, d);
    }
  }

  lemma AbortStopped(c: Conn)
    requires c.stopped
    ensures Abort(c) == c
  {
  }

  /** Every event keeps the invariant. */
  lemma StepKeeps(r: Request, c: Conn, e: Event)
    requires Inv(r, c) && Genuine(r, c, e)
    ensures Inv(r, Step(c, e))
  {
    hide Sends, Prefetches, Stored, FirstPiece, PieceBytes, WriteNext, Abort, WithDeadlines;
    InvIsSteady(r, c);
    match e {
      case SetDeadlines =>
        DeadlinesKeep(r, c);
      case OnPiece(p, buffer) =>
        if !c.stopped {
          if p == c.nextPiece && !c.writing {
            WithoutAbsent(c.outOfOrder, p);
            WriteKeeps(r, c);
          } else if c.nextPiece <= p < c.endPiece {
            StorePiece(r, c, p);
          }
        }
      case OnPieceError(p) =>
        AbortKeeps(r, c);
      case OnWrite(failed) =>
        WriteDoneKeeps(r, c, failed);
      case Cancel =>
        AbortKeeps(r, c);
    }
  }

  // ---------------------------------------------------------------- runs

  function Run(c: Conn, events: seq<Event>): Conn
    decreases |events|
  {
    if |events| == 0 then c else Run(Step(c, events[0]), events[1..])
  }

  ghost predicate Legal(r: Request, c: Conn, events: seq<Event>)
    decreases |events|
  {
    events != [] ==> Genuine(r, c, events[0]) && Legal(r, Step(c, events[0]), events[1..])
  }

  lemma {:induction false} RunKeeps(r: Request, c: Conn, events: seq<Event>)
    requires Inv(r, c) && Legal(r, c, events)
    ensures Inv(r, Run(c, events))
    decreases |events|
  {
    hide Inv, Step, Genuine;
    if events != [] {
      StepKeeps(r, c, events[0]);
      RunKeeps(r, Step(c, events[0]), events[1..]);
    }
  }

  /** Whatever arrives, in whatever order and however often: what is written is a prefix of the
      requested range, every write stays inside its piece, one write is outstanding at most, `done`
      is called at most once, and it reports success only when the whole range has been written. */
  lemma StreamsTheRange(r: Request, events: seq<Event>)
    requires Legal(r, Open(r), events)
    ensures var c := Run(Open(r), events);
            && (forall i | 0 <= i < |c.writes| :: Fits(c.writes[i]))
            && |Sent(c.writes)| == r.hi - r.lo - c.leftToSend <= r.hi - r.lo
            && Sent(c.writes) == Prefix(r, |Sent(c.writes)|)
            && (c.nextPiece == c.endPiece ==> Sent(c.writes) == Whole(r))
            && |c.writes| + 1 - c.completed == (if c.writing then 1 else 0)
            && |c.done| == (if c.stopped then 1 else 0)
            && (c.done == [false] ==> Sent(c.writes) == Whole(r) && !c.writing)
            && (!c.writing && !c.stopped ==> c.nextPiece < c.endPiece && c.nextPiece !in c.outOfOrder)
  {
    hide Start, EndPiece, Sent, Fits, At, PieceBytes, Target, FirstPiece, Run, Legal, Open, Stored, Prefetches;
    OpenInv(r);
    RunKeeps(r, Open(r), events);
  }

  // ---------------------------------------------------------------- after the stop

  /** Once stopped, nothing more is written, asked for, reset or reported. */
  lemma {:induction false} StoppedIsFinal(c: Conn, events: seq<Event>)
    requires c.stopped
    ensures var d := Run(c, events);
            && d.stopped && d.writes == c.writes && d.deadlines == c.deadlines
            && d.resets == c.resets && d.done == c.done
    decreases |events|
  {
    hide WriteNext;
    if events != [] {
      StoppedIsFinal(Step(c, events[0]), events[1..]);
    }
  }

  // ---------------------------------------------------------------- deadlines

  lemma StepTarget(r: Request, c: Conn, e: Event)
    requires Inv(r, c) && Genuine(r, c, e) && (c.nextPriority == Target(c) || c.stopped || e == SetDeadlines)
    ensures Step(c, e).nextPriority == Target(Step(c, e)) || Step(c, e).stopped
  {
    hide Sends, Stored, FirstPiece, PieceBytes, WriteNext, Prefetch, Prefetches, WithDeadlines;
    var first := FirstPiece(r);
    DoneOnly(c);
    match e {
      case SetDeadlines =>
        PrefetchTarget(first, c);
        DeadlinesPrefetch(first, c);
        TargetAfter(c);
      case OnPiece(p, buffer) =>
        if !c.stopped && p == c.nextPiece && !c.writing {
          WritePrefetches(first, c, buffer);
        }
      case OnPieceError(p) =>
      case OnWrite(failed) =>
        CompleteKeeps(r, c);
        var d := Complete(c);
        if !failed && !d.stopped && d.nextPiece != d.endPiece && d.nextPiece in d.outOfOrder {
          var taken := d.(outOfOrder := d.outOfOrder - {d.nextPiece});
          SamePrefetches(first, d, taken);
          WritePrefetches(first, taken, d.outOfOrder[d.nextPiece]);
        }
      case Cancel =>
    }
  }

  lemma PrefetchTarget(first: int, c: Conn)
    requires Prefetches(first, c)
    ensures c.pieceSize > 0 && first <= c.nextPiece <= c.endPiece && c.nextPriority <= Target(c)
    ensures |c.deadlines| == c.nextPriority - first
    ensures forall i | 0 <= i < |c.deadlines| :: c.deadlines[i].piece == first + i && 1 <= c.deadlines[i].deadline
  {
    PrefetchIsPositive(c.pieceSize);
  }

  lemma {:induction false} RunTarget(r: Request, c: Conn, events: seq<Event>)
    requires Inv(r, c) && Legal(r, c, events)
    requires c.nextPriority == Target(c) || c.stopped || SetDeadlines in events
    ensures Run(c, events).nextPriority == Target(Run(c, events)) || Run(c, events).stopped
    decreases |events|
  {
    hide Inv, Step, Genuine, Target;
    if events != [] {
      StepKeeps(r, c, events[0]);
      if c.nextPriority == Target(c) || c.stopped || events[0] == SetDeadlines {
        StepTarget(r, c, events[0]);
      }
      RunTarget(r, Step(c, events[0]), events[1..]);
    }
  }

  /** From the first request for deadlines on, exactly the pieces from the first to the end of the
      prefetch window have had their deadline set, once each, and in order; an aborted request
      takes back exactly those that were not yet handed to the socket. */
  lemma DeadlinesOnce(r: Request, events: seq<Event>)
    requires Legal(r, Open(r), events)
    ensures var c := Run(Open(r), events);
            && |c.deadlines| == c.nextPriority - FirstPiece(r)
            && (forall i | 0 <= i < |c.deadlines| :: c.deadlines[i].piece == FirstPiece(r) + i)
            && (SetDeadlines in events && !c.stopped ==>
                  c.nextPriority == Min(EndPiece(r), c.nextPiece + Prefetch(r.pieceSize)))
            && c.resets == (if c.done == [true] then Pieces(c.nextPiece, c.nextPriority) else [])
  {
    hide Start, EndPiece, Sent, Fits, At, PieceBytes, FirstPiece, Run, Legal, Open, Prefetch;
    OpenInv(r);
    RunKeeps(r, Open(r), events);
    if SetDeadlines in events {
      RunTarget(r, Open(r), events);
    }
  }

  lemma WindowSize(pieceSize: int, k: nat)
    requires 0 < pieceSize
    ensures k < Prefetch(pieceSize) <==> k == 0 || (k + 1) * pieceSize <= 4_194_304
  {
    var n := PREFETCH_BYTES / pieceSize;
    assert n * pieceSize <= PREFETCH_BYTES < (n + 1) * pieceSize;
    if k < n {
      Ordered(k + 1, n, pieceSize);
    } else {
      Ordered(n + 1, k + 1, pieceSize);
    }
  }

  lemma Ordered(a: int, b: int, size: int)
    requires a <= b && 0 < size
    ensures a * size <= b * size
  {
  }

  /** Once deadlines have been asked for, and as long as the request is not stopped, a piece still to be
      sent has its deadline set iff it is the next one or ends within four mebibytes from there. */
  lemma PrefetchWindow(r: Request, events: seq<Event>, p: int)
    requires Legal(r, Open(r), events) && SetDeadlines in events
    requires var c := Run(Open(r), events); !c.stopped && c.nextPiece <= p < EndPiece(r)
    ensures var c := Run(Open(r), events);
            p < c.nextPriority <==> p == c.nextPiece || (p - c.nextPiece + 1) * r.pieceSize <= 4_194_304
  {
    hide EndPiece, Run, Legal, Open, Prefetch;
    DeadlinesOnce(r, events);
    WindowSize(r.pieceSize, p - Run(Open(r), events).nextPiece);
  }

  // ---------------------------------------------------------------- no stall

  /** The piece has been sent, or is kept, or is not asked for. */
  predicate Seen(c: Conn, p: int) {
    c.stopped || p < c.nextPiece || c.endPiece <= p || p in c.outOfOrder
  }

  predicate Delivered(events: seq<Event>, p: int) {
    exists i :: 0 <= i < |events| && events[i].OnPiece? && events[i].piece == p
  }

  lemma StepSeen(c: Conn, e: Event, p: int)
    requires Seen(c, p) || (e.OnPiece? && e.piece == p)
    ensures Seen(Step(c, e), p)
  {
  }

  lemma {:induction false} RunSeen(c: Conn, events: seq<Event>, p: int)
    requires Seen(c, p) || Delivered(events, p)
    ensures Seen(Run(c, events), p)
    decreases |events|
  {
    hide Step, Seen;
    if events != [] {
      if Seen(c, p) || (events[0].OnPiece? && events[0].piece == p) {
        StepSeen(c, events[0], p);
      } else {
        var i :| 0 <= i < |events| && events[i].OnPiece? && events[i].piece == p;
        assert events[1..][i - 1] == events[i];
      }
      RunSeen(Step(c, events[0]), events[1..], p);
    }
  }

  predicate Fails(e: Event) {
    e.Cancel? || e.OnPieceError? || (e.OnWrite? && e.failed)
  }

  lemma {:induction false} RunSucceeds(c: Conn, events: seq<Event>)
    requires forall i | 0 <= i < |events| :: !Fails(events[i])
    requires c.stopped ==> c.done == [false]
    requires !c.stopped ==> c.done == []
    ensures Run(c, events).stopped ==> Run(c, events).done == [false]
    decreases |events|
  {
    hide WriteNext, WithDeadlines;
    if events != [] {
      assert !Fails(events[0]);
      DoneOnly(c);
      RunSucceeds(Step(c, events[0]), events[1..]);
    }
  }

  lemma DoneOnly(c: Conn)
    ensures WithDeadlines(c).done == c.done && WithDeadlines(c).stopped == c.stopped
    ensures forall d: Conn, buffer: seq<Byte> ::
      WriteNext(d, buffer).done == d.done && WriteNext(d, buffer).stopped == d.stopped
  {
  }

  /** Nothing stalls: if no event fails and every piece has been delivered at least once, in any
      order, then as soon as no write is outstanding the whole range has been sent and reported. */
  lemma DeliveredMeansFinished(r: Request, events: seq<Event>)
    requires Legal(r, Open(r), events)
    requires forall i | 0 <= i < |events| :: !Fails(events[i])
    requires forall p | FirstPiece(r) <= p < EndPiece(r) :: Delivered(events, p)
    requires !Run(Open(r), events).writing
    ensures var c := Run(Open(r), events);
            c.stopped && c.done == [false] && Sent(c.writes) == Whole(r)
  {
    hide Start, EndPiece, FirstPiece, Sent, Fits, At, PieceBytes, Target, Run, Legal, Prefetches, Stored, Fails;
    var c := Run(Open(r), events);
    OpenInv(r);
    RunKeeps(r, Open(r), events);
    RunSucceeds(Open(r), events);
    if !c.stopped {
      RunSeen(Open(r), events, c.nextPiece);
    }
  }

  function Acks(n: nat): seq<Event> {
    seq(n, _ => OnWrite(false))
  }

  /** And once all that is left is kept, the completions alone drive the response to its end. */
  lemma {:induction false} KeptPiecesDrain(r: Request, c: Conn)
    requires Inv(r, c) && c.writing && !c.stopped
    requires forall p | c.nextPiece <= p < c.endPiece :: p in c.outOfOrder
    ensures Legal(r, c, Acks(c.endPiece - c.nextPiece + 1))
    ensures var d := Run(c, Acks(c.endPiece - c.nextPiece + 1));
            d.done == [false] && Sent(d.writes) == Whole(r)
    decreases c.endPiece - c.nextPiece
  {
    hide Start, EndPiece, FirstPiece, Sent, Fits, At, PieceBytes, Target, Prefetches, Stored, WithDeadlines;
    var acks := Acks(c.endPiece - c.nextPiece + 1);
    var d := Step(c, acks[0]);
    StepKeeps(r, c, acks[0]);
    assert acks[1..] == Acks(c.endPiece - c.nextPiece);
    if c.nextPiece < c.endPiece {
      DeadlinesOnly(Complete(c).(outOfOrder := c.outOfOrder - {c.nextPiece}), c.outOfOrder[c.nextPiece]);
      KeptPiecesDrain(r, d);
    }
  }
}
