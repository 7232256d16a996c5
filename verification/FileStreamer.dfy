/** src/file_downloader.cpp: one HTTP response that streams a byte range out of a torrent, fed by
    piece alerts on one thread and by write completions on another. Every event runs under the
    connection's mutex, so a run is a sequence of events. */
module FileStreamer {
  import opened Basics
  import opened Bytes

  /** async_write(buffer(buf + offset, size)). */
  datatype Write = Write(buffer: seq<Byte>, offset: int, size: int)

  datatype Deadline = Deadline(piece: int, deadline: int)

  /** The members of file_request_conn, and all it has done to the outside so far. */
  datatype Conn = Conn(
    pieceSize: int, endPiece: int,
    nextPiece: int, nextPriority: int, leftToSend: int, offset: int,
    writing: bool, stopped: bool, outOfOrder: map<int, seq<Byte>>,
    writes: seq<Write>, completed: nat, deadlines: seq<Deadline>, resets: seq<int>, done: seq<bool>)

  datatype Event =
    | SetDeadlines
    | OnPiece(piece: int, buffer: seq<Byte>)
    | OnPieceError(piece: int)
    | OnWrite(failed: bool)
    | Cancel

  /** We start out writing the response header. */
  function Init(nextPiece: int, endPiece: int, offset: int, pieceSize: int, leftToSend: int): Conn {
    Conn(pieceSize, endPiece, nextPiece, nextPiece, leftToSend, offset, true, false, map[], [], 0, [], [], [])
  }

  const PREFETCH_BYTES := 4 * 1024 * 1024

  function Prefetch(pieceSize: int): int
    requires pieceSize > 0
  {
    Max(1, PREFETCH_BYTES / pieceSize)
  }

  /** How far the prefetch window reaches. */
  function Target(c: Conn): int {
    if c.pieceSize > 0 then Min(c.endPiece, c.nextPiece + Prefetch(c.pieceSize)) else c.nextPriority
  }

  function DeadlinesFrom(first: int, n: nat): seq<Deadline> {
    seq(n, i => Deadline(first + i, 1 + i))
  }

  function WithDeadlines(c: Conn): Conn {
    if c.stopped || Target(c) <= c.nextPriority then c
    else c.(deadlines := c.deadlines + DeadlinesFrom(c.nextPriority, Target(c) - c.nextPriority),
            nextPriority := Target(c))
  }

  function Pieces(from: int, to: int): seq<int> {
    if from < to then seq(to - from, i => from + i) else []
  }

  function Abort(c: Conn): Conn {
    if c.stopped then c
    else c.(stopped := true, outOfOrder := map[],
            resets := c.resets + Pieces(c.nextPiece, c.nextPriority), done := c.done + [true])
  }

  /** Hand the next piece to the socket and move on to the one after it. */
  function WriteNext(c: Conn, buffer: seq<Byte>): Conn {
    var size := Min(c.pieceSize - c.offset, c.leftToSend);
    WithDeadlines(c.(
      writes := c.writes + [Write(buffer, c.offset, size)], writing := true,
      nextPiece := c.nextPiece + 1, leftToSend := c.leftToSend - size, offset := 0))
  }

  function Complete(c: Conn): Conn {
    c.(writing := false, completed := c.completed + 1)
  }

  function Finish(c: Conn): Conn {
    c.(stopped := true, done := c.done + [false])
  }

  function Step(c: Conn, e: Event): Conn {
    match e
    case SetDeadlines => WithDeadlines(c)
    case OnPiece(piece, buffer) =>
      if c.stopped then c
      else if piece == c.nextPiece && !c.writing then WriteNext(c, buffer)
      else if c.nextPiece <= piece < c.endPiece then c.(outOfOrder := c.outOfOrder[piece := buffer])
      else c
    case OnPieceError(piece) =>
      if c.stopped then c
      else if (piece == c.nextPiece && !c.writing) || c.nextPiece <= piece < c.endPiece then Abort(c)
      else c
    case OnWrite(failed) =>
      var d := Complete(c);
      if failed then Abort(d)
      else if d.stopped then d
      else if d.nextPiece == d.endPiece then Finish(d)
      else if d.nextPiece !in d.outOfOrder then d
      else WriteNext(d.(outOfOrder := d.outOfOrder - {d.nextPiece}), d.outOfOrder[d.nextPiece])
    case Cancel => Abort(c)
  }

  // ---------------------------------------------------------------- the object

  /** The connection. What it does to the socket, the torrent and its owner is logged in ghost fields. */
  class FileRequestConn {
    const pieceSize: int
    const endPiece: int
    var nextPiece: int
    var nextPriority: int
    var leftToSend: int
    var offset: int
    var writing: bool
    var stopped: bool
    var outOfOrder: map<int, seq<Byte>>
    ghost var writes: seq<Write>
    ghost var completed: nat
    ghost var deadlines: seq<Deadline>
    ghost var resets: seq<int>
    ghost var done: seq<bool>

    ghost function Model(): Conn
      reads this
    {
      Conn(pieceSize, endPiece, nextPiece, nextPriority, leftToSend, offset, writing, stopped, outOfOrder,
           writes, completed, deadlines, resets, done)
    }

    constructor (nextPiece: int, endPiece: int, offset: int, pieceSize: int, leftToSend: int)
      requires 0 < pieceSize
      ensures Model() == Init(nextPiece, endPiece, offset, pieceSize, leftToSend)
    {
      this.nextPiece, this.nextPriority, this.endPiece := nextPiece, nextPiece, endPiece;
      this.leftToSend, this.offset, this.pieceSize := leftToSend, offset, pieceSize;
      writing, stopped, outOfOrder := true, false, map[];
      writes, completed, deadlines, resets, done := [], 0, [], [], [];
    }

    method OnPieceAlert(piece: int, error: bool, buffer: seq<Byte>)
      requires 0 < pieceSize
      modifies this
      ensures Model() == Step(old(Model()), if error then OnPieceError(piece) else OnPiece(piece, buffer))
    {
      if stopped {
        return;
      }
      if piece == nextPiece && !writing {
        if error {
          AbortRequest();
          return;
        }
        SendNext(buffer);
      } else if nextPiece <= piece < endPiece {
        if error {
          AbortRequest();
          return;
        }
        outOfOrder := outOfOrder[piece := buffer];
      }
    }

    method OnWriteDone(failed: bool)
      requires 0 < pieceSize && writing
      modifies this
      ensures Model() == Step(old(Model()), OnWrite(failed))
    {
      writing := false;
      completed := completed + 1;
      if failed {
        AbortRequest();
        return;
      }
      if stopped {
        return;
      }
      if nextPiece == endPiece {
        stopped := true;
        done := done + [false];
        return;
      }
      if nextPiece !in outOfOrder {
        return;
      }
      var buffer := outOfOrder[nextPiece];
      outOfOrder := outOfOrder - {nextPiece};
      SendNext(buffer);
    }

    /** set_piece_deadlines_impl() */
    method SetPieceDeadlines()
      requires 0 < pieceSize
      modifies this`nextPriority, this`deadlines
      ensures Model() == WithDeadlines(old(Model()))
    {
      if stopped {
        return;
      }
      var prefetch := if 1 < PREFETCH_BYTES / pieceSize then PREFETCH_BYTES / pieceSize else 1;
      var deadline := 1;
      ghost var first := nextPriority;
      while nextPriority - nextPiece < prefetch && nextPriority < endPiece
        invariant deadline == nextPriority - first + 1 && first <= nextPriority
        invariant first < nextPriority ==> nextPriority <= Target(old(Model()))
        invariant deadlines == old(deadlines) + DeadlinesFrom(first, nextPriority - first)
        decreases endPiece - nextPriority
      {
        deadlines := deadlines + [Deadline(nextPriority, deadline)];
        deadline := deadline + 1;
        nextPriority := nextPriority + 1;
      }
    }

    method AbortRequest()
      modifies this`stopped, this`outOfOrder, this`resets, this`done
      ensures Model() == Abort(old(Model()))
    {
      if stopped {
        return;
      }
      stopped := true;
      outOfOrder := map[];
      var i := nextPiece;
      while i < nextPriority
        invariant nextPiece <= i && (i <= nextPriority || i == nextPiece)
        invariant resets == old(resets) + Pieces(nextPiece, i)
        modifies this`resets
      {
        assert Pieces(nextPiece, i) + [i] == Pieces(nextPiece, i + 1);
        resets := resets + [i];
        i := i + 1;
      }
      done := done + [true];
    }

    method SendNext(buffer: seq<Byte>)
      requires 0 < pieceSize && !writing
      modifies this
      ensures Model() == WriteNext(old(Model()), buffer)
    {
      var size := if pieceSize - offset < leftToSend then pieceSize - offset else leftToSend;
      AsyncWrite(buffer, offset, size);
      nextPiece := nextPiece + 1;
      leftToSend := leftToSend - size;
      offset := 0;
      SetPieceDeadlines();
    }

    method AsyncWrite(buffer: seq<Byte>, from: int, size: int)
      requires !writing
      modifies this`writing, this`writes
      ensures writing && writes == old(writes) + [Write(buffer, from, size)]
    {
      writing := true;
      writes := writes + [Write(buffer, from, size)];
    }
  }
}
