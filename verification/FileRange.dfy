/** The HTTP Range header and the arithmetic that turns it into a range of pieces:
    src/file_downloader.cpp, parse_range and handle_http. */
module FileRange {
  import opened Basics
  import opened Bytes
  import opened Collections
  import opened FileStreamer
  import opened Numbers
  import opened StreamerRuns

  // ---------------------------------------------------------------- the header

  predicate IsSpace(c: char) {
    c == ' ' || c == '\t'
  }

  function TrimFront(s: string): string {
    if s != "" && IsSpace(s[0]) then TrimFront(s[1..]) else s
  }

  function TrimBack(s: string): string {
    if s != "" && IsSpace(s[|s| - 1]) then TrimBack(s[..|s| - 1]) else s
  }

  function Trim(s: string): string {
    TrimBack(TrimFront(s))
  }

  /** Up to the first delimiter, and what follows it. */
  function Split(s: string, delimiter: char): (string, string) {
    if s == "" then ("", "")
    else if s[0] == delimiter then ("", s[1..])
    else
      var rest := Split(s[1..], delimiter);
      ([s[0]] + rest.0, rest.1)
  }

  const BYTES := "bytes="

  /** First byte, last byte, and whether the header asks for a part. A header that does not parse
      asks for the whole file. */
  function ParseRange(header: Option<string>, fileSize: int): (int, int, bool) {
    var whole := (0, fileSize - 1, false);
    if header.None? then whole
    else
      var s := Trim(header.value);
      if !(BYTES <= s) then whole
      else
        var (first, last) := Split(s[|BYTES|..], '-');
        var firstByte := FromChars(first);
        var lastByte := if last == "" then Some(fileSize - 1) else FromChars(last);
        if firstByte.None? || lastByte.None? then whole else (firstByte.value, lastByte.value, true)
  }

  lemma {:induction false} SplitAt(a: string, b: string, delimiter: char)
    requires delimiter !in a
    ensures Split(a + [delimiter] + b, delimiter) == (a, b)
    decreases |a|
  {
    var s := a + [delimiter] + b;
    if a == "" {
      assert s[1..] == b;
    } else {
      assert s[1..] == a[1..] + [delimiter] + b;
      assert s[0] == a[0] && a == [a[0]] + a[1..];
      SplitAt(a[1..], b, delimiter);
    }
  }

  lemma {:induction false} TrimFrontSpaces(before: string, s: string)
    requires (forall i | 0 <= i < |before| :: IsSpace(before[i])) && s != "" && !IsSpace(s[0])
    ensures TrimFront(before + s) == s
    decreases |before|
  {
    if before == "" {
      assert before + s == s;
    } else {
      assert (before + s)[1..] == before[1..] + s;
      TrimFrontSpaces(before[1..], s);
    }
  }

  lemma {:induction false} TrimBackSpaces(s: string, after: string)
    requires (forall i | 0 <= i < |after| :: IsSpace(after[i])) && s != "" && !IsSpace(s[|s| - 1])
    ensures TrimBack(s + after) == s
    decreases |after|
  {
    if after == "" {
      assert s + after == s;
    } else {
      var init := after[..|after| - 1];
      assert (s + after)[..|s + after| - 1] == s + init;
      TrimBackSpaces(s, init);
    }
  }

  function Dashed(first: nat, last: Option<nat>): string {
    Decimal(first) + "-" + (if last.None? then "" else Decimal(last.value))
  }

  /** A well-formed header, with spaces around it, is read as it was meant. */
  lemma ParseRangeInverts(before: string, first: nat, last: Option<nat>, after: string, fileSize: int)
    requires forall i | 0 <= i < |before| :: IsSpace(before[i])
    requires forall i | 0 <= i < |after| :: IsSpace(after[i])
    requires first <= INT64_MAX && (last.Some? ==> last.value <= INT64_MAX)
    ensures ParseRange(Some(before + (BYTES + Dashed(first, last)) + after), fileSize)
         == (first, if last.None? then fileSize - 1 else last.value, true)
  {
    hide FromChars, Split, TrimFront, TrimBack, Decimal;
    var s := BYTES + Dashed(first, last);
    EndsInDigitOrDash(first, last);
    TrimFrontSpaces(before, s + after);
    assert before + s + after == before + (s + after);
    TrimBackSpaces(s, after);
    assert s[|BYTES|..] == Dashed(first, last);
    NoDash(first);
    var tail := if last.None? then "" else Decimal(last.value);
    assert Decimal(first) + "-" + tail == Decimal(first) + ['-'] + tail;
    SplitAt(Decimal(first), tail, '-');
    FromCharsInverts(first);
    if last.Some? {
      FromCharsInverts(last.value);
    }
  }

  lemma NoDash(n: nat)
    ensures '-' !in Decimal(n)
  {
    hide Decimal;
    var d := Decimal(n);
    forall i | 0 <= i < |d| ensures d[i] != '-' {
      assert IsDigit(d[i]);
    }
  }

  lemma EndsInDigitOrDash(first: nat, last: Option<nat>)
    ensures var s := BYTES + Dashed(first, last); s[0] == 'b' && !IsSpace(s[|s| - 1])
  {
    hide Decimal;
    if last.Some? {
      var d := Decimal(last.value);
      assert IsDigit(d[|d| - 1]);
    }
  }

  // ---------------------------------------------------------------- the request

  /** A file of a torrent: `size` bytes of the content from `offset` on. */
  datatype Layout = Layout(content: seq<Byte>, pieceSize: int, offset: int, size: int)

  type File = f: Layout | 0 < f.pieceSize && 0 <= f.offset && 0 <= f.size && f.offset + f.size <= |f.content|
    witness Layout([], 1, 0, 0)

  function FileBytes(f: File): seq<Byte> {
    f.content[f.offset..f.offset + f.size]
  }

  /** torrent_info::map_file, for positions inside the content. Libtorrent gives the number of pieces
      and 0 at the very end of the content; that differs from this only for an empty file at the end
      of a torrent whose last piece is short, where nothing is sent either way. */
  function MapFile(f: File, at: int): (int, int)
    requires 0 <= f.offset + at + 1
  {
    var x := f.offset + at;
    if x < 0 then (0, x) else (x / f.pieceSize, x % f.pieceSize)
  }

  datatype Response = NotSatisfiable | Content(partial: bool, first: int, last: int, length: int, conn: Conn)

  lemma WholeByDefault(header: Option<string>, fileSize: int)
    ensures var (first, last, partial) := ParseRange(header, fileSize);
            !partial ==> first == 0 && last == fileSize - 1
  {
  }

  function Handle(f: File, header: Option<string>): (r: Response)
    ensures r.Content? ==> 0 <= r.first <= r.last + 1 <= f.size
  {
    WholeByDefault(header, f.size);
    var (first, last, partial) := ParseRange(header, f.size);
    if partial && (first > last || last >= f.size || first < 0) then NotSatisfiable
    else
      var (piece, start) := MapFile(f, first);
      var (lastPiece, _) := MapFile(f, last);
      Content(partial, first, last, last - first + 1, Init(piece, lastPiece + 1, start, f.pieceSize, last - first + 1))
  }

  /** The bytes the response announces, as a range of the torrent. */
  function Announced(f: File, first: int, last: int): Request
    requires 0 <= first <= last + 1 <= f.size
  {
    Range(f.content, f.pieceSize, f.offset + first, f.offset + last + 1)
  }

  /** Any header whatsoever is either refused or opens a connection for exactly the bytes the
      response announces. */
  lemma HandleOpens(f: File, header: Option<string>)
    ensures match Handle(f, header)
            case NotSatisfiable =>
              var (first, last, partial) := ParseRange(header, f.size);
              partial && !(0 <= first <= last < f.size)
            case Content(partial, first, last, length, conn) =>
              && 0 <= first <= last + 1 <= f.size
              && conn == Open(Announced(f, first, last))
              && Whole(Announced(f, first, last)) == FileBytes(f)[first..last + 1]
              && length == last - first + 1
              && (!partial ==> first == 0 && length == f.size)
  {
    hide ParseRange, FileStreamer.Init;
    var (first, last, partial) := ParseRange(header, f.size);
    WholeByDefault(header, f.size);
    if Handle(f, header).Content? {
      SliceOfSlice(f.content, f.offset, f.offset + f.size, first, last + 1);
    }
  }

  /** End to end: for any header that is not refused, an absent one included, and any arrival
      order of the pieces. What is sent is always a prefix of the announced bytes of the file, and a
      response that reports success has sent all of them. */
  lemma ContentIsServed(f: File, header: Option<string>, events: seq<Event>)
    requires var h := Handle(f, header);
             h.Content? && Legal(Announced(f, h.first, h.last), h.conn, events)
    ensures var h := Handle(f, header);
            var c := Run(h.conn, events);
            && Sent(c.writes) <= FileBytes(f)[h.first..h.last + 1]
            && (c.done == [false] ==> Sent(c.writes) == FileBytes(f)[h.first..h.last + 1])
            && (c.done == [false] && !h.partial ==> Sent(c.writes) == FileBytes(f))
  {
    hide ParseRange, Run, Legal, Open, Sent, Fits, FirstPiece, EndPiece;
    HandleOpens(f, header);
    var h := Handle(f, header);
    StreamsTheRange(Announced(f, h.first, h.last), events);
    assert FileBytes(f)[0..f.size] == FileBytes(f);
  }

  /** A well-formed range within the file, with spaces around it and perhaps an open end, is
      accepted and is served as it was meant. */
  lemma RangeIsServed(
    f: File, before: string, first: nat, last: Option<nat>, after: string, events: seq<Event>)
    requires forall i | 0 <= i < |before| :: IsSpace(before[i])
    requires forall i | 0 <= i < |after| :: IsSpace(after[i])
    requires f.size <= INT64_MAX
    requires var end := if last.None? then f.size - 1 else last.value;
             && first <= end < f.size
             && var h := Handle(f, Some(before + (BYTES + Dashed(first, last)) + after));
             h.Content? ==> Legal(Announced(f, first, end), h.conn, events)
    ensures var end := if last.None? then f.size - 1 else last.value;
            var h := Handle(f, Some(before + (BYTES + Dashed(first, last)) + after));
            && h.Content? && h.partial && h.length == end - first + 1
            && var c := Run(h.conn, events);
            && Sent(c.writes) <= FileBytes(f)[first..end + 1]
            && (c.done == [false] ==> Sent(c.writes) == FileBytes(f)[first..end + 1])
  {
    hide ParseRange, Dashed, Run, Legal, Open, Sent, Fits, FirstPiece, EndPiece;
    ParseRangeInverts(before, first, last, after, f.size);
    ContentIsServed(f, Some(before + (BYTES + Dashed(first, last)) + after), events);
  }
}
