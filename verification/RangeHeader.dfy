/** Which Range headers ask for what, as a condition on the header's text, and what every request
    gets: src/file_downloader.cpp, parse_range and handle_http. */
module RangeHeader {
  import opened Basics
  import opened FileRange
  import opened FileStreamer
  import opened Numbers
  import opened StreamerRuns

  // ---------------------------------------------------------------- what a header asks for

  ghost predicate Blank(s: string) {
    forall i | 0 <= i < |s| :: s[i] == ' ' || s[i] == '\t'
  }

  /** The numbers of 64 bits. */
  predicate Fits64(v: int) {
    -0x8000_0000_0000_0000 <= v < 0x8000_0000_0000_0000
  }

  /** What may stand behind the first byte: a dash and the last byte, or just the dash, or nothing. */
  ghost predicate Tail(t: string, last: Option<int>) {
    match last
    case None => t == "" || t == "-"
    case Some(v) => t != "" && t[0] == '-' && Denotes(t[1..], v) && Fits64(v)
  }

  /** A first byte without a sign, and its tail. */
  ghost predicate Bounds(s: string, first: nat, last: Option<int>) {
    Fits64(first) && exists zeros, t :: s == Written(false, zeros, first) + t && Tail(t, last)
  }

  ghost predicate Pads(header: string, before: string, s: string, after: string) {
    Blank(before) && Blank(after) && header == before + s + after
  }

  /** The header asks for the bytes from `first` to `last`, or to the end. */
  ghost predicate Asks(header: string, first: nat, last: Option<int>) {
    exists before, s, after :: Pads(header, before, "bytes=" + s, after) && Bounds(s, first, last)
  }

  ghost predicate AsksForPart(header: Option<string>) {
    header.Some? && exists first: nat, last: Option<int> :: Asks(header.value, first, last)
  }

  // ---------------------------------------------------------------- the header, both ways

  lemma {:induction false} SplitHead(a: string, t: string, delimiter: char)
    requires delimiter !in a && (t == "" || t[0] == delimiter)
    ensures Split(a + t, delimiter) == (a, if t == "" then "" else t[1..])
    decreases |a|
  {
    if a == "" {
      assert a + t == t;
    } else {
      assert (a + t)[1..] == a[1..] + t && a == [a[0]] + a[1..];
      SplitHead(a[1..], t, delimiter);
    }
  }

  lemma {:induction false} SplitParts(s: string, delimiter: char)
    ensures var (a, b) := Split(s, delimiter);
            delimiter !in a && (s == a + ([delimiter] + b) || (s == a && b == ""))
    decreases |s|
  {
    if s != "" && s[0] != delimiter {
      assert s == [s[0]] + s[1..];
      SplitParts(s[1..], delimiter);
    }
  }

  lemma PlainIs(zeros: nat, first: nat)
    ensures var p := Written(false, zeros, first); p != "" && '-' !in p && !IsSpace(p[|p| - 1])
  {
    hide Decimal;
    var p := Written(false, zeros, first);
    forall i | 0 <= i < |p| ensures IsDigit(p[i]) {
      if i >= zeros {
        assert IsDigit(Decimal(first)[i - zeros]);
      }
    }
    assert IsDigit(p[|p| - 1]);
  }

  lemma DenotesLast(s: string, v: int)
    requires Denotes(s, v)
    ensures s != "" && !IsSpace(s[|s| - 1])
  {
    hide Decimal;
    var negative, zeros, n: nat :| s == Written(negative, zeros, n) && v == (if negative then 0 - n else n);
    assert IsDigit(Decimal(n)[|Decimal(n)| - 1]);
  }

  /** What the reader makes of the text behind `bytes=`. */
  lemma BoundsRead(s: string, first: nat, last: Option<int>)
    requires Bounds(s, first, last)
    ensures var (a, b) := Split(s, '-');
            && FromChars(a) == Some(first)
            && (if last.None? then b == "" else b != "" && FromChars(b) == last)
    ensures s != "" && !IsSpace(s[|s| - 1])
  {
    hide FromChars, Split, Written, Denotes;
    var zeros, t :| s == Written(false, zeros, first) + t && Tail(t, last);
    PlainIs(zeros, first);
    WrittenDenotes(zeros, first);
    FromCharsIff(Written(false, zeros, first), first);
    SplitHead(Written(false, zeros, first), t, '-');
    if last.Some? {
      FromCharsIff(t[1..], last.value);
      DenotesLast(t[1..], last.value);
    }
  }

  lemma WrittenDenotes(zeros: nat, n: nat)
    ensures Denotes(Written(false, zeros, n), n)
  {
  }

  /** And nothing else is read as bounds. */
  lemma ReadIsBounds(s: string)
    requires var (a, b) := Split(s, '-'); FromChars(a).Some? && (b == "" || FromChars(b).Some?)
    ensures var (a, b) := Split(s, '-');
            0 <= FromChars(a).value && Bounds(s, FromChars(a).value, if b == "" then None else FromChars(b))
  {
    hide FromChars, Split, Written, Denotes;
    var (a, b) := Split(s, '-');
    SplitParts(s, '-');
    var first := FromChars(a).value;
    FromCharsIff(a, first);
    var zeros := Unsigned(a, first);
    var t := s[|a|..];
    assert s == a + t;
    if b != "" {
      FromCharsIff(b, FromChars(b).value);
      assert t[1..] == b;
    }
    assert Tail(t, if b == "" then None else FromChars(b));
  }

  lemma HasSign(zeros: nat, n: nat)
    ensures '-' in Written(true, zeros, n)
  {
    assert Written(true, zeros, n)[0] == '-';
  }

  lemma Unsigned(a: string, v: int) returns (zeros: nat)
    requires Denotes(a, v) && '-' !in a
    ensures 0 <= v && a == Written(false, zeros, v)
  {
    var negative, k, n: nat :| a == Written(negative, k, n) && v == (if negative then 0 - n else n);
    HasSign(k, n);
    zeros := k;
  }

  lemma {:induction false} TrimFrontParts(s: string) returns (before: string)
    ensures Blank(before) && s == before + TrimFront(s)
    decreases |s|
  {
    if s != "" && IsSpace(s[0]) {
      var more := TrimFrontParts(s[1..]);
      before := [s[0]] + more;
    } else {
      before := "";
    }
  }

  lemma {:induction false} TrimBackParts(s: string) returns (after: string)
    ensures Blank(after) && s == TrimBack(s) + after
    decreases |s|
  {
    if s != "" && IsSpace(s[|s| - 1]) {
      var more := TrimBackParts(s[..|s| - 1]);
      after := more + [s[|s| - 1]];
    } else {
      after := "";
    }
  }

  lemma TrimParts(s: string) returns (before: string, after: string)
    ensures Pads(s, before, Trim(s), after)
  {
    before := TrimFrontParts(s);
    after := TrimBackParts(TrimFront(s));
  }

  lemma TrimPads(header: string, before: string, s: string, after: string)
    requires Pads(header, before, s, after) && s != "" && !IsSpace(s[0]) && !IsSpace(s[|s| - 1])
    ensures Trim(header) == s
  {
    TrimFrontSpaces(before, s + after);
    assert before + s + after == before + (s + after);
    TrimBackSpaces(s, after);
  }

  /** A header that asks for a part is read as the part it asks for. */
  lemma AskedIsRead(header: string, first: nat, last: Option<int>, fileSize: int)
    requires Asks(header, first, last)
    ensures ParseRange(Some(header), fileSize) == (first, if last.None? then fileSize - 1 else last.value, true)
  {
    hide FromChars, Split, Trim, Bounds;
    var before, s, after :| Pads(header, before, "bytes=" + s, after) && Bounds(s, first, last);
    BoundsRead(s, first, last);
    TrimPads(header, before, "bytes=" + s, after);
    assert ("bytes=" + s)[|BYTES|..] == s;
  }

  /** A header is read as a part exactly when it asks for one. */
  lemma ReadIffAsked(header: Option<string>, fileSize: int)
    ensures ParseRange(header, fileSize).2 <==> AsksForPart(header)
  {
    hide FromChars, Split, Trim, Bounds, Asks;
    if header.Some? {
      if ParseRange(header, fileSize).2 {
        var t := Trim(header.value);
        var s := t[|BYTES|..];
        assert t == "bytes=" + s;
        var before, after := TrimParts(header.value);
        ReadIsBounds(s);
        var (a, b) := Split(s, '-');
        AsksOf(header.value, before, s, after, FromChars(a).value, if b == "" then None else FromChars(b));
      }
      if AsksForPart(header) {
        var first: nat, last: Option<int> :| Asks(header.value, first, last);
        AskedIsRead(header.value, first, last, fileSize);
      }
    }
  }

  lemma AsksOf(header: string, before: string, s: string, after: string, first: nat, last: Option<int>)
    requires Pads(header, before, "bytes=" + s, after) && Bounds(s, first, last)
    ensures Asks(header, first, last)
  {
  }

  // ---------------------------------------------------------------- every request

  /** A request that does not ask for a part of the file, because it has no Range header or one with
      another form, gets all of it: the response announces the whole file, and one that reports
      success has sent exactly that. */
  lemma WholeFileOtherwise(f: File, header: Option<string>, events: seq<Event>)
    requires !AsksForPart(header)
    ensures var h := Handle(f, header);
            && h.Content? && !h.partial && h.first == 0 && h.length == f.size
            && (Legal(Announced(f, 0, f.size - 1), h.conn, events) ==>
                  && Sent(Run(h.conn, events).writes) <= FileBytes(f)
                  && (Run(h.conn, events).done == [false] ==> Sent(Run(h.conn, events).writes) == FileBytes(f)))
  {
    hide ParseRange, AsksForPart, Run, Legal, Sent;
    ReadIffAsked(header, f.size);
    HandleOpens(f, header);
    var h := Handle(f, header);
    if Legal(Announced(f, 0, f.size - 1), h.conn, events) {
      ContentIsServed(f, header, events);
      assert FileBytes(f)[0..f.size] == FileBytes(f);
    }
  }

  /** A request that asks for a part gets exactly that part if it lies in the file, and is refused
      if it does not. */
  lemma PartIffInFile(f: File, header: string, first: nat, last: Option<int>, events: seq<Event>)
    requires Asks(header, first, last)
    ensures var end := if last.None? then f.size - 1 else last.value;
            var h := Handle(f, Some(header));
            if !(first <= end < f.size) then h == NotSatisfiable
            else
              && h.Content? && h.partial && h.first == first && h.last == end && h.length == end - first + 1
              && (Legal(Announced(f, first, end), h.conn, events) ==>
                    && Sent(Run(h.conn, events).writes) <= FileBytes(f)[first..end + 1]
                    && (Run(h.conn, events).done == [false] ==>
                          Sent(Run(h.conn, events).writes) == FileBytes(f)[first..end + 1]))
  {
    hide ParseRange, Asks, Run, Legal, Sent, FileStreamer.Init;
    AskedIsRead(header, first, last, f.size);
    var end := if last.None? then f.size - 1 else last.value;
    var h := Handle(f, Some(header));
    if first <= end < f.size && Legal(Announced(f, first, end), h.conn, events) {
      ContentIsServed(f, Some(header), events);
    }
  }
}
