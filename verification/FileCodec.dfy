/** The response to get-file-updates: src/libtorrent_webui.cpp writes it, bt/libtorrent-webui.js
    reads it. */
module FileCodec {
  import opened Basics
  import opened Bytes
  import opened Collections

  const NUM_FIELDS := 6

  /** Fields of a file, in protocol order: flags, name, size, progress, priority, open mode. */
  datatype Value = Num(n: int) | Text(bytes: seq<Byte>)

  predicate IsInfo(s: seq<Value>) {
    |s| == NUM_FIELDS && s[1].Text? && forall f | 0 <= f < NUM_FIELDS && f != 1 :: s[f].Num?
  }

  type Info = s: seq<Value> | IsInfo(s) witness [Num(0), Text([]), Num(0), Num(0), Num(0), Num(0)]

  type Mask = m: seq<bool> | |m| == NUM_FIELDS witness seq(NUM_FIELDS, _ => false)

  /** The object the client builds for a file: a property for each field that was sent. */
  type File = s: seq<Option<Value>> | |s| == NUM_FIELDS witness seq(NUM_FIELDS, _ => None)

  function EmptyFile(): File {
    seq(NUM_FIELDS, _ => None)
  }

  predicate Any(m: Mask) {
    m[0] || m[1] || m[2] || m[3] || m[4] || m[5]
  }

  const MAX_NAME := 65535

  function Cut(name: seq<Byte>): (r: seq<Byte>)
    ensures |r| <= MAX_NAME
  {
    if |name| > MAX_NAME then name[..MAX_NAME] else name
  }

  const EXACT := 0x20_0000_0000_0000

  /** Byte counts a JavaScript number holds exactly. */
  predicate Exact(info: Info) {
    0 <= info[2].n < EXACT && 0 <= info[3].n < EXACT
  }

  ghost predicate AllExact(infos: seq<Info>) {
    forall j | 0 <= j < |infos| :: Exact(infos[j])
  }

  lemma ExactAt(infos: seq<Info>, i: nat)
    requires AllExact(infos) && i < |infos|
    ensures Exact(infos[i])
  {
  }

  /** A field as it comes out at the other end: one-byte fields lose their high bits, long names their tail. */
  function Wire(f: nat, v: Value): Value {
    if v.Text? then Text(Cut(v.bytes)) else if f == 2 || f == 3 then v else Num(v.n % 256)
  }

  /** What the client should see of a file under a mask. */
  function Expected(m: Mask, info: Info): File {
    seq(NUM_FIELDS, f requires 0 <= f < NUM_FIELDS => if m[f] then Some(Wire(f, info[f])) else None)
  }

  // ---------------------------------------------------------------- the bytes of a response

  function NameBytes(name: seq<Byte>): seq<Byte> {
    U16(|Cut(name)|) + Cut(name)
  }

  function FieldBytes(info: Info, f: nat): seq<Byte>
    requires f < NUM_FIELDS
  {
    if f == 1 then NameBytes(info[1].bytes)
    else if f == 2 || f == 3 then U64(info[f].n)
    else U8(info[f].n)
  }

  function FieldsFrom(m: Mask, info: Info, f: nat): seq<Byte>
    decreases NUM_FIELDS - f
  {
    if f >= NUM_FIELDS then []
    else (if m[f] then FieldBytes(info, f) else []) + FieldsFrom(m, info, f + 1)
  }

  function FileBytes(m: Mask, info: Info): seq<Byte> {
    if Any(m) then U16(BitsValue(m)) + FieldsFrom(m, info, 0) else []
  }

  /** Which of the eight files from i on have an update; the highest bit is file i. */
  function Presence(masks: seq<Mask>, i: nat): (r: seq<bool>)
    ensures |r| == 8
  {
    seq(8, b requires 0 <= b < 8 => i + 7 - b < |masks| && Any(masks[i + 7 - b]))
  }

  function PresencePart(masks: seq<Mask>, i: nat): seq<Byte> {
    if i % 8 == 0 then U8(BitsValue(Presence(masks, i))) else []
  }

  function BytesFrom(masks: seq<Mask>, infos: seq<Info>, i: nat): seq<Byte>
    requires |masks| == |infos|
    decreases |masks| - i
  {
    if i >= |masks| then []
    else
      PresencePart(masks, i) + FileBytes(masks[i], infos[i]) + BytesFrom(masks, infos, i + 1)
  }

  function Response(header: seq<Byte>, frame: int, masks: seq<Mask>, infos: seq<Info>): seq<Byte>
    requires |masks| == |infos|
  {
    header + U32(frame) + U32(|masks|) + BytesFrom(masks, infos, 0)
  }

  // ---------------------------------------------------------------- reading them

  function ReadName(s: seq<Byte>): Read<seq<Byte>> {
    var n := ReadU16(s);
    if n.Short? then Short else ReadBytes(n.rest, n.value)
  }

  function ReadField(f: nat, s: seq<Byte>): Read<Value> {
    if f == 1 then
      var name := ReadName(s);
      if name.Short? then Short else Got(Text(name.value), name.rest)
    else
      var n := if f == 2 || f == 3 then ReadU64(s) else ReadU8(s);
      if n.Short? then Short else Got(Num(n.value), n.rest)
  }

  /** The loop over the sixteen bits of a file's mask; unknown fields are skipped. */
  function ReadFields(mask: nat, f: nat, s: seq<Byte>, file: File): Read<File>
    decreases 16 - f
  {
    if f >= 16 then Got(file, s)
    else if !Bit(mask, f) || f >= NUM_FIELDS then ReadFields(mask, f + 1, s, file)
    else
      var v := ReadField(f, s);
      if v.Short? then Short else ReadFields(mask, f + 1, v.rest, file[f := Some(v.value)])
  }

  function ReadFile(s: seq<Byte>): Read<File> {
    var mask := ReadU16(s);
    if mask.Short? then Short else ReadFields(mask.value, 0, mask.rest, EmptyFile())
  }

  function ReadPresence(s: seq<Byte>, i: nat, presence: nat): Read<nat> {
    if i % 8 == 0 then ReadU8(s) else Got(presence, s)
  }

  function ReadFrom(s: seq<Byte>, i: nat, n: nat, presence: nat): Read<seq<File>>
    decreases n - i
  {
    if i >= n then Got([], s)
    else
      var p := ReadPresence(s, i, presence);
      if p.Short? then Short
      else
        var file := if Bit(p.value, 7 - i % 8) then ReadFile(p.rest) else Got(EmptyFile(), p.rest);
        if file.Short? then Short
        else
          var rest := ReadFrom(file.rest, i + 1, n, p.value);
          if rest.Short? then Short else Got([file.value] + rest.value, rest.rest)
  }

  datatype Answer = Answer(frame: nat, files: seq<File>)

  function ReadBody(s: seq<Byte>): Read<Answer> {
    var frame := ReadU32(s);
    if frame.Short? then Short
    else
      var n := ReadU32(frame.rest);
      if n.Short? then Short
      else
        var files := ReadFrom(n.rest, 0, n.value, 0);
        if files.Short? then Short else Got(Answer(frame.value, files.value), files.rest)
  }

  function ReadResponse(view: seq<Byte>): Read<Answer> {
    if |view| < 4 then Short else ReadBody(view[4..])
  }

  // ---------------------------------------------------------------- round trip

  lemma FieldInverts(info: Info, f: nat, rest: seq<Byte>)
    requires f < NUM_FIELDS && Exact(info)
    ensures ReadField(f, FieldBytes(info, f) + rest) == Got(Wire(f, info[f]), rest)
  {
    hide U8, U16, U64, ReadU8, ReadU16, ReadU64, ReadBytes, Cut;
    if f == 1 {
      var name := Cut(info[1].bytes);
      assert U16(|name|) + name + rest == U16(|name|) + (name + rest);
      ReadU16Inverts(|name|, name + rest);
      ReadBytesInverts(name, rest);
    } else if f == 2 || f == 3 {
      ReadU64Inverts(info[f].n, rest);
    } else {
      SameByte(info[f].n);
      ReadU8Inverts(info[f].n % 256, rest);
    }
  }

  lemma SameByte(n: int)
    ensures U8(n) == U8(n % 256)
  {
  }

  /** The fields before f have been read. */
  function Half(m: Mask, info: Info, f: nat): File {
    seq(NUM_FIELDS, g requires 0 <= g < NUM_FIELDS => if g < f && m[g] then Some(Wire(g, info[g])) else None)
  }

  lemma {:induction false} FieldsInvert(m: Mask, info: Info, f: nat, rest: seq<Byte>)
    requires Exact(info) && f <= NUM_FIELDS
    ensures ReadFields(BitsValue(m), f, FieldsFrom(m, info, f) + rest, Half(m, info, f)) == Got(Expected(m, info), rest)
    decreases NUM_FIELDS - f
  {
    hide BitsValue, Bit, FieldBytes, ReadField, Half, Expected, FieldsFrom, IsInfo;
    if f == NUM_FIELDS {
      NoFieldsLeft(m, info);
      NilLeft(rest);
      HalfIsWhole(m, info);
      UnknownFields(BitsValue(m), f, rest, Expected(m, info));
    } else {
      var more := FieldsFrom(m, info, f + 1) + rest;
      BitOf(m, f);
      HalfStep(m, info, f);
      FieldsParts(m, info, f, rest);
      FieldsInvert(m, info, f + 1, rest);
      if m[f] {
        FieldInverts(info, f, more);
      }
    }
  }

  lemma FieldsParts(m: Mask, info: Info, f: nat, rest: seq<Byte>)
    requires f < NUM_FIELDS
    ensures FieldsFrom(m, info, f) + rest
         == if m[f] then FieldBytes(info, f) + (FieldsFrom(m, info, f + 1) + rest)
            else FieldsFrom(m, info, f + 1) + rest
  {
    hide FieldBytes;
    Assoc(FieldBytes(info, f), FieldsFrom(m, info, f + 1), rest);
    NilLeft(FieldsFrom(m, info, f + 1));
  }

  lemma HalfStep(m: Mask, info: Info, f: nat)
    requires f < NUM_FIELDS
    ensures Half(m, info, f + 1) == if m[f] then Half(m, info, f)[f := Some(Wire(f, info[f]))] else Half(m, info, f)
  {
    hide Wire;
  }

  lemma HalfIsWhole(m: Mask, info: Info)
    ensures Half(m, info, NUM_FIELDS) == Expected(m, info)
  {
    hide Wire;
  }

  lemma {:induction false} UnknownFields(mask: nat, f: nat, s: seq<Byte>, file: File)
    requires NUM_FIELDS <= f
    ensures ReadFields(mask, f, s, file) == Got(file, s)
    decreases 16 - f
  {
    if f < 16 {
      UnknownFields(mask, f + 1, s, file);
    }
  }

  lemma FileInverts(m: Mask, info: Info, rest: seq<Byte>)
    requires Exact(info) && Any(m)
    ensures ReadFile(FileBytes(m, info) + rest) == Got(Expected(m, info), rest)
  {
    hide U16, ReadU16, FieldsFrom, ReadFields, BitsValue;
    MaskBound(m);
    assert FileBytes(m, info) + rest == U16(BitsValue(m)) + (FieldsFrom(m, info, 0) + rest);
    ReadU16Inverts(BitsValue(m), FieldsFrom(m, info, 0) + rest);
    assert EmptyFile() == Half(m, info, 0);
    FieldsInvert(m, info, 0, rest);
  }

  lemma MaskBound(m: Mask)
    ensures BitsValue(m) < 0x1_0000
  {
    BitsBound(m);
    assert Pow2(6) == 64;
  }

  lemma PresenceBound(masks: seq<Mask>, i: nat)
    ensures BitsValue(Presence(masks, i)) < 256
  {
    BitsBound(Presence(masks, i));
    assert Pow2(8) == 256;
  }

  lemma PresenceAt(masks: seq<Mask>, i: nat)
    requires i < |masks|
    ensures Bit(BitsValue(Presence(masks, i - i % 8)), 7 - i % 8) <==> Any(masks[i])
  {
    BitOf(Presence(masks, i - i % 8), 7 - i % 8);
  }

  /** What the client should see of all files from i on. */
  ghost function AllExpected(masks: seq<Mask>, infos: seq<Info>, i: nat): (r: seq<File>)
    requires |masks| == |infos| && i <= |masks|
    ensures |r| == |masks| - i
    decreases |masks| - i
  {
    if i == |masks| then [] else [Expected(masks[i], infos[i])] + AllExpected(masks, infos, i + 1)
  }

  lemma {:induction false} AllExpectedAt(masks: seq<Mask>, infos: seq<Info>, i: nat, j: nat)
    requires |masks| == |infos| && i <= j < |masks|
    ensures AllExpected(masks, infos, i)[j - i] == Expected(masks[j], infos[j])
    decreases j - i
  {
    if i < j {
      AllExpectedAt(masks, infos, i + 1, j);
    }
  }

  lemma NothingExpected(m: Mask, info: Info)
    requires !Any(m)
    ensures Expected(m, info) == EmptyFile() && FileBytes(m, info) == []
  {
  }

  lemma PresenceInverts(masks: seq<Mask>, i: nat, presence: nat, rest: seq<Byte>)
    requires i < |masks|
    requires i % 8 != 0 ==> presence == BitsValue(Presence(masks, i - i % 8))
    ensures ReadPresence(PresencePart(masks, i) + rest, i, presence)
         == Got(BitsValue(Presence(masks, i - i % 8)), rest)
  {
    hide BitsValue, Presence, U8, ReadU8;
    if i % 8 == 0 {
      PresenceBound(masks, i);
      ReadU8Inverts(BitsValue(Presence(masks, i)), rest);
    } else {
      assert [] + rest == rest;
    }
  }

  lemma OneInverts(masks: seq<Mask>, infos: seq<Info>, i: nat, rest: seq<Byte>)
    requires |masks| == |infos| && i < |masks| && Exact(infos[i])
    ensures (if Bit(BitsValue(Presence(masks, i - i % 8)), 7 - i % 8)
               then ReadFile(FileBytes(masks[i], infos[i]) + rest)
             else Got(EmptyFile(), FileBytes(masks[i], infos[i]) + rest))
         == Got(Expected(masks[i], infos[i]), rest)
  {
    hide BitsValue, Bit, FileBytes, ReadFile, Expected, Presence, Any, EmptyFile;
    PresenceAt(masks, i);
    if Any(masks[i]) {
      FileInverts(masks[i], infos[i], rest);
    } else {
      NothingExpected(masks[i], infos[i]);
      assert [] + rest == rest;
    }
  }

  lemma BytesParts(masks: seq<Mask>, infos: seq<Info>, i: nat, rest: seq<Byte>)
    requires |masks| == |infos| && i < |masks|
    ensures BytesFrom(masks, infos, i) + rest
         == PresencePart(masks, i) + (FileBytes(masks[i], infos[i]) + (BytesFrom(masks, infos, i + 1) + rest))
  {
    hide FileBytes, PresencePart;
    var a, b, c := PresencePart(masks, i), FileBytes(masks[i], infos[i]), BytesFrom(masks, infos, i + 1);
    Assoc(a + b, c, rest);
    Assoc(a, b, c + rest);
  }

  lemma {:induction false} FilesInvert(masks: seq<Mask>, infos: seq<Info>, i: nat, presence: nat, rest: seq<Byte>)
    requires |masks| == |infos| && i <= |masks| && AllExact(infos)
    requires i % 8 != 0 ==> presence == BitsValue(Presence(masks, i - i % 8))
    ensures ReadFrom(BytesFrom(masks, infos, i) + rest, i, |masks|, presence) == Got(AllExpected(masks, infos, i), rest)
    decreases |masks| - i
  {
    hide BitsValue, Bit, FileBytes, ReadFile, Expected, Presence, BytesFrom, PresencePart, ReadPresence, EmptyFile,
         AllExact, IsInfo;
    if i == |masks| {
      NoBytesLeft(masks, infos);
      NilLeft(rest);
    } else {
      var p := BitsValue(Presence(masks, i - i % 8));
      var more := BytesFrom(masks, infos, i + 1) + rest;
      SameEight(i);
      FilesInvert(masks, infos, i + 1, p, rest);
      BytesParts(masks, infos, i, rest);
      PresenceInverts(masks, i, presence, FileBytes(masks[i], infos[i]) + more);
      ExactAt(infos, i);
      OneInverts(masks, infos, i, more);
    }
  }

  lemma SameEight(i: nat)
    ensures (i + 1) % 8 != 0 ==> i + 1 - (i + 1) % 8 == i - i % 8
  {
  }

  lemma NoBytesLeft(masks: seq<Mask>, infos: seq<Info>)
    requires |masks| == |infos|
    ensures BytesFrom(masks, infos, |masks|) == []
  {
  }

  lemma BehindHeader(header: seq<Byte>, a: seq<Byte>, b: seq<Byte>, c: seq<Byte>)
    ensures (header + a + b + c)[|header|..] == a + (b + c)
  {
    Assoc(header, a, b);
    Assoc(header, a + b, c);
    Assoc(a, b, c);
    DropFront(header, a + (b + c));
  }

  lemma FilesOnly(masks: seq<Mask>, infos: seq<Info>)
    requires |masks| == |infos| && AllExact(infos)
    ensures ReadFrom(BytesFrom(masks, infos, 0), 0, |masks|, 0) == Got(AllExpected(masks, infos, 0), [])
  {
    hide BytesFrom, ReadFrom, AllExpected, AllExact, BitsValue, Presence, IsInfo;
    FilesInvert(masks, infos, 0, 0, []);
    NilRight(BytesFrom(masks, infos, 0));
  }

  lemma BodyInverts(frame: int, n: int, body: seq<Byte>, files: seq<File>)
    requires 0 <= frame < 0x1_0000_0000 && 0 <= n < 0x1_0000_0000 && ReadFrom(body, 0, n, 0) == Got(files, [])
    ensures ReadBody(U32(frame) + (U32(n) + body)) == Got(Answer(frame, files), [])
  {
    hide U32, ReadU32, ReadFrom;
    ReadU32Inverts(frame, U32(n) + body);
    ReadU32Inverts(n, body);
  }

  /** The round trip: for any number of files under any masks the client reads back exactly the
      fields that were sent, and has then read every byte. */
  lemma ResponseInverts(header: seq<Byte>, frame: int, masks: seq<Mask>, infos: seq<Info>)
    requires |header| == 4 && 0 <= frame < 0x1_0000_0000
    requires |masks| == |infos| < 0x1_0000_0000 && AllExact(infos)
    ensures ReadResponse(Response(header, frame, masks, infos)) == Got(Answer(frame, AllExpected(masks, infos, 0)), [])
  {
    hide U32, ReadBody, BytesFrom, ReadFrom, AllExpected, AllExact, IsInfo;
    FilesOnly(masks, infos);
    BehindHeader(header, U32(frame), U32(|masks|), BytesFrom(masks, infos, 0));
    BodyInverts(frame, |masks|, BytesFrom(masks, infos, 0), AllExpected(masks, infos, 0));
  }

  // ---------------------------------------------------------------- nothing is lost

  /** One-byte fields, byte counts that a JavaScript number holds, and a name whose length fits
      sixteen bits. */
  predicate Transferable(info: Info) {
    && 0 <= info[0].n < 256 && 0 <= info[4].n < 256 && 0 <= info[5].n < 256
    && 0 <= info[2].n < 0x20_0000_0000_0000 && 0 <= info[3].n < 0x20_0000_0000_0000
    && |info[1].bytes| <= 65535
  }

  /** Without loss: files whose fields are in these ranges arrive with each field of their mask as it
      is on the server, and with no other. */
  lemma ResponseIsLossless(header: seq<Byte>, frame: int, masks: seq<Mask>, infos: seq<Info>, i: nat, f: nat)
    requires |header| == 4 && 0 <= frame < 0x1_0000_0000
    requires i < |masks| == |infos| < 0x1_0000_0000 && f < 6
    requires forall j | 0 <= j < |infos| :: Transferable(infos[j])
    ensures var r := ReadResponse(Response(header, frame, masks, infos));
            && r.Got? && r.rest == [] && r.value.frame == frame && |r.value.files| == |masks|
            && r.value.files[i][f] == if masks[i][f] then Some(infos[i][f]) else None
  {
    hide ReadResponse, Response, AllExpected;
    forall j | 0 <= j < |infos| ensures Exact(infos[j]) {
      assert Transferable(infos[j]);
    }
    ResponseInverts(header, frame, masks, infos);
    AllExpectedAt(masks, infos, 0, i);
    assert Transferable(infos[i]);
  }

  /** How many bytes each field takes. */
  lemma FieldWidths(info: Info, f: nat)
    requires Transferable(info) && f < 6
    ensures |FieldBytes(info, f)| == if f == 1 then 2 + |info[1].bytes| else if f in {2, 3} then 8 else 1
  {
    hide U8, U16, U64;
  }

  // ---------------------------------------------------------------- the writer and the reader

  /** One field after the other: what has been written and what is still to come make the whole. */
  lemma FieldStep(r: seq<Byte>, m: Mask, info: Info, f: nat, whole: seq<Byte>)
    requires f < NUM_FIELDS && r + FieldsFrom(m, info, f) == whole
    ensures (if m[f] then r + FieldBytes(info, f) else r) + FieldsFrom(m, info, f + 1) == whole
  {
    hide FieldBytes;
    if m[f] {
      assert r + (FieldBytes(info, f) + FieldsFrom(m, info, f + 1))
         == r + FieldBytes(info, f) + FieldsFrom(m, info, f + 1);
    } else {
      assert [] + FieldsFrom(m, info, f + 1) == FieldsFrom(m, info, f + 1);
    }
  }

  /** The fields of one file, appended to the response. */
  method WriteFields(response: seq<Byte>, m: Mask, info: Info) returns (r: seq<Byte>)
    ensures r == response + FieldsFrom(m, info, 0)
  {
    hide U8, U16, U64, FieldsFrom, FieldBytes;
    ghost var whole := response + FieldsFrom(m, info, 0);
    BytesOfFields(info);
    r := response;
    FieldStep(r, m, info, 0, whole);
    if m[0] { r := r + U8(info[0].n); }
    FieldStep(r, m, info, 1, whole);
    if m[1] { r := WriteName(r, info[1].bytes); }
    FieldStep(r, m, info, 2, whole);
    if m[2] { r := r + U64(info[2].n); }
    FieldStep(r, m, info, 3, whole);
    if m[3] { r := r + U64(info[3].n); }
    FieldStep(r, m, info, 4, whole);
    if m[4] { r := r + U8(info[4].n); }
    FieldStep(r, m, info, 5, whole);
    if m[5] { r := r + U8(info[5].n); }
    NoFieldsLeft(m, info);
    assert r + [] == r;
  }

  lemma NoFieldsLeft(m: Mask, info: Info)
    ensures FieldsFrom(m, info, NUM_FIELDS) == []
  {
  }

  lemma BytesOfFields(info: Info)
    ensures FieldBytes(info, 0) == U8(info[0].n)
    ensures FieldBytes(info, 1) == NameBytes(info[1].bytes)
    ensures FieldBytes(info, 2) == U64(info[2].n) && FieldBytes(info, 3) == U64(info[3].n)
    ensures FieldBytes(info, 4) == U8(info[4].n) && FieldBytes(info, 5) == U8(info[5].n)
  {
  }

  method WriteName(response: seq<Byte>, path: seq<Byte>) returns (r: seq<Byte>)
    ensures r == response + NameBytes(path)
  {
    hide U16;
    var name := path;
    if |name| > MAX_NAME {
      name := name[..MAX_NAME];
    }
    r := response + U16(|name|);
    r := r + name;
    assert r == response + (U16(|name|) + name);
  }

  function PresenceUpTo(masks: seq<Mask>, i: nat, k: nat): (r: seq<bool>)
    ensures |r| == 8
  {
    seq(8, b requires 0 <= b < 8 => 7 - b < k && i + 7 - b < |masks| && Any(masks[i + 7 - b]))
  }

  /** The presence byte of the eight files from i on. */
  method PresenceByte(masks: seq<Mask>, i: nat) returns (presence: nat)
    requires i < |masks|
    ensures presence == BitsValue(Presence(masks, i))
  {
    hide BitsValue, Bit, SetBit, Any;
    var remaining := |masks| - i;
    var chunk := if remaining < 8 then remaining else 8;
    presence := 0;
    NoBits(PresenceUpTo(masks, i, 0));
    for k := 0 to chunk
      invariant presence == BitsValue(PresenceUpTo(masks, i, k))
    {
      var bits := PresenceUpTo(masks, i, k);
      if Any(masks[i + k]) {
        SetBitOf(bits, 7 - k);
        presence := SetBit(presence, 7 - k);
        assert PresenceUpTo(masks, i, k + 1) == bits[7 - k := true];
      } else {
        assert PresenceUpTo(masks, i, k + 1) == bits;
      }
    }
    assert PresenceUpTo(masks, i, chunk) == Presence(masks, i);
  }

  method Write(header: seq<Byte>, frame: int, masks: seq<Mask>, infos: seq<Info>) returns (response: seq<Byte>)
    requires |masks| == |infos|
    ensures response == Response(header, frame, masks, infos)
  {
    hide U32, PresencePart, FileBytes, BytesFrom;
    response := header;
    response := response + U32(frame);
    response := response + U32(|masks|);
    ghost var whole := Response(header, frame, masks, infos);
    for i := 0 to |masks|
      invariant response + BytesFrom(masks, infos, i) == whole
    {
      BytesStep(response, masks, infos, i);
      response := WriteFile(response, masks, infos, i);
    }
    NoBytesLeft(masks, infos);
    assert response + [] == response;
  }

  /** One turn of the loop over the files. */
  method WriteFile(response: seq<Byte>, masks: seq<Mask>, infos: seq<Info>, i: nat) returns (r: seq<Byte>)
    requires |masks| == |infos| && i < |masks|
    ensures r == response + PresencePart(masks, i) + FileBytes(masks[i], infos[i])
  {
    hide U8, U16, BitsValue, Presence, FieldsFrom, Any;
    r := response;
    if i % 8 == 0 {
      var presence := PresenceByte(masks, i);
      r := r + U8(presence);
    }
    assert r == response + PresencePart(masks, i);
    if Any(masks[i]) {
      ghost var before := r;
      r := r + U16(BitsValue(masks[i]));
      r := WriteFields(r, masks[i], infos[i]);
      assert r == before + (U16(BitsValue(masks[i])) + FieldsFrom(masks[i], infos[i], 0));
    }
  }

  lemma BytesStep(response: seq<Byte>, masks: seq<Mask>, infos: seq<Info>, i: nat)
    requires |masks| == |infos| && i < |masks|
    ensures response + BytesFrom(masks, infos, i)
         == response + PresencePart(masks, i) + FileBytes(masks[i], infos[i]) + BytesFrom(masks, infos, i + 1)
  {
    hide FileBytes, PresencePart;
    var a, b, c := PresencePart(masks, i), FileBytes(masks[i], infos[i]), BytesFrom(masks, infos, i + 1);
    Assoc(response, a + b, c);
    Assoc(response, a, b);
  }

  function Prepend(files: seq<File>, r: Read<seq<File>>): Read<seq<File>> {
    if r.Short? then Short else Got(files + r.value, r.rest)
  }

  lemma PrependNothing(r: Read<seq<File>>)
    ensures Prepend([], r) == r
  {
    if r.Got? {
      assert [] + r.value == r.value;
    }
  }

  lemma PrependStep(files: seq<File>, s: seq<Byte>, i: nat, n: nat, presence: nat)
    requires i < n
    ensures var p := ReadPresence(s, i, presence);
            var all := Prepend(files, ReadFrom(s, i, n, presence));
            if p.Short? then all == Short
            else
              var file := if Bit(p.value, 7 - i % 8) then ReadFile(p.rest) else Got(EmptyFile(), p.rest);
              if file.Short? then all == Short
              else all == Prepend(files + [file.value], ReadFrom(file.rest, i + 1, n, p.value))
  {
    hide Bit, ReadFile, ReadPresence;
    var p := ReadPresence(s, i, presence);
    if p.Got? {
      var file := if Bit(p.value, 7 - i % 8) then ReadFile(p.rest) else Got(EmptyFile(), p.rest);
      if file.Got? {
        var rest := ReadFrom(file.rest, i + 1, n, p.value);
        if rest.Got? {
          assert files + ([file.value] + rest.value) == files + [file.value] + rest.value;
        }
      }
    }
  }

  /** The client's reader. Reading past the end of the message throws: `ok` is false. */
  method ReadUpdates(view: seq<Byte>) returns (ok: bool, frame: nat, files: seq<File>)
    ensures ok <==> ReadResponse(view).Got?
    ensures ok ==> Answer(frame, files) == ReadResponse(view).value
  {
    hide ReadU8, ReadU16, ReadU32, ReadFields, Bit;
    ok, frame, files := false, 0, [];
    if |view| < 4 {
      return;
    }
    var first := ReadU32(view[4..]);
    if first.Short? {
      return;
    }
    var second := ReadU32(first.rest);
    if second.Short? {
      return;
    }
    frame := first.value;
    var numFiles, rest, mask := second.value, second.rest, 0;
    ghost var all := ReadFrom(rest, 0, numFiles, 0);
    assert files == [];
    PrependNothing(all);
    for i := 0 to numFiles
      invariant Prepend(files, ReadFrom(rest, i, numFiles, mask)) == all
    {
      PrependStep(files, rest, i, numFiles, mask);
      if i % 8 == 0 {
        var p := ReadU8(rest);
        if p.Short? {
          return;
        }
        mask, rest := p.value, p.rest;
      }
      if !Bit(mask, 7 - i % 8) {
        files := files + [EmptyFile()];
        continue;
      }
      var fileMask := ReadU16(rest);
      if fileMask.Short? {
        return;
      }
      var got, file, next := ReadBits(fileMask.value, fileMask.rest);
      if !got {
        return;
      }
      files, rest := files + [file], next;
    }
    assert files + [] == files;
    ok := true;
  }

  /** The loop over the sixteen bits of a file's mask. */
  method ReadBits(fileMask: nat, s: seq<Byte>) returns (ok: bool, file: File, rest: seq<Byte>)
    ensures ok <==> ReadFields(fileMask, 0, s, EmptyFile()).Got?
    ensures ok ==> Got(file, rest) == ReadFields(fileMask, 0, s, EmptyFile())
  {
    hide Bit, ReadField;
    ok, file, rest := true, EmptyFile(), s;
    for field := 0 to 16
      invariant ReadFields(fileMask, 0, s, EmptyFile()) == ReadFields(fileMask, field, rest, file)
    {
      if Bit(fileMask, field) && field < NUM_FIELDS {
        var v := ReadField(field, rest);
        if v.Short? {
          ok := false;
          return;
        }
        file, rest := file[field := Some(v.value)], v.rest;
      }
    }
  }
}
