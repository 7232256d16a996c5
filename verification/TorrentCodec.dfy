/** The response to get-torrent-updates: src/libtorrent_webui.cpp writes it, bt/libtorrent-webui.js
    reads it. */
module TorrentCodec {
  import opened Basics
  import opened Bytes
  import opened Collections
  import FileCodec

  const NUM_FIELDS := 24

  // ---------------------------------------------------------------- the fields

  /** How a field is written and read: as one byte, four bytes, a count of eight bytes, flags of
      which the client reads the low half, two numbers of four bytes, a text with its length in
      front, or eight bytes that the client keeps as two halves. */
  datatype Kind = Small | Word | Count | Flags | Two | Text16 | Halves

  function KindOf(f: nat): Kind
    requires f < NUM_FIELDS
  {
    if f == 0 then Flags
    else if f == 1 || f == 9 then Text16
    else if f == 14 then Two
    else if f == 20 then Small
    else if f == 23 then Halves
    else if f < 6 || f == 13 || f == 15 || f == 16 || f > 20 then Count
    else Word
  }

  datatype Value = Num(n: int) | Text(bytes: seq<Byte>) | Pair(first: int, second: int)

  predicate Suits(k: Kind, v: Value) {
    match k
    case Text16 => v.Text?
    case Two => v.Pair?
    case _ => v.Num?
  }

  function Blank(k: Kind): (v: Value)
    ensures Suits(k, v)
  {
    match k
    case Text16 => Text([])
    case Two => Pair(0, 0)
    case _ => Num(0)
  }

  predicate IsInfo(s: seq<Value>) {
    |s| == NUM_FIELDS && forall f | 0 <= f < NUM_FIELDS :: Suits(KindOf(f), s[f])
  }

  /** The fields of one torrent, in protocol order. */
  type Info = s: seq<Value> | IsInfo(s) witness seq(NUM_FIELDS, f requires 0 <= f < NUM_FIELDS => Blank(KindOf(f)))

  type Mask = m: seq<bool> | |m| == NUM_FIELDS witness seq(NUM_FIELDS, _ => false)

  /** The object the client builds for a torrent: a property for each field that was sent. */
  type Record = s: seq<Option<Value>> | |s| == NUM_FIELDS witness seq(NUM_FIELDS, _ => None)

  function EmptyRecord(): Record {
    seq(NUM_FIELDS, _ => None)
  }

  /** Counts a JavaScript number holds exactly, and bitfields of 64 bits. */
  predicate Exact(k: Kind, v: Value) {
    && (k == Count && v.Num? ==> 0 <= v.n < FileCodec.EXACT)
    && (k == Halves && v.Num? ==> 0 <= v.n < 0x1_0000_0000_0000_0000)
  }

  ghost predicate ExactInfo(info: Info) {
    forall f | 0 <= f < NUM_FIELDS :: Exact(KindOf(f), info[f])
  }

  const WORD := 0x1_0000_0000

  /** A field as it comes out at the other end: numbers lose the bits that do not fit, long texts
      their tail. */
  function Wire(k: Kind, v: Value): Value
    requires Suits(k, v)
  {
    match k
    case Small => Num(v.n % 256)
    case Word => Num(v.n % WORD)
    case Count => v
    case Flags => Num(v.n % WORD)
    case Two => Pair(v.first % WORD, v.second % WORD)
    case Text16 => Text(FileCodec.Cut(v.bytes))
    case Halves => Pair(v.n / WORD, v.n % WORD)
  }

  function ValueBytes(k: Kind, v: Value): seq<Byte>
    requires Suits(k, v)
  {
    match k
    case Small => U8(v.n)
    case Word => U32(v.n)
    case Count => U64(v.n)
    case Flags => U64(v.n % WORD)
    case Two => U32(v.first) + U32(v.second)
    case Text16 => FileCodec.NameBytes(v.bytes)
    case Halves => U64(v.n)
  }

  function ToValue(n: Read<nat>): Read<Value> {
    if n.Short? then Short else Got(Num(n.value), n.rest)
  }

  function ReadTwo(s: seq<Byte>): Read<Value> {
    var a := ReadU32(s);
    if a.Short? then Short
    else
      var b := ReadU32(a.rest);
      if b.Short? then Short else Got(Pair(a.value, b.value), b.rest)
  }

  function ReadFlags(s: seq<Byte>): Read<Value> {
    var both := ReadTwo(s);
    if both.Short? then Short else Got(Num(both.value.second), both.rest)
  }

  function ReadText(s: seq<Byte>): Read<Value> {
    var t := FileCodec.ReadName(s);
    if t.Short? then Short else Got(Text(t.value), t.rest)
  }

  function ReadValue(k: Kind, s: seq<Byte>): Read<Value> {
    match k
    case Small => ToValue(ReadU8(s))
    case Word => ToValue(ReadU32(s))
    case Count => ToValue(ReadU64(s))
    case Flags => ReadFlags(s)
    case Two => ReadTwo(s)
    case Text16 => ReadText(s)
    case Halves => ReadTwo(s)
  }

  lemma TwoInverts(a: int, b: int, rest: seq<Byte>)
    ensures ReadTwo(U32(a) + U32(b) + rest) == Got(Pair(a % WORD, b % WORD), rest)
  {
    hide U32, ReadU32;
    Assoc(U32(a), U32(b), rest);
    ReadU32Inverts(a, U32(b) + rest);
    ReadU32Inverts(b, rest);
  }

  lemma HalvesOf(n: int)
    requires 0 <= n < WORD * WORD
    ensures (n / WORD) % WORD == n / WORD
  {
  }

  lemma TextInverts(bytes: seq<Byte>, rest: seq<Byte>)
    ensures ReadText(FileCodec.NameBytes(bytes) + rest) == Got(Text(FileCodec.Cut(bytes)), rest)
  {
    hide U16, ReadU16, ReadBytes, FileCodec.Cut;
    var t := FileCodec.Cut(bytes);
    Assoc(U16(|t|), t, rest);
    ReadU16Inverts(|t|, t + rest);
    ReadBytesInverts(t, rest);
  }

  lemma ByteInverts(n: int, rest: seq<Byte>)
    ensures ReadU8(U8(n) + rest) == Got(n % 256, rest)
  {
    ReadU8Inverts(n % 256, rest);
    assert U8(n) == U8(n % 256);
  }

  /** Every kind of field reads back as it was meant. */
  lemma ValueInverts(k: Kind, v: Value, rest: seq<Byte>)
    requires Suits(k, v) && Exact(k, v)
    ensures ReadValue(k, ValueBytes(k, v) + rest) == Got(Wire(k, v), rest)
  {
    hide U8, U32, ReadU8, ReadU32, ReadU64, ReadTwo, ReadText, FileCodec.NameBytes, FileCodec.Cut;
    match k
    case Small => ByteInverts(v.n, rest);
    case Word => ReadU32Inverts(v.n, rest);
    case Count => ReadU64Inverts(v.n, rest);
    case Flags => TwoInverts((v.n % WORD) / WORD, v.n % WORD, rest);
    case Two => TwoInverts(v.first, v.second, rest);
    case Text16 => TextInverts(v.bytes, rest);
    case Halves =>
      TwoInverts(v.n / WORD, v.n, rest);
      HalvesOf(v.n);
  }

  // ---------------------------------------------------------------- one torrent

  function FieldBytes(info: Info, f: nat): seq<Byte>
    requires f < NUM_FIELDS
  {
    ValueBytes(KindOf(f), info[f])
  }

  function FieldsFrom(m: Mask, info: Info, f: nat): seq<Byte>
    decreases NUM_FIELDS - f
  {
    if f >= NUM_FIELDS then []
    else (if m[f] then FieldBytes(info, f) else []) + FieldsFrom(m, info, f + 1)
  }

  /** The loop over the 32 low bits of a torrent's mask; unknown fields are skipped. */
  function ReadFields(mask: nat, f: nat, s: seq<Byte>, record: Record): Read<Record>
    decreases 32 - f
  {
    if f >= 32 then Got(record, s)
    else if !Bit(mask, f) || f >= NUM_FIELDS then ReadFields(mask, f + 1, s, record)
    else
      var v := ReadValue(KindOf(f), s);
      if v.Short? then Short else ReadFields(mask, f + 1, v.rest, record[f := Some(v.value)])
  }

  function WireOf(info: Info, f: nat): Value
    requires f < NUM_FIELDS
  {
    Wire(KindOf(f), info[f])
  }

  /** What the client should see of a torrent under a mask, once the fields before f are read. */
  function Half(m: Mask, info: Info, f: nat): Record {
    seq(NUM_FIELDS, g requires 0 <= g < NUM_FIELDS => if g < f && m[g] then Some(WireOf(info, g)) else None)
  }

  function Expected(m: Mask, info: Info): Record {
    Half(m, info, NUM_FIELDS)
  }

  lemma FieldInverts(info: Info, f: nat, rest: seq<Byte>)
    requires f < NUM_FIELDS && ExactInfo(info)
    ensures ReadValue(KindOf(f), FieldBytes(info, f) + rest) == Got(WireOf(info, f), rest)
  {
    hide ValueBytes, ReadValue, Wire, KindOf, Suits;
    SuitsAt(info, f);
    ValueInverts(KindOf(f), info[f], rest);
  }

  lemma SuitsAt(info: Info, f: nat)
    requires f < NUM_FIELDS
    ensures Suits(KindOf(f), info[f])
  {
  }

  lemma HalfStep(m: Mask, info: Info, f: nat)
    requires f < NUM_FIELDS
    ensures Half(m, info, f + 1) == if m[f] then Half(m, info, f)[f := Some(WireOf(info, f))] else Half(m, info, f)
  {
    hide WireOf, IsInfo;
  }

  lemma FieldsParts(m: Mask, info: Info, f: nat, rest: seq<Byte>)
    requires f < NUM_FIELDS
    ensures FieldsFrom(m, info, f) + rest
         == if m[f] then FieldBytes(info, f) + (FieldsFrom(m, info, f + 1) + rest)
            else FieldsFrom(m, info, f + 1) + rest
  {
    hide FieldBytes, IsInfo;
    Assoc(FieldBytes(info, f), FieldsFrom(m, info, f + 1), rest);
    NilLeft(FieldsFrom(m, info, f + 1));
  }

  lemma {:induction false} UnknownFields(mask: nat, f: nat, s: seq<Byte>, record: Record)
    requires NUM_FIELDS <= f
    ensures ReadFields(mask, f, s, record) == Got(record, s)
    decreases 32 - f
  {
    if f < 32 {
      UnknownFields(mask, f + 1, s, record);
    }
  }

  lemma {:induction false} FieldsInvert(m: Mask, info: Info, f: nat, rest: seq<Byte>)
    requires ExactInfo(info) && f <= NUM_FIELDS
    ensures ReadFields(BitsValue(m), f, FieldsFrom(m, info, f) + rest, Half(m, info, f)) == Got(Expected(m, info), rest)
    decreases NUM_FIELDS - f
  {
    hide BitsValue, Bit, FieldBytes, ReadValue, Half, FieldsFrom, IsInfo, WireOf, ExactInfo, KindOf;
    if f == NUM_FIELDS {
      NoFieldsLeft(m, info);
      NilLeft(rest);
      UnknownFields(BitsValue(m), f, rest, Expected(m, info));
    } else {
      var more := FieldsFrom(m, info, f + 1) + rest;
      BitOf(m, f);
      HalfStep(m, info, f);
      FieldsParts(m, info, f, rest);
      FieldsInvert(m, info, f + 1, rest);
      if m[f] {
        FieldInverts(info, f, more);
      }
    }
  }

  lemma NoFieldsLeft(m: Mask, info: Info)
    ensures FieldsFrom(m, info, NUM_FIELDS) == []
  {
  }

  // ---------------------------------------------------------------- the message

  const HASH_SIZE := 20

  type Hash = h: seq<Byte> | |h| == HASH_SIZE witness seq(HASH_SIZE, _ => 0)

  datatype Torrent = Torrent(hash: Hash, mask: Mask, info: Info)

  predicate Any(m: Mask) {
    exists f :: 0 <= f < NUM_FIELDS && m[f]
  }

  function TorrentBytes(t: Torrent): seq<Byte> {
    if Any(t.mask) then t.hash + (U64(BitsValue(t.mask)) + FieldsFrom(t.mask, t.info, 0)) else []
  }

  function TorrentsBytes(ts: seq<Torrent>): seq<Byte> {
    if ts == [] then [] else TorrentBytes(ts[0]) + TorrentsBytes(ts[1..])
  }

  /** Torrents with nothing to send are left out, and not counted. */
  function NumSent(ts: seq<Torrent>): nat {
    if ts == [] then 0 else (if Any(ts[0].mask) then 1 else 0) + NumSent(ts[1..])
  }

  function HashesBytes(hs: seq<Hash>): seq<Byte> {
    if hs == [] then [] else hs[0] + HashesBytes(hs[1..])
  }

  const SNAPSHOT := 0xffff_ffff

  function NumRemoved(snapshot: bool, removed: seq<Hash>): int {
    if snapshot then SNAPSHOT else |removed|
  }

  function Message(header: seq<Byte>, frame: int, snapshot: bool, ts: seq<Torrent>, removed: seq<Hash>): seq<Byte> {
    header + (U32(frame) + (U32(NumSent(ts)) + (U32(NumRemoved(snapshot, removed))
      + (TorrentsBytes(ts) + HashesBytes(removed)))))
  }

  datatype Update = Update(hash: Hash, record: Record)

  function ReadHash(s: seq<Byte>): Read<Hash> {
    if |s| < HASH_SIZE then Short
    else
      var hash: Hash := s[..HASH_SIZE];
      Got(hash, s[HASH_SIZE..])
  }

  function ReadTorrent(s: seq<Byte>): Read<Update> {
    var hash := ReadHash(s);
    if hash.Short? then Short
    else
      var high := ReadU32(hash.rest);
      if high.Short? then Short
      else
        var low := ReadU32(high.rest);
        if low.Short? then Short
        else
          var r := ReadFields(low.value, 0, low.rest, EmptyRecord());
          if r.Short? then Short else Got(Update(hash.value, r.value), r.rest)
  }

  function ReadTorrents(n: nat, s: seq<Byte>): Read<seq<Update>> {
    if n == 0 then Got([], s)
    else
      var t := ReadTorrent(s);
      if t.Short? then Short
      else
        var rest := ReadTorrents(n - 1, t.rest);
        if rest.Short? then Short else Got([t.value] + rest.value, rest.rest)
  }

  function ReadHashes(n: nat, s: seq<Byte>): Read<seq<Hash>> {
    if n == 0 then Got([], s)
    else
      var h := ReadHash(s);
      if h.Short? then Short
      else
        var rest := ReadHashes(n - 1, h.rest);
        if rest.Short? then Short else Got([h.value] + rest.value, rest.rest)
  }

  datatype Answer = Answer(frame: nat, snapshot: bool, updates: seq<Update>, removed: seq<Hash>)

  function ReadLists(frame: nat, numTorrents: nat, numRemoved: nat, s: seq<Byte>): Read<Answer> {
    var ts := ReadTorrents(numTorrents, s);
    if ts.Short? then Short
    else
      var hs := ReadHashes(if numRemoved == SNAPSHOT then 0 else numRemoved, ts.rest);
      if hs.Short? then Short else Got(Answer(frame, numRemoved == SNAPSHOT, ts.value, hs.value), hs.rest)
  }

  function ReadBody(s: seq<Byte>): Read<Answer> {
    var frame := ReadU32(s);
    if frame.Short? then Short
    else
      var n := ReadU32(frame.rest);
      if n.Short? then Short
      else
        var m := ReadU32(n.rest);
        if m.Short? then Short else ReadLists(frame.value, n.value, m.value, m.rest)
  }

  function ReadMessage(view: seq<Byte>): Read<Answer> {
    if |view| < 4 then Short else ReadBody(view[4..])
  }

  // ---------------------------------------------------------------- round trip

  /** What the client should be told: each torrent that has something to send. */
  function Told(ts: seq<Torrent>): seq<Update> {
    if ts == [] then []
    else (if Any(ts[0].mask) then [Update(ts[0].hash, Expected(ts[0].mask, ts[0].info))] else []) + Told(ts[1..])
  }

  ghost predicate AllExact(ts: seq<Torrent>) {
    forall i | 0 <= i < |ts| :: ExactInfo(ts[i].info)
  }

  lemma HashInverts(h: Hash, rest: seq<Byte>)
    ensures ReadHash(h + rest) == Got(h, rest)
  {
    assert (h + rest)[..HASH_SIZE] == h && (h + rest)[HASH_SIZE..] == rest;
  }

  lemma MaskBound(m: Mask)
    ensures BitsValue(m) < WORD
  {
    hide BitsValue;
    BitsBound(m);
    assert Pow2(8) == 256;
    assert Pow2(16) == 0x1_0000 by {
      assert Pow2(12) == 4096;
    }
    assert Pow2(20) == 0x10_0000;
    assert Pow2(24) == 0x100_0000;
  }

  lemma TorrentInverts(t: Torrent, rest: seq<Byte>)
    requires ExactInfo(t.info) && Any(t.mask)
    ensures ReadTorrent(TorrentBytes(t) + rest) == Got(Update(t.hash, Expected(t.mask, t.info)), rest)
  {
    hide U32, ReadU32, FieldsFrom, ReadFields, BitsValue, ReadHash, ExactInfo, IsInfo, Any, Half;
    var v, fields := BitsValue(t.mask), FieldsFrom(t.mask, t.info, 0);
    MaskBound(t.mask);
    WideIs(v, fields + rest);
    Assoc(t.hash, U64(v) + fields, rest);
    Assoc(U64(v), fields, rest);
    HashInverts(t.hash, U64(v) + (fields + rest));
    ReadU32Inverts(v / WORD, U32(v) + (fields + rest));
    ReadU32Inverts(v, fields + rest);
    NothingRead(t.mask, t.info);
    FieldsInvert(t.mask, t.info, 0, rest);
  }

  lemma WideIs(v: int, rest: seq<Byte>)
    ensures U64(v) + rest == U32(v / WORD) + (U32(v) + rest)
  {
    hide U32;
    Assoc(U32(v / WORD), U32(v), rest);
  }

  lemma NothingRead(m: Mask, info: Info)
    ensures Half(m, info, 0) == EmptyRecord()
  {
    hide WireOf, IsInfo;
  }

  lemma {:induction false} TorrentsInvert(ts: seq<Torrent>, rest: seq<Byte>)
    requires AllExact(ts)
    ensures ReadTorrents(NumSent(ts), TorrentsBytes(ts) + rest) == Got(Told(ts), rest)
    decreases |ts|
  {
    hide ReadTorrent, TorrentBytes, ExactInfo, Any, Expected;
    if ts == [] {
      NilLeft(rest);
    } else {
      var more := TorrentsBytes(ts[1..]);
      TorrentsInvert(ts[1..], rest);
      Assoc(TorrentBytes(ts[0]), more, rest);
      if Any(ts[0].mask) {
        TorrentInverts(ts[0], more + rest);
      } else {
        SilentTorrent(ts[0]);
        NilLeft(more + rest);
        NilLeft(Told(ts[1..]));
      }
    }
  }

  lemma SilentTorrent(t: Torrent)
    requires !Any(t.mask)
    ensures TorrentBytes(t) == []
  {
  }

  lemma {:induction false} HashesInvert(hs: seq<Hash>, rest: seq<Byte>)
    ensures ReadHashes(|hs|, HashesBytes(hs) + rest) == Got(hs, rest)
    decreases |hs|
  {
    hide ReadHash;
    if hs == [] {
      NilLeft(rest);
    } else {
      Assoc(hs[0], HashesBytes(hs[1..]), rest);
      HashInverts(hs[0], HashesBytes(hs[1..]) + rest);
      HashesInvert(hs[1..], rest);
      assert hs == [hs[0]] + hs[1..];
    }
  }

  /** The round trip: for any number of torrents with any masks and fields, the client reads back
      exactly what was sent of each, the frame, whether it is a snapshot and the removed torrents,
      and has then read every byte. */
  lemma MessageInverts(header: seq<Byte>, frame: int, snapshot: bool, ts: seq<Torrent>, removed: seq<Hash>)
    requires |header| == 4 && 0 <= frame < WORD && NumSent(ts) < WORD && |removed| < SNAPSHOT
    requires AllExact(ts) && (snapshot ==> removed == [])
    ensures ReadMessage(Message(header, frame, snapshot, ts, removed))
         == Got(Answer(frame, snapshot, Told(ts), removed), [])
  {
    hide U32, ReadU32, TorrentsBytes, HashesBytes, ReadTorrents, ReadHashes, NumSent, Told, AllExact;
    var lists := TorrentsBytes(ts) + HashesBytes(removed);
    var m := NumRemoved(snapshot, removed);
    DropFront(header, U32(frame) + (U32(NumSent(ts)) + (U32(m) + lists)));
    assert |header + (U32(frame) + (U32(NumSent(ts)) + (U32(m) + lists)))| >= 4;
    ReadU32Inverts(frame, U32(NumSent(ts)) + (U32(m) + lists));
    ReadU32Inverts(NumSent(ts), U32(m) + lists);
    ReadU32Inverts(m, lists);
    TorrentsInvert(ts, HashesBytes(removed));
    HashesInvert(removed, []);
    NilRight(HashesBytes(removed));
    NoHashes();
  }

  lemma NoHashes()
    ensures HashesBytes([]) == [] && ReadHashes(0, []) == Got([], [])
  {
  }

  // ---------------------------------------------------------------- nothing is lost

  /** The values of each field that must arrive as they are: texts of a length that sixteen bits
      hold, counts that a JavaScript number holds, 32-bit numbers, the state's one byte, and 64 bits for
      the flags and the tag. */
  predicate InRange(f: nat, v: Value) {
    match v
    case Text(bytes) => f in {1, 9} && |bytes| <= 65535
    case Pair(first, second) => f == 14 && 0 <= first < 0x1_0000_0000 && 0 <= second < 0x1_0000_0000
    case Num(n) =>
      f !in {1, 9, 14}
      && 0 <= n < (if f == 20 then 256
                   else if f in {2, 3, 4, 5, 13, 15, 16, 21, 22} then 0x20_0000_0000_0000
                   else if f == 0 || f == 23 then 0x1_0000_0000_0000_0000
                   else 0x1_0000_0000)
  }

  ghost predicate AllInRange(info: seq<Value>) {
    |info| == 24 && forall f | 0 <= f < 24 :: InRange(f, info[f])
  }

  /** Every choice of such values is a torrent the message can carry. */
  lemma RangesAreInfo(info: seq<Value>)
    requires AllInRange(info)
    ensures IsInfo(info) && forall f | 0 <= f < 24 :: Exact(KindOf(f), info[f])
  {
    forall f | 0 <= f < 24 ensures Suits(KindOf(f), info[f]) && Exact(KindOf(f), info[f]) {
      assert InRange(f, info[f]);
    }
  }

  /** What the client has of a field: the very value it has on the server, but of the flags the low half,
      and of the tag the two halves. */
  function Received(f: nat, v: Value): Value {
    if f == 0 && v.Num? then Num(v.n % 0x1_0000_0000)
    else if f == 23 && v.Num? then Pair(v.n / 0x1_0000_0000, v.n % 0x1_0000_0000)
    else v
  }

  /** The client has each field that was asked for and no other. */
  function Intact(m: Mask, info: Info): Record {
    seq(NUM_FIELDS, f requires 0 <= f < NUM_FIELDS => if m[f] then Some(Received(f, info[f])) else None)
  }

  /** Every torrent with something to send, in order. */
  function AllIntact(ts: seq<Torrent>): seq<Update> {
    if ts == [] then []
    else
      (if true in ts[0].mask then [Update(ts[0].hash, Intact(ts[0].mask, ts[0].info))] else [])
      + AllIntact(ts[1..])
  }

  lemma ValueIsIntact(f: nat, v: Value)
    requires f < NUM_FIELDS && Suits(KindOf(f), v) && InRange(f, v)
    ensures Wire(KindOf(f), v) == Received(f, v)
  {
  }

  lemma RecordIsIntact(m: Mask, info: Info)
    requires AllInRange(info)
    ensures Expected(m, info) == Intact(m, info)
  {
    hide KindOf, Wire, Suits, InRange, IsInfo, Received;
    forall f | 0 <= f < NUM_FIELDS ensures Expected(m, info)[f] == Intact(m, info)[f] {
      SuitsAt(info, f);
      ValueIsIntact(f, info[f]);
    }
  }

  lemma {:induction false} ToldIntact(ts: seq<Torrent>)
    requires forall i | 0 <= i < |ts| :: AllInRange(ts[i].info)
    ensures Told(ts) == AllIntact(ts)
    decreases |ts|
  {
    hide Expected, Intact, AllInRange, IsInfo;
    if ts != [] {
      RecordIsIntact(ts[0].mask, ts[0].info);
      ToldIntact(ts[1..]);
    }
  }

  /** Without loss: any torrents whose fields are in these ranges, under any masks, arrive with each
      requested field as it is on the server. */
  lemma MessageIsLossless(header: seq<Byte>, frame: int, snapshot: bool, ts: seq<Torrent>, removed: seq<Hash>)
    requires |header| == 4 && 0 <= frame < 0x1_0000_0000 && |ts| < 0x1_0000_0000 && |removed| < 0xffff_ffff
    requires (forall i | 0 <= i < |ts| :: AllInRange(ts[i].info)) && (snapshot ==> removed == [])
    ensures ReadMessage(Message(header, frame, snapshot, ts, removed))
         == Got(Answer(frame, snapshot, AllIntact(ts), removed), [])
  {
    hide ReadMessage, Message, Told, AllIntact, AllInRange, IsInfo, KindOf, Exact;
    forall i | 0 <= i < |ts| ensures ExactInfo(ts[i].info) {
      RangesAreInfo(ts[i].info);
    }
    FewerSent(ts);
    ToldIntact(ts);
    MessageInverts(header, frame, snapshot, ts, removed);
  }

  lemma {:induction false} FewerSent(ts: seq<Torrent>)
    ensures NumSent(ts) <= |ts|
    decreases |ts|
  {
    hide IsInfo, Any;
    if ts != [] {
      FewerSent(ts[1..]);
    }
  }

  /** How many bytes each field takes. */
  lemma FieldWidths(info: Info, f: nat)
    requires AllInRange(info) && f < 24
    ensures |FieldBytes(info, f)|
         == if info[f].Text? then 2 + |info[f].bytes|
            else if f == 20 then 1
            else if f in {6, 7, 8, 10, 11, 12, 17, 18, 19} then 4
            else 8
  {
    assert InRange(f, info[f]);
    hide U8, U16, U32, U64;
  }

  lemma TorrentWidth(t: Torrent)
    requires true in t.mask
    ensures |TorrentBytes(t)| == 20 + 8 + |FieldsFrom(t.mask, t.info, 0)| && TorrentBytes(t)[..20] == t.hash
  {
    hide U64, FieldsFrom, BitsValue;
    var f :| 0 <= f < NUM_FIELDS && t.mask[f];
  }

  // ---------------------------------------------------------------- the writer

  /** One field of a torrent. */
  method WriteField(response: seq<Byte>, info: Info, f: nat) returns (r: seq<Byte>)
    requires f < NUM_FIELDS
    ensures r == response + FieldBytes(info, f)
  {
    hide U8, U32, U64, FileCodec.NameBytes, KindOf;
    var v := info[f];
    SuitsAt(info, f);
    match KindOf(f)
    case Small => r := response + U8(v.n);
    case Word => r := response + U32(v.n);
    case Count => r := response + U64(v.n);
    case Flags => r := response + U64(v.n % WORD);
    case Two =>
      r := response + U32(v.first);
      r := r + U32(v.second);
      Assoc(response, U32(v.first), U32(v.second));
    case Text16 => r := FileCodec.WriteName(response, v.bytes);
    case Halves => r := response + U64(v.n);
  }

  lemma FieldStep(r: seq<Byte>, m: Mask, info: Info, f: nat)
    requires f < NUM_FIELDS
    ensures r + FieldsFrom(m, info, f)
         == (if m[f] then r + FieldBytes(info, f) else r) + FieldsFrom(m, info, f + 1)
  {
    hide FieldBytes, IsInfo;
    if m[f] {
      Assoc(r, FieldBytes(info, f), FieldsFrom(m, info, f + 1));
    } else {
      NilLeft(FieldsFrom(m, info, f + 1));
    }
  }

  /** One torrent: its hash, the bitmask and the fields, unless there is nothing to send. */
  method WriteTorrent(response: seq<Byte>, t: Torrent) returns (r: seq<Byte>, sent: bool)
    ensures r == response + TorrentBytes(t) && (sent <==> Any(t.mask))
  {
    hide U64, BitsValue, FieldsFrom, FieldBytes, IsInfo, Any;
    r, sent := response, Any(t.mask);
    if !sent {
      NilRight(r);
      return;
    }
    r := r + t.hash;
    r := r + U64(BitsValue(t.mask));
    ghost var start, fields := r, FieldsFrom(t.mask, t.info, 0);
    for f := 0 to NUM_FIELDS
      invariant r + FieldsFrom(t.mask, t.info, f) == start + fields
    {
      FieldStep(r, t.mask, t.info, f);
      if t.mask[f] {
        r := WriteField(r, t.info, f);
      }
    }
    NoFieldsLeft(t.mask, t.info);
    NilRight(r);
    Assoc(response, t.hash, U64(BitsValue(t.mask)));
    Assoc(response, t.hash + U64(BitsValue(t.mask)), fields);
    Assoc(t.hash, U64(BitsValue(t.mask)), fields);
  }

  lemma TorrentStep(r: seq<Byte>, ts: seq<Torrent>, i: nat)
    requires i < |ts|
    ensures r + TorrentsBytes(ts[i..]) == r + TorrentBytes(ts[i]) + TorrentsBytes(ts[i + 1..])
    ensures NumSent(ts[i..]) == (if Any(ts[i].mask) then 1 else 0) + NumSent(ts[i + 1..])
  {
    hide TorrentBytes, Any;
    assert ts[i..][1..] == ts[i + 1..];
    Assoc(r, TorrentBytes(ts[i]), TorrentsBytes(ts[i + 1..]));
  }

  lemma HashStep(r: seq<Byte>, hs: seq<Hash>, i: nat)
    requires i < |hs|
    ensures r + HashesBytes(hs[i..]) == r + hs[i] + HashesBytes(hs[i + 1..])
  {
    assert hs[i..][1..] == hs[i + 1..];
    Assoc(r, hs[i], HashesBytes(hs[i + 1..]));
  }

  lemma NothingLeft(ts: seq<Torrent>, hs: seq<Hash>)
    ensures TorrentsBytes(ts[|ts|..]) == [] && NumSent(ts[|ts|..]) == 0 && HashesBytes(hs[|hs|..]) == []
    ensures ts[0..] == ts && hs[0..] == hs
  {
  }

  /** The count of torrents filled in where a placeholder was written. */
  lemma BackPatch(a: seq<Byte>, old_: seq<Byte>, new_: seq<Byte>, b: seq<Byte>)
    requires |old_| == 4 && |new_| == 4
    ensures var r := a + old_ + b;
            |a| + 4 <= |r| && r[..|a|] + new_ + r[|a| + 4..] == a + new_ + b
  {
    var r := a + old_ + b;
    assert r[..|a|] == a && r[|a| + 4..] == b;
  }

  /** get_torrent_updates: the number of torrents is only known at the end, and put in then. */
  method Write(header: seq<Byte>, frame: int, snapshot: bool, ts: seq<Torrent>, removed: seq<Hash>)
    returns (response: seq<Byte>)
    ensures response == Message(header, frame, snapshot, ts, removed)
  {
    hide U32, TorrentsBytes, TorrentBytes, HashesBytes, NumSent, Any;
    var numTorrents: nat := 0;
    response := header + U32(frame);
    var at := |response|;
    ghost var front, m := response, U32(NumRemoved(snapshot, removed));
    response := response + U32(numTorrents);
    response := response + U32(if snapshot then SNAPSHOT else |removed|);
    NothingLeft(ts, removed);
    ghost var start := response;
    for i := 0 to |ts|
      invariant response + TorrentsBytes(ts[i..]) == start + TorrentsBytes(ts)
      invariant numTorrents + NumSent(ts[i..]) == NumSent(ts)
    {
      TorrentStep(response, ts, i);
      var sent;
      response, sent := WriteTorrent(response, ts[i]);
      numTorrents := if sent then numTorrents + 1 else numTorrents;
    }
    NilRight(response);
    Assoc(front, U32(0), m);
    Assoc(front + U32(0), m, TorrentsBytes(ts));
    BackPatch(front, U32(0), U32(numTorrents), m + TorrentsBytes(ts));
    response := response[..at] + U32(numTorrents) + response[at + 4..];
    ghost var body := response;
    for i := 0 to |removed|
      invariant response + HashesBytes(removed[i..]) == body + HashesBytes(removed)
    {
      HashStep(response, removed, i);
      response := response + removed[i];
    }
    NilRight(response);
    Regroup(header, U32(frame), U32(NumSent(ts)), m, TorrentsBytes(ts), HashesBytes(removed));
  }

  lemma Regroup(a: seq<Byte>, b: seq<Byte>, c: seq<Byte>, d: seq<Byte>, e: seq<Byte>, f: seq<Byte>)
    ensures a + b + c + (d + e) + f == a + (b + (c + (d + (e + f))))
  {
    Assoc(a + b + c, d + e, f);
    Assoc(d, e, f);
    Assoc(a + b, c, d + (e + f));
    Assoc(a, b, c + (d + (e + f)));
  }

  // ---------------------------------------------------------------- the reader

  function Join<T>(front: seq<T>, r: Read<seq<T>>): Read<seq<T>> {
    if r.Short? then Short else Got(front + r.value, r.rest)
  }

  lemma JoinNothing<T>(r: Read<seq<T>>)
    ensures Join([], r) == r
  {
    if r.Got? {
      NilLeft(r.value);
    }
  }

  lemma JoinTorrent(front: seq<Update>, n: nat, s: seq<Byte>)
    requires n > 0
    ensures var t := ReadTorrent(s);
            Join(front, ReadTorrents(n, s))
            == if t.Short? then Short else Join(front + [t.value], ReadTorrents(n - 1, t.rest))
  {
    hide ReadTorrent;
    var t := ReadTorrent(s);
    if t.Got? && ReadTorrents(n - 1, t.rest).Got? {
      Assoc(front, [t.value], ReadTorrents(n - 1, t.rest).value);
    }
  }

  lemma JoinHash(front: seq<Hash>, n: nat, s: seq<Byte>)
    requires n > 0
    ensures var h := ReadHash(s);
            Join(front, ReadHashes(n, s))
            == if h.Short? then Short else Join(front + [h.value], ReadHashes(n - 1, h.rest))
  {
    hide ReadHash;
    var h := ReadHash(s);
    if h.Got? && ReadHashes(n - 1, h.rest).Got? {
      Assoc(front, [h.value], ReadHashes(n - 1, h.rest).value);
    }
  }

  /** The loop over the 32 low bits of a torrent's mask. */
  method ReadBits(mask: nat, s: seq<Byte>) returns (r: Read<Record>)
    ensures r == ReadFields(mask, 0, s, EmptyRecord())
  {
    hide Bit, ReadValue, KindOf;
    var record, rest := EmptyRecord(), s;
    for field := 0 to 32
      invariant ReadFields(mask, 0, s, EmptyRecord()) == ReadFields(mask, field, rest, record)
    {
      if Bit(mask, field) && field < NUM_FIELDS {
        var v := ReadValue(KindOf(field), rest);
        if v.Short? {
          return Short;
        }
        record, rest := record[field := Some(v.value)], v.rest;
      }
    }
    r := Got(record, rest);
  }

  /** The torrents of the message; the high half of each mask is skipped. */
  method ReadUpdates(n: nat, s: seq<Byte>) returns (r: Read<seq<Update>>)
    ensures r == ReadTorrents(n, s)
  {
    hide ReadU32, ReadFields, ReadHash;
    var updates, rest := [], s;
    JoinNothing(ReadTorrents(n, s));
    for i := 0 to n
      invariant Join(updates, ReadTorrents(n - i, rest)) == ReadTorrents(n, s)
    {
      JoinTorrent(updates, n - i, rest);
      var hash := ReadHash(rest);
      if hash.Short? {
        return Short;
      }
      var high := ReadU32(hash.rest);
      if high.Short? {
        return Short;
      }
      var low := ReadU32(high.rest);
      if low.Short? {
        return Short;
      }
      var record := ReadBits(low.value, low.rest);
      if record.Short? {
        return Short;
      }
      updates, rest := updates + [Update(hash.value, record.value)], record.rest;
    }
    NilRight(updates);
    r := Got(updates, rest);
  }

  /** The client's reader. Reading past the end of the message throws: the result is Short. */
  method ReadResponse(view: seq<Byte>) returns (r: Read<Answer>)
    ensures r == ReadMessage(view)
  {
    hide ReadU32, ReadTorrents, ReadHash;
    if |view| < 4 {
      return Short;
    }
    var frame := ReadU32(view[4..]);
    if frame.Short? {
      return Short;
    }
    var numTorrents := ReadU32(frame.rest);
    if numTorrents.Short? {
      return Short;
    }
    var numRemoved := ReadU32(numTorrents.rest);
    if numRemoved.Short? {
      return Short;
    }
    var updates := ReadUpdates(numTorrents.value, numRemoved.rest);
    if updates.Short? {
      return Short;
    }
    var removed: seq<Hash>, rest := [], updates.rest;
    var n := numRemoved.value;
    if n != SNAPSHOT {
      JoinNothing(ReadHashes(n, updates.rest));
      for i := 0 to n
        invariant Join(removed, ReadHashes(n - i, rest)) == ReadHashes(n, updates.rest)
      {
        JoinHash(removed, n - i, rest);
        var hash := ReadHash(rest);
        if hash.Short? {
          return Short;
        }
        removed, rest := removed + [hash.value], hash.rest;
      }
      NilRight(removed);
    }
    r := Got(Answer(frame.value, n == SNAPSHOT, updates.value, removed), rest);
  }
}
