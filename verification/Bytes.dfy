/** The binary protocol's integers: big-endian, as src/libtorrent_webui.cpp writes them and a
    JavaScript DataView reads them. */
module Bytes {

  type Byte = b: int | 0 <= b < 256

  /** Bytes read from the front of a message, or the message is too short. */
  datatype Read<T> = Got(value: T, rest: seq<Byte>) | Short

  function U8(x: int): (r: seq<Byte>)
    ensures |r| == 1
  {
    [x % 256]
  }

  function U16(x: int): (r: seq<Byte>)
    ensures |r| == 2
  {
    [x / 256 % 256, x % 256]
  }

  function U32(x: int): (r: seq<Byte>)
    ensures |r| == 4
  {
    U16(x / 0x1_0000) + U16(x)
  }

  function U64(x: int): (r: seq<Byte>)
    ensures |r| == 8
  {
    U32(x / 0x1_0000_0000) + U32(x)
  }

  function ReadU8(s: seq<Byte>): Read<nat> {
    if |s| < 1 then Short else Got(s[0], s[1..])
  }

  function ReadU16(s: seq<Byte>): Read<nat> {
    if |s| < 2 then Short else Got(256 * (s[0] as int) + s[1], s[2..])
  }

  function ReadU32(s: seq<Byte>): Read<nat> {
    if |s| < 4 then Short else Got(0x1_0000 * ReadU16(s).value + ReadU16(s[2..]).value, s[4..])
  }

  /** read_uint64: two 32-bit halves, combined as one number. */
  function ReadU64(s: seq<Byte>): Read<nat> {
    var high := ReadU32(s);
    if high.Short? then Short
    else
      var low := ReadU32(high.rest);
      if low.Short? then Short else Got(high.value * 4294967296 + low.value, low.rest)
  }

  function ReadBytes(s: seq<Byte>, n: int): Read<seq<Byte>> {
    if 0 <= n <= |s| then Got(s[..n], s[n..]) else Short
  }

  lemma ReadU8Inverts(x: int, rest: seq<Byte>)
    requires 0 <= x < 256
    ensures ReadU8(U8(x) + rest) == Got(x, rest)
  {
    assert (U8(x) + rest)[1..] == rest;
  }

  lemma TwoBytes(x: int)
    ensures 256 * (x / 256 % 256) + x % 256 == x % 0x1_0000
  {
    var high, low := x / 0x1_0000, x % 0x1_0000;
    assert x / 256 == 256 * high + low / 256;
  }

  /** Two bytes are the number modulo 2^16. */
  lemma ReadU16Inverts(x: int, rest: seq<Byte>)
    ensures ReadU16(U16(x) + rest) == Got(x % 0x1_0000, rest)
  {
    TwoBytes(x);
    assert (U16(x) + rest)[2..] == rest;
  }

  lemma FourBytes(x: int)
    ensures 0x1_0000 * (x / 0x1_0000 % 0x1_0000) + x % 0x1_0000 == x % 0x1_0000_0000
  {
    var high, low := x / 0x1_0000_0000, x % 0x1_0000_0000;
    assert x / 0x1_0000 == 0x1_0000 * high + low / 0x1_0000;
  }

  /** Four bytes are the number modulo 2^32. */
  lemma ReadU32Inverts(x: int, rest: seq<Byte>)
    ensures ReadU32(U32(x) + rest) == Got(x % 0x1_0000_0000, rest)
  {
    hide U16, ReadU16;
    var s := U32(x) + rest;
    assert s == U16(x / 0x1_0000) + (U16(x) + rest) && s[2..] == U16(x) + rest && s[4..] == rest;
    ReadU16Inverts(x / 0x1_0000, U16(x) + rest);
    ReadU16Inverts(x, rest);
    FourBytes(x);
  }

  lemma ReadU64Inverts(x: int, rest: seq<Byte>)
    requires 0 <= x < 0x1_0000_0000_0000_0000
    ensures ReadU64(U64(x) + rest) == Got(x, rest)
  {
    hide U32, ReadU32;
    var high := x / 0x1_0000_0000;
    assert U64(x) + rest == U32(high) + (U32(x) + rest);
    ReadU32Inverts(high, U32(x) + rest);
    ReadU32Inverts(x, rest);
  }

  lemma ReadBytesInverts(s: seq<Byte>, rest: seq<Byte>)
    ensures ReadBytes(s + rest, |s|) == Got(s, rest)
  {
    assert (s + rest)[..|s|] == s && (s + rest)[|s|..] == rest;
  }

  // ---------------------------------------------------------------- bits

  function Pow2(k: nat): (r: nat)
    ensures r > 0
  {
    if k == 0 then 1 else 2 * Pow2(k - 1)
  }

  /** (v & (1 << k)) != 0 */
  predicate Bit(v: nat, k: nat) {
    if k == 0 then v % 2 == 1 else Bit(v / 2, k - 1)
  }

  /** The number with these bits, the lowest first. */
  function BitsValue(bits: seq<bool>): nat {
    if bits == [] then 0 else (if bits[0] then 1 else 0) + 2 * BitsValue(bits[1..])
  }

  lemma {:induction false} BitOf(bits: seq<bool>, k: nat)
    ensures Bit(BitsValue(bits), k) <==> k < |bits| && bits[k]
    decreases |bits| + k
  {
    if bits == [] {
      if k > 0 {
        BitOf(bits, k - 1);
      }
    } else if k > 0 {
      BitOf(bits[1..], k - 1);
    }
  }

  lemma {:induction false} BitsBound(bits: seq<bool>)
    ensures BitsValue(bits) < Pow2(|bits|)
    decreases |bits|
  {
    if bits != [] {
      BitsBound(bits[1..]);
    }
  }

  /** v | (1 << k) */
  function SetBit(v: nat, k: nat): nat {
    if Bit(v, k) then v else v + Pow2(k)
  }

  lemma {:induction false} SetBitOf(bits: seq<bool>, k: nat)
    requires k < |bits|
    ensures SetBit(BitsValue(bits), k) == BitsValue(bits[k := true])
    decreases |bits|
  {
    BitOf(bits, k);
    if k == 0 {
      assert bits[0 := true][1..] == bits[1..];
    } else {
      BitOf(bits[1..], k - 1);
      SetBitOf(bits[1..], k - 1);
      assert bits[k := true][1..] == bits[1..][k - 1 := true];
    }
  }

  lemma {:induction false} NoBits(bits: seq<bool>)
    requires forall i | 0 <= i < |bits| :: !bits[i]
    ensures BitsValue(bits) == 0
    decreases |bits|
  {
    if bits != [] {
      NoBits(bits[1..]);
    }
  }
}
