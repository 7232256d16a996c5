/** Which torrents a filter selects, bit by bit: src/torrent_history.hpp, filter_spec, and what a
    filtered snapshot shows. */
module TorrentFilters {
  import opened Basics
  import opened Maps
  import opened TorrentHistory
  import opened TorrentLookup
  import opened TorrentTracking
  import opened TorrentClient
  import opened TorrentSync

  // ---------------------------------------------------------------- bits

  function Half(b: bv64): bv64 {
    b >> 1
  }

  predicate Odd(b: bv64) {
    b & 1 == 1
  }

  function Common(a: bv64, b: bv64): bv64 {
    a & b
  }

  /** (b >> k) & 1 */
  predicate Has(b: bv64, k: nat) {
    if k == 0 then Odd(b) else Has(Half(b), k - 1)
  }

  lemma {:induction false} CommonHas(a: bv64, b: bv64, k: nat)
    ensures Has(Common(a, b), k) <==> Has(a, k) && Has(b, k)
    decreases k
  {
    hide Half, Odd, Common;
    CommonBits(a, b);
    if k > 0 {
      CommonHas(Half(a), Half(b), k - 1);
    }
  }

  lemma CommonBits(a: bv64, b: bv64)
    ensures Half(Common(a, b)) == Common(Half(a), Half(b))
    ensures Odd(Common(a, b)) <==> Odd(a) && Odd(b)
  {
  }

  lemma {:induction false} NoneHas(k: nat)
    ensures !Has(0, k)
    decreases k
  {
    hide Half, Odd;
    ZeroBits();
    if k > 0 {
      NoneHas(k - 1);
    }
  }

  lemma ZeroBits()
    ensures Half(0) == 0 && !Odd(0)
  {
  }

  /** b >> n */
  function Shifted(b: bv64, n: nat): bv64 {
    if n == 0 then b else Shifted(Half(b), n - 1)
  }

  lemma {:induction false} ShiftedTwice(b: bv64, m: nat, n: nat)
    ensures Shifted(b, m + n) == Shifted(Shifted(b, m), n)
    decreases m
  {
    hide Half;
    if m > 0 {
      ShiftedTwice(Half(b), m - 1, n);
    }
  }

  function Right(b: bv64, n: nat): bv64
    requires n <= 64
  {
    b >> n
  }

  lemma Twice1(b: bv64)
    ensures Right(Right(b, 1), 1) == Right(b, 2)
  {
  }

  lemma Twice2(b: bv64)
    ensures Right(Right(b, 2), 2) == Right(b, 4)
  {
  }

  lemma Twice4(b: bv64)
    ensures Right(Right(b, 4), 4) == Right(b, 8)
  {
  }

  lemma Twice8(b: bv64)
    ensures Right(Right(b, 8), 8) == Right(b, 16)
  {
  }

  lemma Twice16(b: bv64)
    ensures Right(Right(b, 16), 16) == Right(b, 32)
  {
  }

  lemma Twice32(b: bv64)
    ensures Right(Right(b, 32), 32) == 0
  {
  }

  lemma ShiftedBy1(b: bv64)
    ensures Shifted(b, 1) == Right(b, 1)
  {
  }

  lemma ShiftedBy2(b: bv64)
    ensures Shifted(b, 2) == Right(b, 2)
  {
    hide *;
    ShiftedTwice(b, 1, 1);
    ShiftedBy1(b);
    ShiftedBy1(Right(b, 1));
    Twice1(b);
  }

  lemma ShiftedBy4(b: bv64)
    ensures Shifted(b, 4) == Right(b, 4)
  {
    hide *;
    ShiftedTwice(b, 2, 2);
    ShiftedBy2(b);
    ShiftedBy2(Right(b, 2));
    Twice2(b);
  }

  lemma ShiftedBy8(b: bv64)
    ensures Shifted(b, 8) == Right(b, 8)
  {
    hide *;
    ShiftedTwice(b, 4, 4);
    ShiftedBy4(b);
    ShiftedBy4(Right(b, 4));
    Twice4(b);
  }

  lemma ShiftedBy16(b: bv64)
    ensures Shifted(b, 16) == Right(b, 16)
  {
    hide *;
    ShiftedTwice(b, 8, 8);
    ShiftedBy8(b);
    ShiftedBy8(Right(b, 8));
    Twice8(b);
  }

  lemma ShiftedBy32(b: bv64)
    ensures Shifted(b, 32) == Right(b, 32)
  {
    hide *;
    ShiftedTwice(b, 16, 16);
    ShiftedBy16(b);
    ShiftedBy16(Right(b, 16));
    Twice16(b);
  }

  lemma NothingBeyond(b: bv64)
    ensures Shifted(b, 64) == 0
  {
    hide *;
    ShiftedTwice(b, 32, 32);
    ShiftedBy32(b);
    ShiftedBy32(Right(b, 32));
    Twice32(b);
  }

  lemma EvenHalf(b: bv64)
    requires b != 0 && !Odd(b)
    ensures Half(b) != 0
  {
  }

  /** A number other than 0 has a bit. */
  lemma {:induction false} SomeHas(b: bv64, n: nat) returns (k: nat)
    requires b != 0 && Shifted(b, n) == 0
    ensures k < n && Has(b, k)
    decreases n
  {
    hide Half, Odd;
    if Odd(b) {
      k := 0;
    } else {
      EvenHalf(b);
      var j := SomeHas(Half(b), n - 1);
      k := j + 1;
    }
  }

  ghost predicate SomeBit(a: bv64) {
    exists k :: 0 <= k < 64 && Has(a, k)
  }

  ghost predicate SharedBit(a: bv64, b: bv64) {
    exists k :: 0 <= k < 64 && Has(a, k) && Has(b, k)
  }

  /** Two numbers have a bit in common iff their conjunction is not 0. */
  lemma SharesIff(a: bv64, b: bv64)
    ensures Common(a, b) != 0 <==> SharedBit(a, b)
  {
    hide Has, Common;
    if Common(a, b) != 0 {
      NothingBeyond(Common(a, b));
      var k := SomeHas(Common(a, b), 64);
      CommonHas(a, b, k);
    } else {
      forall k | 0 <= k < 64 ensures !(Has(a, k) && Has(b, k)) {
        CommonHas(a, b, k);
        NoneHas(k);
      }
    }
  }

  lemma SomeIff(a: bv64)
    ensures a != 0 <==> SomeBit(a)
  {
    hide Has;
    if a != 0 {
      NothingBeyond(a);
      var k := SomeHas(a, 64);
    } else {
      forall k | 0 <= k < 64 ensures !Has(a, k) {
        NoneHas(k);
      }
    }
  }

  /** The bits of a status byte, the lowest first. */
  function StatusBit(b: bv8, k: nat): bool
    requires k < 8
  {
    match k
    case 0 => b & 0x01 != 0
    case 1 => b & 0x02 != 0
    case 2 => b & 0x04 != 0
    case 3 => b & 0x08 != 0
    case 4 => b & 0x10 != 0
    case 5 => b & 0x20 != 0
    case 6 => b & 0x40 != 0
    case _ => b & 0x80 != 0
  }

  // ---------------------------------------------------------------- what a filter selects

  predicate SameUnder(s: bv8, v: bv8, m: bv8, k: nat)
    requires k < 8
  {
    StatusBit(m, k) ==> StatusBit(s, k) == StatusBit(v, k)
  }

  /** Every bit of the status under the mask is that of the value, and, if the filter has tags, the
      torrent has one of them. */
  ghost predicate Selects(f: Filter, sbits: bv8, tag: bv64) {
    && (forall k | 0 <= k < 8 :: SameUnder(sbits, f.statusValue, f.statusMask, k))
    && (SomeBit(f.tagMask) ==> SharedBit(tag, f.tagMask))
  }

  lemma EightBits(m: bv8, v: bv8, s: bv8)
    ensures StatusAxis(m, v, s)
       <==> && SameUnder(s, v, m, 0) && SameUnder(s, v, m, 1) && SameUnder(s, v, m, 2) && SameUnder(s, v, m, 3)
            && SameUnder(s, v, m, 4) && SameUnder(s, v, m, 5) && SameUnder(s, v, m, 6) && SameUnder(s, v, m, 7)
  {
  }

  lemma StatusAxisIff(m: bv8, v: bv8, s: bv8)
    ensures StatusAxis(m, v, s) <==> forall k | 0 <= k < 8 :: SameUnder(s, v, m, k)
  {
    hide *;
    EightBits(m, v, s);
    if forall k | 0 <= k < 8 :: SameUnder(s, v, m, k) {
      assert SameUnder(s, v, m, 0) && SameUnder(s, v, m, 1) && SameUnder(s, v, m, 2) && SameUnder(s, v, m, 3);
      assert SameUnder(s, v, m, 4) && SameUnder(s, v, m, 5) && SameUnder(s, v, m, 6) && SameUnder(s, v, m, 7);
    }
  }

  lemma TagAxisIs(mask: bv64, tag: bv64)
    ensures TagAxis(mask, tag) <==> mask == 0 || Common(tag, mask) != 0
  {
  }

  lemma TagAxisIff(mask: bv64, tag: bv64)
    ensures TagAxis(mask, tag) <==> (SomeBit(mask) ==> SharedBit(tag, mask))
  {
    hide *;
    SomeIff(mask);
    SharesIff(tag, mask);
    TagAxisIs(mask, tag);
  }

  /** matched(), bit by bit: both axes must hold, the status exactly, the tags by any one. */
  lemma MatchedIff(f: Filter, sbits: bv8, tag: bv64)
    ensures Matched(f, sbits, tag) <==> Selects(f, sbits, tag)
  {
    hide SomeBit, SharedBit, SameUnder, StatusAxis, TagAxis;
    StatusAxisIff(f.statusMask, f.statusValue, sbits);
    TagAxisIff(f.tagMask, tag);
  }

  // ---------------------------------------------------------------- what a poll shows

  /** x is live and the filter selects it, going by its status and its tag. */
  ghost predicate Selected(h: History, f: Filter, x: Hash) {
    var r := Lookup(h.queue, x);
    r.Some? && Selects(f, StatusBits(r.value.entry.status.field), TagOf(h.tags, r.value.Handle()))
  }

  ghost predicate Lists(es: seq<Entry>, x: Hash) {
    exists i :: 0 <= i < |es| && es[i].status.ih == x
  }

  lemma ListsMore(es: seq<Entry>, e: Entry, x: Hash)
    ensures Lists(es + [e], x) <==> Lists(es, x) || e.status.ih == x
  {
    var more := es + [e];
    if Lists(es, x) {
      var i :| 0 <= i < |es| && es[i].status.ih == x;
      assert more[i].status.ih == x;
    }
    if e.status.ih == x {
      assert more[|es|].status.ih == x;
    }
  }

  lemma {:induction false} SentLists(
    q: seq<Slot>, tags: map<Handle, bv64>, k: nat, fOld: Filter, fNew: Filter, x: Hash)
    requires Unique(q)
    ensures Lists(Sent(q, tags, k, fOld, fNew), x)
       <==> Lookup(q, x).Some? && Judge(Lookup(q, x).value.entry, tags, k, fOld, fNew).Send?
    decreases |q|
  {
    hide Judge, Lists;
    if q == [] {
      NothingListed(x);
    } else {
      var init, last := q[..|q| - 1], q[|q| - 1];
      SentLists(init, tags, k, fOld, fNew, x);
      LookupBack(q, x);
      LookupAt(q, |q| - 1);
      hide Lookup;
      var j := Judge(last.entry, tags, k, fOld, fNew);
      var sent := Sent(init, tags, k, fOld, fNew);
      if j.Send? {
        ListsMore(sent, j.entry, x);
      } else {
        assert sent + [] == sent;
      }
    }
  }

  lemma NothingListed(x: Hash)
    ensures !Lists([], x)
  {
  }

  lemma {:induction false} EntriesList(q: seq<Slot>, x: Hash)
    requires Unique(q)
    ensures Lists(Entries(q), x) <==> Lookup(q, x).Some?
    decreases |q|
  {
    hide Lists;
    if q == [] {
      NothingListed(x);
    } else {
      EntriesList(q[..|q| - 1], x);
      LookupBack(q, x);
      assert Entries(q) == Entries(q[..|q| - 1]) + [q[|q| - 1].entry];
      ListsMore(Entries(q[..|q| - 1]), q[|q| - 1].entry, x);
    }
  }

  lemma JudgedAtZero(e: Entry, tags: map<Handle, bv64>, fOld: Filter, fNew: Filter)
    ensures var j := Judge(e, tags, 0, fOld, fNew);
            && !j.Drop?
            && (j.Send? <==> Matched(fNew, StatusBits(e.status.field), TagOf(tags, e.status.handle)))
  {
    hide Matched, StatusBits, StableSince, Refilled;
  }

  lemma EmptySelects(f: Filter, sbits: bv8, tag: bv64)
    requires f.Empty()
    ensures Matched(f, sbits, tag)
  {
  }

  /** A filtered snapshot lists exactly the live torrents that the filter selects, whatever filter
      came before, and no removals. */
  lemma SnapshotSelects(h: History, since: nat, fOld: Filter, f: Filter, x: Hash)
    requires Inv(h) && (since == 0 || since < h.horizon)
    ensures var r := QueryFiltered(h, since, fOld, f);
            r.snapshot && r.removed == [] && (Lists(r.updated, x) <==> Selected(h, f, x))
  {
    hide Inv, QueueOk, Lists, Selects, Matched, StatusBits, Lookup, Judge, Touched, Sent, Dropped, Unique;
    var r := Lookup(h.queue, x);
    QueueOkOf(h);
    if r.Some? {
      KeysArePositive(h, x);
      MatchedIff(f, StatusBits(r.value.entry.status.field), TagOf(h.tags, r.value.Handle()));
    }
    if fOld.Empty() && f.Empty() {
      TouchedLookup(h, x);
      EntriesList(h.queue[..Touched(h.queue, 0)], x);
      if r.Some? {
        EmptySelects(f, StatusBits(r.value.entry.status.field), TagOf(h.tags, r.value.Handle()));
      }
    } else {
      var scope := Scope(h, 0, fOld, f);
      ScopeAt(h, 0, fOld, f, x);
      SentLists(scope, h.tags, 0, fOld, f, x);
      NothingDropped(scope, h.tags, fOld, f);
      if r.Some? {
        JudgedAtZero(r.value.entry, h.tags, fOld, f);
      }
    }
  }

  lemma TouchedLookup(h: History, x: Hash)
    requires QueueOk(h.queue, Newest(h))
    ensures Unique(h.queue[..Touched(h.queue, 0)])
    ensures var r := Lookup(h.queue, x);
            Lookup(h.queue[..Touched(h.queue, 0)], x) == if r.Some? && r.value.key > 0 then r else None
  {
    LookupTouched(h.queue, 0, x);
  }

  lemma {:induction false} NothingDropped(q: seq<Slot>, tags: map<Handle, bv64>, fOld: Filter, fNew: Filter)
    ensures Dropped(q, tags, 0, fOld, fNew) == []
    decreases |q|
  {
    hide Judge;
    if q != [] {
      NothingDropped(q[..|q| - 1], tags, fOld, fNew);
      JudgedAtZero(q[|q| - 1].entry, tags, fOld, fNew);
    }
  }

  /** The view that the session theorems promise holds exactly the torrents the filter selects. */
  lemma ViewSelects(wire: FieldMap, h: History, f: Filter, wanted: set<nat>, x: Hash)
    ensures x in ViewOf(wire, Live(h), f, wanted) <==> wanted != {} && Selected(h, f, x)
  {
    hide Selects, Matched, StatusBits, ViewOf, Live, Lookup;
    ViewAt(wire, h, f, wanted, x);
    var r := Lookup(h.queue, x);
    if r.Some? {
      MatchedIff(f, StatusBits(r.value.entry.status.field), TagOf(h.tags, r.value.Handle()));
    }
  }
}
