/** The wire side of get-torrent-updates: the serializer's choice of fields
    (src/libtorrent_webui.cpp) and a client that applies the answers
    (bt/libtorrent-webui.js, bt/test.html). */
module TorrentClient {
  import opened Maps
  import opened TorrentHistory
  import opened TorrentLookup
  import opened TorrentTracking

  /** One internal slot as it is written: a status field or the tag. */
  datatype Cell = Field(value: Value) | TagBits(bits: bv64)

  /** What one wire field carries: the slots that map to it. */
  type WireValue = map<nat, Cell>

  /** What a client holds about one torrent, by wire field. */
  type Record = map<nat, WireValue>

  type View = map<Hash, Record>

  /** For each slot the wire field it is sent in, or a negative number. */
  type FieldMap = m: seq<int> | |m| == NUM_FIELDS && m[NUM_UNDEAD_PEERS] < 0
    witness seq(NUM_FIELDS, _ => -1)

  /** torrent_field_map, ten slots at a time. */
  function FieldRow(r: int): (row: seq<int>)
    ensures |row| == 10
    ensures forall c | 0 <= c < 10 :: row[c] < 24
  {
    match r
    case 0 => [20, 0, 0, 0, 0, 0, -1, 8, 9, -1]
    case 1 => [-1, 1, -1, -1, 3, 2, -1, -1, 21, 22]
    case 2 => [7, 6, -1, -1, 11, 10, -1, -1, -1, -1]
    case 3 => [-1, 12, -1, -1, 13, -1, 14, 14, -1, 17]
    case 4 => [18, -1, -1, -1, -1, -1, -1, 15, 16, -1]
    case 5 => [-1, -1, -1, 0, 4, 5, -1, -1, -1, 19]
    case _ => [0, 0, 0, 0, 23, -1, -1, -1, -1, -1]
  }

  const TORRENT_FIELD_MAP: FieldMap := seq(NUM_FIELDS, k => FieldRow(k / 10)[k % 10])

  function CellOf(item: Item, k: nat): Cell
    requires k < NUM_FIELDS
  {
    if k < TAG then Field(item.field[k]) else TagBits(item.tag)
  }

  function WireValueOf(wire: FieldMap, item: Item, f: nat): WireValue {
    map k: nat | k < NUM_FIELDS && wire[k] == f :: CellOf(item, k)
  }

  function RecordOf(wire: FieldMap, item: Item, fields: set<nat>): Record {
    map f | f in fields :: WireValueOf(wire, item, f)
  }

  /** The requested fields that exist on the wire. */
  function Wanted(wire: FieldMap, user: set<nat>): set<nat> {
    set f | f in user && exists k :: 0 <= k < NUM_FIELDS && wire[k] == f
  }

  lemma FieldIsSent(f: nat)
    requires f < 24
    ensures exists k :: 0 <= k < NUM_FIELDS && TORRENT_FIELD_MAP[k] == f
  {
    var slot := if f < 10 then [1, 11, 15, 14, 54, 55, 21, 20, 7, 8][f]
                else if f < 20 then [25, 24, 31, 34, 36, 47, 48, 39, 40, 59][f - 10]
                else [0, 18, 19, 64][f - 20];
    assert FieldRow(slot / 10)[slot % 10] == f;
    assert TORRENT_FIELD_MAP[slot] == f;
  }

  function OnWire(user: set<nat>): set<nat> {
    set f | f in user && f < 24
  }

  /** With the shipped table all twenty-four wire fields can be had, and no others. */
  lemma ShippedFields(user: set<nat>)
    ensures Wanted(TORRENT_FIELD_MAP, user) == OnWire(user)
  {
    forall f | f in user && f < 24 ensures f in Wanted(TORRENT_FIELD_MAP, user) {
      FieldIsSent(f);
    }
    assert forall k | 0 <= k < NUM_FIELDS :: TORRENT_FIELD_MAP[k] < 24;
  }

  predicate Newer(f: Frame, since: nat) {
    f.Unset? || f.n > since
  }

  /** The update bitmask of one torrent. */
  function Bits(wire: FieldMap, e: Entry, since: nat, snapshot: bool, user: set<nat>): set<nat> {
    set f | f in user && exists k :: 0 <= k < NUM_FIELDS && wire[k] == f && (snapshot || Newer(e.frame[k], since))
  }

  /** The per-torrent loop of the serializer; a torrent with an empty bitmask is left out. */
  function Updates(
    wire: FieldMap, es: seq<Entry>, tags: map<Handle, bv64>, since: nat, snapshot: bool, user: set<nat>): View
  {
    if es == [] then map[]
    else
      var e := es[|es| - 1];
      var rest := Updates(wire, es[..|es| - 1], tags, since, snapshot, user);
      var bits := Bits(wire, e, since, snapshot, user);
      if bits == {} then rest
      else rest[e.status.ih := RecordOf(wire, Item(e.status.field, TagOf(tags, e.status.handle)), bits)]
  }

  datatype Response = Response(frame: nat, snapshot: bool, updates: View, removed: seq<Hash>)

  /** get-torrent-updates. */
  function Answer(
    wire: FieldMap, h: History, since: nat, fOld: Filter, fNew: Filter, user: set<nat>): Response
  {
    var r := QueryFiltered(h, since, fOld, fNew);
    Response(r.current, r.snapshot, Updates(wire, r.updated, h.tags, since, r.snapshot, user), r.removed)
  }

  /** A client drops what is listed as removed (everything, on a snapshot), then merges the
      updates in. */
  function Apply(view: View, r: Response): View {
    var kept := if r.snapshot then map[] else view - (set x | x in r.removed);
    map x | x in kept.Keys + r.updates.Keys ::
      (if x in kept then kept[x] else map[]) + (if x in r.updates then r.updates[x] else map[])
  }

  predicate Visible(item: Item, f: Filter) {
    Matched(f, StatusBits(item.field), item.tag)
  }

  /** What a client with filter f should hold when the table is `table`. A client that asks
      for no field that exists is told of no torrent. */
  function ViewOf(wire: FieldMap, table: Table, f: Filter, wanted: set<nat>): View {
    if wanted == {} then map[]
    else map x | x in table && Visible(table[x], f) :: RecordOf(wire, table[x], wanted)
  }

  // ---------------------------------------------------------------- what a response says, torrent by torrent

  /** The update sent for one visited slot, if any. */
  function UpdateFor(
    wire: FieldMap, s: Slot, e: Entry, tags: map<Handle, bv64>, since: nat, snapshot: bool, user: set<nat>): View
  {
    var bits := Bits(wire, e, since, snapshot, user);
    if bits == {} then map[] else map[s.Ih() := RecordOf(wire, ItemOf(s, tags), bits)]
  }

  lemma UpdatesOneMore(
    wire: FieldMap, es: seq<Entry>, s: Slot, e: Entry, tags: map<Handle, bv64>, since: nat, snapshot: bool,
    user: set<nat>, x: Hash)
    requires e.status == s.entry.status
    ensures var before, after := Updates(wire, es, tags, since, snapshot, user),
                                 Updates(wire, es + [e], tags, since, snapshot, user);
            && (x != s.Ih() ==> SameAt(after, before, x))
            && (s.Ih() !in before ==> SameAt(after, UpdateFor(wire, s, e, tags, since, snapshot, user), s.Ih()))
  {
    assert (es + [e])[..|es|] == es;
  }

  /** The filtered loop, seen torrent by torrent. */
  lemma {:induction false} SentAt(
    wire: FieldMap, q: seq<Slot>, tags: map<Handle, bv64>, k: nat, fOld: Filter, fNew: Filter,
    since: nat, snapshot: bool, user: set<nat>, x: Hash)
    requires Unique(q)
    ensures var sent := Updates(wire, Sent(q, tags, k, fOld, fNew), tags, since, snapshot, user);
            match Lookup(q, x)
            case None => x !in sent
            case Some(s) =>
              var j := Judge(s.entry, tags, k, fOld, fNew);
              if j.Send? then SameAt(sent, UpdateFor(wire, s, j.entry, tags, since, snapshot, user), x) else x !in sent
    decreases |q|
  {
    hide Judge, UpdateFor;
    if q == [] {
      hide Lookup;
    } else {
      hide Updates;
      var init, last := q[..|q| - 1], q[|q| - 1];
      SentAt(wire, init, tags, k, fOld, fNew, since, snapshot, user, x);
      LookupBack(q, x);
      LookupAt(q, |q| - 1);
      hide Lookup;
      var j := Judge(last.entry, tags, k, fOld, fNew);
      var sent := Sent(init, tags, k, fOld, fNew);
      if j.Send? {
        UpdatesOneMore(wire, sent, last, j.entry, tags, since, snapshot, user, x);
      } else {
        assert sent + [] == sent;
      }
    }
  }

  /** The plain loop, seen torrent by torrent. */
  lemma {:induction false} EntriesAt(
    wire: FieldMap, q: seq<Slot>, tags: map<Handle, bv64>, since: nat, snapshot: bool, user: set<nat>, x: Hash)
    requires Unique(q)
    ensures var sent := Updates(wire, Entries(q), tags, since, snapshot, user);
            match Lookup(q, x)
            case None => x !in sent
            case Some(s) => SameAt(sent, UpdateFor(wire, s, s.entry, tags, since, snapshot, user), x)
    decreases |q|
  {
    hide UpdateFor;
    if q != [] {
      hide Updates;
      var init, last := q[..|q| - 1], q[|q| - 1];
      EntriesAt(wire, init, tags, since, snapshot, user, x);
      LookupBack(q, x);
      LookupAt(q, |q| - 1);
      assert Entries(q) == Entries(init) + [last.entry];
      UpdatesOneMore(wire, Entries(init), last, last.entry, tags, since, snapshot, user, x);
    }
  }

  lemma {:induction false} DroppedAt(
    q: seq<Slot>, tags: map<Handle, bv64>, k: nat, fOld: Filter, fNew: Filter, x: Hash)
    requires Unique(q)
    ensures x in Dropped(q, tags, k, fOld, fNew)
       <==> Lookup(q, x).Some? && Judge(Lookup(q, x).value.entry, tags, k, fOld, fNew).Drop?
    decreases |q|
  {
    hide Judge;
    if q != [] {
      DroppedAt(q[..|q| - 1], tags, k, fOld, fNew, x);
      LookupBack(q, x);
      LookupAt(q, |q| - 1);
    }
  }
}
