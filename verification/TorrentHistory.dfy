/** src/torrent_history.cpp, src/torrent_history.hpp: the live torrent table with a "last
    changed" frame per field, tags, tombstones and the deferred frame counter.

    Every operation is a function on the value `History`; the class `TorrentHistory` at the end
    is the mutable object, each of whose methods is proved to compute that function. */
module TorrentHistory {
  import opened Tombstones

  type Hash = int
  type Handle = int

  // Slots of the per-field frame array (the entry's enum); slots below TAG are status fields.
  const STATE := 0
  const STATUS_FLAGS := 1
  const ERRC := 8
  const NUM_UNDEAD_PEERS := 41
  const TAG := 64
  const NUM_FIELDS := 65

  // libtorrent's torrent_status::state_t
  const CHECKING_FILES := 1
  const DOWNLOADING_METADATA := 2
  const FINISHED := 4
  const SEEDING := 5
  const CHECKING_RESUME_DATA := 7

  // The two flag bits projected into STATUS_FLAGS.
  const PAUSED: bv8 := 0x01
  const AUTO_MANAGED: bv8 := 0x02

  /** What a status slot holds. All but the three filter inputs are opaque numbers. */
  datatype Value = Plain(n: int) | State(state: int) | Flags(bits: bv8) | Error(code: int)

  type Fields = f: seq<Value> | |f| == TAG witness seq(TAG, _ => Plain(0))

  /** libtorrent's torrent_status: identity, handle, and one value per tracked slot. */
  datatype Status = Status(ih: Hash, handle: Handle, field: Fields)

  /** A frame counter; `Unset` is the all-ones sentinel the tag slot is born with. */
  datatype Frame = At(n: nat) | Unset

  type Frames = f: seq<Frame> | |f| == NUM_FIELDS witness seq(NUM_FIELDS, _ => At(0))

  datatype Entry = Entry(status: Status, frame: Frames, added: nat)

  /** One node of the bimap's left list: the frame the torrent was last touched in. */
  datatype Slot = Slot(key: nat, entry: Entry) {
    function Ih(): Hash { entry.status.ih }
    function Handle(): Handle { entry.status.handle }
  }

  /** The filter inputs of a torrent at the moment it was removed. */
  datatype Verdict = Verdict(sbits: bv8, tag: bv64)

  datatype History = History(
    queue: seq<Slot>,
    tags: map<Handle, bv64>,
    removed: seq<Tombstone<Verdict>>,
    frame: nat,
    deferred: bool,
    horizon: nat,
    limit: nat
  )

  datatype Filter = Filter(statusMask: bv8, statusValue: bv8, tagMask: bv64) {
    predicate Empty() { statusMask == 0 && tagMask == 0 }
  }

  const NO_FILTER := Filter(0, 0, 0)

  // ---------------------------------------------------------------- filter inputs

  function StatusBits(f: Fields): bv8 {
    (if f[STATUS_FLAGS].Flags? && f[STATUS_FLAGS].bits & PAUSED != 0 then 0x01 else 0)
    | (if f[STATUS_FLAGS].Flags? && f[STATUS_FLAGS].bits & AUTO_MANAGED != 0 then 0x02 else 0)
    | (if f[ERRC].Error? && f[ERRC].code != 0 then 0x08 else 0)
    | (if !f[STATE].State? then 0x40 else
       if f[STATE].state == CHECKING_FILES || f[STATE].state == CHECKING_RESUME_DATA then 0x10 else
       if f[STATE].state == DOWNLOADING_METADATA then 0x20 else
       if f[STATE].state == FINISHED || f[STATE].state == SEEDING then 0x80 else 0x40)
  }

  /** All the masked bits of the status are those of the value. */
  predicate StatusAxis(mask: bv8, value: bv8, sbits: bv8) {
    mask == 0 || sbits & mask == value & mask
  }

  /** Any of the masked tags. */
  predicate TagAxis(mask: bv64, tag: bv64) {
    mask == 0 || tag & mask != 0
  }

  predicate Matched(f: Filter, sbits: bv8, tag: bv64) {
    StatusAxis(f.statusMask, f.statusValue, sbits) && TagAxis(f.tagMask, tag)
  }

  function TagOf(tags: map<Handle, bv64>, h: Handle): bv64 {
    if h in tags then tags[h] else 0
  }

  // ---------------------------------------------------------------- the queue

  /** Position of the torrent, or |q| when it is not there. */
  function IndexOf(q: seq<Slot>, ih: Hash): (i: nat)
    ensures i <= |q|
    ensures i < |q| ==> q[i].Ih() == ih
    ensures forall j | 0 <= j < i :: q[j].Ih() != ih
  {
    if q == [] || q[0].Ih() == ih then 0 else 1 + IndexOf(q[1..], ih)
  }

  function RemoveAt(q: seq<Slot>, i: nat): seq<Slot>
    requires i < |q|
  {
    q[..i] + q[i + 1..]
  }

  /** Number of leading slots touched after `since`: where the early break stops. */
  function Touched(q: seq<Slot>, since: nat): (n: nat)
    ensures n <= |q|
    ensures forall j | 0 <= j < n :: q[j].key > since
    ensures n < |q| ==> q[n].key <= since
  {
    if q == [] || q[0].key <= since then 0 else 1 + Touched(q[1..], since)
  }

  function NewEntry(st: Status, f: nat): Entry {
    Entry(st, seq(NUM_FIELDS, k => if k == TAG then Unset else At(f)), f)
  }

  /** Every slot that has a status member and differs gets the new frame. */
  function UpdatedEntry(e: Entry, st: Status, f: nat): Entry {
    Entry(st, seq(NUM_FIELDS, k requires 0 <= k < NUM_FIELDS => UpdatedFrame(e, st, f, k)), e.added)
  }

  function UpdatedFrame(e: Entry, st: Status, f: nat, k: nat): Frame
    requires k < NUM_FIELDS
  {
    if k < TAG && k != NUM_UNDEAD_PEERS && st.field[k] != e.status.field[k] then At(f) else e.frame[k]
  }

  // ---------------------------------------------------------------- alerts and set_tag

  function Init(limit: nat): History {
    History([], map[], [], 1, false, 0, limit)
  }

  function AddTorrent(h: History, st: Status): History {
    // the bimap refuses a second entry with the same info-hash
    var queue := if IndexOf(h.queue, st.ih) < |h.queue| then h.queue
                 else [Slot(h.frame + 1, NewEntry(st, h.frame + 1))] + h.queue;
    h.(queue := queue, deferred := true)
  }

  /** What a removal records: when, since when the torrent was known, and its filter inputs. */
  function StoneFor(h: History, ih: Hash, handle: Handle): Tombstone<Verdict> {
    var i := IndexOf(h.queue, ih);
    var tag := TagOf(h.tags, handle);
    if i == |h.queue| then Tombstone(h.frame + 1, h.frame + 1, ih, Verdict(0, tag))
    else
      var e := h.queue[i].entry;
      Tombstone(h.frame + 1, e.added, ih, Verdict(StatusBits(e.status.field), tag))
  }

  function Without(q: seq<Slot>, ih: Hash): seq<Slot> {
    var i := IndexOf(q, ih);
    if i == |q| then q else RemoveAt(q, i)
  }

  function RemoveTorrent(h: History, ih: Hash, handle: Handle): History {
    var kept := Evict([StoneFor(h, ih, handle)] + h.removed, h.horizon, h.limit);
    h.(
      queue := Without(h.queue, ih),
      tags := h.tags - {handle},
      removed := kept.0,
      horizon := kept.1,
      deferred := true)
  }

  function UpdateOne(q: seq<Slot>, st: Status, f: nat): seq<Slot> {
    var i := IndexOf(q, st.ih);
    if i == |q| then q else [Slot(f, UpdatedEntry(q[i].entry, st, f))] + RemoveAt(q, i)
  }

  function UpdateAll(q: seq<Slot>, sts: seq<Status>, f: nat): seq<Slot>
    decreases |sts|
  {
    if sts == [] then q
    else UpdateOne(UpdateAll(q, sts[..|sts| - 1], f), sts[|sts| - 1], f)
  }

  function StateUpdate(h: History, sts: seq<Status>): History {
    h.(queue := UpdateAll(h.queue, sts, h.frame + 1), frame := h.frame + 1, deferred := false)
  }

  function MergeTag(old_: bv64, value: bv64, mask: bv64): bv64 {
    (old_ & !mask) | (value & mask)
  }

  /** Absent means zero, so the map stays sparse. */
  function PutTag(tags: map<Handle, bv64>, handle: Handle, tag: bv64): map<Handle, bv64> {
    if tag == 0 then tags - {handle} else tags[handle := tag]
  }

  function SetTag(h: History, ih: Hash, value: bv64, mask: bv64): (r: (History, bool)) {
    var i := IndexOf(h.queue, ih);
    if mask == 0 || i == |h.queue| then (h, false)
    else
      var e := h.queue[i].entry;
      var handle := e.status.handle;
      var oldTag := TagOf(h.tags, handle);
      var newTag := MergeTag(oldTag, value, mask);
      if newTag == oldTag && e.frame[TAG] != Unset then (h, false)
      else
        var moved := Slot(h.frame + 1, e.(frame := e.frame[TAG := At(h.frame + 1)]));
        (h.(
          tags := PutTag(h.tags, handle, newTag),
          queue := [moved] + RemoveAt(h.queue, i),
          deferred := true),
         true)
  }

  /** current_frame_locked: consume the deferred slot, if any. */
  function Flush(h: History): History {
    if h.deferred then h.(frame := h.frame + 1, deferred := false) else h
  }

  // ---------------------------------------------------------------- queries

  datatype QueryResult = QueryResult(current: nat, snapshot: bool, updated: seq<Entry>, removed: seq<Hash>)

  /** filter_inputs_stable_since: the tag sentinel counts as frame 0. */
  predicate StableSince(e: Entry, since: nat) {
    e.frame[STATE] != Unset && e.frame[STATE].n <= since
    && e.frame[STATUS_FLAGS] != Unset && e.frame[STATUS_FLAGS].n <= since
    && e.frame[ERRC] != Unset && e.frame[ERRC].n <= since
    && (e.frame[TAG] == Unset || e.frame[TAG].n <= since)
  }

  function Clamp(h: History, since: nat): nat {
    if since < h.horizon then 0 else since
  }

  function MatchesOld(f: Filter): Tombstone<Verdict> -> bool {
    (t: Tombstone<Verdict>) => Matched(f, t.info.sbits, t.info.tag)
  }

  function RemovedSince(h: History, since: nat, f: Filter): seq<Hash> {
    if since == 0 then [] else Reported(h.removed, since, MatchesOld(f))
  }

  function Entries(q: seq<Slot>): seq<Entry> {
    seq(|q|, i requires 0 <= i < |q| => q[i].entry)
  }

  function Query(h: History, since: nat): QueryResult {
    var k := Clamp(h, since);
    QueryResult(
      Flush(h).frame, k == 0, Entries(h.queue[..Touched(h.queue, k)]), RemovedSince(h, k, NO_FILTER))
  }

  /** What query_filtered does with one visited torrent. */
  datatype Outcome = Skip | Drop | Send(entry: Entry)

  function Refilled(e: Entry, since: nat): Entry {
    e.(frame := seq(NUM_FIELDS, _ => At(since + 1)))
  }

  function Judge(e: Entry, tags: map<Handle, bv64>, since: nat, fOld: Filter, fNew: Filter): (r: Outcome)
    ensures r.Send? ==> r.entry.status == e.status
  {
    var tag := TagOf(tags, e.status.handle);
    var sbits := StatusBits(e.status.field);
    var certain := fOld.Empty() || StableSince(e, since);
    var then_ := since != 0 && certain && Matched(fOld, sbits, tag);
    if Matched(fNew, sbits, tag) then Send(if then_ then e else Refilled(e, since))
    else if since != 0 && e.added <= since && (then_ || !certain) then Drop
    else Skip
  }

  function Sent(q: seq<Slot>, tags: map<Handle, bv64>, since: nat, fOld: Filter, fNew: Filter): seq<Entry> {
    if q == [] then []
    else
      var last := Judge(q[|q| - 1].entry, tags, since, fOld, fNew);
      Sent(q[..|q| - 1], tags, since, fOld, fNew) + (if last.Send? then [last.entry] else [])
  }

  function Dropped(q: seq<Slot>, tags: map<Handle, bv64>, since: nat, fOld: Filter, fNew: Filter): seq<Hash> {
    if q == [] then []
    else
      var last := Judge(q[|q| - 1].entry, tags, since, fOld, fNew);
      Dropped(q[..|q| - 1], tags, since, fOld, fNew) + (if last.Drop? then [q[|q| - 1].Ih()] else [])
  }

  lemma NothingVisited(q: seq<Slot>, tags: map<Handle, bv64>, since: nat, fOld: Filter, fNew: Filter)
    ensures Sent(q[..0], tags, since, fOld, fNew) == [] && Dropped(q[..0], tags, since, fOld, fNew) == []
  {
  }

  lemma VisitStep(q: seq<Slot>, i: nat, tags: map<Handle, bv64>, since: nat, fOld: Filter, fNew: Filter)
    requires i < |q|
    ensures var j := Judge(q[i].entry, tags, since, fOld, fNew);
            && Sent(q[..i + 1], tags, since, fOld, fNew)
               == (if j.Send? then Sent(q[..i], tags, since, fOld, fNew) + [j.entry]
                   else Sent(q[..i], tags, since, fOld, fNew))
            && Dropped(q[..i + 1], tags, since, fOld, fNew)
               == (if j.Drop? then Dropped(q[..i], tags, since, fOld, fNew) + [q[i].Ih()]
                   else Dropped(q[..i], tags, since, fOld, fNew))
  {
    hide Judge;
    assert q[..i + 1][..i] == q[..i];
  }

  /** The torrents the loop of query_filtered visits. */
  function Scope(h: History, since: nat, fOld: Filter, fNew: Filter): seq<Slot> {
    if fOld == fNew then h.queue[..Touched(h.queue, since)] else h.queue
  }

  function QueryFiltered(h: History, since: nat, fOld: Filter, fNew: Filter): QueryResult {
    if fOld.Empty() && fNew.Empty() then Query(h, since)
    else
      var k := Clamp(h, since);
      var scope := Scope(h, k, fOld, fNew);
      QueryResult(
        Flush(h).frame,
        k == 0,
        Sent(scope, h.tags, k, fOld, fNew),
        Dropped(scope, h.tags, k, fOld, fNew) + RemovedSince(h, k, fOld))
  }

  // ---------------------------------------------------------------- the object

  class TorrentHistory {
    var queue: seq<Slot>
    var tags: map<Handle, bv64>
    var removed: seq<Tombstone<Verdict>>
    var frame: nat
    var deferred: bool
    var horizon: nat
    const limit: nat

    ghost function Model(): History
      reads this
    {
      History(queue, tags, removed, frame, deferred, horizon, limit)
    }

    constructor (maxTombstones: nat)
      ensures Model() == Init(maxTombstones)
    {
      queue, tags, removed := [], map[], [];
      frame, deferred, horizon := 1, false, 0;
      limit := maxTombstones;
    }

    method OnAddTorrent(st: Status)
      modifies this
      ensures Model() == AddTorrent(old(Model()), st)
    {
      if IndexOf(queue, st.ih) == |queue| {
        queue := [Slot(frame + 1, NewEntry(st, frame + 1))] + queue;
      }
      deferred := true;
    }

    method OnTorrentRemoved(ih: Hash, handle: Handle)
      modifies this
      ensures Model() == RemoveTorrent(old(Model()), ih, handle)
    {
      var stone := MakeTombstone(ih, handle);
      tags := tags - {handle};
      queue := Without(queue, ih);
      removed := [stone] + removed;
      removed, horizon := DropOldest(removed, horizon, limit);
      deferred := true;
    }

    /** Reads the filter inputs before anything is erased. */
    method MakeTombstone(ih: Hash, handle: Handle) returns (stone: Tombstone<Verdict>)
      ensures stone == StoneFor(Model(), ih, handle)
    {
      var addedFrame, sbits := frame + 1, 0;
      var i := IndexOf(queue, ih);
      if i < |queue| {
        addedFrame := queue[i].entry.added;
        sbits := StatusBits(queue[i].entry.status.field);
      }
      stone := Tombstone(frame + 1, addedFrame, ih, Verdict(sbits, TagOf(tags, handle)));
    }

    method OnStateUpdate(sts: seq<Status>)
      modifies this
      ensures Model() == StateUpdate(old(Model()), sts)
    {
      frame := frame + 1;
      deferred := false;
      for n := 0 to |sts|
        invariant queue == UpdateAll(old(queue), sts[..n], frame)
        invariant Model() == old(Model()).(queue := queue, frame := old(frame) + 1, deferred := false)
      {
        assert sts[..n + 1][..n] == sts[..n];
        var st := sts[n];
        var i := IndexOf(queue, st.ih);
        if i < |queue| {
          var moved := Slot(frame, UpdatedEntry(queue[i].entry, st, frame));
          queue := [moved] + RemoveAt(queue, i);
        }
      }
      assert sts[..|sts|] == sts;
    }

    method SetTagBits(ih: Hash, value: bv64, mask: bv64) returns (changed: bool)
      modifies this
      ensures (Model(), changed) == SetTag(old(Model()), ih, value, mask)
    {
      hide MergeTag, PutTag, TagOf, RemoveAt;
      if mask == 0 {
        return false;
      }
      var i := IndexOf(queue, ih);
      if i == |queue| {
        return false;
      }
      var e := queue[i].entry;
      var handle := e.status.handle;
      var oldTag := TagOf(tags, handle);
      var newTag := MergeTag(oldTag, value, mask);
      var firstDelivery := e.frame[TAG] == Unset;
      if newTag == oldTag && !firstDelivery {
        return false;
      }
      tags := PutTag(tags, handle, newTag);
      var f := frame + 1;
      queue := [Slot(f, e.(frame := e.frame[TAG := At(f)]))] + RemoveAt(queue, i);
      deferred := true;
      return true;
    }

    method CurrentFrame() returns (current: nat)
      modifies this
      ensures Model() == Flush(old(Model())) && current == frame
    {
      if deferred {
        deferred := false;
        frame := frame + 1;
      }
      current := frame;
    }

    method QuerySince(sinceFrame: nat) returns (r: QueryResult)
      modifies this
      ensures Model() == Flush(old(Model()))
      ensures r == Query(old(Model()), sinceFrame)
    {
      hide Matched, MatchesOld, Reported, StatusBits, TagOf;
      var current := CurrentFrame();
      var since := if sinceFrame < horizon then 0 else sinceFrame;
      var updated: seq<Entry> := [];
      var i := 0;
      while i < |queue| && queue[i].key > since
        invariant Model() == Flush(old(Model()))
        invariant i <= Touched(queue, since)
        invariant updated == Entries(queue[..i])
      {
        TouchedStep(queue, since, i);
        updated := updated + [queue[i].entry];
        i := i + 1;
      }
      TouchedStep(queue, since, i);
      var gone := AppendRemoved(since, NO_FILTER);
      r := QueryResult(current, since == 0, updated, gone);
    }

    method QueryWithFilters(sinceFrame: nat, fOld: Filter, fNew: Filter) returns (r: QueryResult)
      modifies this
      ensures Model() == Flush(old(Model()))
      ensures r == QueryFiltered(old(Model()), sinceFrame, fOld, fNew)
    {
      if fOld.Empty() && fNew.Empty() {
        r := QuerySince(sinceFrame);
        return;
      }
      var current := CurrentFrame();
      var since := if sinceFrame < horizon then 0 else sinceFrame;
      var updated, dropped := VisitQueue(since, fOld, fNew);
      var gone := AppendRemoved(since, fOld);
      r := QueryResult(current, since == 0, updated, dropped + gone);
    }

    /** The loop of query_filtered, with its early break when the filter did not change. */
    method VisitQueue(since: nat, fOld: Filter, fNew: Filter) returns (updated: seq<Entry>, dropped: seq<Hash>)
      ensures updated == Sent(Scope(Model(), since, fOld, fNew), tags, since, fOld, fNew)
      ensures dropped == Dropped(Scope(Model(), since, fOld, fNew), tags, since, fOld, fNew)
    {
      hide Judge, Sent, Dropped, Touched;
      var breakOnOld := fOld == fNew;
      updated, dropped := [], [];
      var i := 0;
      NothingVisited(queue, tags, since, fOld, fNew);
      while i < |queue| && !(breakOnOld && queue[i].key <= since)
        invariant i <= |queue| && (breakOnOld ==> i <= Touched(queue, since))
        invariant updated == Sent(queue[..i], tags, since, fOld, fNew)
        invariant dropped == Dropped(queue[..i], tags, since, fOld, fNew)
      {
        TouchedStep(queue, since, i);
        VisitStep(queue, i, tags, since, fOld, fNew);
        match Judge(queue[i].entry, tags, since, fOld, fNew) {
          case Skip =>
          case Drop => dropped := dropped + [queue[i].Ih()];
          case Send(e) => updated := updated + [e];
        }
        i := i + 1;
      }
      TouchedStep(queue, since, i);
      assert queue[..|queue|] == queue;
      assert queue[..i] == Scope(Model(), since, fOld, fNew);
    }

    method AppendRemoved(since: nat, f: Filter) returns (keys: seq<Hash>)
      ensures keys == RemovedSince(Model(), since, f)
    {
      if since == 0 {
        keys := [];
      } else {
        keys := ScanReported(removed, since, MatchesOld(f));
      }
    }
  }

  /** A scan that has passed only touched slots ends exactly where it meets an untouched one. */
  lemma TouchedStep(q: seq<Slot>, since: nat, i: nat)
    requires i <= |q|
    ensures i <= Touched(q, since) && i < |q| && q[i].key > since ==> i + 1 <= Touched(q, since)
    ensures i <= Touched(q, since) && (i == |q| || q[i].key <= since) ==> i == Touched(q, since)
  {
  }

  // ---------------------------------------------------------------- what the filter inputs mean

  /** Two flag bits, an error bit, one reserved bit, and one bit out of four for the state. */
  lemma StatusBitsMean(f: Fields)
    ensures var b := StatusBits(f);
            && (b & 0x01 != 0 <==> f[STATUS_FLAGS].Flags? && f[STATUS_FLAGS].bits & PAUSED != 0)
            && (b & 0x02 != 0 <==> f[STATUS_FLAGS].Flags? && f[STATUS_FLAGS].bits & AUTO_MANAGED != 0)
            && b & 0x04 == 0
            && (b & 0x08 != 0 <==> f[ERRC].Error? && f[ERRC].code != 0)
            && b & 0xf0 in {0x10, 0x20, 0x40, 0x80}
            && (b & 0x80 != 0 <==> f[STATE].State? && f[STATE].state in {FINISHED, SEEDING})
            && (b & 0x10 != 0 <==> f[STATE].State? && f[STATE].state in {CHECKING_FILES, CHECKING_RESUME_DATA})
            && (b & 0x20 != 0 <==> f[STATE].State? && f[STATE].state == DOWNLOADING_METADATA)
            && (b & 0x40 != 0 <==>
                  !f[STATE].State?
                  || f[STATE].state !in
                       {CHECKING_FILES, CHECKING_RESUME_DATA, DOWNLOADING_METADATA, FINISHED, SEEDING})
  {
  }

  /** The tag has the bits of `value` under the mask and those of `old_` elsewhere. */
  predicate TakesMasked(tag: bv64, old_: bv64, value: bv64, mask: bv64) {
    tag & mask == value & mask && tag & !mask == old_ & !mask
  }

  lemma MergeTakesMasked(old_: bv64, value: bv64, mask: bv64)
    ensures TakesMasked(MergeTag(old_, value, mask), old_, value, mask)
  {
    hide MergeTag;
    MaskedBitsSet(old_, value, mask);
    OtherBitsStay(old_, value, mask);
  }

  lemma MaskedBitsSet(old_: bv64, value: bv64, mask: bv64)
    ensures MergeTag(old_, value, mask) & mask == value & mask
  {
  }

  lemma OtherBitsStay(old_: bv64, value: bv64, mask: bv64)
    ensures MergeTag(old_, value, mask) & !mask == old_ & !mask
  {
  }

  lemma MergeTwice(old_: bv64, value: bv64, mask: bv64)
    ensures MergeTag(MergeTag(old_, value, mask), value, mask) == MergeTag(old_, value, mask)
  {
  }

  lemma PutTagAt(tags: map<Handle, bv64>, handle: Handle, tag: bv64, other: Handle)
    ensures TagOf(PutTag(tags, handle, tag), other) == if other == handle then tag else TagOf(tags, other)
  {
  }

  lemma SetTagIs(h: History, ih: Hash, value: bv64, mask: bv64)
    requires IndexOf(h.queue, ih) < |h.queue| && mask != 0
    ensures var handle := h.queue[IndexOf(h.queue, ih)].Handle();
            var h' := SetTag(h, ih, value, mask).0;
            && TagOf(h'.tags, handle) == MergeTag(TagOf(h.tags, handle), value, mask)
            && IndexOf(h'.queue, ih) < |h'.queue| && h'.queue[IndexOf(h'.queue, ih)].Handle() == handle
            && h'.queue[IndexOf(h'.queue, ih)].entry.frame[TAG] != Unset
  {
    hide MergeTag, PutTag, TagOf, RemoveAt;
    var i := IndexOf(h.queue, ih);
    var handle := h.queue[i].Handle();
    PutTagAt(h.tags, handle, MergeTag(TagOf(h.tags, handle), value, mask), handle);
  }

  lemma OtherTagsStay(h: History, ih: Hash, value: bv64, mask: bv64, other: Handle)
    requires IndexOf(h.queue, ih) < |h.queue| && other != h.queue[IndexOf(h.queue, ih)].Handle()
    ensures TagOf(SetTag(h, ih, value, mask).0.tags, other) == TagOf(h.tags, other)
  {
    hide MergeTag, PutTag, TagOf, RemoveAt, IndexOf;
    var handle := h.queue[IndexOf(h.queue, ih)].Handle();
    PutTagAt(h.tags, handle, MergeTag(TagOf(h.tags, handle), value, mask), other);
  }

  lemma NothingToSet(h: History, ih: Hash, value: bv64, mask: bv64)
    requires IndexOf(h.queue, ih) < |h.queue|
    requires var e := h.queue[IndexOf(h.queue, ih)].entry;
             && MergeTag(TagOf(h.tags, e.status.handle), value, mask) == TagOf(h.tags, e.status.handle)
             && e.frame[TAG] != Unset
    ensures SetTag(h, ih, value, mask) == (h, false)
  {
    hide MergeTag, PutTag, TagOf, RemoveAt, IndexOf;
  }

  /** set_tag sets exactly the masked bits of that torrent's tag and no other torrent's, and a
      second call with the same arguments changes nothing and says so. */
  lemma SetTagSettles(h: History, ih: Hash, value: bv64, mask: bv64, other: Handle)
    requires IndexOf(h.queue, ih) < |h.queue| && mask != 0
    ensures var handle := h.queue[IndexOf(h.queue, ih)].Handle();
            var h' := SetTag(h, ih, value, mask).0;
            && TakesMasked(TagOf(h'.tags, handle), TagOf(h.tags, handle), value, mask)
            && (other != handle ==> TagOf(h'.tags, other) == TagOf(h.tags, other))
            && SetTag(h', ih, value, mask) == (h', false)
  {
    hide MergeTag, TakesMasked, PutTag, TagOf, RemoveAt, IndexOf, SetTag;
    var handle := h.queue[IndexOf(h.queue, ih)].Handle();
    SetTagIs(h, ih, value, mask);
    if other != handle {
      OtherTagsStay(h, ih, value, mask, other);
    }
    MergeTakesMasked(TagOf(h.tags, handle), value, mask);
    MergeTwice(TagOf(h.tags, handle), value, mask);
    NothingToSet(SetTag(h, ih, value, mask).0, ih, value, mask);
  }
}
