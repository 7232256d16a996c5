/** What a torrent delta leaves out, over whole runs: fields that have not changed, and everything
    about torrents whose place in the client's view has not changed. And what it may not leave out:
    a change of anything the serializer reads for a field (src/libtorrent_webui.cpp). */
module TorrentMinimal {
  import opened Basics
  import opened Maps
  import opened TorrentHistory
  import opened TorrentLookup
  import opened TorrentTracking
  import opened TorrentClient
  import opened TorrentSync
  import opened TorrentSession

  // ---------------------------------------------------------------- steps that leave a slot alone

  /** The step does not remove the torrent, and what it says of slot k is what slot k holds. A tag
      that was never delivered is not even set to what it is. */
  ghost predicate Keeps(s: Slot, tag: bv64, step: Step, k: nat)
    requires k < NUM_FIELDS
  {
    match step
    case Remove(ih, _) => ih != s.Ih()
    case Update(sts) => k < TAG ==> SameSlot(sts, s, k)
    case Tag(ih, value, mask) =>
      k == TAG && ih == s.Ih() ==> if s.entry.frame[TAG] == Unset then mask == 0 else SameUnderMask(tag, value, mask)
    case _ => true
  }

  ghost predicate SameSlot(sts: seq<Status>, s: Slot, k: nat)
    requires k < TAG
  {
    forall i | 0 <= i < |sts| && sts[i].ih == s.Ih() :: sts[i].field[k] == s.entry.status.field[k]
  }

  predicate SameUnderMask(tag: bv64, value: bv64, mask: bv64) {
    tag & mask == value & mask
  }

  lemma MergeOfSame(tag: bv64, value: bv64, mask: bv64)
    requires SameUnderMask(tag, value, mask)
    ensures MergeTag(tag, value, mask) == tag
  {
  }

  /** Both slots of a torrent agree on slot k and since when it has its value. */
  ghost predicate SameAtSlot(s: Slot, tags: map<Handle, bv64>, s': Slot, tags': map<Handle, bv64>, k: nat)
    requires k < NUM_FIELDS
  {
    && s'.Ih() == s.Ih() && s'.Handle() == s.Handle() && s'.entry.added == s.entry.added
    && s'.entry.frame[k] == s.entry.frame[k]
    && CellOf(ItemOf(s', tags'), k) == CellOf(ItemOf(s, tags), k)
  }

  lemma UpdatedKeeps(e: Entry, st: Status, f: nat, k: nat)
    requires k < NUM_FIELDS && (k < TAG ==> st.field[k] == e.status.field[k])
    ensures UpdatedEntry(e, st, f).frame[k] == e.frame[k] && UpdatedEntry(e, st, f).added == e.added
    ensures UpdatedEntry(e, st, f).status == st
  {
  }

  lemma {:induction false} UpdateAllKeeps(
    q: seq<Slot>, sts: seq<Status>, f: nat, s: Slot, tags: map<Handle, bv64>, k: nat)
    requires Unique(q) && Lookup(q, s.Ih()) == Some(s) && k < NUM_FIELDS
    requires k < TAG ==> SameSlot(sts, s, k)
    requires forall st | st in sts :: HandleFits(q, st.ih, st.handle)
    ensures Unique(UpdateAll(q, sts, f))
    ensures var r := Lookup(UpdateAll(q, sts, f), s.Ih());
            r.Some? && SameAtSlot(s, tags, r.value, tags, k)
    decreases |sts|
  {
    hide Lookup, UpdatedEntry, UpdateOne;
    if sts != [] {
      var init, st := sts[..|sts| - 1], sts[|sts| - 1];
      UpdateAllKeeps(q, init, f, s, tags, k);
      var p := UpdateAll(q, init, f);
      UpdateOneAt(p, st, f, s.Ih());
      assert st in sts && HandleFits(q, st.ih, st.handle);
      UpdatedKeepsAt(p, st, f, s, k);
    }
  }

  lemma UpdatedKeepsAt(p: seq<Slot>, st: Status, f: nat, s: Slot, k: nat)
    requires Lookup(p, s.Ih()).Some? && k < NUM_FIELDS
    requires var o := Lookup(p, s.Ih()).value;
             k < TAG && st.ih == s.Ih() ==> st.field[k] == o.entry.status.field[k]
    ensures var o := Lookup(p, s.Ih()).value;
            var e := UpdatedEntry(o.entry, st, f);
            st.ih == s.Ih() ==> e.frame[k] == o.entry.frame[k] && e.added == o.entry.added && e.status == st
  {
    hide Lookup, UpdatedEntry;
    if st.ih == s.Ih() {
      UpdatedKeeps(Lookup(p, s.Ih()).value.entry, st, f, k);
    }
  }

  lemma UpdateOneAt(p: seq<Slot>, st: Status, f: nat, x: Hash)
    requires Unique(p)
    ensures Unique(UpdateOne(p, st, f))
    ensures Lookup(UpdateOne(p, st, f), x)
         == if x == st.ih && Lookup(p, x).Some? then Some(Slot(f, UpdatedEntry(Lookup(p, x).value.entry, st, f)))
            else Lookup(p, x)
  {
    hide UpdatedEntry;
    var i := IndexOf(p, st.ih);
    if i < |p| {
      StatusOfUpdated(p[i].entry, st, f);
      TouchLookup(p, Slot(f, UpdatedEntry(p[i].entry, st, f)), x);
    }
  }

  lemma StatusOfUpdated(e: Entry, st: Status, f: nat)
    ensures UpdatedEntry(e, st, f).status == st
  {
  }

  lemma SameItself(s: Slot, tags: map<Handle, bv64>, tags': map<Handle, bv64>, k: nat)
    requires k < NUM_FIELDS && TagOf(tags', s.Handle()) == TagOf(tags, s.Handle())
    ensures SameAtSlot(s, tags, s, tags', k)
  {
    hide TagOf;
  }

  lemma AddKeepsSlot(h: History, st: Status, x: Hash, k: nat)
    requires Lookup(h.queue, x).Some? && k < NUM_FIELDS
    ensures var r := Lookup(AddTorrent(h, st).queue, x);
            r.Some? && SameAtSlot(Lookup(h.queue, x).value, h.tags, r.value, AddTorrent(h, st).tags, k)
  {
    hide NewEntry, SameAtSlot;
    SameItself(Lookup(h.queue, x).value, h.tags, h.tags, k);
    if IndexOf(h.queue, st.ih) == |h.queue| {
      AddedNow(st, h.frame + 1);
      LookupFront(Slot(h.frame + 1, NewEntry(st, h.frame + 1)), h.queue, x);
    }
  }

  lemma RemoveKeepsSlot(h: History, ih: Hash, handle: Handle, x: Hash, k: nat)
    requires Inv(h) && Allowed(h, Remove(ih, handle)) && Lookup(h.queue, x).Some? && k < NUM_FIELDS && x != ih
    ensures var h' := RemoveTorrent(h, ih, handle);
            var r := Lookup(h'.queue, x);
            r.Some? && SameAtSlot(Lookup(h.queue, x).value, h.tags, r.value, h'.tags, k)
  {
    hide Inv, Allowed, SameAtSlot, RemoveTorrent, TagOf, Lookup;
    var s := Lookup(h.queue, x).value;
    RemoveSurvivors(h, ih, handle, s.entry.added);
    assert Survives(RemoveTorrent(h, ih, handle), x, s.entry.added);
    SameItself(s, h.tags, RemoveTorrent(h, ih, handle).tags, k);
  }

  lemma OwnTagKeepsSlot(h: History, x: Hash, value: bv64, mask: bv64, k: nat)
    requires Unique(h.queue) && Lookup(h.queue, x).Some? && k < NUM_FIELDS
    requires var s := Lookup(h.queue, x).value; Keeps(s, TagOf(h.tags, s.Handle()), Tag(x, value, mask), k)
    ensures var h' := SetTag(h, x, value, mask).0;
            var r := Lookup(h'.queue, x);
            r.Some? && SameAtSlot(Lookup(h.queue, x).value, h.tags, r.value, h'.tags, k)
  {
    hide MergeTag, SameUnderMask, TagOf, PutTag;
    var s := Lookup(h.queue, x).value;
    var (h', changed) := SetTag(h, x, value, mask);
    if SameUnderMask(TagOf(h.tags, s.Handle()), value, mask) {
      MergeOfSame(TagOf(h.tags, s.Handle()), value, mask);
    }
    if changed {
      assert k < TAG;
      TouchLookup(h.queue, h'.queue[0], x);
    }
  }

  lemma OtherTagKeepsSlot(h: History, ih: Hash, value: bv64, mask: bv64, x: Hash, k: nat)
    requires Inv(h) && Lookup(h.queue, x).Some? && k < NUM_FIELDS && ih != x
    ensures var h' := SetTag(h, ih, value, mask).0;
            var r := Lookup(h'.queue, x);
            r.Some? && SameAtSlot(Lookup(h.queue, x).value, h.tags, r.value, h'.tags, k)
  {
    hide MergeTag, TagOf, PutTag, SameAtSlot;
    var s := Lookup(h.queue, x).value;
    var (h', changed) := SetTag(h, ih, value, mask);
    if changed {
      TouchLookup(h.queue, h'.queue[0], x);
      assert Lookup(h.queue, ih).Some?;
      OtherTagsStay(h, ih, value, mask, s.Handle());
    }
    SameItself(s, h.tags, h'.tags, k);
  }

  lemma UpdateKeepsSlot(h: History, sts: seq<Status>, x: Hash, k: nat)
    requires Inv(h) && Allowed(h, Update(sts)) && Lookup(h.queue, x).Some? && k < NUM_FIELDS
    requires k < TAG ==> SameSlot(sts, Lookup(h.queue, x).value, k)
    ensures var r := Lookup(StateUpdate(h, sts).queue, x);
            r.Some? && SameAtSlot(Lookup(h.queue, x).value, h.tags, r.value, StateUpdate(h, sts).tags, k)
  {
    hide SameAtSlot, Lookup, UpdateAll;
    UpdateAllKeeps(h.queue, sts, h.frame + 1, Lookup(h.queue, x).value, h.tags, k);
  }

  /** A step that leaves a slot of a torrent alone does not stamp it either. */
  lemma StepKeepsSlot(h: History, step: Step, x: Hash, k: nat)
    requires Inv(h) && Allowed(h, step) && Lookup(h.queue, x).Some? && k < NUM_FIELDS
    requires var s := Lookup(h.queue, x).value; Keeps(s, TagOf(h.tags, s.Handle()), step, k)
    ensures var r := Lookup(Do(h, step).queue, x);
            r.Some? && SameAtSlot(Lookup(h.queue, x).value, h.tags, r.value, Do(h, step).tags, k)
  {
    hide Inv, SameAtSlot, Lookup, AddTorrent, RemoveTorrent, StateUpdate, SetTag, TagOf, SameSlot, SameUnderMask;
    match step
    case Add(st) => AddKeepsSlot(h, st, x, k);
    case Remove(ih, handle) => RemoveKeepsSlot(h, ih, handle, x, k);
    case Update(sts) => UpdateKeepsSlot(h, sts, x, k);
    case Tag(ih, value, mask) =>
      if ih == x {
        QueueOkOf(h);
        OwnTagKeepsSlot(h, x, value, mask, k);
      } else {
        OtherTagKeepsSlot(h, ih, value, mask, x, k);
      }
    case Ask => SameItself(Lookup(h.queue, x).value, h.tags, h.tags, k);
  }

  // ---------------------------------------------------------------- whole runs

  /** No step of the run removes x or changes what its slot k holds, not even for a moment. */
  ghost predicate Untouched(h: History, steps: seq<Step>, x: Hash, k: nat)
    requires k < NUM_FIELDS && Lookup(h.queue, x).Some?
  {
    var s := Lookup(h.queue, x).value;
    forall n | 0 <= n < |steps| :: Keeps(s, TagOf(h.tags, s.Handle()), steps[n], k)
  }

  lemma KeepsAlso(s: Slot, tags: map<Handle, bv64>, s': Slot, tags': map<Handle, bv64>, step: Step, k: nat)
    requires k < NUM_FIELDS && SameAtSlot(s, tags, s', tags', k)
    requires Keeps(s, TagOf(tags, s.Handle()), step, k)
    ensures Keeps(s', TagOf(tags', s'.Handle()), step, k)
  {
    hide SameUnderMask, TagOf;
  }

  lemma {:induction false} RunKeepsSlot(h: History, steps: seq<Step>, x: Hash, k: nat)
    requires Inv(h) && RunAllowed(h, steps) && k < NUM_FIELDS && Lookup(h.queue, x).Some? && Untouched(h, steps, x, k)
    ensures Inv(Run(h, steps))
    ensures var r := Lookup(Run(h, steps).queue, x);
            r.Some? && SameAtSlot(Lookup(h.queue, x).value, h.tags, r.value, Run(h, steps).tags, k)
    decreases |steps|
  {
    hide Inv, Allowed, Do, Lookup, SameAtSlot, Keeps, TagOf;
    var s := Lookup(h.queue, x).value;
    if steps == [] {
      SameItself(s, h.tags, h.tags, k);
    } else {
      var n := |steps| - 1;
      RunKeepsSlot(h, steps[..n], x, k);
      var g := Run(h, steps[..n]);
      var s1 := Lookup(g.queue, x).value;
      assert Keeps(s, TagOf(h.tags, s.Handle()), steps[n], k);
      KeepsAlso(s, h.tags, s1, g.tags, steps[n], k);
      StepKeepsSlot(g, steps[n], x, k);
      StepKeepsInv(g, steps[n]);
      var s2 := Lookup(Run(h, steps).queue, x).value;
      SameTwice(s, h.tags, s1, g.tags, s2, Run(h, steps).tags, k);
    }
  }

  lemma SameTwice(
    a: Slot, ta: map<Handle, bv64>, b: Slot, tb: map<Handle, bv64>, c: Slot, tc: map<Handle, bv64>, k: nat)
    requires k < NUM_FIELDS && SameAtSlot(a, ta, b, tb, k) && SameAtSlot(b, tb, c, tc, k)
    ensures SameAtSlot(a, ta, c, tc, k)
  {
    hide TagOf;
  }

  // ---------------------------------------------------------------- what a delta leaves out

  /** Slot k of a torrent at a cursor is not newer than the cursor, unless it is a tag that was never
      delivered. */
  lemma OldAtCursor(h: History, x: Hash, k: nat)
    requires Inv(h) && !h.deferred && Lookup(h.queue, x).Some? && k < NUM_FIELDS
    ensures var s := Lookup(h.queue, x).value;
            && s.entry.added <= h.frame
            && (s.entry.frame[k].At? ==> s.entry.frame[k].n <= h.frame)
            && (k < TAG ==> s.entry.frame[k].At?)
  {
    hide DistinctHandles, TagsOk, StonesOk;
    assert EntryOk(Lookup(h.queue, x).value);
  }

  /** Over any run behind a cursor: a field is in the bitmask of a torrent that was there all the time
      only if some step touched one of its slots, or it is a tag that was never delivered. */
  lemma OnlyChangesAreSent(wire: FieldMap, h: History, steps: seq<Step>, x: Hash, f: nat, user: set<nat>)
    requires Inv(h) && !h.deferred && RunAllowed(h, steps) && Lookup(h.queue, x).Some?
    requires forall k | 0 <= k < NUM_FIELDS && wire[k] == f ::
               Untouched(h, steps, x, k) && Lookup(h.queue, x).value.entry.frame[k].At?
    ensures Lookup(Run(h, steps).queue, x).Some? ==>
              f !in Bits(wire, Lookup(Run(h, steps).queue, x).value.entry, h.frame, false, user)
  {
    hide Inv, Run, Lookup, Untouched, RunAllowed;
    forall k | 0 <= k < NUM_FIELDS && wire[k] == f
      ensures Lookup(Run(h, steps).queue, x).Some? ==>
                !Newer(Lookup(Run(h, steps).queue, x).value.entry.frame[k], h.frame)
    {
      RunKeepsSlot(h, steps, x, k);
      OldAtCursor(h, x, k);
    }
  }

  /** The inputs of the filters are not touched by the run. */
  ghost predicate InputsUntouched(h: History, steps: seq<Step>, x: Hash)
    requires Lookup(h.queue, x).Some?
  {
    && Untouched(h, steps, x, STATE) && Untouched(h, steps, x, STATUS_FLAGS)
    && Untouched(h, steps, x, ERRC) && Untouched(h, steps, x, TAG)
  }

  lemma UntouchedIsCertain(h: History, steps: seq<Step>, x: Hash)
    requires Inv(h) && !h.deferred && RunAllowed(h, steps) && Lookup(h.queue, x).Some? && InputsUntouched(h, steps, x)
    ensures var r := Lookup(Run(h, steps).queue, x);
            && r.Some? && r.value.entry.added <= h.frame && StableSince(r.value.entry, h.frame)
            && Inv(Run(h, steps)) && Survives(Run(h, steps), x, h.frame)
  {
    hide Inv, Run, Lookup, Untouched, RunAllowed;
    RunKeepsSlot(h, steps, x, STATE);
    RunKeepsSlot(h, steps, x, STATUS_FLAGS);
    RunKeepsSlot(h, steps, x, ERRC);
    RunKeepsSlot(h, steps, x, TAG);
    OldAtCursor(h, x, STATE);
    OldAtCursor(h, x, STATUS_FLAGS);
    OldAtCursor(h, x, ERRC);
    OldAtCursor(h, x, TAG);
  }

  lemma UntouchedLooksTheSame(h: History, steps: seq<Step>, x: Hash, f: Filter)
    requires Inv(h) && RunAllowed(h, steps) && Lookup(h.queue, x).Some? && InputsUntouched(h, steps, x)
    requires Lookup(Run(h, steps).queue, x).Some?
    ensures Visible(ItemOf(Lookup(h.queue, x).value, h.tags), f)
       <==> Visible(ItemOf(Lookup(Run(h, steps).queue, x).value, Run(h, steps).tags), f)
  {
    hide Inv, Run, Lookup, Untouched, RunAllowed, Matched, StatusBits, TagOf;
    RunKeepsSlot(h, steps, x, STATE);
    RunKeepsSlot(h, steps, x, STATUS_FLAGS);
    RunKeepsSlot(h, steps, x, ERRC);
    RunKeepsSlot(h, steps, x, TAG);
    SameBits(
      ItemOf(Lookup(h.queue, x).value, h.tags).field,
      ItemOf(Lookup(Run(h, steps).queue, x).value, Run(h, steps).tags).field);
  }

  /** What the query rules when it can be certain of the torrent's place in the old view. */
  lemma CertainRuling(h: History, k: nat, fOld: Filter, fNew: Filter, x: Hash)
    requires 0 < k && Survives(h, x, k) && StableSince(Lookup(h.queue, x).value.entry, k)
    ensures var s := Lookup(h.queue, x).value;
            var j := Ruling(h, k, fOld, fNew, x);
            var was, now := Visible(ItemOf(s, h.tags), fOld), Visible(ItemOf(s, h.tags), fNew);
            && (j.Drop? <==> was && !now)
            && (j.Send? ==> now && j.entry == if was then s.entry else Refilled(s.entry, k))
  {
    hide Matched, StatusBits, StableSince, Lookup, TagOf;
    EmptyMatches(fOld, StatusBits(Lookup(h.queue, x).value.entry.status.field),
                 TagOf(h.tags, Lookup(h.queue, x).value.Handle()));
    EmptyMatches(fNew, StatusBits(Lookup(h.queue, x).value.entry.status.field),
                 TagOf(h.tags, Lookup(h.queue, x).value.Handle()));
  }

  lemma EmptyMatches(f: Filter, sbits: bv8, tag: bv64)
    ensures f.Empty() ==> Matched(f, sbits, tag)
  {
  }

  lemma RefilledBits(wire: FieldMap, e: Entry, k: nat, user: set<nat>)
    ensures Bits(wire, Refilled(e, k), k, false, user) == Wanted(wire, user)
  {
    AllBits(wire, Refilled(e, k), k, false, user);
  }

  /** Over any run behind a cursor that leaves the filter inputs of a torrent alone, the query knows
      whether the client has the torrent. It lists it as removed exactly when the client has it and
      should lose it; it sends one the client has as a delta, with no other fields than those with a
      newer frame; and one the client has not, whole. */
  lemma UnchangedIsDelta(
    wire: FieldMap, h: History, steps: seq<Step>, x: Hash, fOld: Filter, fNew: Filter, user: set<nat>)
    requires Inv(h) && !h.deferred && RunAllowed(h, steps) && Lookup(h.queue, x).Some? && InputsUntouched(h, steps, x)
    requires Run(h, steps).horizon <= h.frame
    ensures Lookup(Run(h, steps).queue, x).Some?
    ensures var item := ItemOf(Lookup(h.queue, x).value, h.tags);
            var was, now := Visible(item, fOld), Visible(item, fNew);
            var r := Answer(wire, Run(h, steps), h.frame, fOld, fNew, user);
            && (x in r.removed <==> was && !now)
            && (x in r.updates ==> now)
            && (x in r.updates && was ==>
                  r.updates[x].Keys == Bits(wire, Lookup(Run(h, steps).queue, x).value.entry, h.frame, false, user))
            && (x in r.updates && !was ==> r.updates[x].Keys == Wanted(wire, user))
  {
    hide Inv, Run, RunAllowed, InputsUntouched, Survives, Lookup, Answer, Visible, Tracks, Live, Ruling, Crossed,
         UpdateFor, Clamp, Bits, Wanted, StableSince, QueueOk, TagOf, Refilled;
    var h' := Run(h, steps);
    PositiveFrame(h);
    TracksAtFrame(h);
    RunTracks(h, steps, h.frame, Live(h));
    UntouchedIsCertain(h, steps, x);
    UntouchedLooksTheSame(h, steps, x, fOld);
    UntouchedLooksTheSame(h, steps, x, fNew);
    QueueOkOf(h');
    SurvivorNotCrossed(h', h.frame, Live(h), fOld, x);
    NoClamp(h', h.frame);
    CertainRuling(h', h.frame, fOld, fNew, x);
    RemovedAt(wire, h', h.frame, fOld, fNew, user, x);
    UpdatesAt(wire, h', h.frame, fOld, fNew, user, x);
    var j := Ruling(h', h.frame, fOld, fNew, x);
    if j.Send? {
      var s := Lookup(h'.queue, x).value;
      UpdateKeys(wire, s, j.entry, h'.tags, h.frame, user);
      RefilledBits(wire, s.entry, h.frame, user);
    }
  }

  lemma PositiveFrame(h: History)
    requires Inv(h)
    ensures 0 < h.frame
  {
  }

  lemma NoClamp(h: History, k: nat)
    requires h.horizon <= k
    ensures Clamp(h, k) == k
  {
  }

  lemma UpdateKeys(wire: FieldMap, s: Slot, e: Entry, tags: map<Handle, bv64>, since: nat, user: set<nat>)
    ensures var u := UpdateFor(wire, s, e, tags, since, false, user);
            s.Ih() in u ==> u[s.Ih()].Keys == Bits(wire, e, since, false, user)
  {
    hide Bits, WireValueOf;
  }

  // ---------------------------------------------------------------- what a delta may not leave out

  /** The slots of a status that the serializer reads to write a field; those of the flags are the ones
      wire_flags_from_status looks at. */
  function SlotsRead(f: nat): set<nat> {
    match f
    case 0 => {1, 2, 3, 4, 5, 53, 60, 61, 62, 63}  // the flags in two parts, four booleans, four activities
    case 1 => {11}       // name
    case 2 => {15}       // total_upload
    case 3 => {14}       // total_download
    case 4 => {54}       // added_time
    case 5 => {55}       // completed_time
    case 6 => {21}       // upload_rate
    case 7 => {20}       // download_rate
    case 8 => {7}        // progress_ppm
    case 9 => {8}        // errc
    case 10 => {25}      // num_peers
    case 11 => {24}      // num_seeds
    case 12 => {31}      // num_pieces
    case 13 => {34}      // total_wanted_done
    case 14 => {36, 37}  // distributed_full_copies, distributed_fraction
    case 15 => {47}      // all_time_upload
    case 16 => {48}      // all_time_download
    case 17 => {39}      // num_uploads
    case 18 => {40}      // num_connections
    case 19 => {59}      // queue_position
    case 20 => {0}       // state
    case 21 => {18}      // total_failed_bytes
    case 22 => {19}      // total_redundant_bytes
    case 23 => {64}      // the tag
    case _ => {}
  }

  lemma EarlyRows(r: nat, c: nat, f: nat)
    requires r <= 3 && c < 10 && f < 24
    ensures FieldRow(r)[c] == f <==> 10 * r + c in SlotsRead(f)
  {
  }

  lemma LateRows(r: nat, c: nat, f: nat)
    requires 4 <= r <= 6 && c < 10 && f < 24
    ensures FieldRow(r)[c] == f <==> 10 * r + c in SlotsRead(f)
  {
  }

  /** The shipped table maps to each field exactly the slots that are read for it. */
  lemma ShippedSlots(k: nat, f: nat)
    requires k < 65 && f < 24
    ensures TORRENT_FIELD_MAP[k] == f <==> k in SlotsRead(f)
  {
    if k < 40 {
      EarlyRows(k / 10, k % 10, f);
    } else {
      LateRows(k / 10, k % 10, f);
    }
  }

  /** Over any run behind a cursor: if anything that is read for a requested field is not what it was
      at the cursor, the field is in the torrent's bitmask. */
  lemma ChangeIsSent(h: History, steps: seq<Step>, x: Hash, k: nat, f: nat, user: set<nat>)
    requires Inv(h) && !h.deferred && RunAllowed(h, steps) && Survives(Run(h, steps), x, h.frame)
    requires f < 24 && k in SlotsRead(f) && k < 65 && f in user
    requires Lookup(h.queue, x).None?
          || CellOf(ItemOf(Lookup(h.queue, x).value, h.tags), k)
             != CellOf(ItemOf(Lookup(Run(h, steps).queue, x).value, Run(h, steps).tags), k)
    ensures f in Bits(TORRENT_FIELD_MAP, Lookup(Run(h, steps).queue, x).value.entry, h.frame, false, user)
  {
    hide Inv, Run, RunAllowed, Lookup, Live, ExplainsLosses, StonesAreLosses, SlotsRead;
    TracksAtFrame(h);
    RunTracks(h, steps, h.frame, Live(h));
    ShippedSlots(k, f);
    LiveLookup(h, x);
    LiveAt(h, x);
    assert k != NUM_UNDEAD_PEERS;
  }

  lemma LiveAt(h: History, x: Hash)
    ensures Lookup(h.queue, x).Some? ==> x in Live(h) && Live(h)[x] == ItemOf(Lookup(h.queue, x).value, h.tags)
  {
    LiveLookup(h, x);
  }

  // ---------------------------------------------------------------- tags

  /** A torrent has no tag when it is added, and until set_tag is called for it with some mask every
      delta that looks at it has its tag, whatever the cursor. */
  lemma TagIsSentUntilSet(h: History, st: Status, steps: seq<Step>, since: nat, user: set<nat>)
    requires Inv(h) && Allowed(h, Add(st)) && Lookup(h.queue, st.ih).None?
    requires var h0 := AddTorrent(h, st);
             && RunAllowed(h0, steps)
             && forall n | 0 <= n < |steps| ::
                  && !(steps[n].Remove? && steps[n].ih == st.ih)
                  && !(steps[n].Tag? && steps[n].ih == st.ih && steps[n].mask != 0)
    ensures var r := Lookup(Run(AddTorrent(h, st), steps).queue, st.ih);
            && r.Some? && TagOf(Run(AddTorrent(h, st), steps).tags, r.value.Handle()) == 0
            && (23 in user ==> 23 in Bits(TORRENT_FIELD_MAP, r.value.entry, since, false, user))
  {
    hide Run, RunAllowed, TagOf, Keeps;
    var h0 := AddTorrent(h, st);
    JustAdded(h, st);
    hide Inv, AddTorrent;
    StepKeepsInv(h, Add(st));
    forall n | 0 <= n < |steps| ensures Keeps(Lookup(h0.queue, st.ih).value, 0, steps[n], TAG) {
      KeepsUnset(Lookup(h0.queue, st.ih).value, steps[n]);
    }
    RunKeepsSlot(h0, steps, st.ih, TAG);
    TagSlot();
  }

  lemma TagSlot()
    ensures TORRENT_FIELD_MAP[TAG] == 23
  {
    assert FieldRow(6)[4] == 23;
  }

  lemma KeepsUnset(s: Slot, step: Step)
    requires s.entry.frame[TAG] == Unset
    requires !(step.Remove? && step.ih == s.Ih()) && !(step.Tag? && step.ih == s.Ih() && step.mask != 0)
    ensures Keeps(s, 0, step, TAG)
  {
  }

  lemma JustAdded(h: History, st: Status)
    requires Inv(h) && Allowed(h, Add(st)) && Lookup(h.queue, st.ih).None?
    ensures var h0 := AddTorrent(h, st);
            var r := Lookup(h0.queue, st.ih);
            && r.Some? && r.value.Ih() == st.ih && r.value.entry.frame[TAG] == Unset
            && TagOf(h0.tags, r.value.Handle()) == 0
  {
    hide QueueOk, DistinctHandles, StonesOk;
    LookupFront(Slot(h.frame + 1, NewEntry(st, h.frame + 1)), h.queue, st.ih);
  }

  /** The first set_tag with some mask is delivered even if it changes nothing. */
  lemma FirstTagIsStamped(h: History, ih: Hash, value: bv64, mask: bv64)
    requires Unique(h.queue) && Lookup(h.queue, ih).Some? && Lookup(h.queue, ih).value.entry.frame[TAG] == Unset
    requires mask != 0
    ensures var (h', changed) := SetTag(h, ih, value, mask);
            changed && Lookup(h'.queue, ih).Some? && Lookup(h'.queue, ih).value.entry.frame[TAG] == At(h.frame + 1)
  {
    hide MergeTag, PutTag, TagOf, RemoveAt;
    SetTagIs(h, ih, value, mask);
    var h' := SetTag(h, ih, value, mask).0;
    LookupFront(h'.queue[0], h'.queue[1..], ih);
    assert [h'.queue[0]] + h'.queue[1..] == h'.queue;
  }

  /** The tag map has no entry for a torrent without tags. */
  ghost predicate Sparse(tags: map<Handle, bv64>) {
    forall g | g in tags :: tags[g] != 0
  }

  lemma PutStaysSparse(tags: map<Handle, bv64>, handle: Handle, tag: bv64)
    requires Sparse(tags)
    ensures Sparse(PutTag(tags, handle, tag))
  {
  }

  /** Over every run of the history. */
  lemma {:induction false} RunStaysSparse(limit: nat, steps: seq<Step>)
    ensures Sparse(Run(Init(limit), steps).tags)
    decreases |steps|
  {
    hide MergeTag, PutTag, TagOf, UpdateAll, NewEntry, StoneFor, Without, RemoveAt;
    if steps != [] {
      var n := |steps| - 1;
      RunStaysSparse(limit, steps[..n]);
      var h := Run(Init(limit), steps[..n]);
      match steps[n]
      case Tag(ih, value, mask) =>
        if SetTag(h, ih, value, mask).1 {
          var handle := h.queue[IndexOf(h.queue, ih)].Handle();
          PutStaysSparse(h.tags, handle, MergeTag(TagOf(h.tags, handle), value, mask));
        }
      case _ =>
    }
  }
}
