/** A client that polls get-torrent-updates, filters and all, holds what the server holds. */
module TorrentSync {
  import opened Basics
  import opened Maps
  import opened Tombstones
  import opened TorrentHistory
  import opened TorrentLookup
  import opened TorrentTracking
  import opened TorrentClient

  // ---------------------------------------------------------------- the stability predicate

  /** If the filter inputs of a live torrent are stable since `since`, then the torrent was
      there and gave the filters exactly the inputs it gives them now. */
  lemma StableInputs(h: History, since: nat, base: Table, x: Hash)
    requires Inv(h) && Tracks(h, since, base) && Lookup(h.queue, x).Some?
    requires StableSince(Lookup(h.queue, x).value.entry, since)
    ensures Survives(h, x, since) && x in base
    ensures StatusBits(base[x].field) == StatusBits(Lookup(h.queue, x).value.entry.status.field)
    ensures base[x].tag == TagOf(h.tags, Lookup(h.queue, x).value.Handle())
  {
    hide ExplainsLosses, StonesAreLosses, DistinctHandles, TagsOk, StonesOk, StatusBits;
    var s := Lookup(h.queue, x).value;
    assert EntryOk(s);
    assert Agrees(s, h.tags, base[x], since);
    SameBits(base[x].field, s.entry.status.field);
  }

  lemma SameBits(a: Fields, b: Fields)
    requires a[STATE] == b[STATE] && a[STATUS_FLAGS] == b[STATUS_FLAGS] && a[ERRC] == b[ERRC]
    ensures StatusBits(a) == StatusBits(b)
  {
  }

  // ---------------------------------------------------------------- records

  lemma AllBits(wire: FieldMap, e: Entry, since: nat, snapshot: bool, user: set<nat>)
    requires snapshot || forall k | 0 <= k < NUM_FIELDS :: Newer(e.frame[k], since)
    ensures Bits(wire, e, since, snapshot, user) == Wanted(wire, user)
  {
  }

  /** Fields whose frame is old are the same now as then. */
  lemma OldFieldsAgree(wire: FieldMap, s: Slot, tags: map<Handle, bv64>, then_: Item, since: nat, f: nat)
    requires EntryOk(s) && Agrees(s, tags, then_, since)
    requires forall k | 0 <= k < NUM_FIELDS && wire[k] == f :: !Newer(s.entry.frame[k], since)
    ensures WireValueOf(wire, then_, f) == WireValueOf(wire, ItemOf(s, tags), f)
  {
  }

  /** Merging a delta into the old record gives the current record. */
  lemma DeltaRecord(wire: FieldMap, s: Slot, tags: map<Handle, bv64>, then_: Item, since: nat, user: set<nat>)
    requires EntryOk(s) && Agrees(s, tags, then_, since)
    ensures var bits := Bits(wire, s.entry, since, false, user);
            bits <= Wanted(wire, user)
            && RecordOf(wire, then_, Wanted(wire, user)) + RecordOf(wire, ItemOf(s, tags), bits)
               == RecordOf(wire, ItemOf(s, tags), Wanted(wire, user))
  {
    var bits := Bits(wire, s.entry, since, false, user);
    forall f | f in Wanted(wire, user) && f !in bits
      ensures WireValueOf(wire, then_, f) == WireValueOf(wire, ItemOf(s, tags), f)
    {
      OldFieldsAgree(wire, s, tags, then_, since, f);
    }
  }

  // ---------------------------------------------------------------- the answer, torrent by torrent

  predicate Breaks(fOld: Filter, fNew: Filter) {
    fOld == fNew || (fOld.Empty() && fNew.Empty())
  }

  /** What the query decides about one torrent. */
  function Ruling(h: History, k: nat, fOld: Filter, fNew: Filter, x: Hash): Outcome {
    var r := Lookup(h.queue, x);
    if r.None? || (Breaks(fOld, fNew) && r.value.key <= k) then Skip
    else Judge(r.value.entry, h.tags, k, fOld, fNew)
  }

  lemma UpdatesAtPlain(wire: FieldMap, h: History, since: nat, fOld: Filter, fNew: Filter, user: set<nat>, x: Hash)
    requires QueueOk(h.queue, Newest(h)) && fOld.Empty() && fNew.Empty()
    ensures var k := Clamp(h, since);
            var j := Ruling(h, k, fOld, fNew, x);
            var updates := Updates(wire, Entries(h.queue[..Touched(h.queue, k)]), h.tags, since, k == 0, user);
            if j.Send?
            then SameAt(updates, UpdateFor(wire, Lookup(h.queue, x).value, j.entry, h.tags, since, k == 0, user), x)
            else x !in updates
  {
    hide RecordOf, Updates, StableSince, StatusBits;
    var k := Clamp(h, since);
    LookupTouched(h.queue, k, x);
    EntriesAt(wire, h.queue[..Touched(h.queue, k)], h.tags, since, k == 0, user, x);
    var r := Lookup(h.queue, x);
    if r.Some? && r.value.key > k && k == 0 {
      AllBits(wire, r.value.entry, since, true, user);
      AllBits(wire, Ruling(h, k, fOld, fNew, x).entry, since, true, user);
    }
  }

  lemma ScopeAt(h: History, k: nat, fOld: Filter, fNew: Filter, x: Hash)
    requires QueueOk(h.queue, Newest(h))
    ensures Unique(Scope(h, k, fOld, fNew))
    ensures var r := Lookup(h.queue, x);
            Lookup(Scope(h, k, fOld, fNew), x) == if r.Some? && fOld == fNew && r.value.key <= k then None else r
  {
    LookupTouched(h.queue, k, x);
  }

  /** What the answer says about one torrent is the query's ruling on it. */
  lemma UpdatesAt(wire: FieldMap, h: History, since: nat, fOld: Filter, fNew: Filter, user: set<nat>, x: Hash)
    requires QueueOk(h.queue, Newest(h))
    ensures var k := Clamp(h, since);
            var j := Ruling(h, k, fOld, fNew, x);
            var updates := Answer(wire, h, since, fOld, fNew, user).updates;
            if j.Send?
            then SameAt(updates, UpdateFor(wire, Lookup(h.queue, x).value, j.entry, h.tags, since, k == 0, user), x)
            else x !in updates
  {
    hide Updates, Judge, UpdateFor, QueueOk, Lookup, SameAt, Touched, Sent, Dropped, Entries, RemovedSince;
    if fOld.Empty() && fNew.Empty() {
      UpdatesAtPlain(wire, h, since, fOld, fNew, user, x);
    } else {
      var k := Clamp(h, since);
      ScopeAt(h, k, fOld, fNew, x);
      SentAt(wire, Scope(h, k, fOld, fNew), h.tags, k, fOld, fNew, since, k == 0, user, x);
    }
  }

  ghost predicate Crossed(h: History, since: nat, f: Filter, x: Hash, verdict: bool) {
    exists i :: CrossedAt(h, i, since) && h.removed[i].key == x
      && Matched(f, h.removed[i].info.sbits, h.removed[i].info.tag) == verdict
  }

  lemma StonesAt(h: History, k: nat, f: Filter, x: Hash)
    requires NewestFirst(h.removed)
    ensures x in RemovedSince(h, k, f) <==> k != 0 && Crossed(h, k, f, x, true)
  {
    hide Matched;
    ReportedExactly(h.removed, k, MatchesOld(f), x);
  }

  lemma EmptyFiltersCross(h: History, k: nat, f: Filter, x: Hash)
    requires f.Empty()
    ensures Crossed(h, k, f, x, true) == Crossed(h, k, NO_FILTER, x, true)
    ensures !Crossed(h, k, f, x, false)
  {
  }

  lemma RemovedAt(wire: FieldMap, h: History, since: nat, fOld: Filter, fNew: Filter, user: set<nat>, x: Hash)
    requires QueueOk(h.queue, Newest(h)) && NewestFirst(h.removed)
    ensures var k := Clamp(h, since);
            x in Answer(wire, h, since, fOld, fNew, user).removed
            <==> Ruling(h, k, fOld, fNew, x).Drop? || (k != 0 && Crossed(h, k, fOld, x, true))
  {
    var k := Clamp(h, since);
    if fOld.Empty() && fNew.Empty() {
      hide Updates, StableSince, StatusBits, Crossed, QueueOk, Lookup, Touched, Entries, RemovedSince;
      StonesAt(h, k, NO_FILTER, x);
      EmptyFiltersCross(h, k, fOld, x);
    } else {
      hide Updates, Judge, Crossed, QueueOk, Lookup, Touched, Sent, Dropped, RemovedSince;
      ScopeAt(h, k, fOld, fNew, x);
      StonesAt(h, k, fOld, x);
      DroppedAt(Scope(h, k, fOld, fNew), h.tags, k, fOld, fNew, x);
    }
  }

  // ---------------------------------------------------------------- one poll

  lemma ViewAt(wire: FieldMap, h: History, f: Filter, wanted: set<nat>, x: Hash)
    ensures var view := ViewOf(wire, Live(h), f, wanted);
            var r := Lookup(h.queue, x);
            && (x in view <==> wanted != {} && r.Some? && Visible(ItemOf(r.value, h.tags), f))
            && (x in view ==> view[x] == RecordOf(wire, ItemOf(r.value, h.tags), wanted))
  {
    LiveLookup(h, x);
  }

  lemma AppliedAt(view: View, r: Response, x: Hash)
    ensures var kept := !r.snapshot && x in view && x !in r.removed;
            var after := Apply(view, r);
            && (x in after <==> kept || x in r.updates)
            && (kept && x !in r.updates ==> after[x] == view[x])
            && (!kept && x in r.updates ==> after[x] == r.updates[x])
            && (kept && x in r.updates ==> after[x] == view[x] + r.updates[x])
  {
    var kept := if r.snapshot then map[] else view - (set y | y in r.removed);
    assert x in r.removed <==> x in (set y | y in r.removed);
    if x in kept && x !in r.updates {
      assert kept[x] + map[] == kept[x];
    }
    if x !in kept && x in r.updates {
      assert map[] + r.updates[x] == r.updates[x];
    }
  }

  lemma AnswerKind(wire: FieldMap, h: History, since: nat, fOld: Filter, fNew: Filter, user: set<nat>)
    ensures var r := Answer(wire, h, since, fOld, fNew, user);
            r.snapshot == (Clamp(h, since) == 0) && r.frame == Flush(h).frame
  {
  }

  /** The ruling sends a torrent exactly when it is visible and not passed over. */
  lemma RulingSends(h: History, k: nat, fOld: Filter, fNew: Filter, x: Hash)
    ensures var r := Lookup(h.queue, x);
            var j := Ruling(h, k, fOld, fNew, x);
            && (j.Send? <==>
                  && r.Some? && !(Breaks(fOld, fNew) && r.value.key <= k)
                  && Visible(ItemOf(r.value, h.tags), fNew))
            && (r.None? ==> j == Skip)
  {
    hide StatusBits, Matched, StableSince, Refilled;
  }

  lemma FullUpdate(wire: FieldMap, s: Slot, e: Entry, tags: map<Handle, bv64>,
    since: nat, snapshot: bool, user: set<nat>)
    requires snapshot || forall k | 0 <= k < NUM_FIELDS :: Newer(e.frame[k], since)
    ensures UpdateFor(wire, s, e, tags, since, snapshot, user)
         == if Wanted(wire, user) == {} then map[]
            else map[s.Ih() := RecordOf(wire, ItemOf(s, tags), Wanted(wire, user))]
  {
    AllBits(wire, e, since, snapshot, user);
  }

  lemma KeysArePositive(h: History, x: Hash)
    requires QueueOk(h.queue, Newest(h)) && Lookup(h.queue, x).Some?
    ensures EntryOk(Lookup(h.queue, x).value) && Lookup(h.queue, x).value.key > 0
  {
  }

  /** On a snapshot the client's old view does not matter. */
  lemma SnapshotAt(
    wire: FieldMap, h: History, since: nat, fOld: Filter, fNew: Filter, user: set<nat>, view: View, x: Hash)
    requires QueueOk(h.queue, Newest(h)) && Clamp(h, since) == 0
    ensures SameAt(Apply(view, Answer(wire, h, since, fOld, fNew, user)),
                   ViewOf(wire, Live(h), fNew, Wanted(wire, user)), x)
  {
    hide QueueOk, EntryOk, Updates, Apply, Answer, Lookup, ViewOf, Live, StatusBits, Bits, RecordOf, Wanted,
         UpdateFor, Ruling, Visible, Clamp;
    UpdatesAt(wire, h, since, fOld, fNew, user, x);
    AnswerKind(wire, h, since, fOld, fNew, user);
    AppliedAt(view, Answer(wire, h, since, fOld, fNew, user), x);
    ViewAt(wire, h, fNew, Wanted(wire, user), x);
    RulingSends(h, 0, fOld, fNew, x);
    var r := Lookup(h.queue, x);
    if r.Some? {
      KeysArePositive(h, x);
      var j := Ruling(h, 0, fOld, fNew, x);
      if j.Send? {
        FullUpdate(wire, r.value, j.entry, h.tags, since, true, user);
      }
    }
  }

  /** A torrent added after the client's frame: never dropped, sent whole if visible. */
  lemma NewcomerRuling(h: History, k: nat, fOld: Filter, fNew: Filter, x: Hash)
    requires 0 < k && Lookup(h.queue, x).Some? && EntryOk(Lookup(h.queue, x).value) && !Survives(h, x, k)
    ensures var s := Lookup(h.queue, x).value;
            var j := Ruling(h, k, fOld, fNew, x);
            && !j.Drop?
            && (j.Send? <==> Visible(ItemOf(s, h.tags), fNew))
            && (j.Send? ==> forall i | 0 <= i < NUM_FIELDS :: Newer(j.entry.frame[i], k))
  {
    hide StatusBits, Matched, StableSince;
  }

  /** An entry not touched since k is stable since k. */
  lemma UntouchedIsStable(s: Slot, k: nat)
    requires EntryOk(s) && s.key <= k
    ensures StableSince(s.entry, k)
    ensures forall i | 0 <= i < NUM_FIELDS :: s.entry.frame[i] == Unset || s.entry.frame[i].n <= k
  {
  }

  /** A torrent the client could have had: passed over only if nothing about it changed, sent
      as a delta only if the client has it, and never left with a client that should lose it. */
  lemma SurvivorRuling(h: History, k: nat, base: Table, fOld: Filter, fNew: Filter, x: Hash)
    requires Inv(h) && Tracks(h, k, base) && 0 < k && Survives(h, x, k)
    ensures x in base
    ensures var s := Lookup(h.queue, x).value;
            var j := Ruling(h, k, fOld, fNew, x);
            var was, now := Visible(base[x], fOld), Visible(ItemOf(s, h.tags), fNew);
            if Breaks(fOld, fNew) && s.key <= k then j == Skip && (was <==> now)
            else if now then
              j.Send? && ((was && j.entry == s.entry) || forall i | 0 <= i < NUM_FIELDS :: Newer(j.entry.frame[i], k))
            else j.Drop? || (j == Skip && !was)
  {
    var s := Lookup(h.queue, x).value;
    hide Inv, ExplainsLosses, StonesAreLosses, StatusBits, EntryOk, Lookup;
    KeysOf(h, x);
    if s.key <= k {
      UntouchedIsStable(s, k);
    }
    hide StableSince;
    if StableSince(s.entry, k) {
      StableInputs(h, k, base, x);
    }
  }

  lemma KeysOf(h: History, x: Hash)
    requires Inv(h) && Lookup(h.queue, x).Some?
    ensures EntryOk(Lookup(h.queue, x).value)
  {
  }

  /** Removals the filter hides: torrents in the client's view whose tombstone no longer
      matches the filter they were seen under, and that are not in the new view either. */
  ghost function Overlooked(h: History, k: nat, fOld: Filter, view: View, next: View): View {
    map x | x in view && x !in next && k != 0 && Crossed(h, k, fOld, x, false) :: view[x]
  }

  /** What a poll leaves the client with, for one torrent. */
  ghost predicate LeftWith(after: View, h: History, k: nat, fOld: Filter, view: View, next: View, x: Hash) {
    && (x in after <==> x in next || (x in view && k != 0 && Crossed(h, k, fOld, x, false)))
    && (x in next ==> after[x] == next[x])
    && (x in after && x !in next ==> after[x] == view[x])
  }

  lemma OldViewAt(wire: FieldMap, base: Table, f: Filter, wanted: set<nat>, x: Hash)
    ensures var view := ViewOf(wire, base, f, wanted);
            && (x in view <==> wanted != {} && x in base && Visible(base[x], f))
            && (x in view ==> view[x] == RecordOf(wire, base[x], wanted))
  {
  }

  lemma FullRecordWins(wire: FieldMap, a: Item, b: Item, fields: set<nat>)
    ensures RecordOf(wire, a, fields) + RecordOf(wire, b, fields) == RecordOf(wire, b, fields)
  {
  }

  /** A torrent that was there at k and is gone, or has been replaced since. */
  lemma LostAt(
    wire: FieldMap, h: History, k: nat, base: Table, fOld: Filter, fNew: Filter, user: set<nat>, x: Hash)
    requires Inv(h) && Tracks(h, k, base) && 0 < k && h.horizon <= k && !Survives(h, x, k)
    ensures var wanted := Wanted(wire, user);
            var view := ViewOf(wire, base, fOld, wanted);
            LeftWith(
              Apply(view, Answer(wire, h, k, fOld, fNew, user)),
              h, k, fOld, view, ViewOf(wire, Live(h), fNew, wanted), x)
  {
    var wanted := Wanted(wire, user);
    var view := ViewOf(wire, base, fOld, wanted);
    var r := Lookup(h.queue, x);
    hide Inv, Tracks, Survives, EntryOk, Updates, Apply, Answer, Lookup, ViewOf, Live, StatusBits, Bits, RecordOf,
         UpdateFor, Ruling, Visible, Crossed, Wanted;
    QueueOkOf(h);
    LossIsCrossed(h, k, base, fOld, x);
    UpdatesAt(wire, h, k, fOld, fNew, user, x);
    RemovedAt(wire, h, k, fOld, fNew, user, x);
    AnswerKind(wire, h, k, fOld, fNew, user);
    AppliedAt(view, Answer(wire, h, k, fOld, fNew, user), x);
    ViewAt(wire, h, fNew, wanted, x);
    OldViewAt(wire, base, fOld, wanted, x);
    RulingSends(h, k, fOld, fNew, x);
    if r.Some? {
      KeysOf(h, x);
      NewcomerRuling(h, k, fOld, fNew, x);
      var j := Ruling(h, k, fOld, fNew, x);
      if j.Send? {
        FullUpdate(wire, r.value, j.entry, h.tags, k, false, user);
        if x in view {
          FullRecordWins(wire, base[x], ItemOf(r.value, h.tags), wanted);
        }
      }
    }
  }

  lemma QueueOkOf(h: History)
    requires Inv(h)
    ensures QueueOk(h.queue, Newest(h)) && NewestFirst(h.removed)
  {
  }

  /** A loss within the horizon has exactly one crossing tombstone, with one verdict. */
  lemma LossIsCrossed(h: History, k: nat, base: Table, f: Filter, x: Hash)
    requires Tracks(h, k, base) && h.horizon <= k && !Survives(h, x, k)
    ensures x in base ==> (Crossed(h, k, f, x, false) <==> !Crossed(h, k, f, x, true))
  {
    hide KnowsSurvivors, Matched, Survives;
    if x in base {
      var i :| CrossedAt(h, i, k) && h.removed[i].key == x;
      var verdict := Matched(f, h.removed[i].info.sbits, h.removed[i].info.tag);
      assert Crossed(h, k, f, x, verdict);
    }
  }

  lemma SurvivorNotCrossed(h: History, k: nat, base: Table, f: Filter, x: Hash)
    requires Tracks(h, k, base) && Survives(h, x, k)
    ensures !Crossed(h, k, f, x, false) && !Crossed(h, k, f, x, true)
    ensures x in base && Agrees(Lookup(h.queue, x).value, h.tags, base[x], k)
  {
    hide ExplainsLosses, Agrees;
  }

  /** Nothing in an untouched torrent's record has changed. */
  lemma UntouchedRecord(wire: FieldMap, s: Slot, tags: map<Handle, bv64>, then_: Item, k: nat, user: set<nat>)
    requires EntryOk(s) && s.key <= k && Agrees(s, tags, then_, k)
    ensures RecordOf(wire, then_, Wanted(wire, user)) == RecordOf(wire, ItemOf(s, tags), Wanted(wire, user))
  {
    UntouchedIsStable(s, k);
    forall f | f in Wanted(wire, user)
      ensures WireValueOf(wire, then_, f) == WireValueOf(wire, ItemOf(s, tags), f)
    {
    }
  }

  /** A torrent that was there at k and still is. */
  lemma SurvivorAt(
    wire: FieldMap, h: History, k: nat, base: Table, fOld: Filter, fNew: Filter, user: set<nat>, x: Hash)
    requires Inv(h) && Tracks(h, k, base) && 0 < k && h.horizon <= k && Survives(h, x, k)
    ensures var wanted := Wanted(wire, user);
            var view := ViewOf(wire, base, fOld, wanted);
            LeftWith(
              Apply(view, Answer(wire, h, k, fOld, fNew, user)),
              h, k, fOld, view, ViewOf(wire, Live(h), fNew, wanted), x)
  {
    var wanted := Wanted(wire, user);
    var view := ViewOf(wire, base, fOld, wanted);
    var s := Lookup(h.queue, x).value;
    hide Inv, Tracks, EntryOk, Updates, Apply, Answer, Lookup, ViewOf, Live, StatusBits, Bits, RecordOf, UpdateFor,
         Ruling, Visible, Crossed, Wanted, Agrees;
    QueueOkOf(h);
    KeysOf(h, x);
    SurvivorNotCrossed(h, k, base, fOld, x);
    UpdatesAt(wire, h, k, fOld, fNew, user, x);
    RemovedAt(wire, h, k, fOld, fNew, user, x);
    AnswerKind(wire, h, k, fOld, fNew, user);
    AppliedAt(view, Answer(wire, h, k, fOld, fNew, user), x);
    ViewAt(wire, h, fNew, wanted, x);
    OldViewAt(wire, base, fOld, wanted, x);
    RulingSends(h, k, fOld, fNew, x);
    SurvivorRuling(h, k, base, fOld, fNew, x);
    var j := Ruling(h, k, fOld, fNew, x);
    if j.Send? {
      if wanted == {} {
        NothingWanted(wire, s, j.entry, h.tags, k, user);
      } else if j.entry == s.entry && x in view {
        DeltaUpdate(wire, s, h.tags, base[x], k, user);
      } else {
        FullUpdate(wire, s, j.entry, h.tags, k, false, user);
        if x in view {
          FullRecordWins(wire, base[x], ItemOf(s, h.tags), wanted);
        }
      }
    } else if s.key <= k {
      UntouchedRecord(wire, s, h.tags, base[x], k, user);
    }
  }

  lemma NothingWanted(wire: FieldMap, s: Slot, e: Entry, tags: map<Handle, bv64>, since: nat, user: set<nat>)
    requires Wanted(wire, user) == {}
    ensures UpdateFor(wire, s, e, tags, since, false, user) == map[]
  {
    var bits := Bits(wire, e, since, false, user);
    assert bits <= Wanted(wire, user);
  }

  /** A delta brings the client's record up to date, even when there is nothing to send. */
  lemma DeltaUpdate(wire: FieldMap, s: Slot, tags: map<Handle, bv64>, then_: Item, since: nat, user: set<nat>)
    requires EntryOk(s) && Agrees(s, tags, then_, since)
    ensures var old_, now := RecordOf(wire, then_, Wanted(wire, user)),
                             RecordOf(wire, ItemOf(s, tags), Wanted(wire, user));
            var update := UpdateFor(wire, s, s.entry, tags, since, false, user);
            if s.Ih() in update then old_ + update[s.Ih()] == now else old_ == now
  {
    DeltaRecord(wire, s, tags, then_, since, user);
    var bits := Bits(wire, s.entry, since, false, user);
    if bits == {} {
      var old_ := RecordOf(wire, then_, Wanted(wire, user));
      assert RecordOf(wire, ItemOf(s, tags), bits) == map[];
      assert old_ + map[] == old_;
    }
  }

  // ---------------------------------------------------------------- the poll theorems

  /** A snapshot replaces whatever the client had by exactly the visible part of the table. */
  lemma SnapshotPoll(
    wire: FieldMap, h: History, since: nat, fOld: Filter, fNew: Filter, user: set<nat>, view: View)
    requires Inv(h) && (since == 0 || since < h.horizon)
    ensures Apply(view, Answer(wire, h, since, fOld, fNew, user)) == ViewOf(wire, Live(h), fNew, Wanted(wire, user))
  {
    hide Inv, QueueOk, Apply, Answer, ViewOf, Wanted, Live, SameAt;
    QueueOkOf(h);
    var after := Apply(view, Answer(wire, h, since, fOld, fNew, user));
    var next := ViewOf(wire, Live(h), fNew, Wanted(wire, user));
    forall x ensures SameAt(after, next, x) {
      SnapshotAt(wire, h, since, fOld, fNew, user, view, x);
    }
    SameEverywhere(after, next);
  }

  lemma LeftWithOverlooked(after: View, h: History, k: nat, fOld: Filter, view: View, next: View)
    requires forall x :: LeftWith(after, h, k, fOld, view, next, x)
    ensures after == next + Overlooked(h, k, fOld, view, next)
  {
    hide Crossed, LeftWith;
    var all := next + Overlooked(h, k, fOld, view, next);
    forall x ensures SameAt(after, all, x) {
      LeftWithAt(after, h, k, fOld, view, next, x);
    }
    SameEverywhere(after, all);
  }

  lemma LeftWithAt(after: View, h: History, k: nat, fOld: Filter, view: View, next: View, x: Hash)
    requires LeftWith(after, h, k, fOld, view, next, x)
    ensures SameAt(after, next + Overlooked(h, k, fOld, view, next), x)
  {
    hide Crossed;
  }

  /** Filtered delta, exactly: a client that held what matched fOld at frame `since` ends up
      with what matches fNew now, plus the removals its old filter hid from it. */
  lemma DeltaPoll(
    wire: FieldMap, h: History, since: nat, base: Table, fOld: Filter, fNew: Filter, user: set<nat>)
    requires Inv(h) && Tracks(h, since, base) && 0 < since && h.horizon <= since
    ensures var wanted := Wanted(wire, user);
            var view, next := ViewOf(wire, base, fOld, wanted), ViewOf(wire, Live(h), fNew, wanted);
            Apply(view, Answer(wire, h, since, fOld, fNew, user)) == next + Overlooked(h, since, fOld, view, next)
  {
    hide Inv, Tracks, Apply, Answer, ViewOf, Wanted, Live, Survives, Crossed, LeftWith, Overlooked;
    var wanted := Wanted(wire, user);
    var view, next := ViewOf(wire, base, fOld, wanted), ViewOf(wire, Live(h), fNew, wanted);
    var after := Apply(view, Answer(wire, h, since, fOld, fNew, user));
    forall x ensures LeftWith(after, h, since, fOld, view, next, x) {
      if Survives(h, x, since) {
        SurvivorAt(wire, h, since, base, fOld, fNew, user, x);
      } else {
        LostAt(wire, h, since, base, fOld, fNew, user, x);
      }
    }
    LeftWithOverlooked(after, h, since, fOld, view, next);
  }

  /** A tombstone hides its removal from a client that holds the torrent when the inputs it
      recorded do not match the client's filter, and the torrent is not visible again. */
  ghost predicate Hides(h: History, i: int, since: nat, fOld: Filter, view: View, next: View) {
    && CrossedAt(h, i, since)
    && !Matched(fOld, h.removed[i].info.sbits, h.removed[i].info.tag)
    && h.removed[i].key in view
    && h.removed[i].key !in next
  }

  /** The filtered poll is right exactly when no tombstone hides its removal. */
  lemma FilteredPollExact(
    wire: FieldMap, h: History, since: nat, base: Table, fOld: Filter, fNew: Filter, user: set<nat>)
    requires Inv(h) && Tracks(h, since, base) && 0 < since && h.horizon <= since
    ensures var wanted := Wanted(wire, user);
            var view, next := ViewOf(wire, base, fOld, wanted), ViewOf(wire, Live(h), fNew, wanted);
            Apply(view, Answer(wire, h, since, fOld, fNew, user)) == next
            <==> forall i :: !Hides(h, i, since, fOld, view, next)
  {
    hide Inv, Tracks, Apply, Answer, Live, Wanted, ViewOf, Overlooked, Hides;
    var wanted := Wanted(wire, user);
    var view, next := ViewOf(wire, base, fOld, wanted), ViewOf(wire, Live(h), fNew, wanted);
    DeltaPoll(wire, h, since, base, fOld, fNew, user);
    var left := Overlooked(h, since, fOld, view, next);
    OverlookedIsHidden(h, since, fOld, view, next);
    if x :| x in left {
      assert x in (next + left) && x !in next;
    } else {
      forall x ensures SameAt(next + left, next, x) {
        MergeElsewhere(next, left, x);
      }
      SameEverywhere(next + left, next);
    }
  }

  lemma OverlookedIsHidden(h: History, since: nat, fOld: Filter, view: View, next: View)
    requires 0 < since
    ensures var left := Overlooked(h, since, fOld, view, next);
            && ((exists x :: x in left) <==> exists i :: Hides(h, i, since, fOld, view, next))
            && (forall x | x in left :: x !in next)
  {
    hide Matched;
    var left := Overlooked(h, since, fOld, view, next);
    forall i | Hides(h, i, since, fOld, view, next) ensures h.removed[i].key in left {
      assert Crossed(h, since, fOld, h.removed[i].key, false);
    }
    forall x | x in left ensures exists i :: Hides(h, i, since, fOld, view, next) {
      var i :| CrossedAt(h, i, since) && h.removed[i].key == x
               && Matched(fOld, h.removed[i].info.sbits, h.removed[i].info.tag) == false;
      assert Hides(h, i, since, fOld, view, next);
    }
  }

  /** Without an old filter nothing can be hidden: the poll is always right. */
  lemma UnfilteredPoll(wire: FieldMap, h: History, since: nat, base: Table, fNew: Filter, user: set<nat>)
    requires Inv(h) && Tracks(h, since, base)
    ensures var wanted := Wanted(wire, user);
            Apply(ViewOf(wire, base, NO_FILTER, wanted), Answer(wire, h, since, NO_FILTER, fNew, user))
              == ViewOf(wire, Live(h), fNew, wanted)
  {
    var wanted := Wanted(wire, user);
    var view, next := ViewOf(wire, base, NO_FILTER, wanted), ViewOf(wire, Live(h), fNew, wanted);
    hide Inv, Tracks, Apply, Answer, ViewOf, Live, Wanted;
    if since == 0 || since < h.horizon {
      SnapshotPoll(wire, h, since, NO_FILTER, fNew, user, view);
    } else {
      DeltaPoll(wire, h, since, base, NO_FILTER, fNew, user);
      forall x ensures !Crossed(h, since, NO_FILTER, x, false) {
        EmptyFiltersCross(h, since, NO_FILTER, x);
      }
      hide Crossed;
      assert next + Overlooked(h, since, NO_FILTER, view, next) == next;
    }
  }
}
