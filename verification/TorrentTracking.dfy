/** What the history still knows, at any later moment, about the table as it was at an earlier
    frame K, and the proof that no step of the server forgets any of it. */
module TorrentTracking {
  import opened Basics
  import opened Tombstones
  import opened TorrentHistory
  import opened TorrentLookup

  /** A torrent as a client can see it. */
  datatype Item = Item(field: Fields, tag: bv64)

  type Table = map<Hash, Item>

  function ItemOf(s: Slot, tags: map<Handle, bv64>): Item {
    Item(s.entry.status.field, TagOf(tags, s.Handle()))
  }

  /** The live table. */
  function Live(h: History): Table {
    map x | x in (set s | s in h.queue :: s.Ih()) && Lookup(h.queue, x).Some? ::
      ItemOf(Lookup(h.queue, x).value, h.tags)
  }

  lemma LiveLookup(h: History, x: Hash)
    ensures x in Live(h) <==> Lookup(h.queue, x).Some?
  {
    if Lookup(h.queue, x).Some? {
      assert Lookup(h.queue, x).value in h.queue;
    }
  }

  // ---------------------------------------------------------------- steps of the server

  /** The alerts and calls that reach the history. A query acts on it like `Ask`. */
  datatype Step =
    | Add(st: Status)
    | Remove(ih: Hash, handle: Handle)
    | Update(sts: seq<Status>)
    | Tag(ih: Hash, value: bv64, mask: bv64)
    | Ask

  function Do(h: History, step: Step): History {
    match step
    case Add(st) => AddTorrent(h, st)
    case Remove(ih, handle) => RemoveTorrent(h, ih, handle)
    case Update(sts) => StateUpdate(h, sts)
    case Tag(ih, value, mask) => SetTag(h, ih, value, mask).0
    case Ask => Flush(h)
  }

  predicate HandleFits(q: seq<Slot>, ih: Hash, handle: Handle) {
    Lookup(q, ih).Some? ==> Lookup(q, ih).value.Handle() == handle
  }

  /** What libtorrent guarantees: a handle belongs to one live torrent and never changes. */
  ghost predicate Allowed(h: History, step: Step) {
    match step
    case Add(st) => Lookup(h.queue, st.ih).Some? || !HandleInUse(h.queue, st.handle)
    case Remove(ih, handle) =>
      if Lookup(h.queue, ih).Some? then HandleFits(h.queue, ih, handle) else !HandleInUse(h.queue, handle)
    case Update(sts) => forall st | st in sts :: HandleFits(h.queue, st.ih, st.handle)
    case Tag(_, _, _) => true
    case Ask => true
  }

  // ---------------------------------------------------------------- tracking an old frame

  ghost predicate Survives(h: History, x: Hash, since: nat) {
    var r := Lookup(h.queue, x);
    r.Some? && r.value.entry.added <= since
  }

  predicate Older(f: Frame, since: nat) {
    f.At? && f.n <= since
  }

  /** Each field not newer than `since` still has the value it had then. */
  ghost predicate Agrees(s: Slot, tags: map<Handle, bv64>, then_: Item, since: nat) {
    && (forall k | 0 <= k < TAG && k != NUM_UNDEAD_PEERS ::
          Older(s.entry.frame[k], since) ==> s.entry.status.field[k] == then_.field[k])
    && (s.entry.frame[TAG] == Unset || s.entry.frame[TAG].n <= since ==> TagOf(tags, s.Handle()) == then_.tag)
  }

  ghost predicate CrossedAt(h: History, i: int, since: nat) {
    0 <= i < |h.removed| && Crosses(h.removed[i], since)
  }

  /** What is live now and was live then is known field by field. */
  ghost predicate KnowsSurvivors(h: History, since: nat, base: Table) {
    forall x | Survives(h, x, since) :: x in base && Agrees(Lookup(h.queue, x).value, h.tags, base[x], since)
  }

  /** What was live then and is gone has a tombstone, unless the horizon has passed. */
  ghost predicate ExplainsLosses(h: History, since: nat, base: Table) {
    forall x | x in base ::
      || Survives(h, x, since)
      || since < h.horizon
      || exists i :: CrossedAt(h, i, since) && h.removed[i].key == x
  }

  /** A crossing tombstone is of a torrent that was live then and is not any more, once each. */
  ghost predicate StonesAreLosses(h: History, since: nat, base: Table) {
    && (forall i | CrossedAt(h, i, since) :: h.removed[i].key in base && !Survives(h, h.removed[i].key, since))
    && (forall i, j | i < j && CrossedAt(h, i, since) && CrossedAt(h, j, since) ::
          h.removed[i].key != h.removed[j].key)
  }

  /** Everything the history guarantees about `base`, the table as it was at frame `since`. */
  ghost predicate Tracks(h: History, since: nat, base: Table) {
    && since <= h.frame
    && KnowsSurvivors(h, since, base)
    && ExplainsLosses(h, since, base)
    && StonesAreLosses(h, since, base)
  }

  /** A table just read tracks itself. */
  lemma TracksNow(h: History)
    requires Inv(h) && !h.deferred
    ensures Tracks(h, h.frame, Live(h))
  {
    forall x | Lookup(h.queue, x).Some? ensures x in Live(h) {
      LiveLookup(h, x);
    }
    forall x | x in Live(h) ensures Survives(h, x, h.frame) {
      var s := Lookup(h.queue, x).value;
      assert EntryOk(s) && s.key <= h.frame;
    }
    assert forall i | 0 <= i < |h.removed| :: h.removed[i] in h.removed && !CrossedAt(h, i, h.frame);
  }

  // ---------------------------------------------------------------- touching one torrent

  /** h with the slot of one torrent put, or replaced by a newer one, at the front. */
  ghost predicate IsTouch(h: History, s: Slot, h': History) {
    && h'.queue == [s] + Without(h.queue, s.Ih())
    && h'.removed == h.removed && h'.horizon == h.horizon && h'.limit == h.limit && h'.frame == h.frame
    && Newest(h) <= Newest(h') == s.key
    && EntryOk(s)
    && HandleFits(h.queue, s.Ih(), s.Handle())
    && (Lookup(h.queue, s.Ih()).None? ==> !HandleInUse(h.queue, s.Handle()))
    && (forall g | g != s.Handle() :: (g in h'.tags <==> g in h.tags) && TagOf(h'.tags, g) == TagOf(h.tags, g))
    && (s.entry.frame[TAG] == Unset ==> s.Handle() !in h'.tags)
  }

  lemma TouchLookups(h: History, s: Slot, h': History)
    requires Inv(h) && IsTouch(h, s, h')
    ensures forall x :: Lookup(h'.queue, x) == if x == s.Ih() then Some(s) else Lookup(h.queue, x)
  {
    forall x ensures Lookup(h'.queue, x) == if x == s.Ih() then Some(s) else Lookup(h.queue, x) {
      TouchLookup(h.queue, s, x);
    }
  }

  lemma TouchHandles(h: History, s: Slot, h': History)
    requires Inv(h) && IsTouch(h, s, h')
    ensures DistinctHandles(h'.queue)
    ensures forall g :: HandleInUse(h'.queue, g) <== HandleInUse(h.queue, g) || g == s.Handle()
  {
    TouchLookups(h, s, h');
    assert Lookup(h'.queue, s.Ih()) == Some(s);
    forall g | HandleInUse(h.queue, g) ensures HandleInUse(h'.queue, g) {
      var x :| Lookup(h.queue, x).Some? && Lookup(h.queue, x).value.Handle() == g;
      assert Lookup(h'.queue, x).Some?;
    }
  }

  lemma TouchInv(h: History, s: Slot, h': History)
    requires Inv(h) && IsTouch(h, s, h')
    ensures Inv(h')
  {
    TouchQueue(h.queue, s, Newest(h'));
    TouchHandles(h, s, h');
    TouchLookups(h, s, h');
  }

  /** Nothing is overwritten unless its frame says so. */
  ghost predicate Refreshes(o: Slot, tags: map<Handle, bv64>, s: Slot, tags': map<Handle, bv64>) {
    && s.Ih() == o.Ih() && s.Handle() == o.Handle() && s.entry.added == o.entry.added
    && (forall k | 0 <= k < TAG && k != NUM_UNDEAD_PEERS ::
          || s.entry.frame[k] == At(s.key)
          || (s.entry.frame[k] == o.entry.frame[k] && s.entry.status.field[k] == o.entry.status.field[k]))
    && (|| s.entry.frame[TAG] == At(s.key)
        || (s.entry.frame[TAG] == o.entry.frame[TAG] && TagOf(tags', s.Handle()) == TagOf(tags, s.Handle())))
  }

  lemma TouchTracks(h: History, s: Slot, h': History, since: nat, base: Table)
    requires Inv(h) && IsTouch(h, s, h') && Tracks(h, since, base) && since < s.key
    requires var o := Lookup(h.queue, s.Ih());
             if o.Some? then Refreshes(o.value, h.tags, s, h'.tags) else s.entry.added == s.key
    ensures Tracks(h', since, base)
  {
    TouchLookups(h, s, h');
    assert forall x :: Survives(h', x, since) <==> Survives(h, x, since);
    forall x | Survives(h', x, since)
      ensures x in base && Agrees(Lookup(h'.queue, x).value, h'.tags, base[x], since)
    {
      assert Survives(h, x, since);
      var o := Lookup(h.queue, x).value;
      if x != s.Ih() {
        assert o.Handle() != s.Handle();
      }
    }
    assert forall i :: CrossedAt(h', i, since) <==> CrossedAt(h, i, since);
  }

  // ---------------------------------------------------------------- each step

  lemma AddIsTouch(h: History, st: Status)
    requires Inv(h) && Allowed(h, Add(st)) && IndexOf(h.queue, st.ih) == |h.queue|
    ensures var h' := AddTorrent(h, st);
            && h'.queue != [] && IsTouch(h, h'.queue[0], h') && Lookup(h.queue, h'.queue[0].Ih()).None?
            && h'.queue[0].entry.added == h'.queue[0].key == h.frame + 1
  {
    var s := Slot(h.frame + 1, NewEntry(st, h.frame + 1));
    assert Without(h.queue, st.ih) == h.queue;
  }

  lemma AddStep(h: History, st: Status, since: nat, base: Table)
    requires Inv(h) && Allowed(h, Add(st))
    ensures Inv(AddTorrent(h, st))
    ensures Tracks(h, since, base) ==> Tracks(AddTorrent(h, st), since, base)
  {
    var h' := AddTorrent(h, st);
    if IndexOf(h.queue, st.ih) == |h.queue| {
      AddIsTouch(h, st);
      hide Inv, Tracks, IsTouch, Lookup, Allowed;
      TouchInv(h, h'.queue[0], h');
      if Tracks(h, since, base) {
        TracksNotAhead(h, since, base);
        TouchTracks(h, h'.queue[0], h', since, base);
      }
    } else {
      DeferredStep(h, since, base);
    }
  }

  lemma TracksNotAhead(h: History, since: nat, base: Table)
    requires Tracks(h, since, base)
    ensures since <= h.frame
  {
  }

  /** A duplicate only makes the frame advance later. */
  lemma DeferredStep(h: History, since: nat, base: Table)
    requires Inv(h)
    ensures Inv(h.(deferred := true))
    ensures Tracks(h, since, base) ==> Tracks(h.(deferred := true), since, base)
  {
    var h' := h.(deferred := true);
    assert forall x :: Survives(h', x, since) <==> Survives(h, x, since);
    assert forall i :: CrossedAt(h', i, since) <==> CrossedAt(h, i, since);
  }

  lemma TagIsTouch(h: History, ih: Hash, value: bv64, mask: bv64)
    requires Inv(h) && SetTag(h, ih, value, mask).1
    ensures var h' := SetTag(h, ih, value, mask).0;
            && h'.queue != [] && IsTouch(h, h'.queue[0], h') && h'.queue[0].key == h.frame + 1
            && Lookup(h.queue, h'.queue[0].Ih()).Some?
            && Refreshes(Lookup(h.queue, h'.queue[0].Ih()).value, h.tags, h'.queue[0], h'.tags)
  {
    hide MergeTag;
    var o := h.queue[IndexOf(h.queue, ih)];
    assert EntryOk(o);
  }

  lemma TagStep(h: History, ih: Hash, value: bv64, mask: bv64, since: nat, base: Table)
    requires Inv(h)
    ensures Inv(SetTag(h, ih, value, mask).0)
    ensures Tracks(h, since, base) ==> Tracks(SetTag(h, ih, value, mask).0, since, base)
  {
    var (h', changed) := SetTag(h, ih, value, mask);
    if changed {
      TagIsTouch(h, ih, value, mask);
      hide Inv, Tracks, IsTouch, Lookup, Refreshes, MergeTag;
      TouchInv(h, h'.queue[0], h');
      if Tracks(h, since, base) {
        TracksNotAhead(h, since, base);
        TouchTracks(h, h'.queue[0], h', since, base);
      }
    }
  }

  lemma UpdateIsTouch(h: History, st: Status)
    requires Inv(h) && !h.deferred && HandleFits(h.queue, st.ih, st.handle) && IndexOf(h.queue, st.ih) < |h.queue|
    ensures var h' := h.(queue := UpdateOne(h.queue, st, h.frame));
            && h'.queue != [] && h'.queue[0].Ih() == st.ih && h'.queue[0].key == h.frame
            && IsTouch(h, h'.queue[0], h')
            && Refreshes(Lookup(h.queue, st.ih).value, h.tags, h'.queue[0], h'.tags)
  {
    assert EntryOk(h.queue[IndexOf(h.queue, st.ih)]);
  }

  lemma UpdateOneStep(h: History, st: Status, since: nat, base: Table)
    requires Inv(h) && !h.deferred && since < h.frame && HandleFits(h.queue, st.ih, st.handle)
    requires Tracks(h, since, base)
    ensures var h' := h.(queue := UpdateOne(h.queue, st, h.frame));
            Inv(h') && Tracks(h', since, base)
  {
    var h' := h.(queue := UpdateOne(h.queue, st, h.frame));
    var i := IndexOf(h.queue, st.ih);
    if i < |h.queue| {
      UpdateIsTouch(h, st);
      hide Inv, Tracks;
      var s := h'.queue[0];
      TouchInv(h, s, h');
      TouchTracks(h, s, h', since, base);
    }
  }

  /** An update list never changes which torrents are live or which handles they have. */
  lemma {:induction false} UpdateAllHandles(q: seq<Slot>, sts: seq<Status>, f: nat)
    requires Unique(q)
    requires forall st | st in sts :: HandleFits(q, st.ih, st.handle)
    ensures Unique(UpdateAll(q, sts, f))
    ensures forall x :: var r, r' := Lookup(q, x), Lookup(UpdateAll(q, sts, f), x);
              (r.Some? <==> r'.Some?) && (r.Some? ==> r.value.Handle() == r'.value.Handle())
    decreases |sts|
  {
    if sts != [] {
      var init, st := sts[..|sts| - 1], sts[|sts| - 1];
      UpdateAllHandles(q, init, f);
      var p := UpdateAll(q, init, f);
      var i := IndexOf(p, st.ih);
      if i < |p| {
        var s := Slot(f, UpdatedEntry(p[i].entry, st, f));
        forall x
          ensures Unique([s] + Without(p, st.ih))
          ensures Lookup([s] + Without(p, st.ih), x) == if x == st.ih then Some(s) else Lookup(p, x)
        {
          TouchLookup(p, s, x);
        }
        assert HandleFits(q, st.ih, st.handle);
      }
    }
  }

  lemma {:induction false} UpdateAllStep(h: History, sts: seq<Status>, since: nat, base: Table)
    requires Inv(h) && !h.deferred && since < h.frame
    requires forall st | st in sts :: HandleFits(h.queue, st.ih, st.handle)
    requires Tracks(h, since, base)
    ensures var h' := h.(queue := UpdateAll(h.queue, sts, h.frame));
            Inv(h') && Tracks(h', since, base)
    decreases |sts|
  {
    if sts != [] {
      var init, st := sts[..|sts| - 1], sts[|sts| - 1];
      UpdateAllStep(h, init, since, base);
      UpdateAllHandles(h.queue, init, h.frame);
      assert HandleFits(h.queue, st.ih, st.handle);
      UpdateOneStep(h.(queue := UpdateAll(h.queue, init, h.frame)), st, since, base);
    }
  }

  /** Letting the frame counter advance changes nothing that is tracked. */
  lemma AdvanceStep(h: History, h': History, since: nat, base: Table)
    requires Inv(h) && h.frame <= h'.frame && Newest(h) <= Newest(h')
    requires h' == h.(frame := h'.frame, deferred := h'.deferred)
    ensures Inv(h')
    ensures Tracks(h, since, base) ==> Tracks(h', since, base)
  {
    assert forall x :: Survives(h', x, since) <==> Survives(h, x, since);
    assert forall i :: CrossedAt(h', i, since) <==> CrossedAt(h, i, since);
  }

  lemma UpdateStep(h: History, sts: seq<Status>, since: nat, base: Table)
    requires Inv(h) && Allowed(h, Update(sts)) && since <= h.frame && Tracks(h, since, base)
    ensures Inv(StateUpdate(h, sts)) && Tracks(StateUpdate(h, sts), since, base)
  {
    hide Inv, Tracks;
    var g := h.(frame := h.frame + 1, deferred := false);
    AdvanceStep(h, g, since, base);
    UpdateAllStep(g, sts, since, base);
  }

  lemma RemoveLookups(h: History, ih: Hash, handle: Handle)
    requires Inv(h) && Allowed(h, Remove(ih, handle))
    ensures QueueOk(Without(h.queue, ih), Newest(h))
    ensures forall x :: Lookup(Without(h.queue, ih), x) == if x == ih then None else Lookup(h.queue, x)
    ensures forall x | x != ih && Lookup(h.queue, x).Some? :: Lookup(h.queue, x).value.Handle() != handle
  {
    SortedWithout(h.queue, ih);
    forall x
      ensures Unique(Without(h.queue, ih))
      ensures Lookup(Without(h.queue, ih), x) == if x == ih then None else Lookup(h.queue, x)
    {
      LookupWithout(h.queue, ih, x);
    }
    assert Lookup(h.queue, ih).None? ==> !HandleInUse(h.queue, handle);
  }

  lemma RemoveTags(h: History, ih: Hash, handle: Handle)
    requires Inv(h) && Allowed(h, Remove(ih, handle))
    ensures TagsOk(Without(h.queue, ih), h.tags - {handle})
    ensures DistinctHandles(Without(h.queue, ih))
  {
    RemoveLookups(h, ih, handle);
    var q := Without(h.queue, ih);
    forall g | g in h.tags && g != handle ensures HandleInUse(q, g) {
      var x :| Lookup(h.queue, x).Some? && Lookup(h.queue, x).value.Handle() == g;
      assert Lookup(q, x).Some?;
    }
  }

  lemma OneMoreStone(removed: seq<Tombstone<Verdict>>, t: Tombstone<Verdict>, limit: nat, newest: nat)
    requires StonesOk(removed, newest, limit) && newest <= t.removedFrame && 0 < t.addedFrame
    ensures StonesOk([t] + removed, t.removedFrame, limit + 1)
  {
    var all := [t] + removed;
    forall i, j | 0 <= i < j < |all| ensures all[i].removedFrame >= all[j].removedFrame {
      assert all[j] == removed[j - 1] && all[j] in removed;
    }
  }

  lemma FewerStones(removed: seq<Tombstone<Verdict>>, n: nat, newest: nat, limit: nat)
    requires StonesOk(removed, newest, limit) && n <= |removed|
    ensures StonesOk(removed[..n], newest, n)
  {
  }

  lemma MoreRoom(removed: seq<Tombstone<Verdict>>, newest: nat, limit: nat, more: nat)
    requires StonesOk(removed, newest, limit) && |removed| <= more
    ensures StonesOk(removed, newest, more)
  {
  }

  lemma PushStone(removed: seq<Tombstone<Verdict>>, t: Tombstone<Verdict>, horizon: nat, limit: nat, newest: nat)
    requires StonesOk(removed, newest, limit) && newest <= t.removedFrame && 0 < t.addedFrame
    ensures StonesOk(Evict([t] + removed, horizon, limit).0, t.removedFrame, limit)
  {
    hide StonesOk, Evict;
    var all := [t] + removed;
    OneMoreStone(removed, t, limit, newest);
    if |all| <= limit {
      MoreRoom(all, t.removedFrame, limit + 1, limit);
    } else {
      FewerStones(all, limit, t.removedFrame, limit + 1);
    }
  }

  lemma RemoveInv(h: History, ih: Hash, handle: Handle)
    requires Inv(h) && Allowed(h, Remove(ih, handle))
    ensures Inv(RemoveTorrent(h, ih, handle))
  {
    RemoveLookups(h, ih, handle);
    RemoveTags(h, ih, handle);
    PushStone(h.removed, StoneFor(h, ih, handle), h.horizon, h.limit, Newest(h));
  }

  lemma RemoveSurvivors(h: History, ih: Hash, handle: Handle, since: nat)
    requires Inv(h) && Allowed(h, Remove(ih, handle))
    ensures var h' := RemoveTorrent(h, ih, handle);
            && (forall x :: Survives(h', x, since) <==> Survives(h, x, since) && x != ih)
            && (forall x | Survives(h', x, since) ::
                  && Lookup(h'.queue, x) == Lookup(h.queue, x)
                  && TagOf(h'.tags, Lookup(h.queue, x).value.Handle())
                     == TagOf(h.tags, Lookup(h.queue, x).value.Handle()))
  {
    RemoveLookups(h, ih, handle);
  }

  /** A new tombstone in front: those that still fit keep their order, the rest are behind the
      horizon. */
  lemma PushedStones(removed: seq<Tombstone<Verdict>>, t: Tombstone<Verdict>, horizon: nat, limit: nat)
    ensures var (kept, horizon') := Evict([t] + removed, horizon, limit);
            && (if kept != [] then kept[0] == t else t.removedFrame < horizon')
            && (forall i | 0 < i < |kept| :: i - 1 < |removed| && kept[i] == removed[i - 1])
            && (forall i | 0 <= i < |removed| ::
                  if i + 1 < |kept| then kept[i + 1] == removed[i] else removed[i].removedFrame < horizon')
  {
    hide Evict;
    var all := [t] + removed;
    assert all[0] == t;
    assert forall i | 0 <= i < |removed| :: removed[i] == all[i + 1];
  }

  /** Where the tombstones are after a removal: one new in front, the oldest perhaps gone. */
  lemma RemoveCrossings(h: History, ih: Hash, handle: Handle, since: nat)
    requires since <= h.frame
    ensures var h' := RemoveTorrent(h, ih, handle);
            && (CrossedAt(h', 0, since) ==> h'.removed[0].key == ih && Survives(h, ih, since))
            && (Survives(h, ih, since) ==> CrossedAt(h', 0, since) || since < h'.horizon)
            && (forall i | 0 < i && CrossedAt(h', i, since) ::
                  CrossedAt(h, i - 1, since) && h'.removed[i] == h.removed[i - 1])
            && (forall i | CrossedAt(h, i, since) ::
                  since < h'.horizon || (CrossedAt(h', i + 1, since) && h'.removed[i + 1] == h.removed[i]))
  {
    PushedStones(h.removed, StoneFor(h, ih, handle), h.horizon, h.limit);
  }

  lemma RemoveExplains(h: History, ih: Hash, handle: Handle, since: nat, base: Table)
    requires Inv(h) && Allowed(h, Remove(ih, handle)) && since <= h.frame && ExplainsLosses(h, since, base)
    ensures ExplainsLosses(RemoveTorrent(h, ih, handle), since, base)
  {
    var h' := RemoveTorrent(h, ih, handle);
    RemoveSurvivors(h, ih, handle, since);
    RemoveCrossings(h, ih, handle, since);
    hide Inv, Allowed, RemoveTorrent, Lookup;
    forall x | x in base && !Survives(h', x, since) && h'.horizon <= since
      ensures exists i :: CrossedAt(h', i, since) && h'.removed[i].key == x
    {
      if x == ih && Survives(h, ih, since) {
        assert CrossedAt(h', 0, since);
      } else {
        var i :| CrossedAt(h, i, since) && h.removed[i].key == x;
        assert CrossedAt(h', i + 1, since);
      }
    }
  }

  lemma RemoveStones(h: History, ih: Hash, handle: Handle, since: nat, base: Table)
    requires Inv(h) && Allowed(h, Remove(ih, handle)) && since <= h.frame
    requires KnowsSurvivors(h, since, base) && StonesAreLosses(h, since, base)
    ensures StonesAreLosses(RemoveTorrent(h, ih, handle), since, base)
  {
    RemoveSurvivors(h, ih, handle, since);
    RemoveCrossings(h, ih, handle, since);
    hide Inv, Allowed, RemoveTorrent, Lookup, Agrees;
  }

  lemma RemoveTracks(h: History, ih: Hash, handle: Handle, since: nat, base: Table)
    requires Inv(h) && Allowed(h, Remove(ih, handle)) && Tracks(h, since, base)
    ensures Tracks(RemoveTorrent(h, ih, handle), since, base)
  {
    RemoveExplains(h, ih, handle, since, base);
    RemoveStones(h, ih, handle, since, base);
    RemoveSurvivors(h, ih, handle, since);
    hide Inv, Allowed, ExplainsLosses, StonesAreLosses, Lookup;
  }

  /** Every step keeps the invariant and keeps track of every old frame. */
  lemma StepTracks(h: History, step: Step, since: nat, base: Table)
    requires Inv(h) && Allowed(h, step) && Tracks(h, since, base)
    ensures Inv(Do(h, step)) && Tracks(Do(h, step), since, base)
  {
    match step
    case Add(st) => AddStep(h, st, since, base);
    case Remove(ih, handle) => RemoveInv(h, ih, handle); RemoveTracks(h, ih, handle, since, base);
    case Update(sts) => UpdateStep(h, sts, since, base);
    case Tag(ih, value, mask) => TagStep(h, ih, value, mask, since, base);
    case Ask => AdvanceStep(h, Flush(h), since, base);
  }

  // ---------------------------------------------------------------- no step revives a torrent

  lemma {:induction false} UpdateAllAdded(q: seq<Slot>, sts: seq<Status>, f: nat, x: Hash)
    requires Unique(q)
    ensures Unique(UpdateAll(q, sts, f))
    ensures var r, r' := Lookup(q, x), Lookup(UpdateAll(q, sts, f), x);
            r'.Some? ==> r.Some? && r'.value.entry.added == r.value.entry.added
    decreases |sts|
  {
    if sts != [] {
      var init, st := sts[..|sts| - 1], sts[|sts| - 1];
      UpdateAllAdded(q, init, f, x);
      var p := UpdateAll(q, init, f);
      var i := IndexOf(p, st.ih);
      if i < |p| {
        TouchLookup(p, Slot(f, UpdatedEntry(p[i].entry, st, f)), x);
      }
    }
  }

  /** A torrent that is there since an old frame was there since that frame before the step. */
  lemma NeverRevived(h: History, step: Step, since: nat, x: Hash)
    requires Inv(h) && Allowed(h, step) && since <= h.frame && Survives(Do(h, step), x, since)
    ensures Survives(h, x, since)
  {
    hide NewEntry, UpdateAll, MergeTag;
    match step
    case Add(st) =>
      if IndexOf(h.queue, st.ih) == |h.queue| {
        var s := Slot(h.frame + 1, NewEntry(st, h.frame + 1));
        AddedNow(st, h.frame + 1);
        LookupFront(s, h.queue, x);
      }
    case Remove(ih, handle) => RemoveSurvivors(h, ih, handle, since);
    case Update(sts) => UpdateAllAdded(h.queue, sts, h.frame + 1, x);
    case Tag(ih, value, mask) => TagAdded(h, ih, value, mask, x);
    case Ask =>
  }

  lemma AddedNow(st: Status, f: nat)
    ensures NewEntry(st, f).added == f && NewEntry(st, f).status == st
  {
  }

  lemma TagAdded(h: History, ih: Hash, value: bv64, mask: bv64, x: Hash)
    requires Unique(h.queue)
    ensures var r, r' := Lookup(h.queue, x), Lookup(SetTag(h, ih, value, mask).0.queue, x);
            r'.Some? ==> r.Some? && r'.value.entry.added == r.value.entry.added
  {
    hide MergeTag;
    var (h', changed) := SetTag(h, ih, value, mask);
    if changed {
      TouchLookup(h.queue, h'.queue[0], x);
    }
  }
}
