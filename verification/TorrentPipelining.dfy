/** Two requests in flight with the same cursor and old filter, as bt/libtorrent-webui.js allows:
    what the client holds once both answers have arrived. */
module TorrentPipelining {
  import opened Basics
  import opened Maps
  import opened TorrentHistory
  import opened TorrentLookup
  import opened TorrentTracking
  import opened TorrentClient
  import opened TorrentSync
  import opened TorrentSession

  /** The table at K, with the values of `mid` for torrents that are still there. */
  ghost function Patched(h: History, k: nat, base: Table, mid: Table): Table {
    map x | x in base :: if Survives(h, x, k) && x in mid then mid[x] else base[x]
  }

  lemma AgreesEarlier(s: Slot, tags: map<Handle, bv64>, then_: Item, k: nat, later: nat)
    requires Agrees(s, tags, then_, later) && k <= later
    ensures Agrees(s, tags, then_, k)
  {
  }

  lemma SurvivorIsBoth(h: History, k: nat, base: Table, later: nat, mid: Table, x: Hash)
    requires Tracks(h, k, base) && Tracks(h, later, mid) && k <= later && Survives(h, x, k)
    ensures x in base && x in mid && Agrees(Lookup(h.queue, x).value, h.tags, mid[x], k)
  {
    hide Agrees, Lookup, ExplainsLosses, StonesAreLosses;
    assert Survives(h, x, later);
    AgreesEarlier(Lookup(h.queue, x).value, h.tags, mid[x], k, later);
  }

  lemma PatchedTracks(h: History, k: nat, base: Table, later: nat, mid: Table)
    requires Tracks(h, k, base) && Tracks(h, later, mid) && k <= later
    ensures Tracks(h, k, Patched(h, k, base, mid))
  {
    hide Agrees, Lookup;
    forall x | Survives(h, x, k)
      ensures x in Patched(h, k, base, mid)
      ensures Agrees(Lookup(h.queue, x).value, h.tags, Patched(h, k, base, mid)[x], k)
    {
      hide Tracks;
      SurvivorIsBoth(h, k, base, later, mid, x);
    }
  }

  /** Torrents the first answer showed that were not there at K and are gone again. */
  ghost function Forgotten(h: History, base: Table, view: View): View {
    map x | x in view && x !in base && Lookup(h.queue, x).None? :: view[x]
  }

  /** Without filters, what is gone is listed exactly if it was there at K. */
  lemma GoneIsListed(wire: FieldMap, h: History, k: nat, base: Table, user: set<nat>, x: Hash)
    requires Inv(h) && Tracks(h, k, base) && 0 < k && h.horizon <= k && Lookup(h.queue, x).None?
    ensures x in Answer(wire, h, k, NO_FILTER, NO_FILTER, user).removed <==> x in base
    ensures x !in Answer(wire, h, k, NO_FILTER, NO_FILTER, user).updates
  {
    hide Inv, Lookup, Answer, KnowsSurvivors, Ruling;
    QueueOkOf(h);
    assert !Survives(h, x, k);
    LossIsCrossed(h, k, base, NO_FILTER, x);
    EmptyFiltersCross(h, k, NO_FILTER, x);
    RemovedAt(wire, h, k, NO_FILTER, NO_FILTER, user, x);
    UpdatesAt(wire, h, k, NO_FILTER, NO_FILTER, user, x);
    RulingSends(h, k, NO_FILTER, NO_FILTER, x);
    if Crossed(h, k, NO_FILTER, x, true) {
      var i :| CrossedAt(h, i, k) && h.removed[i].key == x;
    }
  }

  /** A torrent added after K is sent whole, so what the client had of it does not matter. */
  lemma NewcomerIsWhole(wire: FieldMap, h: History, k: nat, user: set<nat>, x: Hash)
    requires Inv(h) && 0 < k && h.horizon <= k && Lookup(h.queue, x).Some? && !Survives(h, x, k)
    ensures var r := Answer(wire, h, k, NO_FILTER, NO_FILTER, user);
            var wanted := Wanted(wire, user);
            && !r.snapshot
            && (x in r.updates <==> wanted != {})
            && (x in r.updates ==> r.updates[x] == RecordOf(wire, ItemOf(Lookup(h.queue, x).value, h.tags), wanted))
  {
    hide Inv, Answer, Lookup, EntryOk, Ruling, Survives, UpdateFor, RecordOf, Wanted, Visible, StatusBits;
    var s := Lookup(h.queue, x).value;
    QueueOkOf(h);
    KeysOf(h, x);
    AnswerKind(wire, h, k, NO_FILTER, NO_FILTER, user);
    UpdatesAt(wire, h, k, NO_FILTER, NO_FILTER, user, x);
    RulingSends(h, k, NO_FILTER, NO_FILTER, x);
    NewcomerRuling(h, k, NO_FILTER, NO_FILTER, x);
    NoFilterShowsAll(ItemOf(s, h.tags));
    FullUpdate(wire, s, Ruling(h, k, NO_FILTER, NO_FILTER, x).entry, h.tags, k, false, user);
  }

  lemma NoFilterShowsAll(item: Item)
    ensures Visible(item, NO_FILTER)
  {
  }

  lemma PlainViewAt(wire: FieldMap, base: Table, wanted: set<nat>, x: Hash)
    ensures var view := ViewOf(wire, base, NO_FILTER, wanted);
            && (x in view <==> wanted != {} && x in base)
            && (x in view ==> view[x] == RecordOf(wire, base[x], wanted))
  {
    hide RecordOf, StatusBits;
    OldViewAt(wire, base, NO_FILTER, wanted, x);
  }

  /** The second answer applied on top of the first, for one torrent. */
  lemma SecondAnswerAt(
    wire: FieldMap, h: History, k: nat, base: Table, later: nat, mid: Table, user: set<nat>, x: Hash)
    requires Inv(h) && Tracks(h, k, base) && Tracks(h, later, mid) && k <= later && 0 < k && h.horizon <= k
    ensures var wanted := Wanted(wire, user);
            var r := Answer(wire, h, k, NO_FILTER, NO_FILTER, user);
            var view := ViewOf(wire, mid, NO_FILTER, wanted);
            var patched := ViewOf(wire, Patched(h, k, base, mid), NO_FILTER, wanted);
            SameAt(Apply(view, r), Apply(patched, r) + Forgotten(h, base, view), x)
  {
    hide Inv, Tracks, Apply, Answer, ViewOf, RecordOf, Wanted, Lookup, Survives, Agrees;
    var wanted := Wanted(wire, user);
    var r := Answer(wire, h, k, NO_FILTER, NO_FILTER, user);
    var old_ := Patched(h, k, base, mid);
    AppliedAt(ViewOf(wire, mid, NO_FILTER, wanted), r, x);
    AppliedAt(ViewOf(wire, old_, NO_FILTER, wanted), r, x);
    PlainViewAt(wire, mid, wanted, x);
    PlainViewAt(wire, old_, wanted, x);
    AnswerKind(wire, h, k, NO_FILTER, NO_FILTER, user);
    if Lookup(h.queue, x).None? {
      GoneIsListed(wire, h, k, base, user, x);
    } else if Survives(h, x, k) {
      SurvivorIsBoth(h, k, base, later, mid, x);
    } else {
      NewcomerIsWhole(wire, h, k, user, x);
      var now := ItemOf(Lookup(h.queue, x).value, h.tags);
      FullRecordWins(wire, if x in mid then mid[x] else now, now, wanted);
      FullRecordWins(wire, if x in old_ then old_[x] else now, now, wanted);
    }
  }

  /** Both answers applied: the live table, and besides exactly the forgotten torrents. */
  lemma SecondAnswerExactly(
    wire: FieldMap, h: History, k: nat, base: Table, later: nat, mid: Table, user: set<nat>)
    requires Inv(h) && Tracks(h, k, base) && Tracks(h, later, mid) && k <= later && 0 < k && h.horizon <= k
    ensures var wanted := Wanted(wire, user);
            var view := ViewOf(wire, mid, NO_FILTER, wanted);
            Apply(view, Answer(wire, h, k, NO_FILTER, NO_FILTER, user))
            == ViewOf(wire, Live(h), NO_FILTER, wanted) + Forgotten(h, base, view)
  {
    hide Inv, Tracks, Apply, Answer, ViewOf, Wanted, Forgotten, Patched, Live, SameAt;
    var wanted := Wanted(wire, user);
    var r := Answer(wire, h, k, NO_FILTER, NO_FILTER, user);
    var view := ViewOf(wire, mid, NO_FILTER, wanted);
    PatchedTracks(h, k, base, later, mid);
    UnfilteredPoll(wire, h, k, Patched(h, k, base, mid), NO_FILTER, user);
    forall x
      ensures SameAt(Apply(view, r), ViewOf(wire, Live(h), NO_FILTER, wanted) + Forgotten(h, base, view), x)
    {
      SecondAnswerAt(wire, h, k, base, later, mid, user, x);
    }
    SameEverywhere(Apply(view, r), ViewOf(wire, Live(h), NO_FILTER, wanted) + Forgotten(h, base, view));
  }

  /** What a client in sync at the cursor of h under fOld holds after the answer, for f1, that is
      computed after `first`. */
  function FirstView(wire: FieldMap, user: set<nat>, h: History, first: seq<Step>, fOld: Filter, f1: Filter): View {
    Apply(ViewOf(wire, Live(h), fOld, Wanted(wire, user)), Answer(wire, Run(h, first), h.frame, fOld, f1, user))
  }

  /** And after the second answer, for f2, to a request with the same cursor and the same old
      filter, computed after `second` more steps. */
  function BothAnswers(
    wire: FieldMap, user: set<nat>, h: History, first: seq<Step>, second: seq<Step>,
    fOld: Filter, f1: Filter, f2: Filter): View
  {
    var h2 := Run(Flush(Run(h, first)), second);
    Apply(FirstView(wire, user, h, first, fOld, f1), Answer(wire, h2, h.frame, fOld, f2, user))
  }

  ghost predicate Possible(h: History, first: seq<Step>, second: seq<Step>) {
    Inv(h) && !h.deferred && RunAllowed(h, first) && RunAllowed(Flush(Run(h, first)), second)
  }

  lemma BothTracked(h: History, first: seq<Step>, second: seq<Step>)
    requires Possible(h, first, second)
    ensures var h1 := Run(h, first);
            var h2 := Run(Flush(h1), second);
            && Inv(h1) && Tracks(h1, h.frame, Live(h))
            && Inv(h2) && Tracks(h2, h.frame, Live(h)) && Tracks(h2, Flush(h1).frame, Live(h1))
            && h.frame <= Flush(h1).frame && 0 < h.frame
  {
    hide Tracks, Live, Run, RunAllowed, Flush, QueueOk, TagsOk, StonesOk, DistinctHandles;
    var h1 := Run(h, first);
    TracksAtFrame(h);
    RunTracks(h, first, h.frame, Live(h));
    FlushInv(h1);
    TracksAtFrame(Flush(h1));
    FlushTracks(h1, h.frame, Live(h));
    RunTracks(Flush(h1), second, h.frame, Live(h));
    RunTracks(Flush(h1), second, Flush(h1).frame, Live(Flush(h1)));
    FrameBound(Flush(h1), h.frame, Live(h));
  }

  lemma FlushTracks(h: History, k: nat, base: Table)
    requires Inv(h) && Tracks(h, k, base)
    ensures Tracks(Flush(h), k, base)
  {
    hide Inv, Tracks;
    AdvanceStep(h, Flush(h), k, base);
  }

  lemma FrameBound(h: History, k: nat, base: Table)
    requires Tracks(h, k, base)
    ensures k <= h.frame
  {
  }

  /** Pipelined polls, exactly, over any run: with both answers applied the client holds the live
      table iff the second was a snapshot or no torrent came after the cursor, was shown by the
      first answer and was gone by the second. */
  lemma PipelinedPollsExactly(wire: FieldMap, user: set<nat>, h: History, first: seq<Step>, second: seq<Step>)
    requires Possible(h, first, second) && Wanted(wire, user) != {}
    ensures var h1 := Run(h, first);
            var h2 := Run(Flush(h1), second);
            BothAnswers(wire, user, h, first, second, NO_FILTER, NO_FILTER, NO_FILTER)
            == ViewOf(wire, Live(h2), NO_FILTER, Wanted(wire, user))
            <==> h.frame < h2.horizon || forall x | x in Live(h1) && x !in Live(h) :: Lookup(h2.queue, x).Some?
  {
    hide Inv, Tracks, Live, Run, RunAllowed, Flush, Apply, Answer, ViewOf, Wanted, Lookup, Possible;
    var h1 := Run(h, first);
    var h2 := Run(Flush(h1), second);
    var wanted := Wanted(wire, user);
    BothTracked(h, first, second);
    UnfilteredPoll(wire, h1, h.frame, Live(h), NO_FILTER, user);
    if h.frame < h2.horizon {
      SnapshotPoll(wire, h2, h.frame, NO_FILTER, NO_FILTER, user, ViewOf(wire, Live(h1), NO_FILTER, wanted));
    } else {
      SecondAnswerExactly(wire, h2, h.frame, Live(h), Flush(h1).frame, Live(h1), user);
      ForgottenMatters(wire, h2, Live(h), Live(h1), wanted);
    }
  }

  lemma ForgottenMatters(wire: FieldMap, h: History, base: Table, mid: Table, wanted: set<nat>)
    requires wanted != {}
    ensures var view, now := ViewOf(wire, mid, NO_FILTER, wanted), ViewOf(wire, Live(h), NO_FILTER, wanted);
            now + Forgotten(h, base, view) == now
            <==> forall x | x in mid && x !in base :: Lookup(h.queue, x).Some?
  {
    hide ViewOf, Lookup, Live, RecordOf;
    var view, now := ViewOf(wire, mid, NO_FILTER, wanted), ViewOf(wire, Live(h), NO_FILTER, wanted);
    forall x
      ensures x in Forgotten(h, base, view) <==> x in mid && x !in base && Lookup(h.queue, x).None?
      ensures x in now ==> Lookup(h.queue, x).Some?
    {
      PlainViewAt(wire, mid, wanted, x);
      PlainViewAt(wire, Live(h), wanted, x);
      LiveLookup(h, x);
    }
    if x :| x in mid && x !in base && Lookup(h.queue, x).None? {
      assert x in now + Forgotten(h, base, view) && x !in now;
    } else {
      MergeNothing(now, Forgotten(h, base, view));
    }
  }

  // ---------------------------------------------------------------- with filters

  /** Whether the server can tell what the client's filter said of a live torrent at frame k. */
  predicate Certain(e: Entry, k: nat, fOld: Filter) {
    fOld.Empty() || StableSince(e, k)
  }

  /** The server takes a client that polls at k with filter fOld to hold x, and sends a delta. */
  ghost predicate TakenAsHeld(h: History, k: nat, fOld: Filter, x: Hash) {
    && Survives(h, x, k) && Certain(Lookup(h.queue, x).value.entry, k, fOld)
    && Visible(ItemOf(Lookup(h.queue, x).value, h.tags), fOld)
  }

  /** The server takes it to lack x, and does not tell it to drop x. */
  ghost predicate TakenAsLacking(h: History, k: nat, fOld: Filter, x: Hash) {
    && Survives(h, x, k) && Certain(Lookup(h.queue, x).value.entry, k, fOld)
    && !Visible(ItemOf(Lookup(h.queue, x).value, h.tags), fOld)
  }

  /** The early break passes over torrents that have not been touched since k. */
  predicate PassedOver(s: Slot, k: nat, fOld: Filter, fNew: Filter) {
    Breaks(fOld, fNew) && s.key <= k
  }

  /** What the ruling says of a survivor, in these terms. */
  lemma SurvivorIsTaken(h: History, k: nat, fOld: Filter, fNew: Filter, x: Hash)
    requires Inv(h) && 0 < k && Survives(h, x, k)
    ensures var s := Lookup(h.queue, x).value;
            var j := Ruling(h, k, fOld, fNew, x);
            var now := Visible(ItemOf(s, h.tags), fNew);
            && (j.Send? ==> now)
            && (now && TakenAsHeld(h, k, fOld, x) ==> j == if PassedOver(s, k, fOld, fNew) then Skip else Send(s.entry))
            && (now && !TakenAsHeld(h, k, fOld, x) ==>
                  j.Send? && forall i | 0 <= i < NUM_FIELDS :: Newer(j.entry.frame[i], k))
            && (!now ==> (j.Drop? <==> !TakenAsLacking(h, k, fOld, x)))
  {
    hide Inv, StatusBits, EntryOk, Lookup;
    var s := Lookup(h.queue, x).value;
    KeysOf(h, x);
    if s.key <= k {
      UntouchedIsStable(s, k);
    }
    hide StableSince;
  }

  /** What the answer says about a survivor the client may or may not hold. */
  lemma SurvivorIsTold(
    wire: FieldMap, h: History, k: nat, base: Table, fOld: Filter, fNew: Filter, user: set<nat>, x: Hash)
    requires Inv(h) && Tracks(h, k, base) && 0 < k && h.horizon <= k && Survives(h, x, k)
    ensures var r := Answer(wire, h, k, fOld, fNew, user);
            var s := Lookup(h.queue, x).value;
            var wanted := Wanted(wire, user);
            var now := ItemOf(s, h.tags);
            var delta := UpdateFor(wire, s, s.entry, h.tags, k, false, user);
            if !Visible(now, fNew) then x !in r.updates && (x in r.removed <==> !TakenAsLacking(h, k, fOld, x))
            else if TakenAsHeld(h, k, fOld, x) then
              && x !in r.removed
              && if PassedOver(s, k, fOld, fNew) then x !in r.updates else SameAt(r.updates, delta, x)
            else
              && x !in r.removed && (x in r.updates <==> wanted != {})
              && (x in r.updates ==> r.updates[x] == RecordOf(wire, now, wanted))
  {
    hide Inv, Tracks, EntryOk, Updates, Answer, Lookup, StatusBits, Bits, RecordOf, UpdateFor, Ruling, Visible,
         Crossed, Wanted, Agrees, TakenAsHeld, TakenAsLacking, Survives;
    SurvivorIsLive(h, x, k);
    var s := Lookup(h.queue, x).value;
    var j := Ruling(h, k, fOld, fNew, x);
    QueueOkOf(h);
    KeysOf(h, x);
    SurvivorNotCrossed(h, k, base, fOld, x);
    UpdatesAt(wire, h, k, fOld, fNew, user, x);
    RemovedAt(wire, h, k, fOld, fNew, user, x);
    SurvivorIsTaken(h, k, fOld, fNew, x);
    if j.Send? && !TakenAsHeld(h, k, fOld, x) {
      FullUpdate(wire, s, j.entry, h.tags, k, false, user);
    }
  }

  lemma SurvivorIsLive(h: History, x: Hash, k: nat)
    requires Survives(h, x, k)
    ensures Lookup(h.queue, x).Some? && Lookup(h.queue, x).value.Ih() == x
  {
  }

  /** What the answer says about a torrent that has not been there since frame k. */
  lemma OtherIsTold(wire: FieldMap, h: History, k: nat, fOld: Filter, fNew: Filter, user: set<nat>, x: Hash)
    requires Inv(h) && 0 < k && h.horizon <= k && !Survives(h, x, k)
    ensures var r := Answer(wire, h, k, fOld, fNew, user);
            var found := Lookup(h.queue, x);
            var wanted := Wanted(wire, user);
            && (x in r.removed <==> Crossed(h, k, fOld, x, true))
            && (x in r.updates <==> found.Some? && Visible(ItemOf(found.value, h.tags), fNew) && wanted != {})
            && (x in r.updates ==> r.updates[x] == RecordOf(wire, ItemOf(found.value, h.tags), wanted))
  {
    hide Inv, Answer, Lookup, EntryOk, Ruling, Survives, UpdateFor, RecordOf, Wanted, Visible, StatusBits, Crossed;
    QueueOkOf(h);
    UpdatesAt(wire, h, k, fOld, fNew, user, x);
    RemovedAt(wire, h, k, fOld, fNew, user, x);
    RulingSends(h, k, fOld, fNew, x);
    if Lookup(h.queue, x).Some? {
      var s := Lookup(h.queue, x).value;
      var j := Ruling(h, k, fOld, fNew, x);
      KeysOf(h, x);
      NewcomerRuling(h, k, fOld, fNew, x);
      if j.Send? {
        FullUpdate(wire, s, j.entry, h.tags, k, false, user);
      }
    }
  }

  /** The second answer is wrong about x for a client that holds `view`: it brings only a delta of
      what the client lacks, or does not take back what the client holds. */
  ghost predicate Misled(
    wire: FieldMap, h: History, k: nat, fOld: Filter, fNew: Filter, user: set<nat>, view: View, next: View, x: Hash)
  {
    || (x in next && x !in view && TakenAsHeld(h, k, fOld, x)
        && (|| PassedOver(Lookup(h.queue, x).value, k, fOld, fNew)
            || Bits(wire, Lookup(h.queue, x).value.entry, k, false, user) != Wanted(wire, user)))
    || (x in view && x !in next && !Crossed(h, k, fOld, x, true)
        && (Survives(h, x, k) ==> TakenAsLacking(h, k, fOld, x)))
  }

  /** The client's view is right about the torrents that are still there. */
  ghost predicate RightOnSurvivors(wire: FieldMap, h: History, k: nat, mid: Table, f: Filter,
    user: set<nat>, view: View) {
    forall x | Survives(h, x, k) :: SameAt(view, ViewOf(wire, mid, f, Wanted(wire, user)), x)
  }

  lemma PartialUpdate(wire: FieldMap, s: Slot, tags: map<Handle, bv64>, k: nat, user: set<nat>)
    requires Wanted(wire, user) != {}
    ensures var update := UpdateFor(wire, s, s.entry, tags, k, false, user);
            var bits := Bits(wire, s.entry, k, false, user);
            (s.Ih() in update && update[s.Ih()] == RecordOf(wire, ItemOf(s, tags), Wanted(wire, user)))
            <==> bits == Wanted(wire, user)
  {
    hide WireValueOf;
    var bits := Bits(wire, s.entry, k, false, user);
    var now := ItemOf(s, tags);
    assert RecordOf(wire, now, bits).Keys == bits;
    assert RecordOf(wire, now, Wanted(wire, user)).Keys == Wanted(wire, user);
  }

  /** A survivor ends up right unless the client is misled about it. */
  lemma SurvivorEndsRight(
    wire: FieldMap, h: History, k: nat, base: Table, later: nat, mid: Table, fOld: Filter, f1: Filter, f2: Filter,
    user: set<nat>, view: View, x: Hash)
    requires Inv(h) && Tracks(h, k, base) && Tracks(h, later, mid) && k <= later && 0 < k && h.horizon <= k
    requires Wanted(wire, user) != {} && Survives(h, x, k)
    requires SameAt(view, ViewOf(wire, mid, f1, Wanted(wire, user)), x)
    ensures var r := Answer(wire, h, k, fOld, f2, user);
            var next := ViewOf(wire, Live(h), f2, Wanted(wire, user));
            SameAt(Apply(view, r), next, x) <==> !Misled(wire, h, k, fOld, f2, user, view, next, x)
  {
    hide Inv, Tracks, EntryOk, Updates, Answer, Lookup, StatusBits, Bits, RecordOf, UpdateFor, Visible, Crossed,
         Apply, Wanted, Agrees, TakenAsHeld, TakenAsLacking, Survives, Live, ViewOf;
    SurvivorIsLive(h, x, k);
    var s := Lookup(h.queue, x).value;
    var wanted := Wanted(wire, user);
    var now := ItemOf(s, h.tags);
    var r := Answer(wire, h, k, fOld, f2, user);
    SurvivorIsTold(wire, h, k, base, fOld, f2, user, x);
    SurvivorIsBoth(h, k, base, later, mid, x);
    SurvivorNotCrossed(h, k, base, fOld, x);
    KeysOf(h, x);
    AnswerKind(wire, h, k, fOld, f2, user);
    AppliedAt(view, r, x);
    ViewAt(wire, h, f2, wanted, x);
    OldViewAt(wire, mid, f1, wanted, x);
    DeltaUpdate(wire, s, h.tags, mid[x], k, user);
    PartialUpdate(wire, s, h.tags, k, user);
    FullRecordWins(wire, mid[x], now, wanted);
    TakenOneWay(h, k, fOld, x);
    if s.key <= k {
      UntouchedRecord(wire, s, h.tags, mid[x], k, user);
    }
  }

  lemma TakenOneWay(h: History, k: nat, fOld: Filter, x: Hash)
    ensures !(TakenAsHeld(h, k, fOld, x) && TakenAsLacking(h, k, fOld, x))
  {
  }

  lemma OtherEndsRight(
    wire: FieldMap, h: History, k: nat, fOld: Filter, f2: Filter, user: set<nat>, view: View, x: Hash)
    requires Inv(h) && 0 < k && h.horizon <= k && Wanted(wire, user) != {} && !Survives(h, x, k)
    requires x in view ==> exists item :: view[x] == RecordOf(wire, item, Wanted(wire, user))
    ensures var r := Answer(wire, h, k, fOld, f2, user);
            var next := ViewOf(wire, Live(h), f2, Wanted(wire, user));
            SameAt(Apply(view, r), next, x) <==> !Misled(wire, h, k, fOld, f2, user, view, next, x)
  {
    hide Inv, Updates, Answer, Lookup, StatusBits, Bits, RecordOf, Visible, Crossed, Apply, Wanted, Survives, Live,
         ViewOf;
    var wanted := Wanted(wire, user);
    var r := Answer(wire, h, k, fOld, f2, user);
    OtherIsTold(wire, h, k, fOld, f2, user, x);
    AnswerKind(wire, h, k, fOld, f2, user);
    AppliedAt(view, r, x);
    ViewAt(wire, h, f2, wanted, x);
    if x in view && x in r.updates {
      var item :| view[x] == RecordOf(wire, item, wanted);
      FullRecordWins(wire, item, ItemOf(Lookup(h.queue, x).value, h.tags), wanted);
    }
  }

  /** Every record of the view has all wanted fields. */
  ghost predicate Whole(wire: FieldMap, user: set<nat>, view: View) {
    forall x | x in view :: exists item :: view[x] == RecordOf(wire, item, Wanted(wire, user))
  }

  lemma MisledExactly(
    wire: FieldMap, h: History, k: nat, base: Table, later: nat, mid: Table, fOld: Filter, f1: Filter, f2: Filter,
    user: set<nat>, view: View)
    requires Inv(h) && Tracks(h, k, base) && Tracks(h, later, mid) && k <= later && 0 < k && h.horizon <= k
    requires Wanted(wire, user) != {} && Whole(wire, user, view) && RightOnSurvivors(wire, h, k, mid, f1, user, view)
    ensures var r := Answer(wire, h, k, fOld, f2, user);
            var next := ViewOf(wire, Live(h), f2, Wanted(wire, user));
            Apply(view, r) == next <==> forall x :: !Misled(wire, h, k, fOld, f2, user, view, next, x)
  {
    hide Inv, Tracks, Apply, Answer, ViewOf, Wanted, Live, SameAt, Survives, Misled, RecordOf;
    var r := Answer(wire, h, k, fOld, f2, user);
    var next := ViewOf(wire, Live(h), f2, Wanted(wire, user));
    forall x ensures SameAt(Apply(view, r), next, x) <==> !Misled(wire, h, k, fOld, f2, user, view, next, x) {
      if Survives(h, x, k) {
        SurvivorEndsRight(wire, h, k, base, later, mid, fOld, f1, f2, user, view, x);
      } else {
        OtherEndsRight(wire, h, k, fOld, f2, user, view, x);
      }
    }
    if Apply(view, r) == next {
      forall x ensures !Misled(wire, h, k, fOld, f2, user, view, next, x) {
        SameAsItself(next, x);
      }
    } else if forall x :: !Misled(wire, h, k, fOld, f2, user, view, next, x) {
      forall x ensures SameAt(Apply(view, r), next, x) {
        assert !Misled(wire, h, k, fOld, f2, user, view, next, x);
      }
      SameEverywhere(Apply(view, r), next);
    }
  }

  lemma {:induction false} RunNeverRevives(h: History, steps: seq<Step>, since: nat, base: Table, x: Hash)
    requires Inv(h) && Tracks(h, since, base) && RunAllowed(h, steps) && Survives(Run(h, steps), x, since)
    ensures Survives(h, x, since)
    decreases |steps|
  {
    hide Inv, Tracks, Allowed, Do, Survives;
    if steps != [] {
      var n := |steps| - 1;
      RunTracks(h, steps[..n], since, base);
      FrameBound(Run(h, steps[..n]), since, base);
      NeverRevived(Run(h, steps[..n]), steps[n], since, x);
      RunNeverRevives(h, steps[..n], since, base, x);
    }
  }

  lemma WholeView(wire: FieldMap, user: set<nat>, table: Table, f: Filter)
    ensures Whole(wire, user, ViewOf(wire, table, f, Wanted(wire, user)))
  {
    hide RecordOf, Wanted, Visible;
    var view := ViewOf(wire, table, f, Wanted(wire, user));
    forall x | x in view ensures exists item :: view[x] == RecordOf(wire, item, Wanted(wire, user)) {
      assert view[x] == RecordOf(wire, table[x], Wanted(wire, user));
    }
  }

  lemma WholeTogether(wire: FieldMap, user: set<nat>, a: View, b: View, all: View)
    requires Whole(wire, user, a) && Whole(wire, user, b)
    requires forall x | x in all :: (x in a && all[x] == a[x]) || (x in b && all[x] == b[x])
    ensures Whole(wire, user, all)
  {
    hide RecordOf, Wanted;
  }

  lemma OverlookedIs(h: History, k: nat, fOld: Filter, view: View, next: View, x: Hash)
    requires x in Overlooked(h, k, fOld, view, next)
    ensures x in view && x !in next && Crossed(h, k, fOld, x, false)
    ensures Overlooked(h, k, fOld, view, next)[x] == view[x]
  {
    hide Crossed;
  }

  /** The first answer is right about what is still there when the second one is computed. */
  lemma FirstViewIs(
    wire: FieldMap, user: set<nat>, h: History, first: seq<Step>, second: seq<Step>, fOld: Filter, f1: Filter)
    requires Possible(h, first, second)
    ensures var h2 := Run(Flush(Run(h, first)), second);
            var view := FirstView(wire, user, h, first, fOld, f1);
            Whole(wire, user, view) && RightOnSurvivors(wire, h2, h.frame, Live(Run(h, first)), f1, user, view)
  {
    hide Inv, Tracks, Live, Run, RunAllowed, Flush, Apply, Answer, ViewOf, Wanted, Lookup, Possible, Survives, Whole,
         Crossed, SameAt, Overlooked;
    BothTracked(h, first, second);
    var h1, k := Run(h, first), h.frame;
    var h2 := Run(Flush(h1), second);
    var wanted := Wanted(wire, user);
    var before, next := ViewOf(wire, Live(h), fOld, wanted), ViewOf(wire, Live(h1), f1, wanted);
    WholeView(wire, user, Live(h), fOld);
    WholeView(wire, user, Live(h1), f1);
    if k < h1.horizon {
      SnapshotPoll(wire, h1, k, fOld, f1, user, before);
      forall x ensures SameAt(next, next, x) {
        SameAsItself(next, x);
      }
    } else {
      DeltaPoll(wire, h1, k, Live(h), fOld, f1, user);
      var left := Overlooked(h1, k, fOld, before, next);
      forall x | x in left ensures x in before && left[x] == before[x] && !Survives(h2, x, k) {
        OverlookedIs(h1, k, fOld, before, next, x);
        if Survives(h2, x, k) {
          SurvivedThroughout(h, first, second, x);
          SurvivorNotCrossed(h1, k, Live(h), fOld, x);
        }
      }
      WholeTogether(wire, user, next, before, next + left);
      forall x | Survives(h2, x, k) ensures SameAt(next + left, next, x) {
        MergeElsewhere(next, left, x);
      }
    }
  }

  lemma SurvivedThroughout(h: History, first: seq<Step>, second: seq<Step>, x: Hash)
    requires Possible(h, first, second) && Survives(Run(Flush(Run(h, first)), second), x, h.frame)
    ensures Survives(Run(h, first), x, h.frame)
  {
    hide Inv, Tracks, Live, Run, RunAllowed;
    var h1 := Run(h, first);
    BothTracked(h, first, second);
    FlushInv(h1);
    FlushTracks(h1, h.frame, Live(h));
    RunNeverRevives(Flush(h1), second, h.frame, Live(h), x);
  }

  /** With filters, over any run and for any three filters: both requests carry the cursor and the
      filter of the same earlier answer, and the client ends up with what matches the last filter
      iff the second answer is a snapshot or the client is misled about no torrent. */
  lemma FilteredPipeliningExactly(
    wire: FieldMap, user: set<nat>, h: History, first: seq<Step>, second: seq<Step>,
    fOld: Filter, f1: Filter, f2: Filter)
    requires Possible(h, first, second) && Wanted(wire, user) != {}
    ensures var h2 := Run(Flush(Run(h, first)), second);
            var view := FirstView(wire, user, h, first, fOld, f1);
            var next := ViewOf(wire, Live(h2), f2, Wanted(wire, user));
            BothAnswers(wire, user, h, first, second, fOld, f1, f2) == next
            <==> h.frame < h2.horizon || forall x :: !Misled(wire, h2, h.frame, fOld, f2, user, view, next, x)
  {
    hide Inv, Tracks, Live, Run, RunAllowed, Flush, Apply, Answer, ViewOf, Wanted, Lookup, Possible, Misled,
         FirstView, Whole, RightOnSurvivors;
    var h1 := Run(h, first);
    var h2 := Run(Flush(h1), second);
    var view := FirstView(wire, user, h, first, fOld, f1);
    BothTracked(h, first, second);
    if h.frame < h2.horizon {
      SnapshotPoll(wire, h2, h.frame, fOld, f2, user, view);
    } else {
      FirstViewIs(wire, user, h, first, second, fOld, f1);
      MisledExactly(wire, h2, h.frame, Live(h), Flush(h1).frame, Live(h1), fOld, f1, f2, user, view);
    }
  }

  // ---------------------------------------------------------------- a forgotten torrent

  function Arrival(): Step {
    Add(Sample(PAUSED))
  }

  function Departure(): Step {
    Remove(7, 70)
  }

  lemma RunOne(h: History, step: Step)
    ensures Run(h, [step]) == Do(h, step)
    ensures RunAllowed(h, [step]) <==> Allowed(h, step)
  {
    hide Do, Allowed;
    assert [step][..0] == [];
    assert Run(h, []) == h && RunAllowed(h, []);
  }

  lemma Arrived()
    ensures var h1 := Do(Init(1000), Arrival());
            && Allowed(Init(1000), Arrival())
            && h1.queue == [Slot(2, NewEntry(Sample(PAUSED), 2))] && h1.horizon == 0 && h1.removed == []
            && Allowed(Flush(h1), Departure())
            && Do(Flush(h1), Departure()).queue == [] && Do(Flush(h1), Departure()).horizon == 0
  {
    hide Sample, StatusBits;
    SampleIs();
    NothingInUse(1000);
  }

  /** A torrent arrives before the first answer and leaves before the second. */
  lemma PipeliningCanFail(wire: FieldMap, user: set<nat>)
    requires Wanted(wire, user) != {}
    ensures var h2 := Run(Flush(Run(Init(1000), [Arrival()])), [Departure()]);
            && Possible(Init(1000), [Arrival()], [Departure()])
            && BothAnswers(wire, user, Init(1000), [Arrival()], [Departure()], NO_FILTER, NO_FILTER, NO_FILTER)
               != ViewOf(wire, Live(h2), NO_FILTER, Wanted(wire, user))
  {
    hide Inv, Wanted, BothAnswers, ViewOf, Sample, Do, Allowed, Run, RunAllowed, Flush;
    var h := Init(1000);
    SampleIs();
    InitInv(1000);
    Arrived();
    RunOne(h, Arrival());
    RunOne(Flush(Run(h, [Arrival()])), Departure());
    LiveLookup(h, 7);
    LiveLookup(Run(h, [Arrival()]), 7);
    PipelinedPollsExactly(wire, user, h, [Arrival()], [Departure()]);
  }

  // ---------------------------------------------------------------- a filter put on and taken off

  /** One torrent, not paused, and the frame in which it came. */
  function OneRunning(): History {
    Flush(Do(Init(1000), Add(Sample(0))))
  }

  lemma OneRunningIs()
    ensures var h := OneRunning();
            && Inv(h) && !h.deferred && h.frame == 2 && h.horizon == 0
            && h.queue == [Slot(2, NewEntry(Sample(0), 2))]
  {
    hide Inv, Sample;
    SampleIs();
    InitInv(1000);
    NothingInUse(1000);
    StepKeepsInv(Init(1000), Add(Sample(0)));
    FlushInv(Do(Init(1000), Add(Sample(0))));
  }

  lemma OneRunningFound(h: History)
    requires h.queue == [Slot(2, NewEntry(Sample(0), 2))]
    ensures Lookup(h.queue, 7) == Some(h.queue[0])
    ensures h.queue[0].entry.added == 2 && h.queue[0].entry.status == Sample(0)
  {
    hide Sample;
    SampleIs();
  }

  lemma OnlyPausedHides(item: Item)
    requires StatusBits(item.field) == 0x40
    ensures !Visible(item, ONLY_PAUSED)
  {
  }

  /** With nothing happening at all: one request narrows the filter, the next takes it back before
      the first answer arrives, and the client loses a torrent that it should show. */
  lemma FilterPipeliningCanFail(wire: FieldMap, user: set<nat>)
    requires Wanted(wire, user) != {}
    ensures var h := OneRunning();
            && Possible(h, [], []) && 7 in ViewOf(wire, Live(h), NO_FILTER, Wanted(wire, user))
            && 7 !in FirstView(wire, user, h, [], NO_FILTER, ONLY_PAUSED)
            && BothAnswers(wire, user, h, [], [], NO_FILTER, ONLY_PAUSED, NO_FILTER)
               != ViewOf(wire, Live(h), NO_FILTER, Wanted(wire, user))
  {
    hide Inv, Tracks, Live, Apply, Answer, ViewOf, Wanted, Lookup, OneRunning, Sample, StatusBits, Visible, BothAnswers;
    var h := OneRunning();
    var wanted := Wanted(wire, user);
    OneRunningIs();
    OneRunningFound(h);
    SampleBits();
    assert Run(h, []) == h && Flush(h) == h;
    TracksAtFrame(h);
    UnfilteredPoll(wire, h, h.frame, Live(h), ONLY_PAUSED, user);
    var item := ItemOf(h.queue[0], h.tags);
    OnlyPausedHides(item);
    NoFilterShowsAll(item);
    ViewAt(wire, h, ONLY_PAUSED, wanted, 7);
    ViewAt(wire, h, NO_FILTER, wanted, 7);
    FilteredPipeliningExactly(wire, user, h, [], [], NO_FILTER, ONLY_PAUSED, NO_FILTER);
    var view := FirstView(wire, user, h, [], NO_FILTER, ONLY_PAUSED);
    var next := ViewOf(wire, Live(h), NO_FILTER, wanted);
    assert Misled(wire, h, h.frame, NO_FILTER, NO_FILTER, user, view, next, 7);
  }
}
