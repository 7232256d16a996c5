/** The early break of query_filtered against the scan of every torrent. */
module TorrentEarlyBreak {
  import opened Maps
  import opened TorrentHistory
  import opened TorrentLookup
  import opened TorrentTracking
  import opened TorrentClient
  import opened TorrentSync

  /** query_filtered without its early break: every live torrent is visited. */
  function AnswerByFullScan(
    wire: FieldMap, h: History, since: nat, f: Filter, user: set<nat>): Response
  {
    var k := Clamp(h, since);
    Response(
      Flush(h).frame,
      k == 0,
      Updates(wire, Sent(h.queue, h.tags, k, f, f), h.tags, since, k == 0, user),
      Dropped(h.queue, h.tags, k, f, f) + RemovedSince(h, k, f))
  }

  /** A torrent the break passes over would have been left alone, or sent with nothing new. */
  lemma PassedOver(h: History, k: nat, f: Filter, x: Hash)
    requires Inv(h) && 0 < k && Lookup(h.queue, x).Some? && Lookup(h.queue, x).value.key <= k
    ensures var s := Lookup(h.queue, x).value;
            Judge(s.entry, h.tags, k, f, f)
            == if Visible(ItemOf(s, h.tags), f) then Send(s.entry) else Skip
    ensures Survives(h, x, k)
  {
    hide Inv, EntryOk, StatusBits, Matched, Lookup;
    KeysOf(h, x);
    SlotBounds(Lookup(h.queue, x).value);
    UntouchedIsStable(Lookup(h.queue, x).value, k);
    hide StableSince;
  }

  lemma SlotBounds(s: Slot)
    requires EntryOk(s)
    ensures 0 < s.entry.added <= s.key
  {
  }

  lemma ScansAgreeOnRemovals(wire: FieldMap, h: History, since: nat, f: Filter, user: set<nat>, x: Hash)
    requires Inv(h) && !f.Empty()
    ensures x in Answer(wire, h, since, f, f, user).removed <==> x in AnswerByFullScan(wire, h, since, f, user).removed
  {
    var k := Clamp(h, since);
    var r := Lookup(h.queue, x);
    hide Inv, Lookup, Judge, RemovedSince, Sent, Dropped, Updates, Visible, Survives, QueueOk, EntryOk, Clamp;
    QueueOkOf(h);
    ScopeAt(h, k, f, f, x);
    UniqueQueue(h);
    DroppedAt(h.queue, h.tags, k, f, f, x);
    DroppedAt(Scope(h, k, f, f), h.tags, k, f, f, x);
    if r.Some? && r.value.key <= k {
      KeysOf(h, x);
      SlotBounds(r.value);
      PassedOver(h, k, f, x);
    }
  }

  lemma UniqueQueue(h: History)
    requires QueueOk(h.queue, Newest(h))
    ensures Unique(h.queue)
  {
  }

  /** What the full scan says about a torrent the break passes over leaves the client as it is. */
  lemma PassedOverUpdate(
    wire: FieldMap, h: History, k: nat, base: Table, f: Filter, user: set<nat>, x: Hash)
    requires Inv(h) && Tracks(h, k, base) && 0 < k && Lookup(h.queue, x).Some? && Lookup(h.queue, x).value.key <= k
    ensures Survives(h, x, k) && x in base
    ensures var s := Lookup(h.queue, x).value;
            var wanted := Wanted(wire, user);
            var update := UpdateFor(wire, s, s.entry, h.tags, k, false, user);
            var now := RecordOf(wire, ItemOf(s, h.tags), wanted);
            && RecordOf(wire, base[x], wanted) == now
            && (x in update ==> RecordOf(wire, base[x], wanted) + update[x] == now)
            && (wanted == {} ==> x !in update)
            && (Visible(base[x], f) <==> Visible(ItemOf(s, h.tags), f))
  {
    var s := Lookup(h.queue, x).value;
    hide Inv, Tracks, Survives, EntryOk, StatusBits, Matched, Lookup, RecordOf, UpdateFor, Wanted, Agrees;
    KeysOf(h, x);
    PassedOver(h, k, f, x);
    SurvivorNotCrossed(h, k, base, f, x);
    DeltaUpdate(wire, s, h.tags, base[x], k, user);
    UntouchedRecord(wire, s, h.tags, base[x], k, user);
    UntouchedIsStable(s, k);
    StableInputs(h, k, base, x);
    if Wanted(wire, user) == {} {
      NothingWanted(wire, s, s.entry, h.tags, k, user);
    }
  }

  lemma ScansAgreeOnViews(
    wire: FieldMap, h: History, since: nat, base: Table, f: Filter, user: set<nat>, x: Hash)
    requires Inv(h) && Tracks(h, since, base) && !f.Empty()
    ensures var view := ViewOf(wire, base, f, Wanted(wire, user));
            SameAt(Apply(view, AnswerByFullScan(wire, h, since, f, user)),
                   Apply(view, Answer(wire, h, since, f, f, user)), x)
  {
    var wanted := Wanted(wire, user);
    var view := ViewOf(wire, base, f, wanted);
    var k := Clamp(h, since);
    var full, quick := AnswerByFullScan(wire, h, since, f, user), Answer(wire, h, since, f, f, user);
    var r := Lookup(h.queue, x);
    hide Inv, Tracks, Survives, QueueOk, EntryOk, StatusBits, Matched, Lookup, RecordOf, UpdateFor, Wanted, Judge,
         ViewOf, Updates, Apply, Visible, Sent, Dropped, RemovedSince, Answer;
    QueueOkOf(h);
    UniqueQueue(h);
    AnswerKind(wire, h, since, f, f, user);
    SentAt(wire, h.queue, h.tags, k, f, f, since, k == 0, user, x);
    UpdatesAt(wire, h, since, f, f, user, x);
    ScansAgreeOnRemovals(wire, h, since, f, user, x);
    AppliedAt(view, full, x);
    AppliedAt(view, quick, x);
    if r.Some? {
      KeysOf(h, x);
      SlotBounds(r.value);
      if r.value.key <= k {
        PassedOver(h, k, f, x);
        PassedOverUpdate(wire, h, k, base, f, user, x);
        OldViewAt(wire, base, f, wanted, x);
        SurvivorNotCrossed(h, k, base, f, x);
        RemovedAt(wire, h, since, f, f, user, x);
      }
    }
  }

  /** The early break is only an optimisation: the same removals, the same client view. */
  lemma EarlyBreakRefinesFullScan(wire: FieldMap, h: History, since: nat, base: Table, f: Filter, user: set<nat>)
    requires Inv(h) && Tracks(h, since, base) && !f.Empty()
    ensures var view := ViewOf(wire, base, f, Wanted(wire, user));
            var full, quick := AnswerByFullScan(wire, h, since, f, user), Answer(wire, h, since, f, f, user);
            && (forall x :: x in full.removed <==> x in quick.removed)
            && Apply(view, full) == Apply(view, quick)
  {
    var view := ViewOf(wire, base, f, Wanted(wire, user));
    var full, quick := AnswerByFullScan(wire, h, since, f, user), Answer(wire, h, since, f, f, user);
    hide Inv, Tracks, Wanted, ViewOf, Apply, Answer, AnswerByFullScan, SameAt;
    forall x
      ensures x in full.removed <==> x in quick.removed
      ensures SameAt(Apply(view, full), Apply(view, quick), x)
    {
      ScansAgreeOnRemovals(wire, h, since, f, user, x);
      ScansAgreeOnViews(wire, h, since, base, f, user, x);
    }
    SameEverywhere(Apply(view, full), Apply(view, quick));
  }
}
