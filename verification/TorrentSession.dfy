/** Whole runs: any interleaving of alerts, tag changes and other clients' polls with the polls
    of one client, whose filter may change from poll to poll. */
module TorrentSession {
  import opened Tombstones
  import opened TorrentHistory
  import opened TorrentLookup
  import opened TorrentTracking
  import opened TorrentClient
  import opened TorrentSync

  // ---------------------------------------------------------------- runs of the server

  function Run(h: History, steps: seq<Step>): History
    decreases |steps|
  {
    if steps == [] then h else Do(Run(h, steps[..|steps| - 1]), steps[|steps| - 1])
  }

  ghost predicate RunAllowed(h: History, steps: seq<Step>)
    decreases |steps|
  {
    steps == []
    || (RunAllowed(h, steps[..|steps| - 1]) && Allowed(Run(h, steps[..|steps| - 1]), steps[|steps| - 1]))
  }

  /** However long the server runs on, it keeps track of a table that was current once. */
  lemma {:induction false} RunTracks(h: History, steps: seq<Step>, since: nat, base: Table)
    requires Inv(h) && Tracks(h, since, base) && RunAllowed(h, steps)
    ensures Inv(Run(h, steps)) && Tracks(Run(h, steps), since, base)
    decreases |steps|
  {
    hide Inv, Tracks, Allowed, Do;
    if steps != [] {
      RunTracks(h, steps[..|steps| - 1], since, base);
      StepTracks(Run(h, steps[..|steps| - 1]), steps[|steps| - 1], since, base);
    }
  }

  /** filter_inputs_stable_since is sound in every reachable state: a torrent that is stable
      since frame K was live when K was the current frame, with the same filter inputs. */
  lemma StabilityIsSound(h: History, steps: seq<Step>, x: Hash)
    requires Inv(h) && !h.deferred && RunAllowed(h, steps)
    requires Lookup(Run(h, steps).queue, x).Some?
    requires StableSince(Lookup(Run(h, steps).queue, x).value.entry, h.frame)
    ensures var s := Lookup(Run(h, steps).queue, x).value;
            && x in Live(h)
            && StatusBits(Live(h)[x].field) == StatusBits(s.entry.status.field)
            && Live(h)[x].tag == TagOf(Run(h, steps).tags, s.Handle())
  {
    hide Inv, Tracks, Allowed, RunAllowed, Run, Live, StableSince, StatusBits, Lookup;
    TracksAtFrame(h);
    RunTracks(h, steps, h.frame, Live(h));
    StableInputs(Run(h, steps), h.frame, Live(h), x);
  }

  lemma TracksAtFrame(h: History)
    requires Inv(h) && !h.deferred
    ensures Tracks(h, h.frame, Live(h))
  {
    TracksNow(h);
  }

  // ---------------------------------------------------------------- sessions of one client

  datatype Client = Client(cursor: nat, filter: Filter, view: View)

  datatype Action = Serve(step: Step) | Poll(filter: Filter)

  datatype World = World(server: History, client: Client)

  /** One get_updates round trip: the cursor and the filter are taken from the answer. */
  function PollOnce(wire: FieldMap, user: set<nat>, w: World, f: Filter): World {
    var c := w.client;
    var r := Answer(wire, w.server, c.cursor, c.filter, f, user);
    World(Flush(w.server), Client(r.frame, f, Apply(c.view, r)))
  }

  function Act(wire: FieldMap, user: set<nat>, w: World, a: Action): World {
    match a
    case Serve(step) => w.(server := Do(w.server, step))
    case Poll(f) => PollOnce(wire, user, w, f)
  }

  function Session(wire: FieldMap, user: set<nat>, w: World, acts: seq<Action>): World
    decreases |acts|
  {
    if acts == [] then w
    else Act(wire, user, Session(wire, user, w, acts[..|acts| - 1]), acts[|acts| - 1])
  }

  /** No tombstone the coming poll consults hides its removal from this client. */
  ghost predicate NothingHidden(wire: FieldMap, user: set<nat>, w: World, f: Filter) {
    var c := w.client;
    var next := ViewOf(wire, Live(w.server), f, Wanted(wire, user));
    c.cursor < w.server.horizon || forall i :: !Hides(w.server, i, c.cursor, c.filter, c.view, next)
  }

  ghost predicate ActAllowed(wire: FieldMap, user: set<nat>, w: World, a: Action) {
    match a
    case Serve(step) => Allowed(w.server, step)
    case Poll(f) => NothingHidden(wire, user, w, f)
  }

  ghost predicate SessionAllowed(wire: FieldMap, user: set<nat>, w: World, acts: seq<Action>)
    decreases |acts|
  {
    acts == []
    || (SessionAllowed(wire, user, w, acts[..|acts| - 1])
        && ActAllowed(wire, user, Session(wire, user, w, acts[..|acts| - 1]), acts[|acts| - 1]))
  }

  /** The client has not polled yet, or holds exactly what matched at its cursor. */
  ghost predicate InSync(wire: FieldMap, user: set<nat>, w: World) {
    w.client.cursor == 0
    || exists base ::
         Tracks(w.server, w.client.cursor, base)
         && w.client.view == ViewOf(wire, base, w.client.filter, Wanted(wire, user))
  }

  lemma FlushInv(h: History)
    requires Inv(h)
    ensures Inv(Flush(h)) && !Flush(h).deferred && Live(Flush(h)) == Live(h)
  {
    AdvanceStep(h, Flush(h), 0, map[]);
  }

  /** A poll at which nothing is hidden leaves the client holding exactly what matches now. */
  lemma PollSyncs(wire: FieldMap, user: set<nat>, w: World, f: Filter)
    requires Inv(w.server) && InSync(wire, user, w) && NothingHidden(wire, user, w, f)
    ensures var w' := PollOnce(wire, user, w, f);
            && w'.client.view == ViewOf(wire, Live(w'.server), f, Wanted(wire, user))
            && Inv(w'.server) && InSync(wire, user, w')
  {
    hide Inv, Tracks, Live, ViewOf, Wanted, Apply, Hides, Flush;
    var h, c := w.server, w.client;
    var w' := PollOnce(wire, user, w, f);
    FlushInv(h);
    TracksAtFrame(Flush(h));
    AnswerKind(wire, h, c.cursor, c.filter, f, user);
    hide Answer;
    if c.cursor == 0 || c.cursor < h.horizon {
      SnapshotPoll(wire, h, c.cursor, c.filter, f, user, c.view);
    } else {
      var base :| Tracks(h, c.cursor, base) && c.view == ViewOf(wire, base, c.filter, Wanted(wire, user));
      FilteredPollExact(wire, h, c.cursor, base, c.filter, f, user);
    }
    assert Tracks(w'.server, w'.client.cursor, Live(w'.server));
  }

  lemma ServeSyncs(wire: FieldMap, user: set<nat>, w: World, step: Step)
    requires Inv(w.server) && InSync(wire, user, w) && Allowed(w.server, step)
    ensures var w' := w.(server := Do(w.server, step));
            Inv(w'.server) && InSync(wire, user, w')
  {
    hide Inv, Tracks, Allowed, Do, ViewOf, Wanted;
    var h := w.server;
    if w.client.cursor == 0 {
      StepKeepsInv(h, step);
    } else {
      var base :| Tracks(h, w.client.cursor, base)
                  && w.client.view == ViewOf(wire, base, w.client.filter, Wanted(wire, user));
      StepTracks(h, step, w.client.cursor, base);
    }
  }

  lemma StepKeepsInv(h: History, step: Step)
    requires Inv(h) && Allowed(h, step)
    ensures Inv(Do(h, step))
  {
    hide Allowed, Do;
    TracksNothing(h);
    hide Inv, Tracks;
    StepTracks(h, step, 0, map[]);
  }

  /** At frame 0 there was nothing. */
  lemma TracksNothing(h: History)
    requires Inv(h)
    ensures Tracks(h, 0, map[])
  {
  }

  lemma {:induction false} SessionSyncs(wire: FieldMap, user: set<nat>, w: World, acts: seq<Action>)
    requires Inv(w.server) && InSync(wire, user, w) && SessionAllowed(wire, user, w, acts)
    ensures var w' := Session(wire, user, w, acts);
            Inv(w'.server) && InSync(wire, user, w')
    decreases |acts|
  {
    hide Inv, InSync, Allowed, NothingHidden, PollOnce, Do;
    if acts != [] {
      SessionSyncs(wire, user, w, acts[..|acts| - 1]);
      var v := Session(wire, user, w, acts[..|acts| - 1]);
      match acts[|acts| - 1]
      case Serve(step) => ServeSyncs(wire, user, v, step);
      case Poll(f) => PollSyncs(wire, user, v, f);
    }
  }

  /** Filtered sync over whole runs: start from an empty server and a client holding anything;
      after any session in which no removal is hidden at a poll, one more such poll with any
      filter f leaves the client with exactly the torrents that match f, as they are now. */
  lemma FilteredSync(
    wire: FieldMap, user: set<nat>, limit: nat, stale: View, f0: Filter, acts: seq<Action>, f: Filter)
    requires var w := World(Init(limit), Client(0, f0, stale));
             SessionAllowed(wire, user, w, acts + [Poll(f)])
    ensures var w' := Session(wire, user, World(Init(limit), Client(0, f0, stale)), acts + [Poll(f)]);
            w'.client.view == ViewOf(wire, Live(w'.server), f, Wanted(wire, user))
  {
    var w := World(Init(limit), Client(0, f0, stale));
    assert (acts + [Poll(f)])[..|acts|] == acts;
    hide Inv, InSync, NothingHidden, PollOnce, Init;
    InitInv(limit);
    FreshClient(wire, user, w);
    SessionSyncs(wire, user, w, acts);
    PollSyncs(wire, user, Session(wire, user, w, acts), f);
  }

  /** The same with the field table that is shipped: a client that asks for the fields of `user`
      holds, of every torrent that matches, those of the twenty-four wire fields it asked for. */
  lemma ShippedSync(user: set<nat>, limit: nat, stale: View, f0: Filter, acts: seq<Action>, f: Filter)
    requires var w := World(Init(limit), Client(0, f0, stale));
             SessionAllowed(TORRENT_FIELD_MAP, user, w, acts + [Poll(f)])
    ensures var w' := Session(TORRENT_FIELD_MAP, user, World(Init(limit), Client(0, f0, stale)), acts + [Poll(f)]);
            w'.client.view == ViewOf(TORRENT_FIELD_MAP, Live(w'.server), f, OnWire(user))
  {
    hide SessionAllowed, Session, Init, ViewOf, Wanted;
    ShippedFields(user);
    FilteredSync(TORRENT_FIELD_MAP, user, limit, stale, f0, acts, f);
  }

  lemma FreshClient(wire: FieldMap, user: set<nat>, w: World)
    requires w.client.cursor == 0
    ensures InSync(wire, user, w)
  {
  }

  /** The condition cannot be weakened: after a poll at which something is hidden, and only
      then, the client holds something else. */
  lemma PollSyncsExactly(wire: FieldMap, user: set<nat>, w: World, f: Filter)
    requires Inv(w.server) && InSync(wire, user, w)
    ensures var w' := PollOnce(wire, user, w, f);
            w'.client.view == ViewOf(wire, Live(w'.server), f, Wanted(wire, user))
            <==> w.client.cursor == 0 || NothingHidden(wire, user, w, f)
  {
    hide Inv, Tracks, Live, ViewOf, Wanted, Apply, Hides, Flush, Answer;
    var h, c := w.server, w.client;
    FlushInv(h);
    if c.cursor == 0 || c.cursor < h.horizon {
      SnapshotPoll(wire, h, c.cursor, c.filter, f, user, c.view);
    } else {
      var base :| Tracks(h, c.cursor, base) && c.view == ViewOf(wire, base, c.filter, Wanted(wire, user));
      FilteredPollExact(wire, h, c.cursor, base, c.filter, f, user);
    }
  }

  // ---------------------------------------------------------------- intervals

  lemma {:induction false} UpdateStamps(q: seq<Slot>, sts: seq<Status>, f: nat, s: Slot)
    requires s in UpdateAll(q, sts, f)
    ensures s in q || s.key == f
    decreases |sts|
  {
    if sts != [] {
      var p := UpdateAll(q, sts[..|sts| - 1], f);
      var st := sts[|sts| - 1];
      SortedWithoutMembers(p, st.ih);
      if s in p {
        UpdateStamps(q, sts[..|sts| - 1], f, s);
      }
    }
  }

  lemma SortedWithoutMembers(q: seq<Slot>, ih: Hash)
    ensures forall s | s in Without(q, ih) :: s in q
  {
  }

  /** Every change from h to h' carries the one frame number `stamp`. */
  ghost predicate Stamped(h: History, h': History, stamp: nat) {
    && (forall s | s in h'.queue && s !in h.queue :: s.key == stamp)
    && (forall t | t in h'.removed && t !in h.removed :: t.removedFrame == stamp)
    && (h'.queue != h.queue || h'.removed != h.removed || h'.tags != h.tags ==> Flush(h').frame == stamp)
  }

  lemma RemoveStamps(h: History, ih: Hash, handle: Handle)
    ensures Stamped(h, RemoveTorrent(h, ih, handle), h.frame + 1)
  {
    hide StatusBits;
    SortedWithoutMembers(h.queue, ih);
    hide Without;
    var all := [StoneFor(h, ih, handle)] + h.removed;
    assert forall t | t in all :: t in h.removed || t == all[0];
  }

  lemma TagStamps(h: History, ih: Hash, value: bv64, mask: bv64)
    ensures Stamped(h, SetTag(h, ih, value, mask).0, h.frame + 1)
  {
    hide MergeTag;
    SortedWithoutMembers(h.queue, ih);
  }

  lemma UpdateAllStamps(h: History, sts: seq<Status>)
    ensures Stamped(h, StateUpdate(h, sts), h.frame + 1)
  {
    hide UpdateAll;
    forall s | s in StateUpdate(h, sts).queue && s !in h.queue ensures s.key == h.frame + 1 {
      UpdateStamps(h.queue, sts, h.frame + 1, s);
    }
  }

  /** Whatever a step changes is stamped with the frame after the current one, which is the next
      frame that can be handed out. */
  lemma StepStamps(h: History, step: Step)
    ensures Stamped(h, Do(h, step), h.frame + 1)
    ensures Flush(h).frame <= Flush(Do(h, step)).frame
    ensures h.frame <= Do(h, step).frame
  {
    hide Stamped, Without, RemoveTorrent, UpdateAll, MergeTag, StatusBits, TagOf, NewEntry;
    match step
    case Add(st) => AddStamps(h, st);
    case Remove(ih, handle) => RemoveStamps(h, ih, handle); RemoveDefers(h, ih, handle);
    case Update(sts) => UpdateAllStamps(h, sts);
    case Tag(ih, value, mask) => TagStamps(h, ih, value, mask);
    case Ask => AskStamps(h);
  }

  lemma AddStamps(h: History, st: Status)
    ensures Stamped(h, AddTorrent(h, st), h.frame + 1)
  {
  }

  lemma AskStamps(h: History)
    ensures Stamped(h, Flush(h), h.frame + 1)
  {
  }

  lemma RemoveDefers(h: History, ih: Hash, handle: Handle)
    ensures RemoveTorrent(h, ih, handle).deferred && RemoveTorrent(h, ih, handle).frame == h.frame
  {
  }

  /** The cursor after the first n actions. */
  function CursorAt(wire: FieldMap, user: set<nat>, w: World, acts: seq<Action>, n: nat): nat
    requires n <= |acts|
  {
    Session(wire, user, w, acts[..n]).client.cursor
  }

  lemma ActGrows(wire: FieldMap, user: set<nat>, w: World, a: Action)
    requires w.client.cursor <= w.server.frame
    ensures var v := Act(wire, user, w, a);
            && w.client.cursor <= v.client.cursor <= v.server.frame
            && w.server.frame <= v.server.frame && Flush(w.server).frame <= Flush(v.server).frame
            && (a.Poll? ==> v.client.cursor == Flush(w.server).frame)
            && (a.Serve? ==> v.server == Do(w.server, a.step))
  {
    hide Do, Apply, Stamped;
    match a
    case Serve(step) => StepStamps(w.server, step);
    case Poll(f) => AnswerFrame(wire, w.server, w.client.cursor, w.client.filter, f, user);
  }

  lemma AnswerFrame(wire: FieldMap, h: History, since: nat, fOld: Filter, fNew: Filter, user: set<nat>)
    ensures Answer(wire, h, since, fOld, fNew, user).frame == Flush(h).frame
  {
  }

  lemma {:induction false} SessionGrows(
    wire: FieldMap, user: set<nat>, w: World, acts: seq<Action>, n: nat, m: nat)
    requires n <= m <= |acts| && w.client.cursor <= w.server.frame
    ensures var u, v := Session(wire, user, w, acts[..n]), Session(wire, user, w, acts[..m]);
            && u.client.cursor <= v.client.cursor <= v.server.frame
            && u.server.frame <= v.server.frame && Flush(u.server).frame <= Flush(v.server).frame
    decreases m
  {
    hide Act, Flush;
    if m > 0 {
      assert acts[..m][..m - 1] == acts[..m - 1];
      SessionGrows(wire, user, w, acts, if n < m then n else 0, m - 1);
      ActGrows(wire, user, Session(wire, user, w, acts[..m - 1]), acts[m - 1]);
    }
  }

  /** Cursors never decrease. */
  lemma CursorsGrow(wire: FieldMap, user: set<nat>, w: World, acts: seq<Action>, n: nat, m: nat)
    requires n <= m <= |acts| && w.client.cursor <= w.server.frame
    ensures CursorAt(wire, user, w, acts, n) <= CursorAt(wire, user, w, acts, m)
  {
    hide Session;
    SessionGrows(wire, user, w, acts, n, m);
  }

  /** Everything new in h' is stamped later than `after` and not later than `upTo`. */
  ghost predicate Between(h: History, h': History, after: nat, upTo: nat) {
    && (forall s | s in h'.queue && s !in h.queue :: after < s.key <= upTo)
    && (forall t | t in h'.removed && t !in h.removed :: after < t.removedFrame <= upTo)
  }

  lemma StampedBetween(h: History, h': History, after: nat, upTo: nat)
    requires Stamped(h, h', h.frame + 1) && after <= h.frame && Flush(h').frame <= upTo
    ensures Between(h, h', after, upTo)
  {
  }

  /** Every event lands in exactly one poll interval: over any session, what the i-th action
      stamps lies after every cursor the client had before it and not after any cursor that a
      later poll hands out. As cursors never decrease, that is one interval between two polls. */
  lemma EventsLandOnce(
    wire: FieldMap, user: set<nat>, w: World, acts: seq<Action>, n: nat, i: nat, j: nat)
    requires w.client.cursor <= w.server.frame
    requires n <= i < j < |acts| && acts[i].Serve? && acts[j].Poll?
    ensures Between(
              Session(wire, user, w, acts[..i]).server, Session(wire, user, w, acts[..i + 1]).server,
              CursorAt(wire, user, w, acts, n), CursorAt(wire, user, w, acts, j + 1))
  {
    hide Act, Flush, Do, Stamped, Between;
    var before := Session(wire, user, w, acts[..i]);
    assert acts[..i + 1][..i] == acts[..i] && acts[..j + 1][..j] == acts[..j];
    SessionGrows(wire, user, w, acts, n, i);
    SessionGrows(wire, user, w, acts, i + 1, j);
    ActGrows(wire, user, before, acts[i]);
    ActGrows(wire, user, Session(wire, user, w, acts[..j]), acts[j]);
    StepStamps(before.server, acts[i].step);
    hide Session;
    StampedBetween(
      before.server, Session(wire, user, w, acts[..i + 1]).server,
      CursorAt(wire, user, w, acts, n), CursorAt(wire, user, w, acts, j + 1));
  }

  /** The interval between two consecutive polls, the events of which the second one reports. */
  lemma EventsBetweenPolls(
    wire: FieldMap, user: set<nat>, w: World, a: seq<Action>, f: Filter, mid: seq<Action>, g: Filter, i: nat)
    requires w.client.cursor <= w.server.frame
    requires (forall k | 0 <= k < |mid| :: mid[k].Serve?) && i < |mid|
    ensures var first := a + [Poll(f)];
            Between(
              Session(wire, user, w, first + mid[..i]).server, Session(wire, user, w, first + mid[..i + 1]).server,
              Session(wire, user, w, first).client.cursor,
              Session(wire, user, w, first + mid + [Poll(g)]).client.cursor)
  {
    hide Session, Between;
    var first := a + [Poll(f)];
    var all := first + mid + [Poll(g)];
    assert all[..|first|] == first && all[..|first| + i] == first + mid[..i];
    assert all[..|first| + i + 1] == first + mid[..i + 1] && all[..|all|] == all;
    assert all[|first| + i] == mid[i];
    EventsLandOnce(wire, user, w, all, |first|, |first| + i, |all| - 1);
  }

  /** Polling again with nothing in between returns nothing, for any filter that stays the same,
      unless the cursor is already behind the horizon, which makes it a snapshot. */
  lemma IdlePoll(h: History, f: Filter)
    requires Inv(h)
    ensures var h' := Flush(h);
            var r := QueryFiltered(h', h'.frame, f, f);
            && r.current == h'.frame
            && (r.snapshot <==> h'.frame < h.horizon)
            && (!r.snapshot ==> r.updated == [] && r.removed == [])
  {
    var h' := Flush(h);
    if h.horizon <= h'.frame {
      NothingNewer(h);
      assert Touched(h'.queue, h'.frame) == 0;
      assert h'.queue[..0] == [];
      NothingVisited(h'.queue, h'.tags, h'.frame, f, f);
    }
  }

  lemma NothingNewer(h: History)
    requires Inv(h)
    ensures var h' := Flush(h);
            && (h'.queue != [] ==> h'.queue[0].key <= h'.frame)
            && (h'.removed != [] ==> h'.removed[0].removedFrame <= h'.frame) && 0 < h'.frame
  {
    if h.queue != [] {
      assert h.queue[0] in h.queue;
    }
    if h.removed != [] {
      assert h.removed[0] in h.removed;
    }
  }

  // ---------------------------------------------------------------- without filters

  predicate PollsAreUnfiltered(acts: seq<Action>) {
    forall a | a in acts :: a.Poll? ==> a.filter == NO_FILTER
  }

  ghost predicate ServesAllowed(wire: FieldMap, user: set<nat>, w: World, acts: seq<Action>)
    decreases |acts|
  {
    acts == []
    || (ServesAllowed(wire, user, w, acts[..|acts| - 1])
        && (acts[|acts| - 1].Serve? ==>
              Allowed(Session(wire, user, w, acts[..|acts| - 1]).server, acts[|acts| - 1].step)))
  }

  lemma {:induction false} UnfilteredHidesNothing(wire: FieldMap, user: set<nat>, w: World, acts: seq<Action>)
    requires w.client.filter == NO_FILTER && PollsAreUnfiltered(acts) && ServesAllowed(wire, user, w, acts)
    ensures SessionAllowed(wire, user, w, acts)
    ensures Session(wire, user, w, acts).client.filter == NO_FILTER
    decreases |acts|
  {
    hide Allowed, Do, Answer, Apply, Flush;
    if acts != [] {
      var init := acts[..|acts| - 1];
      assert forall a | a in init :: a in acts;
      UnfilteredHidesNothing(wire, user, w, init);
    }
  }

  /** Unfiltered sync needs no such condition: over every run, adds, removes and re-adds within
      one interval included, each poll leaves the client equal to the live table. */
  lemma UnfilteredSync(wire: FieldMap, user: set<nat>, limit: nat, stale: View, acts: seq<Action>)
    requires PollsAreUnfiltered(acts)
    requires ServesAllowed(wire, user, World(Init(limit), Client(0, NO_FILTER, stale)), acts)
    ensures var w' := Session(wire, user, World(Init(limit), Client(0, NO_FILTER, stale)), acts + [Poll(NO_FILTER)]);
            w'.client.view == ViewOf(wire, Live(w'.server), NO_FILTER, Wanted(wire, user))
  {
    hide SessionAllowed, Session, Init;
    var w := World(Init(limit), Client(0, NO_FILTER, stale));
    var all := acts + [Poll(NO_FILTER)];
    assert all[..|acts|] == acts;
    UnfilteredHidesNothing(wire, user, w, all);
    FilteredSync(wire, user, limit, stale, NO_FILTER, acts, NO_FILTER);
  }

  // ---------------------------------------------------------------- a hidden removal

  const ONLY_PAUSED := Filter(0x01, 0x01, 0)

  function Sample(flags: bv8): Status {
    Status(7, 70, seq(TAG, k => if k == STATUS_FLAGS then Flags(flags) else Plain(0)))
  }

  lemma SampleBits()
    ensures StatusBits(Sample(PAUSED).field) == 0x41 && StatusBits(Sample(0).field) == 0x40
  {
  }

  /** Added while paused, and polled. */
  function PausedPolled(wire: FieldMap, user: set<nat>): World {
    var w := World(Init(1000), Client(0, ONLY_PAUSED, map[]));
    Session(wire, user, w, [Serve(Add(Sample(PAUSED))), Poll(ONLY_PAUSED)])
  }

  /** Then resumed and removed before the next poll. */
  function ThenRemoved(wire: FieldMap, user: set<nat>): World {
    var w := PausedPolled(wire, user);
    w.(server := RemoveTorrent(StateUpdate(w.server, [Sample(0)]), 7, 70))
  }

  lemma PausedPolledIs(wire: FieldMap, user: set<nat>)
    ensures var h := SampleHistory();
            var w := PausedPolled(wire, user);
            w.server == h && w.client.cursor == 2 && w.client.filter == ONLY_PAUSED
            && w.client.view == ViewOf(wire, Live(h), ONLY_PAUSED, Wanted(wire, user))
            && Inv(h)
  {
    hide ViewOf, Wanted, Live, Inv, Apply, Updates, Sample;
    var w := World(Init(1000), Client(0, ONLY_PAUSED, map[]));
    var a, p := Serve(Add(Sample(PAUSED))), Poll(ONLY_PAUSED);
    assert [a, p][..1] == [a] && [a][..0] == [];
    assert Session(wire, user, w, []) == w;
    var v := Session(wire, user, w, [a]);
    assert v.server.queue == [Slot(2, NewEntry(Sample(PAUSED), 2))];
    InitInv(1000);
    NothingInUse(1000);
    StepKeepsInv(w.server, a.step);
    FreshClient(wire, user, v);
    FlushInv(v.server);
    SnapshotPoll(wire, v.server, 0, ONLY_PAUSED, ONLY_PAUSED, user, map[]);
  }

  lemma NothingInUse(limit: nat)
    ensures forall g :: !HandleInUse(Init(limit).queue, g)
  {
  }

  function SampleHistory(): History {
    Init(1000).(queue := [Slot(2, NewEntry(Sample(PAUSED), 2))], frame := 2)
  }

  lemma SampleUpdated()
    ensures var h := StateUpdate(SampleHistory(), [Sample(0)]);
            && h.queue == [Slot(3, UpdatedEntry(NewEntry(Sample(PAUSED), 2), Sample(0), 3))]
            && h.frame == 3 && h.removed == [] && h.tags == map[] && h.horizon == 0 && h.limit == 1000 && !h.deferred
  {
    hide Sample, UpdatedEntry;
    SampleIs();
    var one := [Sample(0)];
    assert one[..0] == [];
    assert UpdateAll(SampleHistory().queue, [], 3) == SampleHistory().queue;
  }

  lemma SampleIs()
    ensures forall b :: Sample(b).ih == 7 && Sample(b).handle == 70
  {
  }

  lemma SampleRemoved()
    ensures var h := RemoveTorrent(StateUpdate(SampleHistory(), [Sample(0)]), 7, 70);
            h.queue == [] && h.horizon == 0 && h.removed == [Tombstone(4, 2, 7, Verdict(0x40, 0))]
  {
    hide Sample, StateUpdate, StatusBits;
    SampleIs();
    SampleUpdated();
    SampleBits();
  }

  lemma SampleTracked()
    requires Inv(SampleHistory())
    ensures var h := RemoveTorrent(StateUpdate(SampleHistory(), [Sample(0)]), 7, 70);
            Inv(h) && Tracks(h, 2, Live(SampleHistory()))
  {
    hide Sample, Inv, Tracks, Live, StateUpdate, RemoveTorrent;
    var h := SampleHistory();
    var base := Live(h);
    SampleIs();
    SampleUpdated();
    TracksAtFrame(h);
    StepTracks(h, Update([Sample(0)]), 2, base);
    StepTracks(StateUpdate(h, [Sample(0)]), Remove(7, 70), 2, base);
  }

  lemma SampleViews(wire: FieldMap, wanted: set<nat>, h: History)
    requires wanted != {} && h.queue == []
    ensures 7 in ViewOf(wire, Live(SampleHistory()), ONLY_PAUSED, wanted)
    ensures 7 !in ViewOf(wire, Live(h), ONLY_PAUSED, wanted)
  {
    SampleIs();
    SampleBits();
    hide Sample, StatusBits, ViewOf, Live;
    ViewAt(wire, SampleHistory(), ONLY_PAUSED, wanted, 7);
    ViewAt(wire, h, ONLY_PAUSED, wanted, 7);
  }

  lemma SampleIsCrossed(h: History)
    requires h.removed == [Tombstone(4, 2, 7, Verdict(0x40, 0))]
    ensures Crossed(h, 2, ONLY_PAUSED, 7, false)
  {
    assert CrossedAt(h, 0, 2);
  }

  /** The same filter throughout, and the client still ends up with a torrent that is gone. */
  lemma FilteredSyncCanFail(wire: FieldMap, user: set<nat>)
    requires Wanted(wire, user) != {}
    ensures var w' := PollOnce(wire, user, ThenRemoved(wire, user), ONLY_PAUSED);
            7 in w'.client.view && Live(w'.server) == map[]
  {
    hide Sample, SampleHistory, ViewOf, Wanted, PausedPolled, Inv, Tracks, Session, StateUpdate, RemoveTorrent,
         Answer, Apply, Live, Crossed;
    PausedPolledIs(wire, user);
    SampleTracked();
    SampleRemoved();
    var base := Live(SampleHistory());
    var wanted := Wanted(wire, user);
    var h := ThenRemoved(wire, user).server;
    DeltaPoll(wire, h, 2, base, ONLY_PAUSED, ONLY_PAUSED, user);
    SampleViews(wire, wanted, h);
    SampleIsCrossed(h);
    NothingLive(Flush(h));
  }

  lemma NothingLive(h: History)
    requires h.queue == []
    ensures Live(h) == map[]
  {
  }
}
