/** Sessions in which filtered polls hide removals: what the client then holds, after any number of
    polls. */
module TorrentGhosts {
  import opened Maps
  import opened TorrentHistory
  import opened TorrentLookup
  import opened TorrentTracking
  import opened TorrentClient
  import opened TorrentSync
  import opened TorrentSession
  import opened TorrentPipelining

  /** A torrent the client should not hold outlasts a poll: it is not shown again, no tombstone that
      matched the old filter reports it, and if it is there the server takes the client to lack it. */
  ghost predicate Outlasts(h: History, k: nat, fOld: Filter, next: View, x: Hash) {
    && x !in next && !Crossed(h, k, fOld, x, true)
    && (Survives(h, x, k) ==> TakenAsLacking(h, k, fOld, x))
  }

  ghost function Outlasting(h: History, k: nat, fOld: Filter, extra: View, next: View): View {
    map x | x in extra && Outlasts(h, k, fOld, next, x) :: extra[x]
  }

  /** Whole records of torrents that are not in the view. */
  ghost predicate IsExtra(wire: FieldMap, user: set<nat>, extra: View, view: View) {
    && Whole(wire, user, extra)
    && (forall x | x in extra :: x !in view && Wanted(wire, user) != {})
  }

  /** A torrent the server takes the client to hold was shown to it. */
  lemma HeldIsShown(wire: FieldMap, h: History, k: nat, base: Table, fOld: Filter, user: set<nat>, x: Hash)
    requires Inv(h) && Tracks(h, k, base) && TakenAsHeld(h, k, fOld, x) && Wanted(wire, user) != {}
    ensures x in ViewOf(wire, base, fOld, Wanted(wire, user))
  {
    hide Inv, Tracks, StableSince, StatusBits, Matched, ViewOf, Wanted, Agrees, Lookup;
    SurvivorIsLive(h, x, k);
    SurvivorNotCrossed(h, k, base, fOld, x);
    OldViewAt(wire, base, fOld, Wanted(wire, user), x);
    if fOld.Empty() {
      EmptyShowsAll(base[x], fOld);
    } else {
      StableInputs(h, k, base, x);
    }
  }

  lemma EmptyShowsAll(item: Item, f: Filter)
    requires f.Empty()
    ensures Visible(item, f)
  {
  }

  lemma ExtraSurvivor(
    wire: FieldMap, h: History, k: nat, base: Table, fOld: Filter, fNew: Filter, user: set<nat>, extra: View, x: Hash)
    requires Inv(h) && Tracks(h, k, base) && 0 < k && h.horizon <= k && Survives(h, x, k) && x in extra
    requires IsExtra(wire, user, extra, ViewOf(wire, base, fOld, Wanted(wire, user)))
    ensures var view := ViewOf(wire, base, fOld, Wanted(wire, user));
            var r := Answer(wire, h, k, fOld, fNew, user);
            var next := ViewOf(wire, Live(h), fNew, Wanted(wire, user));
            SameAt(Apply(view + extra, r), Apply(view, r) + Outlasting(h, k, fOld, extra, next), x)
  {
    hide Inv, Tracks, Apply, Answer, ViewOf, RecordOf, Wanted, Lookup, Survives, Live, UpdateFor, TakenAsHeld,
         TakenAsLacking, Crossed, Visible;
    var wanted := Wanted(wire, user);
    var view := ViewOf(wire, base, fOld, wanted);
    var r := Answer(wire, h, k, fOld, fNew, user);
    SurvivorIsLive(h, x, k);
    SurvivorIsTold(wire, h, k, base, fOld, fNew, user, x);
    SurvivorNotCrossed(h, k, base, fOld, x);
    AnswerKind(wire, h, k, fOld, fNew, user);
    AppliedAt(view, r, x);
    AppliedAt(view + extra, r, x);
    ViewAt(wire, h, fNew, wanted, x);
    if TakenAsHeld(h, k, fOld, x) {
      HeldIsShown(wire, h, k, base, fOld, user, x);
    }
    var item :| extra[x] == RecordOf(wire, item, wanted);
    FullRecordWins(wire, item, ItemOf(Lookup(h.queue, x).value, h.tags), wanted);
  }

  lemma ExtraOther(
    wire: FieldMap, h: History, k: nat, base: Table, fOld: Filter, fNew: Filter, user: set<nat>, extra: View, x: Hash)
    requires Inv(h) && 0 < k && h.horizon <= k && !Survives(h, x, k) && x in extra
    requires IsExtra(wire, user, extra, ViewOf(wire, base, fOld, Wanted(wire, user)))
    ensures var view := ViewOf(wire, base, fOld, Wanted(wire, user));
            var r := Answer(wire, h, k, fOld, fNew, user);
            var next := ViewOf(wire, Live(h), fNew, Wanted(wire, user));
            SameAt(Apply(view + extra, r), Apply(view, r) + Outlasting(h, k, fOld, extra, next), x)
  {
    hide Inv, Apply, Answer, ViewOf, RecordOf, Wanted, Lookup, Survives, Live, TakenAsLacking, Crossed, Visible;
    var wanted := Wanted(wire, user);
    var view := ViewOf(wire, base, fOld, wanted);
    var r := Answer(wire, h, k, fOld, fNew, user);
    OtherIsTold(wire, h, k, fOld, fNew, user, x);
    AnswerKind(wire, h, k, fOld, fNew, user);
    AppliedAt(view, r, x);
    AppliedAt(view + extra, r, x);
    ViewAt(wire, h, fNew, wanted, x);
    if x in r.updates {
      var item :| extra[x] == RecordOf(wire, item, wanted);
      FullRecordWins(wire, item, ItemOf(Lookup(h.queue, x).value, h.tags), wanted);
    }
  }

  lemma NotExtra(view: View, extra: View, r: Response, h: History, k: nat, fOld: Filter, next: View, x: Hash)
    requires x !in extra
    ensures SameAt(Apply(view + extra, r), Apply(view, r) + Outlasting(h, k, fOld, extra, next), x)
  {
    hide Apply, Outlasts;
    AppliedAt(view, r, x);
    AppliedAt(view + extra, r, x);
  }

  /** One poll of a client that also holds torrents it should not: what matches now, the removals
      that are overlooked this time, and those of before that outlast the poll. */
  lemma ExtendedPoll(
    wire: FieldMap, h: History, k: nat, base: Table, fOld: Filter, fNew: Filter, user: set<nat>, extra: View)
    requires Inv(h) && Tracks(h, k, base) && 0 < k && h.horizon <= k
    requires IsExtra(wire, user, extra, ViewOf(wire, base, fOld, Wanted(wire, user)))
    ensures var view := ViewOf(wire, base, fOld, Wanted(wire, user));
            var next := ViewOf(wire, Live(h), fNew, Wanted(wire, user));
            Apply(view + extra, Answer(wire, h, k, fOld, fNew, user))
            == next + (Overlooked(h, k, fOld, view, next) + Outlasting(h, k, fOld, extra, next))
  {
    hide Inv, Tracks, Apply, Answer, ViewOf, Wanted, Live, Survives, SameAt, Overlooked, Outlasting, IsExtra;
    var view := ViewOf(wire, base, fOld, Wanted(wire, user));
    var next := ViewOf(wire, Live(h), fNew, Wanted(wire, user));
    var r := Answer(wire, h, k, fOld, fNew, user);
    DeltaPoll(wire, h, k, base, fOld, fNew, user);
    forall x ensures SameAt(Apply(view + extra, r), Apply(view, r) + Outlasting(h, k, fOld, extra, next), x) {
      if x !in extra {
        NotExtra(view, extra, r, h, k, fOld, next, x);
      } else if Survives(h, x, k) {
        ExtraSurvivor(wire, h, k, base, fOld, fNew, user, extra, x);
      } else {
        ExtraOther(wire, h, k, base, fOld, fNew, user, extra, x);
      }
    }
    SameEverywhere(Apply(view + extra, r), Apply(view, r) + Outlasting(h, k, fOld, extra, next));
    MergeAssoc(next, Overlooked(h, k, fOld, view, next), Outlasting(h, k, fOld, extra, next));
  }

  /** What is left over is again extra. */
  lemma LeftIsExtra(
    wire: FieldMap, h: History, k: nat, base: Table, fOld: Filter, fNew: Filter, user: set<nat>, extra: View)
    requires IsExtra(wire, user, extra, ViewOf(wire, base, fOld, Wanted(wire, user)))
    ensures var view := ViewOf(wire, base, fOld, Wanted(wire, user));
            var next := ViewOf(wire, Live(h), fNew, Wanted(wire, user));
            IsExtra(wire, user, Overlooked(h, k, fOld, view, next) + Outlasting(h, k, fOld, extra, next), next)
  {
    hide ViewOf, Wanted, Live, Whole, Survives, Crossed, TakenAsLacking;
    var view := ViewOf(wire, base, fOld, Wanted(wire, user));
    var next := ViewOf(wire, Live(h), fNew, Wanted(wire, user));
    var left := Overlooked(h, k, fOld, view, next) + Outlasting(h, k, fOld, extra, next);
    WholeView(wire, user, base, fOld);
    WholeTogether(wire, user, view, extra, left);
    forall x | x in left ensures x !in next && Wanted(wire, user) != {} {
      OldViewAt(wire, base, fOld, Wanted(wire, user), x);
    }
  }

  // ---------------------------------------------------------------- sessions

  /** What the client's last poll should have left it with. */
  ghost function Shown(wire: FieldMap, user: set<nat>, w: World, acts: seq<Action>): View
    decreases |acts|
  {
    if acts == [] then map[]
    else
      var init := acts[..|acts| - 1];
      match acts[|acts| - 1]
      case Serve(_) => Shown(wire, user, w, init)
      case Poll(f) => ViewOf(wire, Live(Session(wire, user, w, init).server), f, Wanted(wire, user))
  }

  /** What it holds besides: a snapshot clears it, any other poll adds the removals it overlooks to
      what outlasts it. */
  ghost function Ghosts(wire: FieldMap, user: set<nat>, w: World, acts: seq<Action>): View
    decreases |acts|
  {
    if acts == [] then w.client.view
    else
      var init := acts[..|acts| - 1];
      match acts[|acts| - 1]
      case Serve(_) => Ghosts(wire, user, w, init)
      case Poll(f) =>
        Left(wire, user, Session(wire, user, w, init), Shown(wire, user, w, init), Ghosts(wire, user, w, init), f)
  }

  ghost function Left(wire: FieldMap, user: set<nat>, v: World, view: View, extra: View, f: Filter): View {
    var h, c := v.server, v.client;
    var next := ViewOf(wire, Live(h), f, Wanted(wire, user));
    if c.cursor == 0 || c.cursor < h.horizon then map[]
    else Overlooked(h, c.cursor, c.filter, view, next) + Outlasting(h, c.cursor, c.filter, extra, next)
  }

  /** The client holds `view` and `extra`, and `view` is what matched at its cursor. */
  ghost predicate Haunted(wire: FieldMap, user: set<nat>, v: World, view: View, extra: View) {
    && v.client.view == view + extra
    && (v.client.cursor == 0 || exists base ::
          && Tracks(v.server, v.client.cursor, base)
          && view == ViewOf(wire, base, v.client.filter, Wanted(wire, user))
          && IsExtra(wire, user, extra, view))
  }

  lemma NothingIsExtra(wire: FieldMap, user: set<nat>, view: View)
    ensures IsExtra(wire, user, map[], view)
  {
  }

  lemma PollLeaves(wire: FieldMap, user: set<nat>, v: World, view: View, extra: View, f: Filter)
    requires Inv(v.server) && Haunted(wire, user, v, view, extra)
    ensures var v' := PollOnce(wire, user, v, f);
            var next := ViewOf(wire, Live(v.server), f, Wanted(wire, user));
            Inv(v'.server) && Live(v'.server) == Live(v.server)
            && Haunted(wire, user, v', next, Left(wire, user, v, view, extra, f))
  {
    hide Inv, Tracks, Live, ViewOf, Wanted, Apply, Overlooked, Outlasting, Flush, IsExtra;
    var h, c := v.server, v.client;
    var v' := PollOnce(wire, user, v, f);
    var next := ViewOf(wire, Live(h), f, Wanted(wire, user));
    FlushInv(h);
    TracksAtFrame(Flush(h));
    AnswerKind(wire, h, c.cursor, c.filter, f, user);
    hide Answer;
    if c.cursor == 0 || c.cursor < h.horizon {
      SnapshotPoll(wire, h, c.cursor, c.filter, f, user, c.view);
      NothingIsExtra(wire, user, next);
      assert next + map[] == next;
    } else {
      var base :| Tracks(h, c.cursor, base) && view == ViewOf(wire, base, c.filter, Wanted(wire, user))
                  && IsExtra(wire, user, extra, view);
      ExtendedPoll(wire, h, c.cursor, base, c.filter, f, user, extra);
      LeftIsExtra(wire, h, c.cursor, base, c.filter, f, user, extra);
    }
    assert Tracks(v'.server, v'.client.cursor, Live(v'.server));
  }

  lemma ServeLeaves(wire: FieldMap, user: set<nat>, v: World, view: View, extra: View, step: Step)
    requires Inv(v.server) && Haunted(wire, user, v, view, extra) && Allowed(v.server, step)
    ensures var v' := v.(server := Do(v.server, step));
            Inv(v'.server) && Haunted(wire, user, v', view, extra)
  {
    hide Inv, Tracks, Allowed, Do, ViewOf, Wanted, IsExtra;
    StepKeepsInv(v.server, step);
    if v.client.cursor != 0 {
      var base :| Tracks(v.server, v.client.cursor, base)
                  && view == ViewOf(wire, base, v.client.filter, Wanted(wire, user))
                  && IsExtra(wire, user, extra, view);
      StepTracks(v.server, step, v.client.cursor, base);
    }
  }

  lemma {:induction false} SessionHaunted(wire: FieldMap, user: set<nat>, w: World, acts: seq<Action>)
    requires Inv(w.server) && w.client.cursor == 0 && ServesAllowed(wire, user, w, acts)
    ensures var v := Session(wire, user, w, acts);
            Inv(v.server) && Haunted(wire, user, v, Shown(wire, user, w, acts), Ghosts(wire, user, w, acts))
    decreases |acts|
  {
    hide Inv, Allowed, PollOnce, Do, Haunted, Left, ViewOf, Live, Wanted;
    if acts == [] {
      StartsHaunted(wire, user, w);
    } else {
      var init := acts[..|acts| - 1];
      var v := Session(wire, user, w, init);
      var view, extra := Shown(wire, user, w, init), Ghosts(wire, user, w, init);
      SessionHaunted(wire, user, w, init);
      match acts[|acts| - 1]
      case Serve(step) => ServeLeaves(wire, user, v, view, extra, step);
      case Poll(f) => PollLeaves(wire, user, v, view, extra, f);
    }
  }

  lemma StartsHaunted(wire: FieldMap, user: set<nat>, w: World)
    requires w.client.cursor == 0
    ensures Haunted(wire, user, w, map[], w.client.view)
  {
    assert map[] + w.client.view == w.client.view;
  }

  /** Any session from an empty server, with filters that change at every poll and with no condition
      on what is hidden: after a poll the client holds exactly what matches its filter now and the
      ghosts that have gathered, none of which matches. */
  lemma SessionExactly(
    wire: FieldMap, user: set<nat>, limit: nat, stale: View, f0: Filter, acts: seq<Action>, f: Filter)
    requires ServesAllowed(wire, user, World(Init(limit), Client(0, f0, stale)), acts)
    ensures var w := World(Init(limit), Client(0, f0, stale));
            var all := acts + [Poll(f)];
            var v := Session(wire, user, w, all);
            var now := ViewOf(wire, Live(v.server), f, Wanted(wire, user));
            && v.client.view == now + Ghosts(wire, user, w, all)
            && forall x | x in Ghosts(wire, user, w, all) :: x !in now
  {
    var w := World(Init(limit), Client(0, f0, stale));
    var all := acts + [Poll(f)];
    assert all[..|acts|] == acts;
    hide Inv, PollOnce, Init, ViewOf, Wanted, Live, Haunted, Left;
    InitInv(limit);
    SessionHaunted(wire, user, w, acts);
    var v := Session(wire, user, w, acts);
    PollLeaves(wire, user, v, Shown(wire, user, w, acts), Ghosts(wire, user, w, acts), f);
    HauntedAfterPoll(wire, user, v, Shown(wire, user, w, acts), Ghosts(wire, user, w, acts), f);
  }

  lemma HauntedAfterPoll(wire: FieldMap, user: set<nat>, v: World, view: View, extra: View, f: Filter)
    requires Inv(v.server)
    requires Haunted(wire, user, PollOnce(wire, user, v, f),
                     ViewOf(wire, Live(v.server), f, Wanted(wire, user)), Left(wire, user, v, view, extra, f))
    ensures PollOnce(wire, user, v, f).client.view
         == ViewOf(wire, Live(v.server), f, Wanted(wire, user)) + Left(wire, user, v, view, extra, f)
    ensures forall x | x in Left(wire, user, v, view, extra, f) ::
      x !in ViewOf(wire, Live(v.server), f, Wanted(wire, user))
  {
    hide Inv, ViewOf, Wanted, Live, Left, Apply, Tracks, Whole;
    AnswerKind(wire, v.server, v.client.cursor, v.client.filter, f, user);
    FrameIsPositive(v.server);
    hide Answer;
  }

  lemma FrameIsPositive(h: History)
    requires Inv(h)
    ensures 0 < Flush(h).frame
  {
  }
}
