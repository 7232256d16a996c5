/** A client of get-file-updates: over whole runs, and through the bytes of the response. */
module FileSync {
  import opened Basics
  import opened Bytes
  import opened FileCodec
  import opened FileHistory
  import Sorting

  /** One call of update: the fields fetched this round, and the files open after it. */
  datatype Poll = Poll(
    progress: Option<seq<int>>, priorities: Option<seq<int>>, modes: Option<seq<OpenFile>>, open: seq<int>)

  /** What update promises about the open files: see FileHistory.UpdateAll. */
  ghost predicate Allowed(h: History, p: Poll) {
    p.modes.Some? ==> Sorting.Distinct(p.modes.value, ByIndex()) && OpenAfter(p.open, p.modes.value, |h.files|)
  }

  function Next(h: History, p: Poll): History {
    Update(h, p.progress, p.priorities, p.modes, p.open)
  }

  function Run(h: History, polls: seq<Poll>): History
    decreases |polls|
  {
    if polls == [] then h else Next(Run(h, polls[..|polls| - 1]), polls[|polls| - 1])
  }

  ghost predicate Legal(h: History, polls: seq<Poll>)
    decreases |polls|
  {
    polls != [] ==>
      && Legal(h, polls[..|polls| - 1]) && Allowed(Run(h, polls[..|polls| - 1]), polls[|polls| - 1])
  }

  // ---------------------------------------------------------------- what frames say about values

  function ValueOf(e: Entry, f: nat): int {
    if f == 3 then e.progress else if f == 4 then e.priority else if f == 5 then e.openMode else 0
  }

  /** A field whose frame has not passed `since` still has the value it had then. */
  ghost predicate Remembers(e: Entry, then_: Entry, since: nat) {
    forall f | 3 <= f < NUM_FIELDS && FrameOf(e, f) <= since :: ValueOf(e, f) == ValueOf(then_, f)
  }

  ghost predicate Knows(h: History, since: nat, base: seq<Entry>) {
    && |base| == |h.files| && since <= h.frame
    && (forall i | 0 <= i < |base| :: EntryOk(h.files[i], h.frame))
    && (forall i | 0 <= i < |base| :: Remembers(h.files[i], base[i], since))
  }

  /** What one update can do to an entry. */
  predicate EntryStep(e: Entry, next: Entry, frame: nat) {
    forall f | 3 <= f < NUM_FIELDS ::
      FrameOf(next, f) == frame || (FrameOf(next, f) == FrameOf(e, f) && ValueOf(next, f) == ValueOf(e, f))
  }

  lemma EntrySteps(h: History, p: Poll, i: nat)
    requires i < |h.files|
    ensures |Next(h, p).files| == |h.files| && EntryStep(h.files[i], Next(h, p).files[i], h.frame + 1)
  {
    hide IsOpen, Polled;
  }

  lemma RemembersNext(e: Entry, next: Entry, frame: nat, then_: Entry, since: nat)
    requires Remembers(e, then_, since) && EntryStep(e, next, frame) && since < frame && EntryOk(e, frame - 1)
    ensures Remembers(next, then_, since) && EntryOk(next, frame)
  {
    assert EntryOk(next, frame) by {
      assert FrameOf(next, 3) == next.progressFrame && FrameOf(next, 4) == next.priorityFrame
             && FrameOf(next, 5) == next.openModeFrame;
    }
  }

  lemma {:induction false} RunKnows(h: History, polls: seq<Poll>, since: nat, base: seq<Entry>)
    requires Knows(h, since, base)
    ensures Knows(Run(h, polls), since, base)
    decreases |polls|
  {
    hide Next, EntryStep, Remembers, EntryOk;
    if polls != [] {
      var g, p := Run(h, polls[..|polls| - 1]), polls[|polls| - 1];
      RunKnows(h, polls[..|polls| - 1], since, base);
      NextFrame(g, p);
      forall i | 0 <= i < |base|
        ensures Remembers(Next(g, p).files[i], base[i], since) && EntryOk(Next(g, p).files[i], g.frame + 1)
      {
        EntrySteps(g, p, i);
        RemembersNext(g.files[i], Next(g, p).files[i], g.frame + 1, base[i], since);
      }
    }
  }

  lemma NextFrame(h: History, p: Poll)
    ensures Next(h, p).frame == h.frame + 1 && |Next(h, p).files| == |h.files|
  {
    hide SetModes, SetProgress, SetPriorities;
  }

  lemma InitKnows(n: nat)
    ensures Knows(Init(n), 1, Init(n).files)
  {
  }

  lemma KnowsNow(h: History)
    requires forall i | 0 <= i < |h.files| :: EntryOk(h.files[i], h.frame)
    ensures Knows(h, h.frame, h.files)
  {
  }

  /** Over any run, a field that a query leaves out has the value it had at the client's frame. */
  lemma ClearBitMeansUnchanged(n: nat, before: seq<Poll>, after: seq<Poll>, requested: Mask, i: nat, f: nat)
    requires i < n && 3 <= f < NUM_FIELDS && requested[f]
    ensures var h0 := Run(Init(n), before);
            var h1 := Run(h0, after);
            && |h0.files| == |h1.files| == n
            && (!Query(h1.files, h0.frame, requested)[i][f] ==> ValueOf(h1.files[i], f) == ValueOf(h0.files[i], f))
  {
    hide Run, Query, Init;
    KnowsBoth(n, before, after);
    QueryAt(Run(Run(Init(n), before), after).files, Run(Init(n), before).frame, requested, i);
  }

  lemma KnowsBoth(n: nat, before: seq<Poll>, after: seq<Poll>)
    ensures var h0 := Run(Init(n), before);
            |h0.files| == n && 1 <= h0.frame && Knows(Run(h0, after), h0.frame, h0.files)
  {
    hide Run, Remembers, EntryOk, Init;
    InitKnows(n);
    InitSize(n);
    RunKnows(Init(n), before, 1, Init(n).files);
    var h0 := Run(Init(n), before);
    KnowsNow(h0);
    RunKnows(h0, after, h0.frame, h0.files);
  }

  lemma InitSize(n: nat)
    ensures |Init(n).files| == n && Init(n).frame == 1
  {
  }

  // ---------------------------------------------------------------- the client

  /** The wire fields of a file: what file_storage says, and the history's values. */
  function InfoOf(static_: Info, e: Entry): Info {
    static_[3 := Num(e.progress)][4 := Num(e.priority)][5 := Num(e.openMode)]
  }

  function Infos(statics: seq<Info>, files: seq<Entry>): (r: seq<Info>)
    requires |statics| == |files|
    ensures |r| == |files|
    decreases |files|
  {
    if files == [] then []
    else
      Infos(statics[..|files| - 1], files[..|files| - 1]) + [InfoOf(statics[|files| - 1], files[|files| - 1])]
  }

  lemma {:induction false} InfosAt(statics: seq<Info>, files: seq<Entry>, i: nat)
    requires |statics| == |files| && i < |files|
    ensures Infos(statics, files)[i] == InfoOf(statics[i], files[i])
    decreases |files|
  {
    if i < |files| - 1 {
      InfosAt(statics[..|files| - 1], files[..|files| - 1], i);
    }
  }

  /** The client overwrites the properties that were sent. */
  function Merge(old_: File, u: File): File {
    seq(NUM_FIELDS, f requires 0 <= f < NUM_FIELDS => if u[f].Some? then u[f] else old_[f])
  }

  lemma FileAfter(e: Entry, then_: Entry, static_: Info, since: nat, requested: Mask)
    requires Remembers(e, then_, since) && 1 <= since
    ensures Merge(Expected(requested, InfoOf(static_, then_)),
                  Expected(QueryMask(e, since, requested), InfoOf(static_, e)))
         == Expected(requested, InfoOf(static_, e))
  {
    hide Wire;
    var a, b, q := InfoOf(static_, then_), InfoOf(static_, e), QueryMask(e, since, requested);
    forall f | 0 <= f < NUM_FIELDS
      ensures (if Expected(q, b)[f].Some? then Expected(q, b)[f] else Expected(requested, a)[f])
           == Expected(requested, b)[f]
    {
      if 3 <= f && FrameOf(e, f) <= since {
        assert ValueOf(e, f) == ValueOf(then_, f);
      }
    }
  }

  /** What it gets before anything was polled: no progress, the priority libtorrent gives a file, and
      no open mode. */
  lemma NothingPolledYet(numFiles: nat, i: nat, static_: Info)
    requires i < numFiles
    ensures InfoOf(static_, Init(numFiles).files[i]) == static_[3 := Num(0)][4 := Num(4)][5 := Num(0)]
  {
  }

  /** A client without a frame gets every requested field of every file. */
  lemma FirstPoll(e: Entry, static_: Info, requested: Mask, frame: nat)
    requires EntryOk(e, frame)
    ensures QueryMask(e, 0, requested) == requested
  {
  }

  lemma FileArrives(header: seq<Byte>, frame: nat, masks: seq<Mask>, infos: seq<Info>, i: nat)
    requires |header| == 4 && frame < 0x1_0000_0000
    requires i < |masks| == |infos| < 0x1_0000_0000 && AllExact(infos)
    ensures var got := ReadResponse(Response(header, frame, masks, infos));
            && got.Got? && got.rest == [] && got.value.frame == frame && |got.value.files| == |masks|
            && got.value.files[i] == Expected(masks[i], infos[i])
  {
    hide Expected, AllExpected, AllExact, IsInfo, Response, ReadResponse;
    ResponseInverts(header, frame, masks, infos);
    AllExpectedAt(masks, infos, 0, i);
  }

  /** End to end, over any run and through the bytes: a client that held the requested fields at
      an earlier frame reads the response to the last byte and then holds the current ones. */
  lemma ClientSyncs(
    statics: seq<Info>, before: seq<Poll>, after: seq<Poll>, requested: Mask, header: seq<Byte>, i: nat)
    requires |header| == 4 && i < |statics| < 0x1_0000_0000
    requires var h1 := Run(Run(Init(|statics|), before), after);
             h1.frame < 0x1_0000_0000 && |h1.files| == |statics| && AllExact(Infos(statics, h1.files))
    ensures var h0 := Run(Init(|statics|), before);
            var h1 := Run(h0, after);
            var got := ReadResponse(
              Response(header, h1.frame, Query(h1.files, h0.frame, requested), Infos(statics, h1.files)));
            && got.Got? && got.rest == [] && got.value.frame == h1.frame && |got.value.files| == |statics|
            && |h0.files| == |statics|
            && Merge(Expected(requested, InfoOf(statics[i], h0.files[i])), got.value.files[i])
               == Expected(requested, InfoOf(statics[i], h1.files[i]))
  {
    hide Run, Init, Query, Infos, InfoOf, Expected, QueryMask, Merge, Response, ReadResponse, AllExact, Remembers,
         EntryOk, AllExpected, IsInfo;
    var h0 := Run(Init(|statics|), before);
    var h1 := Run(h0, after);
    var masks, infos := Query(h1.files, h0.frame, requested), Infos(statics, h1.files);
    KnowsBoth(|statics|, before, after);
    FileArrives(header, h1.frame, masks, infos, i);
    QueryAt(h1.files, h0.frame, requested, i);
    InfosAt(statics, h1.files, i);
    FileAfter(h1.files[i], h0.files[i], statics[i], h0.frame, requested);
  }

  // ---------------------------------------------------------------- open modes

  /** A file that is not open has the default mode. */
  ghost predicate Consistent(h: History) {
    forall i | 0 <= i < |h.files| && !IsOpen(h.open, |h.open|, i) :: h.files[i].openMode == CLOSED
  }

  /** The walk is the difference of two tables: each file gets its polled mode or the default, and
      its frame moves exactly when it was opened, was closed or changed mode. */
  lemma ModesAreThePoll(h: History, p: Poll, i: nat)
    requires Consistent(h) && Allowed(h, p) && p.modes.Some? && i < |h.files|
    ensures var e, next := h.files[i], Next(h, p).files[i];
            var wasOpen, polled := IsOpen(h.open, |h.open|, i), Polled(p.modes.value, i);
            && |Next(h, p).files| == |h.files|
            && next.openMode == (if polled.Some? then polled.value else CLOSED)
            && (next.openModeFrame == (if wasOpen != polled.Some? || next.openMode != e.openMode then h.frame + 1
                                       else e.openModeFrame))
            && (IsOpen(p.open, |p.open|, i) <==> polled.Some?)
  {
    hide IsOpen, Polled, Sorting.Distinct;
  }

  lemma NextConsistent(h: History, p: Poll)
    requires Consistent(h) && Allowed(h, p)
    ensures Consistent(Next(h, p))
  {
    hide IsOpen, Polled, Sorting.Distinct;
    forall i | 0 <= i < |h.files| && !IsOpen(Next(h, p).open, |Next(h, p).open|, i)
      ensures |Next(h, p).files| == |h.files| && Next(h, p).files[i].openMode == CLOSED
    {
      if p.modes.Some? {
        ModesAreThePoll(h, p, i);
      }
    }
  }

  lemma {:induction false} RunConsistent(n: nat, polls: seq<Poll>)
    requires Legal(Init(n), polls)
    ensures Consistent(Run(Init(n), polls))
    decreases |polls|
  {
    hide Next, Consistent, Allowed, Init;
    if polls == [] {
      InitConsistent(n);
    } else {
      RunConsistent(n, polls[..|polls| - 1]);
      NextConsistent(Run(Init(n), polls[..|polls| - 1]), polls[|polls| - 1]);
    }
  }

  lemma InitConsistent(n: nat)
    ensures Consistent(Init(n))
  {
  }
}
