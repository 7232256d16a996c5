/** src/file_history.cpp: per-file progress, priority and open mode of one torrent, as deltas. */
module FileHistory {
  import opened Basics
  import opened Collections
  import opened FileCodec
  import Sorting

  datatype Entry = Entry(
    progress: int, priority: int, openMode: int, progressFrame: nat, priorityFrame: nat, openModeFrame: nat)

  datatype OpenFile = OpenFile(index: int, mode: int)

  /** `open` lists the files that are open, in order. */
  datatype History = History(frame: nat, files: seq<Entry>, open: seq<int>)

  const DEFAULT_PRIORITY := 4

  const CLOSED := 0

  function ByIndex(): OpenFile -> int {
    (f: OpenFile) => f.index
  }

  function FreshEntry(): Entry {
    Entry(0, DEFAULT_PRIORITY, CLOSED, 1, 1, 1)
  }

  function Init(numFiles: nat): History {
    History(1, seq(numFiles, _ => FreshEntry()), [])
  }

  // ---------------------------------------------------------------- update

  function WithProgress(e: Entry, progress: int, frame: nat): Entry {
    if progress != e.progress then e.(progress := progress, progressFrame := frame) else e
  }

  function WithPriority(e: Entry, priority: int, frame: nat): Entry {
    if priority != e.priority then e.(priority := priority, priorityFrame := frame) else e
  }

  /** The first |values| files get their values; a list that is too short or too long is no error. */
  function SetProgress(files: seq<Entry>, values: seq<int>, frame: nat): (r: seq<Entry>)
    ensures |r| == |files|
  {
    seq(|files|, i requires 0 <= i < |files| =>
      if i < |values| then WithProgress(files[i], values[i], frame) else files[i])
  }

  function SetPriorities(files: seq<Entry>, values: seq<int>, frame: nat): (r: seq<Entry>)
    ensures |r| == |files|
  {
    seq(|files|, i requires 0 <= i < |files| =>
      if i < |values| then WithPriority(files[i], values[i], frame) else files[i])
  }

  predicate IsOpen(open: seq<int>, n: nat, i: int)
    requires n <= |open|
  {
    exists m :: 0 <= m < n && open[m] == i
  }

  /** The mode polled for a file, if it is open now. */
  function Polled(current: seq<OpenFile>, i: int): Option<int> {
    var table := Sorting.Table(current, ByIndex());
    if i in table then Some(table[i].mode) else None
  }

  /** A file's mode is the polled one, or the default when it is closed. Its frame moves exactly
      when the file is opened, is closed or changes mode. */
  function WithMode(e: Entry, wasOpen: bool, polled: Option<int>, frame: nat): Entry {
    var mode := if polled.Some? then polled.value else if wasOpen then CLOSED else e.openMode;
    if wasOpen != polled.Some? || (polled.Some? && polled.value != e.openMode)
    then e.(openMode := mode, openModeFrame := frame) else e
  }

  function SetModes(files: seq<Entry>, open: seq<int>, current: seq<OpenFile>, frame: nat): (r: seq<Entry>)
    ensures |r| == |files|
  {
    seq(|files|, i requires 0 <= i < |files| =>
      WithMode(files[i], IsOpen(open, |open|, i), Polled(current, i), frame))
  }

  /** The files open afterwards: the polled ones that exist, in order. */
  ghost predicate OpenAfter(open: seq<int>, current: seq<OpenFile>, n: nat) {
    && (forall i, j | 0 <= i < j < |open| :: open[i] < open[j])
    && (forall i :: IsOpen(open, |open|, i) <==> 0 <= i < n && Polled(current, i).Some?)
  }

  // ---------------------------------------------------------------- the merge walk

  predicate StrictlyUp(s: seq<OpenFile>) {
    forall i, j | 0 <= i < j < |s| :: s[i].index < s[j].index
  }

  ghost predicate InRange(s: seq<int>, n: nat) {
    forall i | 0 <= i < |s| :: 0 <= s[i] < n
  }

  /** One of the first n polled files. */
  predicate IsPolled(current: seq<OpenFile>, n: nat, i: int)
    requires n <= |current|
  {
    exists m :: 0 <= m < n && current[m].index == i
  }

  /** How far the walk has come: p open files and q polled files are behind it. */
  ghost predicate Between(open: seq<int>, current: seq<OpenFile>, p: nat, q: nat) {
    && p <= |open| && q <= |current|
    && (forall m, n | 0 <= m < p && q <= n < |current| :: open[m] < current[n].index)
    && (forall m, n | 0 <= m < q && p <= n < |open| :: current[m].index < open[n])
  }

  predicate Passed(open: seq<int>, current: seq<OpenFile>, p: nat, q: nat, i: int)
    requires p <= |open| && q <= |current|
  {
    IsOpen(open, p, i) || IsPolled(current, q, i)
  }

  ghost predicate WalkedFiles(
    files: seq<Entry>, old_: seq<Entry>, open: seq<int>, current: seq<OpenFile>, p: nat, q: nat, frame: nat)
    requires p <= |open| && q <= |current|
  {
    && |files| == |old_|
    && forall i | 0 <= i < |files| ::
         files[i] == if Passed(open, current, p, q, i)
                     then WithMode(old_[i], IsOpen(open, |open|, i), Polled(current, i), frame)
                     else old_[i]
  }

  ghost predicate WalkedOpen(next: seq<int>, current: seq<OpenFile>, q: nat, n: nat)
    requires q <= |current|
  {
    && Increasing(next)
    && (forall i :: IsOpen(next, |next|, i) <==> 0 <= i < n && IsPolled(current, q, i))
  }

  lemma PolledAt(current: seq<OpenFile>, i: int)
    requires Sorting.Distinct(current, ByIndex())
    ensures Polled(current, i).Some? <==> IsPolled(current, |current|, i)
    ensures forall m | 0 <= m < |current| && current[m].index == i :: Polled(current, i) == Some(current[m].mode)
  {
    hide Sorting.Table, Sorting.Distinct;
    Sorting.TableAt(current, ByIndex(), i);
    forall m | 0 <= m < |current| ensures ByIndex()(current[m]) == current[m].index {
    }
  }

  /** Advancing past open file p, past polled file q, or past both. */
  lemma BetweenSteps(open: seq<int>, current: seq<OpenFile>, p: nat, q: nat)
    requires Increasing(open) && StrictlyUp(current) && Between(open, current, p, q)
    ensures p < |open| && (q < |current| ==> open[p] < current[q].index) ==>
              && Between(open, current, p + 1, q) && !IsPolled(current, |current|, open[p])
    ensures q < |current| && (p < |open| ==> current[q].index < open[p]) ==>
              && Between(open, current, p, q + 1) && !IsOpen(open, |open|, current[q].index)
    ensures p < |open| && q < |current| && open[p] == current[q].index ==> Between(open, current, p + 1, q + 1)
  {
  }

  lemma OpenStep(open: seq<int>, p: nat, i: int)
    requires p < |open|
    ensures IsOpen(open, p + 1, i) <==> IsOpen(open, p, i) || open[p] == i
  {
  }

  lemma PolledStep(current: seq<OpenFile>, q: nat, i: int)
    requires q < |current|
    ensures IsPolled(current, q + 1, i) <==> IsPolled(current, q, i) || current[q].index == i
  {
  }

  /** Whatever the branch, one file's entry is brought up to date and the others stay. */
  lemma FilesStep(
    files: seq<Entry>, next: seq<Entry>, old_: seq<Entry>, open: seq<int>, current: seq<OpenFile>,
    p: nat, q: nat, p': nat, q': nat, x: int, frame: nat)
    requires p <= p' <= p + 1 && q <= q' <= q + 1 && p' <= |open| && q' <= |current|
    requires p' > p ==> open[p] == x
    requires q' > q ==> current[q].index == x
    requires p' > p || q' > q
    requires WalkedFiles(files, old_, open, current, p, q, frame) && !Passed(open, current, p, q, x)
    requires 0 <= x < |files| ==>
               next == files[x := WithMode(old_[x], IsOpen(open, |open|, x), Polled(current, x), frame)]
    requires !(0 <= x < |files|) ==> next == files
    ensures WalkedFiles(next, old_, open, current, p', q', frame)
  {
    hide WithMode, Polled, IsOpen, IsPolled;
    forall i | 0 <= i < |next|
      ensures next[i] == if Passed(open, current, p', q', i)
                         then WithMode(old_[i], IsOpen(open, |open|, i), Polled(current, i), frame)
                         else old_[i]
    {
      if p' > p {
        OpenStep(open, p, i);
      }
      if q' > q {
        PolledStep(current, q, i);
      }
    }
  }

  /** The file at hand has not been passed before. */
  lemma NotPassed(open: seq<int>, current: seq<OpenFile>, p: nat, q: nat, x: int)
    requires Increasing(open) && StrictlyUp(current) && Between(open, current, p, q)
    requires (p < |open| && open[p] == x) || (q < |current| && current[q].index == x)
    ensures !Passed(open, current, p, q, x)
  {
  }

  lemma KeepOpen(next: seq<int>, current: seq<OpenFile>, q: nat, n: nat)
    requires q < |current| && StrictlyUp(current) && WalkedOpen(next, current, q, n)
    ensures WalkedOpen(if 0 <= current[q].index < n then next + [current[q].index] else next, current, q + 1, n)
  {
    var x := current[q].index;
    var more := if 0 <= x < n then next + [x] else next;
    forall i ensures IsOpen(more, |more|, i) <==> 0 <= i < n && IsPolled(current, q + 1, i) {
      PolledStep(current, q, i);
      assert IsOpen(next, |next|, i) <==> 0 <= i < n && IsPolled(current, q, i);
      if IsOpen(next, |next|, i) {
        var m :| 0 <= m < |next| && next[m] == i;
        assert more[m] == i;
      }
      if more != next && i == x {
        assert more[|next|] == x;
      }
    }
    forall i | 0 <= i < |next| ensures next[i] < x {
      assert IsOpen(next, |next|, next[i]);
      var m :| 0 <= m < q && current[m].index == next[i];
    }
  }

  lemma AllPassed(open: seq<int>, current: seq<OpenFile>, old_: seq<Entry>, files: seq<Entry>, frame: nat)
    requires Sorting.Distinct(current, ByIndex())
    requires WalkedFiles(files, old_, open, current, |open|, |current|, frame)
    ensures files == SetModes(old_, open, current, frame)
  {
    hide Polled, IsPolled, IsOpen, Sorting.Distinct;
    forall i | 0 <= i < |files|
      ensures files[i] == WithMode(old_[i], IsOpen(open, |open|, i), Polled(current, i), frame)
    {
      PolledAt(current, i);
    }
  }

  lemma OpenAfterWalk(next: seq<int>, current: seq<OpenFile>, n: nat)
    requires Sorting.Distinct(current, ByIndex()) && WalkedOpen(next, current, |current|, n)
    ensures OpenAfter(next, current, n)
  {
    hide Polled, IsPolled, IsOpen, Sorting.Distinct;
    forall i ensures IsOpen(next, |next|, i) <==> 0 <= i < n && Polled(current, i).Some? {
      PolledAt(current, i);
    }
  }

  lemma SortedPolled(current: seq<OpenFile>, sorted: seq<OpenFile>)
    requires Sorting.Distinct(current, ByIndex()) && sorted == Sorting.Sort(current, ByIndex())
    ensures StrictlyUp(sorted) && Sorting.Distinct(sorted, ByIndex())
    ensures forall i :: Polled(sorted, i) == Polled(current, i)
  {
    hide Sorting.Table, Sorting.Sort, Sorting.Distinct;
    Sorting.SortedTable(current, ByIndex());
    forall i, j | 0 <= i < j < |sorted| ensures sorted[i].index < sorted[j].index {
      assert ByIndex()(sorted[i]) < ByIndex()(sorted[j]);
    }
  }

  // ---------------------------------------------------------------- the object

  ghost predicate Inv(h: History) {
    && Increasing(h.open) && InRange(h.open, |h.files|)
    && (forall i | 0 <= i < |h.files| :: EntryOk(h.files[i], h.frame))
    && 1 <= h.frame
  }

  predicate EntryOk(e: Entry, frame: nat) {
    1 <= e.progressFrame <= frame && 1 <= e.priorityFrame <= frame && 1 <= e.openModeFrame <= frame
  }

  /** One update, given the list of files open afterwards. Fields that were not fetched stay. */
  function Update(
    h: History, progress: Option<seq<int>>, priorities: Option<seq<int>>, modes: Option<seq<OpenFile>>,
    open: seq<int>): History
  {
    var frame := h.frame + 1;
    var a := if progress.Some? then SetProgress(h.files, progress.value, frame) else h.files;
    var b := if priorities.Some? then SetPriorities(a, priorities.value, frame) else a;
    if modes.Some? then History(frame, SetModes(b, h.open, modes.value, frame), open) else History(frame, b, h.open)
  }

  // ---------------------------------------------------------------- query

  /** When a field last changed; flags, name and size count as changed in frame 1. */
  function FrameOf(e: Entry, f: nat): nat {
    if f == 3 then e.progressFrame else if f == 4 then e.priorityFrame else if f == 5 then e.openModeFrame else 1
  }

  function QueryMask(e: Entry, since: nat, requested: Mask): Mask {
    seq(NUM_FIELDS, f requires 0 <= f < NUM_FIELDS => requested[f] && FrameOf(e, f) > since)
  }

  function Query(files: seq<Entry>, since: nat, requested: Mask): (r: seq<Mask>)
    ensures |r| == |files|
    decreases |files|
  {
    if files == [] then []
    else Query(files[..|files| - 1], since, requested) + [QueryMask(files[|files| - 1], since, requested)]
  }

  lemma {:induction false} QueryAt(files: seq<Entry>, since: nat, requested: Mask, i: nat)
    requires i < |files|
    ensures Query(files, since, requested)[i] == QueryMask(files[i], since, requested)
    decreases |files|
  {
    if i < |files| - 1 {
      QueryAt(files[..|files| - 1], since, requested, i);
    }
  }

  class FileHistory {
    var frame: nat
    var files: array<Entry>
    var openFiles: seq<int>

    ghost function Model(): History
      reads this, files
    {
      History(frame, files[..], openFiles)
    }

    ghost predicate Valid()
      reads this, files
    {
      Increasing(openFiles) && InRange(openFiles, files.Length)
    }

    constructor (numFiles: nat)
      ensures Valid() && Model() == Init(numFiles) && fresh(files)
    {
      frame, openFiles := 1, [];
      files := new Entry[numFiles](_ => FreshEntry());
    }

    /** update_open_modes: walk the open files and the sorted poll side by side. */
    method UpdateOpenModes(current: seq<OpenFile>, frame: nat)
      requires Valid() && Sorting.Distinct(current, ByIndex())
      modifies this`openFiles, files
      ensures Valid() && OpenAfter(openFiles, current, files.Length)
      ensures files[..] == SetModes(old(files[..]), old(openFiles), current, frame)
    {
      hide Polled, Sorting.Distinct, Between, WalkedFiles, WalkedOpen, Passed, IsOpen, IsPolled, WithMode, Sorting.Sort;
      var sorted := Sorting.Sort(current, ByIndex());
      SortedPolled(current, sorted);
      ghost var old_ := files[..];
      var next: seq<int> := [];
      var p: nat, q: nat := 0, 0;
      WalkStarts(old_, openFiles, sorted, frame, files.Length);
      while p < |openFiles| || q < |sorted|
        invariant p <= |openFiles| && q <= |sorted| && Between(openFiles, sorted, p, q)
        invariant WalkedFiles(files[..], old_, openFiles, sorted, p, q, frame)
        invariant WalkedOpen(next, sorted, q, files.Length)
        invariant openFiles == old(openFiles) && |old_| == files.Length
        decreases |openFiles| - p + |sorted| - q
      {
        BetweenSteps(openFiles, sorted, p, q);
        ghost var before := files[..];
        if p < |openFiles| && q < |sorted| && openFiles[p] == sorted[q].index {
          var fi := openFiles[p];
          EntryStays(before, old_, openFiles, sorted, p, q, frame, fi);
          StillOpen(openFiles, sorted, p, q, old_[fi], frame);
          if sorted[q].mode != files[fi].openMode {
            files[fi] := files[fi].(openMode := sorted[q].mode, openModeFrame := frame);
          }
          FilesStep(before, files[..], old_, openFiles, sorted, p, q, p + 1, q + 1, fi, frame);
          KeepOpen(next, sorted, q, files.Length);
          next := next + [fi];
          p, q := p + 1, q + 1;
        } else if p < |openFiles| && (q >= |sorted| || openFiles[p] < sorted[q].index) {
          var fi := openFiles[p];
          EntryStays(before, old_, openFiles, sorted, p, q, frame, fi);
          NowClosed(openFiles, sorted, p, old_[fi], frame);
          files[fi] := files[fi].(openMode := CLOSED, openModeFrame := frame);
          FilesStep(before, files[..], old_, openFiles, sorted, p, q, p + 1, q, fi, frame);
          p := p + 1;
        } else {
          var fi := sorted[q].index;
          NotPassed(openFiles, sorted, p, q, fi);
          KeepOpen(next, sorted, q, files.Length);
          if 0 <= fi < files.Length {
            EntryStays(before, old_, openFiles, sorted, p, q, frame, fi);
            NowOpen(openFiles, sorted, q, old_[fi], frame);
            files[fi] := files[fi].(openMode := sorted[q].mode, openModeFrame := frame);
            next := next + [fi];
          }
          FilesStep(before, files[..], old_, openFiles, sorted, p, q, p, q + 1, fi, frame);
          q := q + 1;
        }
      }
      AllPassed(openFiles, sorted, old_, files[..], frame);
      OpenAfterWalk(next, sorted, files.Length);
      SamePolled(old_, openFiles, sorted, current, next, frame);
      openFiles := next;
      OpenInRange(next, current, files.Length);
    }

    method UpdateProgress(values: seq<int>, frame: nat)
      modifies files
      ensures files[..] == SetProgress(old(files[..]), values, frame)
    {
      var fi := 0;
      while fi < files.Length && fi < |values|
        invariant 0 <= fi <= files.Length && fi <= |values|
        invariant forall i | 0 <= i < fi :: files[i] == WithProgress(old(files[..])[i], values[i], frame)
        invariant forall i | fi <= i < files.Length :: files[i] == old(files[..])[i]
      {
        if values[fi] != files[fi].progress {
          files[fi] := files[fi].(progress := values[fi], progressFrame := frame);
        }
        fi := fi + 1;
      }
    }

    method UpdatePriorities(values: seq<int>, frame: nat)
      modifies files
      ensures files[..] == SetPriorities(old(files[..]), values, frame)
    {
      var fi := 0;
      while fi < files.Length && fi < |values|
        invariant 0 <= fi <= files.Length && fi <= |values|
        invariant forall i | 0 <= i < fi :: files[i] == WithPriority(old(files[..])[i], values[i], frame)
        invariant forall i | fi <= i < files.Length :: files[i] == old(files[..])[i]
      {
        if values[fi] != files[fi].priority {
          files[fi] := files[fi].(priority := values[fi], priorityFrame := frame);
        }
        fi := fi + 1;
      }
    }

    /** file_history::update; a field that was not fetched this round is None. */
    method UpdateAll(progress: Option<seq<int>>, priorities: Option<seq<int>>, modes: Option<seq<OpenFile>>)
      returns (newFrame: nat)
      requires Valid() && (modes.Some? ==> Sorting.Distinct(modes.value, ByIndex()))
      modifies this`frame, this`openFiles, files
      ensures Valid() && newFrame == frame && Model() == Update(old(Model()), progress, priorities, modes, openFiles)
      ensures modes.Some? ==> OpenAfter(openFiles, modes.value, files.Length)
      ensures modes.None? ==> openFiles == old(openFiles)
    {
      hide SetModes, SetProgress, SetPriorities, Sorting.Distinct, OpenAfter;
      frame := frame + 1;
      newFrame := frame;
      if progress.Some? {
        UpdateProgress(progress.value, frame);
      }
      if priorities.Some? {
        UpdatePriorities(priorities.value, frame);
      }
      if modes.Some? {
        UpdateOpenModes(modes.value, frame);
      }
    }

    method QueryMasks(since: nat, requested: Mask) returns (masks: seq<Mask>)
      ensures masks == Query(files[..], since, requested)
    {
      hide QueryMask;
      var none: Mask := [false, false, false, false, false, false];
      var staticBits: Mask :=
        if since == 0 then [requested[0], requested[1], requested[2], false, false, false] else none;
      masks := [];
      for fi := 0 to files.Length
        invariant masks == Query(files[..fi], since, requested)
      {
        var e := files[fi];
        var m := staticBits;
        if requested[3] && e.progressFrame > since { m := m[3 := true]; }
        if requested[4] && e.priorityFrame > since { m := m[4 := true]; }
        if requested[5] && e.openModeFrame > since { m := m[5 := true]; }
        MaskIs(e, since, requested, m);
        masks := masks + [m];
        assert files[..fi + 1][..fi] == files[..fi];
      }
      assert files[..files.Length] == files[..];
    }
  }

  lemma MaskIs(e: Entry, since: nat, requested: Mask, m: Mask)
    requires m[0] == (since == 0 && requested[0]) && m[1] == (since == 0 && requested[1])
    requires m[2] == (since == 0 && requested[2]) && m[3] == (requested[3] && e.progressFrame > since)
    requires m[4] == (requested[4] && e.priorityFrame > since) && m[5] == (requested[5] && e.openModeFrame > since)
    ensures m == QueryMask(e, since, requested)
  {
    var q := QueryMask(e, since, requested);
    assert m[0] == q[0] && m[1] == q[1] && m[2] == q[2] && m[3] == q[3] && m[4] == q[4] && m[5] == q[5];
  }

  // ---------------------------------------------------------------- the three branches

  lemma WalkStarts(files: seq<Entry>, open: seq<int>, current: seq<OpenFile>, frame: nat, n: nat)
    ensures Between(open, current, 0, 0) && WalkedFiles(files, files, open, current, 0, 0, frame)
    ensures WalkedOpen([], current, 0, n)
  {
    hide Polled, WithMode;
  }

  /** The walk has not touched the entry it is about to change. */
  lemma EntryStays(
    files: seq<Entry>, old_: seq<Entry>, open: seq<int>, current: seq<OpenFile>, p: nat, q: nat, frame: nat, x: int)
    requires p <= |open| && q <= |current| && WalkedFiles(files, old_, open, current, p, q, frame)
    requires Increasing(open) && StrictlyUp(current) && Between(open, current, p, q)
    requires (p < |open| && open[p] == x) || (q < |current| && current[q].index == x)
    ensures !Passed(open, current, p, q, x) && |files| == |old_| && (0 <= x < |files| ==> files[x] == old_[x])
  {
    hide Between, Passed, Polled, WithMode;
    NotPassed(open, current, p, q, x);
  }

  lemma StillOpen(open: seq<int>, current: seq<OpenFile>, p: nat, q: nat, e: Entry, frame: nat)
    requires p < |open| && q < |current| && open[p] == current[q].index && Sorting.Distinct(current, ByIndex())
    ensures WithMode(e, IsOpen(open, |open|, open[p]), Polled(current, open[p]), frame)
         == if current[q].mode != e.openMode then e.(openMode := current[q].mode, openModeFrame := frame) else e
  {
    hide Polled, Sorting.Distinct;
    PolledAt(current, open[p]);
  }

  lemma NowClosed(open: seq<int>, current: seq<OpenFile>, p: nat, e: Entry, frame: nat)
    requires p < |open| && !IsPolled(current, |current|, open[p]) && Sorting.Distinct(current, ByIndex())
    ensures WithMode(e, IsOpen(open, |open|, open[p]), Polled(current, open[p]), frame)
         == e.(openMode := CLOSED, openModeFrame := frame)
  {
    hide Polled, Sorting.Distinct;
    PolledAt(current, open[p]);
  }

  lemma NowOpen(open: seq<int>, current: seq<OpenFile>, q: nat, e: Entry, frame: nat)
    requires q < |current| && !IsOpen(open, |open|, current[q].index) && Sorting.Distinct(current, ByIndex())
    ensures WithMode(e, IsOpen(open, |open|, current[q].index), Polled(current, current[q].index), frame)
         == e.(openMode := current[q].mode, openModeFrame := frame)
  {
    hide Polled, Sorting.Distinct;
    PolledAt(current, current[q].index);
  }

  lemma SamePolled(files: seq<Entry>, open: seq<int>, a: seq<OpenFile>, b: seq<OpenFile>, next: seq<int>, frame: nat)
    requires forall i :: Polled(a, i) == Polled(b, i)
    ensures SetModes(files, open, a, frame) == SetModes(files, open, b, frame)
    ensures OpenAfter(next, a, |files|) <==> OpenAfter(next, b, |files|)
  {
    hide Polled, WithMode, IsOpen;
  }

  lemma OpenInRange(next: seq<int>, current: seq<OpenFile>, n: nat)
    requires OpenAfter(next, current, n)
    ensures Increasing(next) && InRange(next, n)
  {
    hide Polled;
    forall i | 0 <= i < |next| ensures 0 <= next[i] < n {
      assert IsOpen(next, |next|, next[i]);
    }
  }
}
