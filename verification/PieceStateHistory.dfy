/** src/piece_state_history.cpp: the pieces of one torrent we have, as deltas whose frames are
    implied by the position in a bounded queue. */
module PieceStateHistory {
  import opened Collections

  datatype History = History(have: seq<bool>, queue: seq<int>, horizon: nat, limit: nat)

  function Frame(h: History): nat {
    h.horizon + |h.queue|
  }

  function Init(initial: seq<bool>, limit: nat): History {
    History(initial, [], 1, limit)
  }

  /** Pop the oldest completions; each pop moves the horizon by one. */
  function Trim(queue: seq<int>, horizon: nat, limit: nat): (r: (seq<int>, nat))
    ensures |r.0| <= limit && horizon <= r.1 && r.1 + |r.0| == horizon + |queue|
    ensures r.0 == queue[r.1 - horizon..]
    decreases |queue|
  {
    if |queue| <= limit then (queue, horizon) else Trim(queue[1..], horizon + 1, limit)
  }

  lemma TrimStep(queue: seq<int>, horizon: nat, limit: nat)
    ensures Trim(queue, horizon, limit)
         == if |queue| <= limit then (queue, horizon) else Trim(queue[1..], horizon + 1, limit)
  {
  }

  function Finished(h: History, i: int): History {
    if !(0 <= i < |h.have|) || h.have[i] then h
    else
      var kept := Trim(h.queue + [i], h.horizon, h.limit);
      History(h.have[i := true], kept.0, kept.1, h.limit)
  }

  datatype Result = Snapshot(frame: nat, have: seq<bool>) | Delta(frame: nat, added: seq<int>)

  function Query(h: History, since: nat): Result {
    if since == 0 || since < h.horizon || since > Frame(h) then Snapshot(Frame(h), h.have)
    else Delta(Frame(h), h.queue[since - h.horizon..])
  }

  // ---------------------------------------------------------------- the object

  class PieceStateHistory {
    var bitfield: array<bool>
    var queue: seq<int>
    var horizon: nat
    const maxQueue: nat

    ghost function Model(): History
      reads this, bitfield
    {
      History(bitfield[..], queue, horizon, maxQueue)
    }

    constructor (initial: array<bool>, maxQueue: nat)
      ensures bitfield == initial && Model() == Init(initial[..], maxQueue)
    {
      bitfield, queue, horizon := initial, [], 1;
      this.maxQueue := maxQueue;
    }

    method OnPieceFinished(i: int)
      modifies this`queue, this`horizon, bitfield
      ensures Model() == Finished(old(Model()), i)
    {
      hide Trim;
      if i < 0 || i >= bitfield.Length {
        return;
      }
      if bitfield[i] {
        return;
      }
      bitfield[i] := true;
      queue := queue + [i];
      DropOldest();
    }

    /** Cap the delta history. */
    method DropOldest()
      modifies this`queue, this`horizon
      ensures (queue, horizon) == Trim(old(queue), old(horizon), maxQueue)
    {
      hide Trim;
      while |queue| > maxQueue
        invariant Trim(queue, horizon, maxQueue) == Trim(old(queue), old(horizon), maxQueue)
        decreases |queue|
      {
        TrimStep(queue, horizon, maxQueue);
        horizon := horizon + 1;
        queue := queue[1..];
      }
      TrimStep(queue, horizon, maxQueue);
    }

    method RunQuery(since: nat) returns (r: Result)
      ensures r == Query(Model(), since)
    {
      var frame := horizon + |queue|;
      if since == 0 || since < horizon || since > frame {
        return Snapshot(frame, bitfield[..]);
      }
      var added: seq<int> := [];
      var skip := since - horizon;
      for k := skip to |queue|
        invariant added == queue[skip..k]
      {
        added := added + [queue[k]];
      }
      r := Delta(frame, added);
    }
  }

  // ---------------------------------------------------------------- invariants

  predicate Contains(s: seq<int>, i: int) {
    exists k :: 0 <= k < |s| && s[k] == i
  }

  /** The queue lists pieces we have, each once. */
  ghost predicate Inv(h: History) {
    && 1 <= h.horizon && |h.queue| <= h.limit && NoRepeats(h.queue)
    && (forall k | 0 <= k < |h.queue| :: 0 <= h.queue[k] < |h.have| && h.have[h.queue[k]])
  }

  /** What a delta from `since` lists. */
  function AddedSince(h: History, since: nat): seq<int> {
    if h.horizon <= since <= Frame(h) then h.queue[since - h.horizon..] else []
  }

  /** `base` is the have-set at frame `since`, as far as the queue reaches back. */
  ghost predicate Knows(h: History, since: nat, base: seq<bool>) {
    && since <= Frame(h) && |base| == |h.have|
    && (h.horizon <= since ==> forall i | 0 <= i < |base| :: KnowsPiece(h, since, base, i))
  }

  ghost predicate KnowsPiece(h: History, since: nat, base: seq<bool>, i: int)
    requires 0 <= i < |base| == |h.have|
  {
    && (h.have[i] <==> base[i] || Contains(AddedSince(h, since), i))
    && !(base[i] && Contains(AddedSince(h, since), i))
  }

  lemma ContainsMore(s: seq<int>, x: int, i: int)
    ensures Contains(s + [x], i) <==> Contains(s, i) || i == x
  {
    var t := s + [x];
    if Contains(s, i) {
      var k :| 0 <= k < |s| && s[k] == i;
      assert t[k] == i;
    }
    if i == x {
      assert t[|s|] == i;
    }
  }

  lemma FinishedInv(h: History, i: int)
    requires Inv(h)
    ensures Inv(Finished(h, i))
  {
    hide Trim;
    if 0 <= i < |h.have| && !h.have[i] {
      var longer := h.queue + [i];
      var g := Finished(h, i);
      assert g.queue == longer[g.horizon - h.horizon..];
      assert NoRepeats(longer);
    }
  }

  /** A completion that is recorded moves the frame by one and comes last in every delta. */
  lemma FinishedAdds(h: History, i: int, since: nat)
    requires 0 <= i < |h.have| && !h.have[i] && since <= Frame(h)
    ensures var g := Finished(h, i);
            && Frame(g) == Frame(h) + 1 && h.horizon <= g.horizon && g.have == h.have[i := true]
            && (g.horizon <= since ==> AddedSince(g, since) == AddedSince(h, since) + [i])
  {
    hide Trim;
    var g := Finished(h, i);
    var longer := h.queue + [i];
    assert g.queue == longer[g.horizon - h.horizon..];
    if g.horizon <= since {
      assert g.queue[since - g.horizon..] == longer[since - h.horizon..];
      assert longer[since - h.horizon..] == h.queue[since - h.horizon..] + [i];
    }
  }

  lemma FinishedKnows(h: History, i: int, since: nat, base: seq<bool>)
    requires Inv(h) && Knows(h, since, base)
    ensures Knows(Finished(h, i), since, base)
  {
    hide Contains, AddedSince;
    if 0 <= i < |h.have| && !h.have[i] {
      hide Finished;
      FinishedAdds(h, i, since);
      var g := Finished(h, i);
      if g.horizon <= since {
        forall j | 0 <= j < |base| ensures KnowsPiece(g, since, base, j) {
          assert KnowsPiece(h, since, base, j);
          ContainsMore(AddedSince(h, since), i, j);
        }
      }
    }
  }

  lemma KnowsNow(h: History)
    ensures Knows(h, Frame(h), h.have)
  {
  }

  // ---------------------------------------------------------------- runs

  function Run(h: History, completions: seq<int>): History
    decreases |completions|
  {
    if completions == [] then h
    else Finished(Run(h, completions[..|completions| - 1]), completions[|completions| - 1])
  }

  lemma {:induction false} RunKnows(h: History, completions: seq<int>, since: nat, base: seq<bool>)
    requires Inv(h) && Knows(h, since, base)
    ensures Inv(Run(h, completions)) && Knows(Run(h, completions), since, base)
    decreases |completions|
  {
    hide Inv, Knows, Finished;
    if completions != [] {
      var n := |completions| - 1;
      RunKnows(h, completions[..n], since, base);
      FinishedInv(Run(h, completions[..n]), completions[n]);
      FinishedKnows(Run(h, completions[..n]), completions[n], since, base);
    }
  }

  /** Setting the listed bits. */
  function Apply(base: seq<bool>, added: seq<int>): seq<bool> {
    seq(|base|, i requires 0 <= i < |base| => base[i] || Contains(added, i))
  }

  lemma SuffixInv(h: History, since: nat)
    requires Inv(h) && h.horizon <= since <= Frame(h)
    ensures NoRepeats(AddedSince(h, since))
  {
  }

  /** Over every run, from any initial have-set and for any queue bound: a client at an earlier
      frame either gets the whole bitfield, or a list that, without duplicates and without
      anything it had, makes its have-set the current one, one piece for each frame in between. */
  lemma HaveSetSyncs(initial: seq<bool>, limit: nat, before: seq<int>, after: seq<int>)
    ensures var h0 := Run(Init(initial, limit), before);
            var h1 := Run(h0, after);
            var r := Query(h1, Frame(h0));
            && r.frame == Frame(h1) && |h0.have| == |h1.have| == |initial|
            && (r.Snapshot? <==> Frame(h0) < h1.horizon)
            && (r.Snapshot? ==> r.have == h1.have)
            && (r.Delta? ==>
                  && Apply(h0.have, r.added) == h1.have
                  && NoRepeats(r.added) && |r.added| == Frame(h1) - Frame(h0)
                  && forall i | 0 <= i < |h0.have| && h0.have[i] :: !Contains(r.added, i))
  {
    hide Run, Contains, Inv;
    var h := Init(initial, limit);
    InitInv(initial, limit);
    KnowsNow(h);
    RunKnows(h, before, Frame(h), h.have);
    var h0 := Run(h, before);
    KnowsNow(h0);
    RunKnows(h0, after, Frame(h0), h0.have);
    var h1 := Run(h0, after);
    HorizonPositive(h1);
    if h1.horizon <= Frame(h0) {
      SuffixInv(h1, Frame(h0));
      DeltaIsExact(h1, Frame(h0), h0.have);
    }
  }

  lemma DeltaIsExact(h: History, since: nat, base: seq<bool>)
    requires Knows(h, since, base) && h.horizon <= since
    ensures Apply(base, AddedSince(h, since)) == h.have
    ensures forall i | 0 <= i < |base| && base[i] :: !Contains(AddedSince(h, since), i)
  {
    hide Contains, AddedSince;
    forall i | 0 <= i < |base|
      ensures (base[i] || Contains(AddedSince(h, since), i)) == h.have[i]
      ensures base[i] ==> !Contains(AddedSince(h, since), i)
    {
      assert KnowsPiece(h, since, base, i);
    }
  }

  lemma InitInv(initial: seq<bool>, limit: nat)
    ensures Inv(Init(initial, limit))
  {
  }

  lemma HorizonPositive(h: History)
    requires Inv(h)
    ensures 1 <= h.horizon
  {
  }

  function Count(have: seq<bool>): nat
    decreases |have|
  {
    if have == [] then 0 else Count(have[..|have| - 1]) + (if have[|have| - 1] then 1 else 0)
  }

  lemma {:induction false} CountSet(have: seq<bool>, i: nat)
    requires i < |have| && !have[i]
    ensures Count(have[i := true]) == Count(have) + 1
    decreases |have|
  {
    var n := |have| - 1;
    if i < n {
      CountSet(have[..n], i);
      assert have[i := true][..n] == have[..n][i := true];
    } else {
      assert have[i := true][..n] == have[..n];
    }
  }

  /** The frame counts the pieces completed since the history was made, whatever was evicted. */
  lemma {:induction false} FrameCountsPieces(initial: seq<bool>, limit: nat, completions: seq<int>)
    ensures var h := Run(Init(initial, limit), completions);
            Frame(h) == 1 + Count(h.have) - Count(initial)
    decreases |completions|
  {
    hide Finished, Count;
    if completions != [] {
      var n := |completions| - 1;
      FrameCountsPieces(initial, limit, completions[..n]);
      FinishedCounts(Run(Init(initial, limit), completions[..n]), completions[n]);
    }
  }

  lemma FinishedCounts(h: History, i: int)
    ensures Frame(Finished(h, i)) - Frame(h) == Count(Finished(h, i).have) - Count(h.have)
  {
    hide Trim, Count;
    if 0 <= i < |h.have| && !h.have[i] {
      CountSet(h.have, i);
    }
  }
}
