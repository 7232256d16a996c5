/** The queue seen as a table: what a lookup by info-hash returns after each way the queue is
    rearranged, and the invariant every operation keeps. */
module TorrentLookup {
  import opened Basics
  import opened Tombstones
  import opened TorrentHistory

  function Lookup(q: seq<Slot>, ih: Hash): (r: Option<Slot>)
    ensures r.Some? ==> r.value.Ih() == ih && r.value in q
  {
    var i := IndexOf(q, ih);
    if i == |q| then None else Some(q[i])
  }

  ghost predicate Unique(q: seq<Slot>) {
    forall i, j | 0 <= i < j < |q| :: q[i].Ih() != q[j].Ih()
  }

  ghost predicate Sorted(q: seq<Slot>) {
    forall i, j | 0 <= i < j < |q| :: q[i].key >= q[j].key
  }

  lemma LookupAt(q: seq<Slot>, i: nat)
    requires Unique(q) && i < |q|
    ensures Lookup(q, q[i].Ih()) == Some(q[i])
  {
  }

  lemma LookupFront(s: Slot, q: seq<Slot>, x: Hash)
    ensures Lookup([s] + q, x) == if s.Ih() == x then Some(s) else Lookup(q, x)
  {
    assert ([s] + q)[1..] == q;
  }

  lemma LookupBack(q: seq<Slot>, x: Hash)
    requires q != []
    ensures var init, last := q[..|q| - 1], q[|q| - 1];
            Lookup(q, x) == if Lookup(init, x).Some? then Lookup(init, x)
                            else if last.Ih() == x then Some(last) else None
  {
    var init := q[..|q| - 1];
    var i := IndexOf(init, x);
    assert forall j | 0 <= j < |init| :: init[j] == q[j];
    if i < |init| {
      assert q[i].Ih() == x;
    }
  }

  lemma {:induction false} LookupConcat(a: seq<Slot>, b: seq<Slot>, x: Hash)
    ensures Lookup(a + b, x) == if Lookup(a, x).Some? then Lookup(a, x) else Lookup(b, x)
    decreases |a|
  {
    hide Lookup;
    if a == [] {
      LookupNothing(x);
      assert a + b == b;
    } else {
      assert a + b == [a[0]] + (a[1..] + b) && a == [a[0]] + a[1..];
      LookupFront(a[0], a[1..] + b, x);
      LookupFront(a[0], a[1..], x);
      LookupConcat(a[1..], b, x);
    }
  }

  lemma LookupNothing(x: Hash)
    ensures Lookup([], x) == None
  {
  }

  lemma LookupMissing(q: seq<Slot>, x: Hash)
    requires forall i | 0 <= i < |q| :: q[i].Ih() != x
    ensures Lookup(q, x) == None
  {
  }

  lemma UniqueRemoved(q: seq<Slot>, i: nat)
    requires Unique(q) && i < |q|
    ensures Unique(RemoveAt(q, i))
  {
    var r := RemoveAt(q, i);
    assert forall j | 0 <= j < |r| :: r[j] == q[if j < i then j else j + 1];
  }

  lemma LookupRemoved(q: seq<Slot>, i: nat, x: Hash)
    requires Unique(q) && i < |q|
    ensures Lookup(RemoveAt(q, i), x) == if x == q[i].Ih() then None else Lookup(q, x)
  {
    hide Lookup;
    var front, back := q[..i], q[i + 1..];
    assert q == front + ([q[i]] + back);
    LookupConcat(front, back, x);
    LookupConcat(front, [q[i]] + back, x);
    LookupFront(q[i], back, x);
    if x == q[i].Ih() {
      LookupMissing(front, x);
      LookupMissing(back, x);
    }
  }

  lemma LookupWithout(q: seq<Slot>, ih: Hash, x: Hash)
    requires Unique(q)
    ensures Unique(Without(q, ih))
    ensures Lookup(Without(q, ih), x) == if x == ih then None else Lookup(q, x)
  {
    hide Unique, RemoveAt;
    var i := IndexOf(q, ih);
    if i < |q| {
      UniqueRemoved(q, i);
      LookupRemoved(q, i, x);
    }
  }

  lemma SortedWithout(q: seq<Slot>, ih: Hash)
    requires Sorted(q)
    ensures Sorted(Without(q, ih))
    ensures forall s | s in Without(q, ih) :: s in q
  {
    var i := IndexOf(q, ih);
    if i < |q| {
      var r := RemoveAt(q, i);
      assert forall j | 0 <= j < |r| :: r[j] == q[if j < i then j else j + 1];
    }
  }

  /** What the early break leaves visible: the torrents touched after `since`. */
  lemma LookupTouched(q: seq<Slot>, since: nat, x: Hash)
    requires Unique(q) && Sorted(q)
    ensures Unique(q[..Touched(q, since)])
    ensures var r := Lookup(q, x);
            Lookup(q[..Touched(q, since)], x) == if r.Some? && r.value.key > since then r else None
  {
    var n := Touched(q, since);
    var i := IndexOf(q, x);
    assert forall j | 0 <= j < n :: q[..n][j] == q[j];
    if i < n {
      LookupAt(q[..n], i);
    } else if i < |q| {
      assert q[n].key >= q[i].key;
    }
  }

  // ---------------------------------------------------------------- the invariant

  ghost predicate EntryOk(s: Slot) {
    && 0 < s.entry.added <= s.key
    && (forall k | 0 <= k < TAG :: s.entry.frame[k].At?)
    && (forall k | 0 <= k < NUM_FIELDS :: s.entry.frame[k].At? ==> s.entry.added <= s.entry.frame[k].n <= s.key)
  }

  /** The newest frame anything in the table can be stamped with. */
  function Newest(h: History): nat {
    if h.deferred then h.frame + 1 else h.frame
  }

  ghost predicate QueueOk(q: seq<Slot>, newest: nat) {
    && Unique(q)
    && Sorted(q)
    && (forall s | s in q :: EntryOk(s) && s.key <= newest)
  }

  /** Handles identify live torrents; only live torrents have tags, and only once set. */
  ghost predicate DistinctHandles(q: seq<Slot>) {
    forall x, y | Lookup(q, x).Some? && Lookup(q, y).Some? && x != y ::
      Lookup(q, x).value.Handle() != Lookup(q, y).value.Handle()
  }

  ghost predicate HandleInUse(q: seq<Slot>, g: Handle) {
    exists x :: Lookup(q, x).Some? && Lookup(q, x).value.Handle() == g
  }

  ghost predicate TagsOk(q: seq<Slot>, tags: map<Handle, bv64>) {
    && (forall g | g in tags :: HandleInUse(q, g))
    && (forall x | Lookup(q, x).Some? && Lookup(q, x).value.entry.frame[TAG] == Unset ::
          Lookup(q, x).value.Handle() !in tags)
  }

  ghost predicate StonesOk(removed: seq<Tombstone<Verdict>>, newest: nat, limit: nat) {
    && NewestFirst(removed)
    && |removed| <= limit
    && (forall t | t in removed :: 0 < t.addedFrame && t.removedFrame <= newest)
  }

  ghost predicate Inv(h: History) {
    && 1 <= h.frame
    && QueueOk(h.queue, Newest(h))
    && DistinctHandles(h.queue)
    && TagsOk(h.queue, h.tags)
    && StonesOk(h.removed, Newest(h), h.limit)
  }

  lemma InitInv(limit: nat)
    ensures Inv(Init(limit))
  {
  }

  /** Replacing a torrent's slot by a newer one at the front. */
  lemma TouchLookup(q: seq<Slot>, s: Slot, x: Hash)
    requires Unique(q)
    ensures Unique([s] + Without(q, s.Ih()))
    ensures Lookup([s] + Without(q, s.Ih()), x) == if x == s.Ih() then Some(s) else Lookup(q, x)
  {
    var rest := Without(q, s.Ih());
    LookupWithout(q, s.Ih(), x);
    LookupWithout(q, s.Ih(), s.Ih());
    LookupFront(s, rest, x);
  }

  lemma TouchQueue(q: seq<Slot>, s: Slot, newest: nat)
    requires QueueOk(q, newest) && EntryOk(s) && s.key == newest
    ensures QueueOk([s] + Without(q, s.Ih()), newest)
  {
    TouchLookup(q, s, s.Ih());
    SortedWithout(q, s.Ih());
  }
}
