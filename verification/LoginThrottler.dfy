/** src/login_throttler.cpp: blocking a network after too many failed logins, in bounded memory. */
module LoginThrottler {
  import opened Collections

  /** Times are milliseconds of a clock that never goes back; 0 is time_point{}, "not blocked". */
  datatype Entry = Entry(failures: seq<int>, blockedUntil: int)

  datatype Limits = Limits(maxFailures: nat, window: int, block: nat, maxEntries: nat)

  /** The limits that PopIsSafeIff and VictimExistsIff show to be necessary. */
  type Config = c: Limits | 1 <= c.maxFailures && 1 <= c.maxEntries witness Limits(5, 60000, 300000, 10000)

  const FRESH := Entry([], 0)

  function DropOld(failures: seq<int>, now: int, window: int): seq<int> {
    if failures != [] && now - failures[0] >= window then DropOld(failures[1..], now, window) else failures
  }

  function Expire(e: Entry, now: int, window: int): Entry {
    if e.blockedUntil != 0 && now >= e.blockedUntil then FRESH
    else e.(failures := DropOld(e.failures, now, window))
  }

  /** At most maxFailures times are kept. */
  function Pushed(failures: seq<int>, now: int, c: Config): seq<int> {
    (if |failures| == c.maxFailures then failures[1..] else failures) + [now]
  }

  /** One more failure of an entry. */
  function Fail(e: Entry, now: int, c: Config): Entry {
    var x := Expire(e, now, c.window);
    var f := Pushed(x.failures, now, c);
    Entry(f, if |f| >= c.maxFailures then now + c.block else x.blockedUntil)
  }

  function Prune<K(==)>(t: map<K, Entry>, now: int, window: int): map<K, Entry> {
    map k | k in t && Expire(t[k], now, window) != FRESH :: Expire(t[k], now, window)
  }

  /** What became of a failure: the two last outcomes are the coin toss of a full table. */
  datatype Outcome<K> = Recorded | Evicting(victim: K) | Dropped

  function Room<K(==)>(t: map<K, Entry>, now: int, c: Config): map<K, Entry> {
    if |t| >= c.maxEntries then Prune(t, now, c.window) else t
  }

  /** The outcomes record_failure_in may have. */
  predicate Possible<K(==)>(t: map<K, Entry>, key: K, now: int, c: Config, outcome: Outcome<K>) {
    if key in t || |Room(t, now, c)| < c.maxEntries then outcome.Recorded?
    else outcome.Dropped? || (outcome.Evicting? && outcome.victim in Room(t, now, c))
  }

  function Failure<K(==)>(t: map<K, Entry>, key: K, now: int, c: Config, outcome: Outcome<K>): map<K, Entry> {
    if key in t then t[key := Fail(t[key], now, c)]
    else
      match outcome
      case Recorded => Room(t, now, c)[key := Fail(FRESH, now, c)]
      case Evicting(victim) => (Room(t, now, c) - {victim})[key := Fail(FRESH, now, c)]
      case Dropped => Room(t, now, c)
  }

  /** Whole seconds, rounded up. */
  function Seconds(ms: int): int {
    (ms + 999) / 1000
  }

  function BlockedFor<K(==)>(t: map<K, Entry>, key: K, now: int, c: Config): (int, map<K, Entry>) {
    if key !in t then (0, t)
    else
      var e := Expire(t[key], now, c.window);
      if e == FRESH then (0, t - {key})
      else (if e.blockedUntil == 0 then 0 else Seconds(e.blockedUntil - now), t[key := e])
  }

  // ---------------------------------------------------------------- the object

  /** One of the two tables (IPv4 and IPv6 networks) and the operations on it. */
  class Throttler<K(==)> {
    const config: Config
    var table: map<K, Entry>

    constructor (config: Config)
      ensures this.config == config && table == map[]
    {
      this.config := config;
      table := map[];
    }

    /** expire(): drop failures outside the window, and everything once a block has been served. */
    static method ExpireEntry(e: Entry, now: int, window: int) returns (r: Entry)
      ensures r == Expire(e, now, window)
    {
      var failures, blockedUntil := e.failures, e.blockedUntil;
      while failures != [] && now - failures[0] >= window
        invariant DropOld(failures, now, window) == DropOld(e.failures, now, window)
        decreases |failures|
      {
        failures := failures[1..];
      }
      if blockedUntil != 0 && now >= blockedUntil {
        blockedUntil := 0;
        failures := [];
      }
      r := Entry(failures, blockedUntil);
    }

    method BlockedForKey(key: K, now: int) returns (seconds: int)
      modifies this`table
      ensures (seconds, table) == BlockedFor(old(table), key, now, config)
    {
      if key !in table {
        return 0;
      }
      var e := ExpireEntry(table[key], now, config.window);
      table := table[key := e];
      if e.blockedUntil == 0 {
        if e.failures == [] {
          table := table - {key};
          assert table == old(table) - {key};
        }
        return 0;
      }
      seconds := Seconds(e.blockedUntil - now);
    }

    /** prune_table_locked(): the order of the walk does not matter. */
    method PruneTable(now: int)
      modifies this`table
      ensures table == Prune(old(table), now, config.window)
    {
      hide Expire, Pruned;
      var rest := table.Keys;
      NothingPruned(table, now, config.window);
      while rest != {}
        invariant rest <= table.Keys
        invariant table == Pruned(old(table), rest, now, config.window)
        decreases |rest|
      {
        var k :| k in rest;
        OnePruned(old(table), rest, k, now, config.window);
        var e := ExpireEntry(table[k], now, config.window);
        if e.failures == [] && e.blockedUntil == 0 {
          table := table - {k};
        } else {
          table := table[k := e];
        }
        rest := rest - {k};
      }
      AllPruned(old(table), now, config.window);
    }

    method RecordFailure(key: K, now: int) returns (outcome: Outcome<K>)
      modifies this`table
      ensures Possible(old(table), key, now, config, outcome)
      ensures table == Failure(old(table), key, now, config, outcome)
    {
      hide Expire, Prune;
      outcome := Recorded;
      if key !in table {
        if |table| >= config.maxEntries {
          PruneTable(now);
          PruneKeys(old(table), now, config.window);
        }
        if |table| >= config.maxEntries {
          if * {
            return Dropped;
          }
          NotEmpty(table);
          var victim :| victim in table;
          table := table - {victim};
          outcome := Evicting(victim);
        }
        table := table[key := FRESH];
      }
      var e := ExpireEntry(table[key], now, config.window);
      var failures := e.failures;
      if |failures| == config.maxFailures {
        failures := failures[1..];
      }
      failures := failures + [now];
      var blockedUntil := if |failures| >= config.maxFailures then now + config.block else e.blockedUntil;
      table := table[key := Entry(failures, blockedUntil)];
    }

    method Record(key: K, success: bool, now: int) returns (outcome: Outcome<K>)
      modifies this`table
      ensures success ==> table == old(table) - {key}
      ensures !success ==> Possible(old(table), key, now, config, outcome)
                           && table == Failure(old(table), key, now, config, outcome)
    {
      if success {
        table := table - {key};
        return Recorded;
      }
      outcome := RecordFailure(key, now);
    }
  }

  /** A table where all but the entries in `rest` have been pruned. */
  function Pruned<K(==)>(t: map<K, Entry>, rest: set<K>, now: int, window: int): map<K, Entry> {
    map k | k in t && (k in rest || Expire(t[k], now, window) != FRESH) ::
      if k in rest then t[k] else Expire(t[k], now, window)
  }

  lemma NothingPruned<K>(t: map<K, Entry>, now: int, window: int)
    ensures Pruned(t, t.Keys, now, window) == t
  {
    hide Expire;
  }

  lemma AllPruned<K>(t: map<K, Entry>, now: int, window: int)
    ensures Pruned(t, {}, now, window) == Prune(t, now, window)
  {
    hide Expire;
  }

  lemma OnePruned<K>(t: map<K, Entry>, rest: set<K>, k: K, now: int, window: int)
    requires k in rest && rest <= Pruned(t, rest, now, window).Keys
    ensures var before, after := Pruned(t, rest, now, window), Pruned(t, rest - {k}, now, window);
            && k in before && before[k] == t[k] && rest - {k} <= after.Keys
            && after == if Expire(before[k], now, window) == FRESH then before - {k}
                        else before[k := Expire(before[k], now, window)]
  {
    hide Expire;
  }

  lemma NotEmpty<K>(t: map<K, Entry>)
    requires |t| > 0
    ensures exists k :: k in t
  {
    assert |t.Keys| > 0;
    var k :| k in t.Keys;
  }

  lemma PruneKeys<K>(t: map<K, Entry>, now: int, window: int)
    ensures Prune(t, now, window).Keys <= t.Keys
  {
  }

  // ---------------------------------------------------------------- the unbounded log

  /** Every failure of a network since its last reset, and the end of its block. */
  datatype Log = Log(times: seq<int>, blockedUntil: int)

  const NO_LOG := Log([], 0)

  function InWindow(times: seq<int>, now: int, window: int): nat
    decreases |times|
  {
    if times == [] then 0
    else InWindow(times[..|times| - 1], now, window) + (if now - times[|times| - 1] < window then 1 else 0)
  }

  /** A block that has been served resets the log. */
  function Served(r: Log, now: int): Log {
    if r.blockedUntil != 0 && now >= r.blockedUntil then NO_LOG else r
  }

  /** The network is blocked when this failure and those inside the window are enough. */
  function LogFailure(r: Log, now: int, c: Config): Log {
    var x := Served(r, now);
    Log(x.times + [now],
        if InWindow(x.times, now, c.window) + 1 >= c.maxFailures then now + c.block else x.blockedUntil)
  }

  function LogBlockedFor(r: Log, now: int): int {
    if r.blockedUntil != 0 && now < r.blockedUntil then Seconds(r.blockedUntil - now) else 0
  }

  // ---------------------------------------------------------------- simulation

  predicate Sorted(s: seq<int>) {
    forall i, j | 0 <= i < j < |s| :: s[i] <= s[j]
  }

  /** The kept times are the end of the log; what is missing is outside the window, or has
      maxFailures newer times behind it. */
  ghost predicate Kept(failures: seq<int>, times: seq<int>, now: int, c: Config) {
    var k := |times| - |failures|;
    && 0 <= k && failures == times[k..] && |failures| <= c.maxFailures
    && forall i | 0 <= i < k :: now - times[i] >= c.window || i + c.maxFailures < |times|
  }

  ghost predicate Sim(e: Entry, r: Log, now: int, c: Config) {
    && Sorted(r.times) && (forall i | 0 <= i < |r.times| :: r.times[i] <= now)
    && if e.blockedUntil == 0 && r.blockedUntil != 0 then r.blockedUntil <= now && e.failures == []
       else e.blockedUntil == r.blockedUntil && Kept(e.failures, r.times, now, c)
  }

  lemma SimLater(e: Entry, r: Log, now: int, later: int, c: Config)
    requires Sim(e, r, now, c) && now <= later
    ensures Sim(e, r, later, c)
  {
  }

  /** Dropping from the front keeps the end of the log. */
  lemma {:induction false} DropOldKeeps(failures: seq<int>, times: seq<int>, now: int, c: Config)
    requires Kept(failures, times, now, c)
    ensures Kept(DropOld(failures, now, c.window), times, now, c)
    ensures var f := DropOld(failures, now, c.window); f != [] ==> now - f[0] < c.window
    decreases |failures|
  {
    if failures != [] && now - failures[0] >= c.window {
      var k := |times| - |failures|;
      assert failures[0] == times[k] && failures[1..] == times[k + 1..];
      DropOldKeeps(failures[1..], times, now, c);
    }
  }

  /** Expiring an entry early cannot be observed. */
  lemma SimExpire(e: Entry, r: Log, now: int, c: Config)
    requires Sim(e, r, now, c)
    ensures Sim(Expire(e, now, c.window), r, now, c)
  {
    hide Kept, DropOld;
    if e.blockedUntil == r.blockedUntil {
      DropOldKeeps(e.failures, r.times, now, c);
    }
    NothingToDrop(now, c.window);
  }

  lemma NothingToDrop(now: int, window: int)
    ensures DropOld([], now, window) == []
  {
  }

  lemma {:induction false} WindowIsSuffix(times: seq<int>, k: nat, now: int, window: int)
    requires Sorted(times) && k <= |times|
    requires forall i | 0 <= i < k :: now - times[i] >= window
    requires k < |times| ==> now - times[k] < window
    ensures InWindow(times, now, window) == |times| - k
    decreases |times|
  {
    if times != [] {
      var n := |times| - 1;
      if k <= n {
        WindowIsSuffix(times[..n], k, now, window);
      } else {
        WindowIsSuffix(times[..n], n, now, window);
      }
    }
  }

  /** Where the window starts in a sorted log. */
  function Cut(times: seq<int>, now: int, window: int): (k: nat)
    requires Sorted(times)
    ensures k <= |times|
    ensures forall i | 0 <= i < k :: now - times[i] >= window
    ensures forall i | k <= i < |times| :: now - times[i] < window
    decreases |times|
  {
    var n := |times| - 1;
    if times == [] then 0
    else if now - times[n] >= window then |times|
    else Cut(times[..n], now, window)
  }

  /** After expiry, as many times are kept as lie in the window, up to maxFailures. */
  lemma KeptCount(failures: seq<int>, times: seq<int>, now: int, c: Config)
    requires Sorted(times) && Kept(failures, times, now, c) && (failures != [] ==> now - failures[0] < c.window)
    ensures |failures| == if InWindow(times, now, c.window) < c.maxFailures then InWindow(times, now, c.window)
                          else c.maxFailures
  {
    hide InWindow;
    var k := |times| - |failures|;
    var w := Cut(times, now, c.window);
    WindowIsSuffix(times, w, now, c.window);
    if failures != [] {
      assert failures[0] == times[k];
    }
    if w < k {
      assert now - times[k - 1] < c.window;
    }
  }

  lemma PushedCount(failures: seq<int>, times: seq<int>, now: int, c: Config)
    requires Sorted(times) && Kept(failures, times, now, c) && (failures != [] ==> now - failures[0] < c.window)
    ensures |Pushed(failures, now, c)| >= c.maxFailures <==> InWindow(times, now, c.window) + 1 >= c.maxFailures
    ensures |failures| <= c.maxFailures
  {
    hide InWindow;
    KeptCount(failures, times, now, c);
  }

  lemma SortedMore(times: seq<int>, now: int)
    requires Sorted(times) && forall i | 0 <= i < |times| :: times[i] <= now
    ensures Sorted(times + [now]) && forall i | 0 <= i < |times + [now]| :: (times + [now])[i] <= now
  {
  }

  /** A failure sets the block exactly when the unbounded log has enough failures in the window,
      although only maxFailures times are kept. */
  lemma SimFail(e: Entry, r: Log, now: int, c: Config)
    requires Sim(e, r, now, c)
    ensures Sim(Fail(e, now, c), LogFailure(r, now, c), now, c)
    ensures Fail(e, now, c).blockedUntil == LogFailure(r, now, c).blockedUntil
  {
    hide Sim, Kept, InWindow, Expire, Served, Sorted;
    var x, y := Expire(e, now, c.window), Served(r, now);
    ServedSim(e, r, now, c);
    PushedCount(x.failures, y.times, now, c);
    KeptMore(x.failures, y.times, now, c);
    SortedMore(y.times, now);
    SimOf(Fail(e, now, c), LogFailure(r, now, c), now, c);
  }

  lemma SimOf(e: Entry, r: Log, now: int, c: Config)
    requires Sorted(r.times) && (forall i | 0 <= i < |r.times| :: r.times[i] <= now)
    requires e.blockedUntil == r.blockedUntil && Kept(e.failures, r.times, now, c)
    ensures Sim(e, r, now, c)
  {
    hide Kept;
  }

  lemma ServedSim(e: Entry, r: Log, now: int, c: Config)
    requires Sim(e, r, now, c)
    ensures var x, y := Expire(e, now, c.window), Served(r, now);
            && Sorted(y.times) && (forall i | 0 <= i < |y.times| :: y.times[i] <= now)
            && x.blockedUntil == y.blockedUntil && Kept(x.failures, y.times, now, c)
            && (x.failures != [] ==> now - x.failures[0] < c.window)
  {
    hide Kept, DropOld;
    NothingKept(now, c);
    NothingToDrop(now, c.window);
    if e.blockedUntil == r.blockedUntil {
      DropOldKeeps(e.failures, r.times, now, c);
    }
  }

  lemma NothingKept(now: int, c: Config)
    ensures Kept([], [], now, c)
  {
  }

  lemma KeptMore(failures: seq<int>, times: seq<int>, now: int, c: Config)
    requires Kept(failures, times, now, c)
    ensures Kept(Pushed(failures, now, c), times + [now], now, c)
  {
    var f := Pushed(failures, now, c);
    var t := times + [now];
    assert f == t[|t| - |f|..];
  }

  lemma SimBlockedFor(e: Entry, r: Log, now: int, c: Config)
    requires Sim(e, r, now, c)
    ensures var x := Expire(e, now, c.window);
            (if x.blockedUntil == 0 then 0 else Seconds(x.blockedUntil - now)) == LogBlockedFor(r, now)
  {
  }

  // ---------------------------------------------------------------- whole tables

  function Get<K(==)>(t: map<K, Entry>, key: K): Entry {
    if key in t then t[key] else FRESH
  }

  function LogOf<K(==)>(logs: map<K, Log>, key: K): Log {
    if key in logs then logs[key] else NO_LOG
  }

  ghost predicate Refines<K(!new)>(t: map<K, Entry>, logs: map<K, Log>, now: int, c: Config) {
    && |t| <= c.maxEntries
    && forall k :: Sim(Get(t, k), LogOf(logs, k), now, c)
  }

  datatype Op<K> = Query(key: K) | Success(key: K) | Failed(key: K, outcome: Outcome<K>) | PruneAll

  datatype Event<K> = Event(op: Op<K>, now: int)

  function Step<K(==)>(t: map<K, Entry>, e: Event<K>, c: Config): map<K, Entry> {
    match e.op
    case Query(key) => BlockedFor(t, key, e.now, c).1
    case Success(key) => t - {key}
    case Failed(key, outcome) => Failure(t, key, e.now, c, outcome)
    case PruneAll => Prune(t, e.now, c.window)
  }

  /** On the logs, queries and pruning do nothing, and only the cap's victims are forgotten. */
  function LogStep<K(==)>(logs: map<K, Log>, e: Event<K>, c: Config): map<K, Log> {
    match e.op
    case Query(key) => logs
    case Success(key) => logs - {key}
    case PruneAll => logs
    case Failed(key, outcome) =>
      match outcome
      case Recorded => logs[key := LogFailure(LogOf(logs, key), e.now, c)]
      case Evicting(victim) => (logs - {victim})[key := LogFailure(LogOf(logs, key), e.now, c)]
      case Dropped => logs - {key}
  }

  lemma PrunedIsExpired<K>(t: map<K, Entry>, now: int, window: int, k: K)
    ensures Get(Prune(t, now, window), k) == Expire(Get(t, k), now, window)
  {
    NothingToDrop(now, window);
  }

  lemma PrunedSim<K>(t: map<K, Entry>, logs: map<K, Log>, now: int, c: Config, k: K)
    requires Sim(Get(t, k), LogOf(logs, k), now, c)
    ensures Sim(Get(Room(t, now, c), k), LogOf(logs, k), now, c)
    ensures Sim(Get(Prune(t, now, c.window), k), LogOf(logs, k), now, c)
  {
    hide Sim, Prune, Expire;
    PrunedIsExpired(t, now, c.window, k);
    SimExpire(Get(t, k), LogOf(logs, k), now, c);
  }

  lemma SmallerTable<K>(a: map<K, Entry>, b: map<K, Entry>)
    requires a.Keys <= b.Keys
    ensures |a| <= |b|
  {
    SmallerSet(a.Keys, b.Keys);
  }

  lemma QuerySize<K>(t: map<K, Entry>, key: K, now: int, c: Config)
    ensures |BlockedFor(t, key, now, c).1| <= |t|
  {
    hide Expire;
    SmallerTable(BlockedFor(t, key, now, c).1, t);
  }

  lemma FailureSize<K>(t: map<K, Entry>, key: K, now: int, c: Config, outcome: Outcome<K>)
    requires |t| <= c.maxEntries && Possible(t, key, now, c, outcome)
    ensures |Failure(t, key, now, c, outcome)| <= c.maxEntries
  {
    hide Prune, Fail;
    if key in t {
      SmallerTable(Failure(t, key, now, c, outcome), t);
    } else {
      RoomKeys(t, now, c);
      SmallerTable(Room(t, now, c), t);
      hide Room;
      if outcome.Evicting? {
        assert (Room(t, now, c) - {outcome.victim}).Keys == Room(t, now, c).Keys - {outcome.victim};
      }
    }
  }

  lemma StepSize<K(!new)>(t: map<K, Entry>, e: Event<K>, c: Config)
    requires |t| <= c.maxEntries
    requires e.op.Failed? ==> Possible(t, e.op.key, e.now, c, e.op.outcome)
    ensures |Step(t, e, c)| <= c.maxEntries
  {
    hide Possible, Failure, BlockedFor, Prune;
    match e.op {
      case Query(key) => QuerySize(t, key, e.now, c);
      case Success(key) => SmallerTable(t - {key}, t);
      case Failed(key, outcome) => FailureSize(t, key, e.now, c, outcome);
      case PruneAll =>
        PruneKeys(t, e.now, c.window);
        SmallerTable(Prune(t, e.now, c.window), t);
    }
  }

  lemma FailureSim<K(!new)>(t: map<K, Entry>, logs: map<K, Log>, e: Event<K>, c: Config, k: K)
    requires e.op.Failed? && Possible(t, e.op.key, e.now, c, e.op.outcome)
    requires Sim(Get(t, k), LogOf(logs, k), e.now, c)
    requires Sim(Get(t, e.op.key), LogOf(logs, e.op.key), e.now, c)
    ensures Sim(Get(Step(t, e, c), k), LogOf(LogStep(logs, e, c), k), e.now, c)
  {
    hide Sim, Prune, Expire, Fail, LogFailure;
    var key := e.op.key;
    PrunedSim(t, logs, e.now, c, k);
    SimFail(Get(t, key), LogOf(logs, key), e.now, c);
    FreshSim(e.now, c);
    RoomKeys(t, e.now, c);
  }

  lemma RoomKeys<K>(t: map<K, Entry>, now: int, c: Config)
    ensures Room(t, now, c).Keys <= t.Keys
  {
    hide Prune;
    PruneKeys(t, now, c.window);
  }

  lemma FreshSim(now: int, c: Config)
    ensures Sim(FRESH, NO_LOG, now, c)
  {
  }

  lemma StepSim<K(!new)>(t: map<K, Entry>, logs: map<K, Log>, e: Event<K>, c: Config, k: K)
    requires Refines(t, logs, e.now, c)
    requires e.op.Failed? ==> Possible(t, e.op.key, e.now, c, e.op.outcome)
    ensures Sim(Get(Step(t, e, c), k), LogOf(LogStep(logs, e, c), k), e.now, c)
  {
    hide Sim, Prune, Expire, Failure;
    assert Sim(Get(t, k), LogOf(logs, k), e.now, c);
    match e.op {
      case Query(key) =>
        SimExpire(Get(t, k), LogOf(logs, k), e.now, c);
      case Success(key) =>
        FreshSim(e.now, c);
      case Failed(key, outcome) =>
        FailureSim(t, logs, e, c, k);
      case PruneAll =>
        PrunedSim(t, logs, e.now, c, k);
    }
  }

  // ---------------------------------------------------------------- runs

  function Run<K(==)>(events: seq<Event<K>>, c: Config): map<K, Entry>
    decreases |events|
  {
    if events == [] then map[] else Step(Run(events[..|events| - 1], c), events[|events| - 1], c)
  }

  function LogRun<K(==)>(events: seq<Event<K>>, c: Config): map<K, Log>
    decreases |events|
  {
    if events == [] then map[] else LogStep(LogRun(events[..|events| - 1], c), events[|events| - 1], c)
  }

  function Clock<K>(events: seq<Event<K>>): int {
    if |events| == 0 then 1 else events[|events| - 1].now
  }

  /** Time does not go back, and outcomes are ones the code can have. */
  ghost predicate Legal<K>(events: seq<Event<K>>, c: Config)
    decreases |events|
  {
    events == [] ||
    var before, e := events[..|events| - 1], events[|events| - 1];
    && Legal(before, c) && Clock(before) <= e.now
    && (e.op.Failed? ==> Possible(Run(before, c), e.op.key, e.now, c, e.op.outcome))
  }

  lemma {:induction false} RunRefines<K(!new)>(events: seq<Event<K>>, c: Config)
    requires Legal(events, c)
    ensures Refines(Run(events, c), LogRun(events, c), Clock(events), c)
    decreases |events|
  {
    hide Step, LogStep, Sim, Possible;
    if events == [] {
      FreshSim(1, c);
    } else {
      var before, e := events[..|events| - 1], events[|events| - 1];
      var t, logs := Run(before, c), LogRun(before, c);
      RunRefines(before, c);
      LaterRefines(t, logs, Clock(before), e.now, c);
      StepSize(t, e, c);
      forall k: K ensures Sim(Get(Step(t, e, c), k), LogOf(LogStep(logs, e, c), k), e.now, c) {
        StepSim(t, logs, e, c, k);
      }
    }
  }

  lemma LaterRefines<K(!new)>(t: map<K, Entry>, logs: map<K, Log>, now: int, later: int, c: Config)
    requires Refines(t, logs, now, c) && now <= later
    ensures Refines(t, logs, later, c)
  {
    hide Sim;
    forall k: K ensures Sim(Get(t, k), LogOf(logs, k), later, c) {
      assert Sim(Get(t, k), LogOf(logs, k), now, c);
      SimLater(Get(t, k), LogOf(logs, k), now, later, c);
    }
  }

  /** Over every run: the table never exceeds its cap, and whenever a network is asked about, the
      answer is that of the unbounded log, which neither lazy expiry nor pruning ever touches. */
  lemma ThrottlerRefinesLog<K(!new)>(events: seq<Event<K>>, c: Config, key: K, now: int)
    requires Legal(events, c) && Clock(events) <= now
    ensures |Run(events, c)| <= c.maxEntries
    ensures BlockedFor(Run(events, c), key, now, c).0 == LogBlockedFor(LogOf(LogRun(events, c), key), now)
  {
    hide Run, LogRun, Sim, Legal, Expire, LogBlockedFor;
    RunRefines(events, c);
    var t, logs := Run(events, c), LogRun(events, c);
    LaterRefines(t, logs, Clock(events), now, c);
    assert Sim(Get(t, key), LogOf(logs, key), now, c);
    SimBlockedFor(Get(t, key), LogOf(logs, key), now, c);
    FreshStays(now, c.window);
  }

  lemma {:induction false} ClockStarted<K>(events: seq<Event<K>>, c: Config)
    requires Legal(events, c)
    ensures 1 <= Clock(events)
    decreases |events|
  {
    if events != [] {
      ClockStarted(events[..|events| - 1], c);
    }
  }

  /** What the answer is for, over every run: it is positive exactly while the block of the network
      has not ended, and waiting that many seconds is enough while one second less is not. */
  lemma AnswerCoversBlock<K(!new)>(events: seq<Event<K>>, c: Config, key: K, now: int)
    requires Legal(events, c) && Clock(events) <= now
    ensures var end := LogOf(LogRun(events, c), key).blockedUntil;
            var s := BlockedFor(Run(events, c), key, now, c).0;
            && (s > 0 <==> now < end)
            && (s > 0 ==> now + 1000 * (s - 1) < end <= now + 1000 * s)
            && (s <= 0 ==> s == 0)
  {
    hide Run, LogRun, Legal, BlockedFor;
    ThrottlerRefinesLog(events, c, key, now);
    ClockStarted(events, c);
  }

  lemma FreshStays(now: int, window: int)
    ensures Expire(FRESH, now, window) == FRESH
  {
    NothingToDrop(now, window);
  }

  // ---------------------------------------------------------------- limits the constructor accepts

  /** Recording a failure never pops from an empty deque, whatever the entry, iff at least one
      failure is allowed; with none, the first failure of a network does. */
  lemma PopIsSafeIff(c: Limits)
    ensures (forall e: Entry, now: int ::
               |Expire(e, now, c.window).failures| == c.maxFailures ==> Expire(e, now, c.window).failures != [])
            <==> 1 <= c.maxFailures
  {
    FreshStays(1, c.window);
    assert |Expire(FRESH, 1, c.window).failures| == 0;
  }

  /** A full table has an entry to evict, whatever the table, iff at least one entry is allowed. */
  lemma VictimExistsIff<K(!new)>(c: Limits)
    ensures (forall t: map<K, Entry> :: |t| >= c.maxEntries ==> exists k :: k in t) <==> 1 <= c.maxEntries
  {
    if 1 <= c.maxEntries {
      forall t: map<K, Entry> | |t| >= c.maxEntries ensures exists k :: k in t {
        NotEmpty(t);
      }
    } else {
      var none: map<K, Entry> := map[];
      assert |none| >= c.maxEntries && forall k :: k !in none;
    }
  }

  ghost predicate Past(times: seq<int>, now: int) {
    forall i | 0 <= i < |times| :: times[i] <= now
  }

  lemma {:induction false} NoWindow(times: seq<int>, now: int, window: int)
    requires Past(times, now) && window <= 0
    ensures InWindow(times, now, window) == 0
    decreases |times|
  {
    if times != [] {
      NoWindow(times[..|times| - 1], now, window);
    }
  }

  lemma InWindowMore(times: seq<int>, now: int, window: int)
    ensures InWindow(times + [now], now, window) == InWindow(times, now, window) + (if window > 0 then 1 else 0)
  {
    assert (times + [now])[..|times|] == times;
  }

  ghost predicate Enough(times: seq<int>, now: int, c: Config) {
    InWindow(times + [now], now, c.window) >= c.maxFailures
  }

  /** A failure always counts itself. Counting what lies inside the window, this failure included, is
      the same for every log iff the window is not empty or one failure is not enough. */
  lemma CountsItselfIff(c: Config)
    ensures (forall times: seq<int>, now: int | Past(times, now) ::
               Enough(times, now, c) <==> InWindow(times, now, c.window) + 1 >= c.maxFailures)
            <==> c.window >= 1 || c.maxFailures >= 2
  {
    hide InWindow;
    forall times: seq<int>, now: int
      ensures c.window >= 1 ==> (Enough(times, now, c) <==> InWindow(times, now, c.window) + 1 >= c.maxFailures)
      ensures c.window < 1 && Past(times, now)
          ==> InWindow(times, now, c.window) == 0 && !Enough(times, now, c)
    {
      InWindowMore(times, now, c.window);
      if c.window < 1 && Past(times, now) {
        NoWindow(times, now, c.window);
      }
    }
    if c.window < 1 && c.maxFailures < 2 {
      assert Past([], 1) && !Enough([], 1, c);
      assert InWindow([], 1, c.window) + 1 >= c.maxFailures;
    }
  }
}
