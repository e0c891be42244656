/** Requests per client address in fixed windows, in a capped table that is swept lazily,
    with one shared counter for the addresses that find it full. */
module IpLimiter {
  import opened Tables

  datatype Window = Window(start: int, count: nat)

  /** overflow == 0 lets the addresses that find the table full through uncounted. */
  datatype Config = Config(limit: nat, overflow: nat, window: int, max: nat)

  // ---- one counter ----

  /** A counter whose window is over, or that was never used, starts again. */
  function Renewed(w: Option<Window>, window: int, now: int): Window {
    if w.Some? && now - w.value.start < window then w.value else Window(now, 0)
  }

  function Spend(w: Option<Window>, budget: nat, window: int, now: int): (Window, bool) {
    var r := Renewed(w, window, now);
    if r.count >= budget then (r, false) else (r.(count := r.count + 1), true)
  }

  /** A counter that is never swept, after requests at these times. */
  function Spent(times: seq<int>, budget: nat, window: int): Option<Window> {
    if |times| == 0 then None
    else Some(Spend(Spent(times[..|times| - 1], budget, window), budget, window, times[|times| - 1]).0)
  }

  /** How many of them, between two moments, it admitted. */
  function Admitted(times: seq<int>, budget: nat, window: int, from: int, to: int): nat {
    if |times| == 0 then 0 else
    var before, now := times[..|times| - 1], times[|times| - 1];
    Admitted(before, budget, window, from, to)
    + if from <= now < to && Spend(Spent(before, budget, window), budget, window, now).1 then 1 else 0
  }

  /** Windows of one counter do not overlap, so an interval of that length meets two. */
  lemma {:induction false} TwoBudgets(times: seq<int>, budget: nat, window: int, from: int, upto: int)
    requires window > 0 && InTime(times, upto)
    ensures |times| > 0 && times[|times| - 1] < from ==> Admitted(times, budget, window, from, from + window) == 0
    ensures Admitted(times, budget, window, from, from + window) <= 2 * budget
    ensures match Spent(times, budget, window)
      case None => Admitted(times, budget, window, from, from + window) == 0
      case Some(w) =>
        && w.count <= budget && w.start <= times[|times| - 1]
        && (w.start < from ==> Admitted(times, budget, window, from, from + window) <= w.count)
        && (w.start < from + window ==> Admitted(times, budget, window, from, from + window) <= budget + w.count)
  {
    if |times| > 0 {
      TwoBudgets(times[..|times| - 1], budget, window, from, upto);
    }
  }

  // ---- the table ----

  datatype State = State(hits: map<string, Window>, spill: Option<Window>,
                         lastSweep: Option<int>, lastFull: Option<int>)

  /** What a request was counted in. */
  datatype Route = Own | Shared | Uncounted

  datatype Answer = Answer(state: State, ok: bool, route: Route, logged: bool)

  function Live(hits: map<string, Window>, window: int, now: int): map<string, Window> {
    map k | k in hits && now - hits[k].start < window :: hits[k]
  }

  /** sweep: at most once a second. */
  function Swept(c: Config, s: State, now: int): State {
    if s.lastSweep.Some? && now - s.lastSweep.value < SECOND then s
    else s.(hits := Live(s.hits, c.window, now), lastSweep := Some(now))
  }

  /** A new address and a table that stays full: one shared counter, or no counting at all. */
  function Overflowed(c: Config, s: State, now: int): Answer {
    var logged := s.lastFull.None? || now - s.lastFull.value >= c.window;
    var s1 := if logged then s.(lastFull := Some(now)) else s;
    if c.overflow == 0 then Answer(s1, true, Uncounted, logged)
    else
      var (w, ok) := Spend(s1.spill, c.overflow, c.window, now);
      Answer(s1.(spill := Some(w)), ok, Shared, logged)
  }

  /** allow. */
  function Allowed(c: Config, s: State, key: string, now: int): Answer {
    if key in s.hits then
      var (w, ok) := Spend(Some(s.hits[key]), c.limit, c.window, now);
      Answer(s.(hits := s.hits[key := w]), ok, Own, false)
    else
      var s1 := if |s.hits| >= c.max then Swept(c, s, now) else s;
      if |s1.hits| < c.max then
        var (w, ok) := Spend(None, c.limit, c.window, now);
        Answer(s1.(hits := s1.hits[key := w]), ok, Own, false)
      else Overflowed(c, s1, now)
  }

  class Limiter {
    const config: Config
    var hits: map<string, Window>
    var spill: Option<Window>
    var lastSweep: Option<int>
    var lastFull: Option<int>

    function Contents(): State
      reads this
    {
      State(hits, spill, lastSweep, lastFull)
    }

    constructor (config: Config)
      ensures this.config == config && Contents() == State(map[], None, None, None)
    {
      this.config := config;
      hits, spill, lastSweep, lastFull := map[], None, None, None;
    }

    method Allow(key: string, now: int) returns (ok: bool, logged: bool)
      modifies this
      ensures var r := Allowed(config, old(Contents()), key, now);
        Contents() == r.state && ok == r.ok && logged == r.logged
    {
      if key !in hits {
        if |hits| >= config.max {
          Sweep(now);
        }
        if |hits| >= config.max {
          ok, logged := Overflow(now);
          return;
        }
        hits := hits[key := Window(now, 0)];
      } else if now - hits[key].start >= config.window {
        hits := hits[key := Window(now, 0)];
      }
      if hits[key].count >= config.limit {
        return false, false;
      }
      hits := hits[key := hits[key].(count := hits[key].count + 1)];
      return true, false;
    }

    /** allow's branch for a new address that finds the table full of live counters. */
    method Overflow(now: int) returns (ok: bool, logged: bool)
      modifies this`spill, this`lastFull
      ensures var r := Overflowed(config, old(Contents()), now);
        Contents() == r.state && ok == r.ok && logged == r.logged
    {
      logged := lastFull.None? || now - lastFull.value >= config.window;
      if logged {
        lastFull := Some(now);
      }
      if config.overflow == 0 {
        return true, logged;
      }
      if spill.None? || now - spill.value.start >= config.window {
        spill := Some(Window(now, 0));
      }
      if spill.value.count >= config.overflow {
        return false, logged;
      }
      spill := Some(spill.value.(count := spill.value.count + 1));
      return true, logged;
    }

    method Sweep(now: int)
      modifies this`hits, this`lastSweep
      ensures Contents() == Swept(config, old(Contents()), now)
    {
      if lastSweep.Some? && now - lastSweep.value < SECOND {
        return;
      }
      lastSweep := Some(now);
      ghost var was := hits;
      var todo := hits.Keys;
      while todo != {}
        invariant todo <= was.Keys && lastSweep == Some(now)
        invariant forall k :: k in hits ==> k in was && hits[k] == was[k]
        invariant forall k :: k in was && now - was[k].start < config.window ==> k in hits
        invariant forall k :: k in hits && k !in todo ==> now - hits[k].start < config.window
        decreases todo
      {
        var k :| k in todo;
        if k in hits && now - hits[k].start >= config.window {
          hits := hits - {k};
        }
        todo := todo - {k};
      }
      assert hits == Live(was, config.window, now);
    }
  }

  // ---- runs ----

  datatype Request = Request(key: string, now: int)

  predicate Ordered(log: seq<Request>) {
    forall i, j :: 0 <= i < j < |log| ==> log[i].now <= log[j].now
  }

  function After(c: Config, log: seq<Request>): State
    decreases |log|, 1
  {
    if |log| == 0 then State(map[], None, None, None) else Last(c, log).state
  }

  /** The answer to the last request of a log. */
  function Last(c: Config, log: seq<Request>): Answer
    requires |log| > 0
    decreases |log|, 0
  {
    var r := log[|log| - 1];
    Allowed(c, After(c, log[..|log| - 1]), r.key, r.now)
  }

  /** The times of a key's requests that its own counter took; and of the shared counter's. */
  function OwnTimes(c: Config, log: seq<Request>, key: string): seq<int> {
    if |log| == 0 then [] else
    OwnTimes(c, log[..|log| - 1], key)
    + if Last(c, log).route.Own? && log[|log| - 1].key == key then [log[|log| - 1].now] else []
  }

  function SharedTimes(c: Config, log: seq<Request>): seq<int> {
    if |log| == 0 then [] else
    SharedTimes(c, log[..|log| - 1]) + if Last(c, log).route.Shared? then [log[|log| - 1].now] else []
  }

  /** The table agrees with counters that are never swept: what it lacks has run out. */
  predicate Agrees(s: State, key: string, w: Option<Window>, window: int, now: int) {
    if key in s.hits then w == Some(s.hits[key])
    else w.None? || now - w.value.start >= window
  }

  lemma SpentAppend(times: seq<int>, now: int, budget: nat, window: int)
    ensures Spent(times + [now], budget, window) == Some(Spend(Spent(times, budget, window), budget, window, now).0)
  {
    assert (times + [now])[..|times|] == times;
  }

  /** One request, as the unswept counter of any key sees it. */
  lemma AllowedAgrees(c: Config, s: State, r: Request, key: string, w: Option<Window>, was: int)
    requires Agrees(s, key, w, c.window, was) && was <= r.now
    ensures var a := Allowed(c, s, r.key, r.now);
      if a.route.Own? && r.key == key then
        a.ok == Spend(w, c.limit, c.window, r.now).1
        && Agrees(a.state, key, Some(Spend(w, c.limit, c.window, r.now).0), c.window, r.now)
      else Agrees(a.state, key, w, c.window, r.now)
  {}

  lemma {:induction false} TableAgrees(c: Config, log: seq<Request>, key: string, now: int)
    requires Ordered(log) && (|log| > 0 ==> log[|log| - 1].now <= now)
    ensures Agrees(After(c, log), key, Spent(OwnTimes(c, log, key), c.limit, c.window), c.window, now)
  {
    if |log| > 0 {
      var before, r := log[..|log| - 1], log[|log| - 1];
      TableAgrees(c, before, key, r.now);
      AllowedAgrees(c, After(c, before), r, key, Spent(OwnTimes(c, before, key), c.limit, c.window), r.now);
      if Last(c, log).route.Own? && r.key == key {
        SpentAppend(OwnTimes(c, before, key), r.now, c.limit, c.window);
      } else {
        assert OwnTimes(c, log, key) == OwnTimes(c, before, key);
      }
    }
  }

  /** One request, as the shared counter sees it. */
  lemma AllowedShared(c: Config, s: State, r: Request)
    ensures var a := Allowed(c, s, r.key, r.now);
      if a.route.Shared? then
        a.ok == Spend(s.spill, c.overflow, c.window, r.now).1
        && a.state.spill == Some(Spend(s.spill, c.overflow, c.window, r.now).0)
      else a.state.spill == s.spill
  {}

  lemma {:induction false} SharedAgrees(c: Config, log: seq<Request>)
    ensures After(c, log).spill == Spent(SharedTimes(c, log), c.overflow, c.window)
  {
    if |log| > 0 {
      var before, r := log[..|log| - 1], log[|log| - 1];
      SharedAgrees(c, before);
      AllowedShared(c, After(c, before), r);
      if Last(c, log).route.Shared? {
        SpentAppend(SharedTimes(c, before), r.now, c.overflow, c.window);
      } else {
        assert SharedTimes(c, log) == SharedTimes(c, before);
      }
    }
  }

  /** The table answers as counters that are never swept would: a request that is counted
      under its own key gets that key's answer, one that overflows the shared counter's. */
  lemma {:induction false} RefinesUnswept(c: Config, log: seq<Request>)
    requires Ordered(log) && |log| > 0
    ensures var before, r := log[..|log| - 1], log[|log| - 1];
      && (Last(c, log).route.Own? ==>
            Last(c, log).ok == Spend(Spent(OwnTimes(c, before, r.key), c.limit, c.window), c.limit, c.window, r.now).1)
      && (Last(c, log).route.Shared? ==>
            Last(c, log).ok ==
            Spend(Spent(SharedTimes(c, before), c.overflow, c.window), c.overflow, c.window, r.now).1)
      && (Last(c, log).route.Uncounted? ==> Last(c, log).ok && c.overflow == 0)
  {
    var before, r := log[..|log| - 1], log[|log| - 1];
    TableAgrees(c, before, r.key, r.now);
    SharedAgrees(c, before);
    AllowedAgrees(c, After(c, before), r, r.key, Spent(OwnTimes(c, before, r.key), c.limit, c.window), r.now);
  }

  /** The times of all requests with a key. */
  function TimesOf(log: seq<Request>, key: string): seq<int> {
    if |log| == 0 then [] else
    TimesOf(log[..|log| - 1], key) + if log[|log| - 1].key == key then [log[|log| - 1].now] else []
  }

  /** No request found the table full. */
  predicate NeverFull(c: Config, log: seq<Request>) {
    |log| == 0 || (Last(c, log).route.Own? && NeverFull(c, log[..|log| - 1]))
  }

  lemma {:induction false} AllOwn(c: Config, log: seq<Request>, key: string)
    requires NeverFull(c, log)
    ensures OwnTimes(c, log, key) == TimesOf(log, key)
  {
    if |log| > 0 {
      AllOwn(c, log[..|log| - 1], key);
    }
  }

  /** While the table is never found full, the limiter is the plain one: every address has
      a fixed-window counter of its own that nothing ever sweeps. */
  lemma {:induction false} PlainLimiter(c: Config, log: seq<Request>)
    requires Ordered(log) && |log| > 0 && NeverFull(c, log)
    ensures var r := log[|log| - 1];
      Last(c, log).ok == Spend(Spent(TimesOf(log[..|log| - 1], r.key), c.limit, c.window), c.limit, c.window, r.now).1
  {
    AllOwn(c, log[..|log| - 1], log[|log| - 1].key);
    RefinesUnswept(c, log);
  }

  // ---- what it is for ----

  /** How many requests between two moments the limiter let through on one route. */
  function Passed(c: Config, log: seq<Request>, key: Option<string>, from: int, to: int): nat {
    if |log| == 0 then 0 else
    var r, a := log[|log| - 1], Last(c, log);
    Passed(c, log[..|log| - 1], key, from, to)
    + if from <= r.now < to && a.ok && (if key.Some? then a.route.Own? && r.key == key.value else a.route.Shared?)
      then 1 else 0
  }

  lemma AdmittedAppend(times: seq<int>, now: int, budget: nat, window: int, from: int, to: int)
    ensures Admitted(times + [now], budget, window, from, to) ==
      Admitted(times, budget, window, from, to)
      + if from <= now < to && Spend(Spent(times, budget, window), budget, window, now).1 then 1 else 0
  {
    assert (times + [now])[..|times|] == times;
  }

  lemma {:induction false} PassedOwn(c: Config, log: seq<Request>, key: string, from: int, to: int)
    requires Ordered(log)
    ensures Passed(c, log, Some(key), from, to) == Admitted(OwnTimes(c, log, key), c.limit, c.window, from, to)
  {
    if |log| > 0 {
      var before, r := log[..|log| - 1], log[|log| - 1];
      PassedOwn(c, before, key, from, to);
      RefinesUnswept(c, log);
      AdmittedAppend(OwnTimes(c, before, key), r.now, c.limit, c.window, from, to);
      assert OwnTimes(c, before, key) + [] == OwnTimes(c, before, key);
    }
  }

  lemma {:induction false} PassedShared(c: Config, log: seq<Request>, from: int, to: int)
    requires Ordered(log)
    ensures Passed(c, log, None, from, to) == Admitted(SharedTimes(c, log), c.overflow, c.window, from, to)
  {
    if |log| > 0 {
      var before, r := log[..|log| - 1], log[|log| - 1];
      PassedShared(c, before, from, to);
      RefinesUnswept(c, log);
      AdmittedAppend(SharedTimes(c, before), r.now, c.overflow, c.window, from, to);
      assert SharedTimes(c, before) + [] == SharedTimes(c, before);
    }
  }

  lemma {:induction false} OwnInOrder(c: Config, log: seq<Request>, key: string, upto: int)
    requires Ordered(log) && (|log| > 0 ==> log[|log| - 1].now <= upto)
    ensures InTime(OwnTimes(c, log, key), upto)
  {
    if |log| > 0 {
      OwnInOrder(c, log[..|log| - 1], key, log[|log| - 1].now);
    }
  }

  lemma {:induction false} SharedInOrder(c: Config, log: seq<Request>, upto: int)
    requires Ordered(log) && (|log| > 0 ==> log[|log| - 1].now <= upto)
    ensures InTime(SharedTimes(c, log), upto)
  {
    if |log| > 0 {
      SharedInOrder(c, log[..|log| - 1], log[|log| - 1].now);
    }
  }

  /** An ordered run of one counter, whatever route led to it. */
  lemma InAnyWindow(passed: nat, times: seq<int>, budget: nat, window: int, from: int, upto: int)
    requires window > 0 && InTime(times, upto) && passed == Admitted(times, budget, window, from, from + window)
    ensures passed <= 2 * budget
  {
    TwoBudgets(times, budget, window, from, upto);
  }

  /** What passed on one route is what one unswept counter admitted of a run of times. */
  lemma {:induction false} OwnRun(c: Config, log: seq<Request>, key: string, from: int, to: int, upto: int)
    returns (times: seq<int>)
    requires Ordered(log) && (|log| > 0 ==> log[|log| - 1].now <= upto)
    ensures InTime(times, upto) && Passed(c, log, Some(key), from, to) == Admitted(times, c.limit, c.window, from, to)
  {
    times := OwnTimes(c, log, key);
    PassedOwn(c, log, key, from, to);
    OwnInOrder(c, log, key, upto);
  }

  lemma {:induction false} SharedRun(c: Config, log: seq<Request>, from: int, to: int, upto: int)
    returns (times: seq<int>)
    requires Ordered(log) && (|log| > 0 ==> log[|log| - 1].now <= upto)
    ensures InTime(times, upto) && Passed(c, log, None, from, to) == Admitted(times, c.overflow, c.window, from, to)
  {
    times := SharedTimes(c, log);
    PassedShared(c, log, from, to);
    SharedInOrder(c, log, upto);
  }

  /** In any interval as long as a window, whenever it starts, at most twice the limit pass
      on one key's counter, and at most twice the overflow on the shared one. */
  lemma {:induction false} TwiceTheBudget(c: Config, log: seq<Request>, key: string, from: int)
    requires Ordered(log) && c.window > 0
    ensures Passed(c, log, Some(key), from, from + c.window) <= 2 * c.limit
    ensures Passed(c, log, None, from, from + c.window) <= 2 * c.overflow
  {
    var to, upto := from + c.window, if |log| > 0 then log[|log| - 1].now else 0;
    var own := OwnRun(c, log, key, from, to, upto);
    var shared := SharedRun(c, log, from, to, upto);
    InAnyWindow(Passed(c, log, Some(key), from, to), own, c.limit, c.window, from, upto);
    InAnyWindow(Passed(c, log, None, from, to), shared, c.overflow, c.window, from, upto);
  }

  /** A live counter is never evicted and never runs backwards, whoever asks. */
  lemma LiveStays(c: Config, s: State, r: Request, key: string)
    requires key in s.hits && r.now - s.hits[key].start < c.window
    ensures var hits := Allowed(c, s, r.key, r.now).state.hits;
      key in hits && hits[key].start == s.hits[key].start && hits[key].count >= s.hits[key].count
      && (r.key != key ==> hits[key] == s.hits[key])
  {}

  /** What a sweep leaves was live then, and what came since is newer. */
  predicate SinceSweep(c: Config, s: State) {
    s.lastSweep.Some? ==> forall k :: k in s.hits ==> s.lastSweep.value - s.hits[k].start < c.window
  }

  lemma LiveSize(hits: map<string, Window>, window: int, now: int)
    ensures |Live(hits, window, now)| <= |hits|
  {
    assert Live(hits, window, now).Keys <= hits.Keys;
    SubsetSize(Live(hits, window, now).Keys, hits.Keys);
  }

  lemma HitsBounded(c: Config, s: State, r: Request)
    requires |s.hits| <= c.max
    ensures |Allowed(c, s, r.key, r.now).state.hits| <= c.max
  {
    LiveSize(s.hits, c.window, r.now);
    if r.key in s.hits {
      assert Allowed(c, s, r.key, r.now).state.hits.Keys == s.hits.Keys;
    }
  }

  lemma SweptSince(c: Config, s: State, r: Request)
    requires c.window > 0 && SinceSweep(c, s) && (s.lastSweep.Some? ==> s.lastSweep.value <= r.now)
    ensures var s' := Allowed(c, s, r.key, r.now).state;
      SinceSweep(c, s') && (s'.lastSweep.Some? ==> s'.lastSweep.value <= r.now)
  {}

  lemma {:induction false} TableBounded(c: Config, log: seq<Request>)
    requires Ordered(log) && c.window > 0
    ensures |After(c, log).hits| <= c.max
    ensures SinceSweep(c, After(c, log))
    ensures |log| > 0 && After(c, log).lastSweep.Some? ==> After(c, log).lastSweep.value <= log[|log| - 1].now
  {
    if |log| > 0 {
      TableBounded(c, log[..|log| - 1]);
      HitsBounded(c, After(c, log[..|log| - 1]), log[|log| - 1]);
      SweptSince(c, After(c, log[..|log| - 1]), log[|log| - 1]);
    }
  }

  /** A request overflows only when every place is taken by an address that was counted
      within the last window and a second. */
  lemma OverflowMeansFull(c: Config, log: seq<Request>, key: string)
    requires Ordered(log) && c.window > 0 && |log| > 0 && !Last(c, log).route.Own?
    ensures |After(c, log).hits| == c.max && log[|log| - 1].key !in After(c, log).hits
    ensures key in After(c, log).hits ==> log[|log| - 1].now - After(c, log).hits[key].start < c.window + SECOND
  {
    TableBounded(c, log);
  }

  // ---- nobody is refused early ----

  lemma {:induction false} AdmittedNone(times: seq<int>, budget: nat, window: int, from: int, to: int)
    requires forall i :: 0 <= i < |times| ==> times[i] < from
    ensures Admitted(times, budget, window, from, to) == 0
  {
    if |times| > 0 {
      AdmittedNone(times[..|times| - 1], budget, window, from, to);
    }
  }

  lemma {:induction false} AdmittedWider(times: seq<int>, budget: nat, window: int, from: int, from': int, to: int)
    requires from <= from'
    ensures Admitted(times, budget, window, from', to) <= Admitted(times, budget, window, from, to)
  {
    if |times| > 0 {
      AdmittedWider(times[..|times| - 1], budget, window, from, from', to);
    }
  }

  /** A counter counts exactly what it admitted in its window. */
  lemma {:induction false} CountIsAdmitted(times: seq<int>, budget: nat, window: int, upto: int)
    requires window > 0 && InTime(times, upto)
    ensures match Spent(times, budget, window)
      case None => |times| == 0
      case Some(w) =>
        && |times| > 0 && w.start <= times[|times| - 1] < w.start + window
        && w.count == Admitted(times, budget, window, w.start, upto + 1)
  {
    if |times| > 0 {
      var before, now := times[..|times| - 1], times[|times| - 1];
      CountIsAdmitted(before, budget, window, upto);
      var w := Renewed(Spent(before, budget, window), window, now);
      if w.start == now && w.count == 0 && (|before| > 0 ==> before[|before| - 1] < now) {
        AdmittedNone(before, budget, window, now, upto + 1);
      }
    }
  }

  /** A request is refused only when its counter admitted its whole budget in the window that
      ends with it. */
  lemma {:induction false} RefusedMeansSpent(times: seq<int>, budget: nat, window: int, now: int)
    requires window > 0 && InTime(times, now) && !Spend(Spent(times, budget, window), budget, window, now).1
    ensures Admitted(times, budget, window, now - window + 1, now + 1) >= budget
  {
    CountIsAdmitted(times, budget, window, now);
    if budget > 0 {
      var w := Spent(times, budget, window).value;
      AdmittedWider(times, budget, window, now - window + 1, w.start, now + 1);
    }
  }

  lemma {:induction false} OwnNotEarly(c: Config, log: seq<Request>, key: string, now: int)
    requires Ordered(log) && c.window > 0 && (|log| > 0 ==> log[|log| - 1].now <= now)
    requires !Spend(Spent(OwnTimes(c, log, key), c.limit, c.window), c.limit, c.window, now).1
    ensures Passed(c, log, Some(key), now - c.window + 1, now + 1) >= c.limit
  {
    var times, from, to := OwnTimes(c, log, key), now - c.window + 1, now + 1;
    OwnInOrder(c, log, key, now);
    RefusedMeansSpent(times, c.limit, c.window, now);
    PassedOwn(c, log, key, from, to);
  }

  lemma {:induction false} SharedNotEarly(c: Config, log: seq<Request>, now: int)
    requires Ordered(log) && c.window > 0 && (|log| > 0 ==> log[|log| - 1].now <= now)
    requires !Spend(Spent(SharedTimes(c, log), c.overflow, c.window), c.overflow, c.window, now).1
    ensures Passed(c, log, None, now - c.window + 1, now + 1) >= c.overflow
  {
    var times, from, to := SharedTimes(c, log), now - c.window + 1, now + 1;
    SharedInOrder(c, log, now);
    RefusedMeansSpent(times, c.overflow, c.window, now);
    PassedShared(c, log, from, to);
  }

  /** So an address is refused on its own counter only when that let its whole limit through in
      the window that ends now, and on the shared one only when that let the overflow through. */
  lemma {:induction false} NotRefusedEarly(c: Config, log: seq<Request>)
    requires Ordered(log) && c.window > 0 && |log| > 0 && !Last(c, log).ok
    ensures var before, r := log[..|log| - 1], log[|log| - 1];
      match Last(c, log).route
      case Own => Passed(c, before, Some(r.key), r.now - c.window + 1, r.now + 1) >= c.limit
      case Shared => Passed(c, before, None, r.now - c.window + 1, r.now + 1) >= c.overflow
      case Uncounted => false
  {
    var before, r := log[..|log| - 1], log[|log| - 1];
    RefinesUnswept(c, log);
    match Last(c, log).route
    case Own => OwnNotEarly(c, before, r.key, r.now);
    case Shared => SharedNotEarly(c, before, r.now);
    case Uncounted =>
  }

  // ---- the log ----

  function LoggedTimes(c: Config, log: seq<Request>): seq<int> {
    if |log| == 0 then [] else
    LoggedTimes(c, log[..|log| - 1]) + if Last(c, log).logged then [log[|log| - 1].now] else []
  }

  /** Overflowing is logged, and no more than once in a window. */
  lemma {:induction false} LoggedOnce(c: Config, log: seq<Request>)
    requires c.window > 0
    ensures var times := LoggedTimes(c, log);
      && After(c, log).lastFull == (if |times| == 0 then None else Some(times[|times| - 1]))
      && (forall i, j :: 0 <= i < j < |times| ==> times[j] - times[i] >= c.window)
    ensures |log| > 0 && !Last(c, log).route.Own? ==>
      var times := LoggedTimes(c, log); |times| > 0 && log[|log| - 1].now - times[|times| - 1] < c.window
  {
    if |log| > 0 {
      LoggedOnce(c, log[..|log| - 1]);
      LogsWhenDue(c, After(c, log[..|log| - 1]), log[|log| - 1]);
    }
  }

  lemma LogsWhenDue(c: Config, s: State, r: Request)
    ensures var a := Allowed(c, s, r.key, r.now);
      && a.state.lastFull == (if a.logged then Some(r.now) else s.lastFull)
      && (a.logged ==> s.lastFull.None? || r.now - s.lastFull.value >= c.window)
      && (!a.route.Own? && !a.logged ==> s.lastFull.Some? && r.now - s.lastFull.value < c.window)
  {}
}
