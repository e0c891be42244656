/** Login attempts per client address (a hard gate) and failures per account (a soft
    delay), in one table whose live entries nobody else can evict. */
module LoginLimiter {
  import opened Tables

  const WINDOW := 15 * 60 * SECOND
  const BLOCK := 15 * 60 * SECOND
  const FULL_SWEEP_GAP := SECOND
  const SWEEP_EVERY := 256

  const MAX_FAILS := 5
  const UNKNOWN_MAX_FAILS := 50
  const UNKNOWN := "unknown"

  /** "ip:" and "user:" keys. */
  datatype Key = Address(name: string) | User(name: string)

  /** The attempts of an address; all that arrive without one share a budget. */
  function Budget(address: string): nat {
    if address == UNKNOWN then UNKNOWN_MAX_FAILS else MAX_FAILS
  }

  datatype Fails = Fails(count: nat, first: int, blockedUntil: Option<int>)

  predicate Blocked(f: Fails, now: int) {
    f.blockedUntil.Some? && now < f.blockedUntil.value
  }

  /** An entry that no longer counts for anything. */
  predicate Expired(f: Fails, now: int) {
    !Blocked(f, now) && (f.count == 0 || now - f.first > WINDOW)
  }

  // ---- one counter ----

  /** An attempt, counted in an entry that nobody sweeps. */
  function Attempt(f: Option<Fails>, budget: nat, now: int): (Fails, bool) {
    if f.None? || Expired(f.value, now) then (Fails(1, now, None), true)
    else if Blocked(f.value, now) then (f.value, false)
    else if f.value.count >= budget then (Fails(0, now, Some(now + BLOCK)), false)
    else (f.value.(count := f.value.count + 1), true)
  }

  function Attempted(times: seq<int>, budget: nat): Option<Fails> {
    if |times| == 0 then None
    else Some(Attempt(Attempted(times[..|times| - 1], budget), budget, times[|times| - 1]).0)
  }

  /** How many attempts, between two moments (both included), were granted. */
  function Granted(times: seq<int>, budget: nat, from: int, to: int): nat {
    if |times| == 0 then 0 else
    var before, now := times[..|times| - 1], times[|times| - 1];
    Granted(before, budget, from, to)
    + if from <= now <= to && Attempt(Attempted(before, budget), budget, now).1 then 1 else 0
  }

  /** What an entry last used at a moment says about the g attempts granted since from. */
  predicate Accounts(f: Fails, last: int, budget: nat, from: int, g: nat) {
    && f.first <= last && f.count <= budget && g <= 2 * budget
    && (last < from ==> g == 0)
    && match f.blockedUntil
       case None =>
         && f.count > 0 && last <= f.first + WINDOW
         && (f.first <= from ==> g <= f.count)
         && (f.first <= from + WINDOW ==> g <= budget + f.count)
       case Some(b) =>
         && b == f.first + BLOCK && f.count == 0 && last < b
         && (f.first < from ==> g == 0)
         && (f.first == from ==> g <= budget)
  }

  lemma AttemptAccounts(f: Option<Fails>, last: int, budget: nat, now: int, from: int, g: nat)
    requires budget > 0 && last <= now
    requires if f.None? then g == 0 else Accounts(f.value, last, budget, from, g)
    ensures var (f', ok) := Attempt(f, budget, now);
      Accounts(f', now, budget, from, g + if from <= now <= from + WINDOW && ok then 1 else 0)
  {}

  lemma {:induction false} TwoBudgets(times: seq<int>, budget: nat, from: int, upto: int)
    requires budget > 0 && InTime(times, upto)
    ensures if |times| == 0 then Attempted(times, budget).None? && Granted(times, budget, from, from + WINDOW) == 0
      else Accounts(Attempted(times, budget).value, times[|times| - 1], budget, from,
                    Granted(times, budget, from, from + WINDOW))
  {
    if |times| > 0 {
      var before := times[..|times| - 1];
      TwoBudgets(before, budget, from, upto);
      var now := times[|times| - 1];
      var last := if |before| > 0 then before[|before| - 1] else now;
      AttemptAccounts(Attempted(before, budget), last, budget, now, from, Granted(before, budget, from, from + WINDOW));
    }
  }

  // ---- the table ----

  datatype State = State(fails: map<Key, Fails>, calls: nat, lastFullSweep: Option<int>)

  /** own tells that the attempt was counted in its key's entry, not refused for want of room. */
  datatype Answer = Answer(state: State, ok: bool, own: bool)

  function Live(fails: map<Key, Fails>, now: int): map<Key, Fails> {
    map k | k in fails && !Expired(fails[k], now) :: fails[k]
  }

  /** reserveMax, up to the lookup of the key's own live entry. */
  function Counted(s: State, key: Key, now: int): State {
    var s1 := s.(calls := s.calls + 1,
                 fails := if (s.calls + 1) % SWEEP_EVERY == 0 then Live(s.fails, now) else s.fails);
    if key in s1.fails && Expired(s1.fails[key], now) then s1.(fails := s1.fails - {key}) else s1
  }

  function WithRoom(capacity: nat, s: State, now: int): State {
    if |s.fails| >= capacity && (s.lastFullSweep.None? || now - s.lastFullSweep.value >= FULL_SWEEP_GAP) then
      s.(lastFullSweep := Some(now), fails := Live(s.fails, now))
    else s
  }

  function Reserved(capacity: nat, s: State, key: Key, budget: nat, now: int): Answer {
    var s1 := Counted(s, key, now);
    if key !in s1.fails then
      var s2 := WithRoom(capacity, s1, now);
      if |s2.fails| >= capacity then Answer(s2, false, false)
      else Answer(s2.(fails := s2.fails[key := Fails(1, now, None)]), true, true)
    else
      var (f, ok) := Attempt(Some(s1.fails[key]), budget, now);
      Answer(s1.(fails := s1.fails[key := f]), ok, true)
  }

  function Released(s: State, key: Key, now: int): State {
    if key !in s.fails then s else
    var f := s.fails[key].(count := if s.fails[key].count > 0 then s.fails[key].count - 1 else 0);
    if Expired(f, now) then s.(fails := s.fails - {key}) else s.(fails := s.fails[key := f])
  }

  function Failed(s: State, key: Key, now: int): State {
    var f := if key in s.fails && !Expired(s.fails[key], now) then s.fails[key] else Fails(0, now, None);
    s.(fails := s.fails[key := f.(count := f.count + 1)])
  }

  class Limiter {
    const capacity: nat
    var fails: map<Key, Fails>
    var calls: nat
    var lastFullSweep: Option<int>

    function Contents(): State
      reads this
    {
      State(fails, calls, lastFullSweep)
    }

    constructor (capacity: nat)
      ensures this.capacity == capacity && Contents() == State(map[], 0, None)
    {
      this.capacity := capacity;
      fails, calls, lastFullSweep := map[], 0, None;
    }

    method Sweep(now: int)
      modifies this`fails
      ensures fails == Live(old(fails), now)
    {
      ghost var was := fails;
      var todo := fails.Keys;
      while todo != {}
        invariant todo <= was.Keys
        invariant forall k :: k in fails ==> k in was && fails[k] == was[k]
        invariant forall k :: k in was && !Expired(was[k], now) ==> k in fails
        invariant forall k :: k in fails && k !in todo ==> !Expired(fails[k], now)
        decreases todo
      {
        var k :| k in todo;
        if k in fails && Expired(fails[k], now) {
          fails := fails - {k};
        }
        todo := todo - {k};
      }
      assert fails == Live(was, now);
    }

    /** The first part of reserveMax: the regular sweep, and the key's own expired entry. */
    method Count(key: Key, now: int)
      modifies this`fails, this`calls
      ensures Contents() == Counted(old(Contents()), key, now)
    {
      calls := calls + 1;
      if calls % SWEEP_EVERY == 0 {
        Sweep(now);
      }
      if key in fails && Expired(fails[key], now) {
        fails := fails - {key};
      }
    }

    method MakeRoom(now: int)
      modifies this`fails, this`lastFullSweep
      ensures Contents() == WithRoom(capacity, old(Contents()), now)
    {
      if |fails| >= capacity && (lastFullSweep.None? || now - lastFullSweep.value >= FULL_SWEEP_GAP) {
        lastFullSweep := Some(now);
        Sweep(now);
      }
    }

    method ReserveMax(key: Key, budget: nat, now: int) returns (ok: bool)
      modifies this
      ensures var r := Reserved(capacity, old(Contents()), key, budget, now); Contents() == r.state && ok == r.ok
    {
      Count(key, now);
      if key !in fails {
        MakeRoom(now);
        if |fails| >= capacity {
          return false;
        }
        fails := fails[key := Fails(1, now, None)];
        return true;
      }
      if Blocked(fails[key], now) {
        return false;
      }
      if fails[key].count >= budget {
        fails := fails[key := Fails(0, now, Some(now + BLOCK))];
        return false;
      }
      fails := fails[key := fails[key].(count := fails[key].count + 1)];
      return true;
    }

    method Release(key: Key, now: int)
      modifies this`fails
      ensures Contents() == Released(old(Contents()), key, now)
    {
      if key !in fails {
        return;
      }
      if fails[key].count > 0 {
        fails := fails[key := fails[key].(count := fails[key].count - 1)];
      }
      if Expired(fails[key], now) {
        fails := fails - {key};
      }
    }

    method Fail(key: Key, now: int)
      modifies this`fails
      ensures Contents() == Failed(old(Contents()), key, now)
    {
      if key !in fails || Expired(fails[key], now) {
        fails := fails[key := Fails(0, now, None)];
      }
      fails := fails[key := fails[key].(count := fails[key].count + 1)];
    }

    method Clear(keys: seq<Key>)
      modifies this`fails
      ensures fails == old(fails) - set k | k in keys
    {
      for i := 0 to |keys|
        invariant fails == old(fails) - set k | k in keys[..i]
      {
        fails := fails - {keys[i]};
        assert keys[..i + 1] == keys[..i] + [keys[i]];
      }
      assert keys[..|keys|] == keys;
    }
  }

  // ---- runs ----

  /** The calls the login form makes: only addresses are reserved, only accounts fail. */
  datatype Call = Reserve(address: string) | Release(address: string) | Fail(user: string) | Clear(keys: set<Key>)

  datatype Event = Event(call: Call, now: int)

  predicate Ordered(log: seq<Event>) {
    forall i, j :: 0 <= i < j < |log| ==> log[i].now <= log[j].now
  }

  function Step(capacity: nat, s: State, e: Event): Answer {
    match e.call
    case Reserve(a) => Reserved(capacity, s, Address(a), Budget(a), e.now)
    case Release(a) => Answer(Released(s, Address(a), e.now), false, false)
    case Fail(u) => Answer(Failed(s, User(u), e.now), false, false)
    case Clear(keys) => Answer(s.(fails := s.fails - keys), false, false)
  }

  function After(capacity: nat, s: State, log: seq<Event>): State
    decreases |log|, 1
  {
    if |log| == 0 then s else Last(capacity, s, log).state
  }

  /** The answer to the last call of a log. */
  function Last(capacity: nat, s: State, log: seq<Event>): Answer
    requires |log| > 0
    decreases |log|, 0
  {
    Step(capacity, After(capacity, s, log[..|log| - 1]), log[|log| - 1])
  }

  function Unused(): State {
    State(map[], 0, None)
  }

  /** Nobody hands this address's attempts back. */
  predicate Uncleared(e: Event, address: string) {
    e.call != Release(address) && (e.call.Clear? ==> Address(address) !in e.call.keys)
  }

  /** The times of an address's attempts that its own entry counted. */
  function OwnTimes(capacity: nat, log: seq<Event>, address: string): seq<int> {
    if |log| == 0 then [] else
    OwnTimes(capacity, log[..|log| - 1], address)
    + if log[|log| - 1].call == Reserve(address) && Last(capacity, Unused(), log).own then [log[|log| - 1].now] else []
  }

  /** How many of an address's attempts between two moments were let through. */
  function Passed(capacity: nat, log: seq<Event>, address: string, from: int, to: int): nat {
    if |log| == 0 then 0 else
    Passed(capacity, log[..|log| - 1], address, from, to)
    + if from <= log[|log| - 1].now <= to && log[|log| - 1].call == Reserve(address) && Last(capacity, Unused(), log).ok
      then 1 else 0
  }

  /** The table agrees with an entry that is never swept: what it lacks has expired. */
  predicate Agrees(s: State, key: Key, f: Option<Fails>, now: int) {
    if key in s.fails then f == Some(s.fails[key]) else f.None? || Expired(f.value, now)
  }

  /** Sweeping takes nothing away that an unswept entry would still count. */
  lemma SweepAgrees(capacity: nat, s: State, other: Key, key: Key, f: Option<Fails>, now: int)
    requires Agrees(s, key, f, now)
    ensures Agrees(Counted(s, other, now), key, f, now) && Agrees(WithRoom(capacity, s, now), key, f, now)
  {}

  lemma ReserveAgrees(capacity: nat, s: State, asking: Key, budget: nat, now: int, key: Key, f: Option<Fails>)
    requires Agrees(s, key, f, now)
    ensures var r := Reserved(capacity, s, asking, budget, now);
      if asking == key && r.own then
        r.ok == Attempt(f, budget, now).1 && Agrees(r.state, key, Some(Attempt(f, budget, now).0), now)
      else Agrees(r.state, key, f, now) && (asking == key ==> !r.ok)
  {
    SweepAgrees(capacity, s, asking, key, f, now);
    SweepAgrees(capacity, Counted(s, asking, now), asking, key, f, now);
  }

  lemma AgreesLater(s: State, key: Key, f: Option<Fails>, was: int, now: int)
    requires Agrees(s, key, f, was) && was <= now
    ensures Agrees(s, key, f, now)
  {}

  lemma StepAgrees(capacity: nat, s: State, e: Event, a: string, f: Option<Fails>, was: int)
    requires Agrees(s, Address(a), f, was) && was <= e.now && Uncleared(e, a)
    ensures var r := Step(capacity, s, e);
      if e.call == Reserve(a) && r.own then
        && r.ok == Attempt(f, Budget(a), e.now).1
        && Agrees(r.state, Address(a), Some(Attempt(f, Budget(a), e.now).0), e.now)
      else Agrees(r.state, Address(a), f, e.now) && (e.call == Reserve(a) ==> !r.ok)
  {
    AgreesLater(s, Address(a), f, was, e.now);
    if e.call.Reserve? {
      ReserveAgrees(capacity, s, Address(e.call.address), Budget(e.call.address), e.now, Address(a), f);
    }
  }

  lemma AttemptedAppend(times: seq<int>, now: int, budget: nat, from: int, to: int)
    ensures Attempted(times + [now], budget) == Some(Attempt(Attempted(times, budget), budget, now).0)
    ensures Granted(times + [now], budget, from, to) ==
      Granted(times, budget, from, to)
      + if from <= now <= to && Attempt(Attempted(times, budget), budget, now).1 then 1 else 0
  {
    assert (times + [now])[..|times|] == times;
  }

  lemma {:induction false} LastAgrees(capacity: nat, log: seq<Event>, a: string)
    requires |log| > 0 && Uncleared(log[|log| - 1], a)
    requires var before := log[..|log| - 1];
      Agrees(After(capacity, Unused(), before), Address(a), Attempted(OwnTimes(capacity, before, a), Budget(a)),
             log[|log| - 1].now)
    ensures Agrees(After(capacity, Unused(), log), Address(a), Attempted(OwnTimes(capacity, log, a), Budget(a)),
                   log[|log| - 1].now)
  {
    var before, e := log[..|log| - 1], log[|log| - 1];
    var times := OwnTimes(capacity, before, a);
    StepAgrees(capacity, After(capacity, Unused(), before), e, a, Attempted(times, Budget(a)), e.now);
    if e.call == Reserve(a) && Last(capacity, Unused(), log).own {
      AttemptedAppend(times, e.now, Budget(a), 0, 0);
    } else {
      assert OwnTimes(capacity, log, a) == times;
    }
  }

  lemma {:induction false} TableAgrees(capacity: nat, log: seq<Event>, a: string, now: int)
    requires Ordered(log) && (|log| > 0 ==> log[|log| - 1].now <= now)
    requires forall e :: e in log ==> Uncleared(e, a)
    ensures Agrees(After(capacity, Unused(), log), Address(a), Attempted(OwnTimes(capacity, log, a), Budget(a)), now)
  {
    if |log| > 0 {
      var e := log[|log| - 1];
      assert e in log;
      TableAgrees(capacity, log[..|log| - 1], a, e.now);
      LastAgrees(capacity, log, a);
      var f := Attempted(OwnTimes(capacity, log, a), Budget(a));
      AgreesLater(After(capacity, Unused(), log), Address(a), f, e.now, now);
    }
  }

  lemma {:induction false} TimesInOrder(capacity: nat, log: seq<Event>, a: string, now: int)
    requires Ordered(log) && (|log| > 0 ==> log[|log| - 1].now <= now)
    ensures InTime(OwnTimes(capacity, log, a), now)
  {
    if |log| > 0 {
      TimesInOrder(capacity, log[..|log| - 1], a, log[|log| - 1].now);
    }
  }

  /** The table answers as one unswept entry per address would: an attempt is let through
      exactly when that entry grants it and there was room to count it. */
  lemma RefinesUnswept(capacity: nat, log: seq<Event>, a: string)
    requires Ordered(log) && |log| > 0 && log[|log| - 1].call == Reserve(a)
    requires forall e :: e in log ==> Uncleared(e, a)
    ensures var before, now := log[..|log| - 1], log[|log| - 1].now;
      Last(capacity, Unused(), log).ok <==>
        && Last(capacity, Unused(), log).own
        && Attempt(Attempted(OwnTimes(capacity, before, a), Budget(a)), Budget(a), now).1
  {
    var before, e := log[..|log| - 1], log[|log| - 1];
    TableAgrees(capacity, before, a, e.now);
    var f := Attempted(OwnTimes(capacity, before, a), Budget(a));
    StepAgrees(capacity, After(capacity, Unused(), before), e, a, f, e.now);
  }

  lemma {:induction false} PassedGranted(capacity: nat, log: seq<Event>, a: string, from: int, to: int)
    requires Ordered(log) && forall e :: e in log ==> Uncleared(e, a)
    ensures Passed(capacity, log, a, from, to) == Granted(OwnTimes(capacity, log, a), Budget(a), from, to)
  {
    if |log| > 0 {
      var before, e := log[..|log| - 1], log[|log| - 1];
      var times := OwnTimes(capacity, before, a);
      PassedGranted(capacity, before, a, from, to);
      if e.call == Reserve(a) {
        RefinesUnswept(capacity, log, a);
        AttemptedAppend(times, e.now, Budget(a), from, to);
        assert times + [] == times;
      } else {
        assert OwnTimes(capacity, log, a) == times;
      }
    }
  }

  // ---- what it is for ----

  /** In any interval as long as the window, both ends included, an address that is neither
      cleared nor released gets at most twice its budget of attempts. */
  lemma {:induction false} TwiceTheBudget(capacity: nat, log: seq<Event>, a: string, from: int)
    requires Ordered(log) && forall e :: e in log ==> Uncleared(e, a)
    ensures Passed(capacity, log, a, from, from + WINDOW) <= 2 * Budget(a)
  {
    var upto := if |log| > 0 then log[|log| - 1].now else 0;
    PassedGranted(capacity, log, a, from, from + WINDOW);
    TimesInOrder(capacity, log, a, upto);
    TwoBudgets(OwnTimes(capacity, log, a), Budget(a), from, upto);
  }

  /** A step by anyone leaves a key's live entry alone, unless it is the key's own. */
  lemma LiveStays(capacity: nat, s: State, e: Event, key: Key)
    requires key in s.fails && !Expired(s.fails[key], e.now)
    requires match e.call
      case Reserve(a) => key != Address(a)
      case Release(a) => key != Address(a)
      case Fail(u) => key != User(u)
      case Clear(keys) => key !in keys
    ensures var s' := Step(capacity, s, e).state; key in s'.fails && s'.fails[key] == s.fails[key]
  {}

  /** An address whose budget ran out at a moment. */
  predicate BlockedSince(s: State, a: string, t: int) {
    Address(a) in s.fails && s.fails[Address(a)].blockedUntil == Some(t + BLOCK)
  }

  lemma ReserveStaysBlocked(capacity: nat, s: State, key: Key, budget: nat, now: int, a: string, t: int)
    requires BlockedSince(s, a, t) && now < t + BLOCK
    ensures BlockedSince(Reserved(capacity, s, key, budget, now).state, a, t)
    ensures key == Address(a) ==> !Reserved(capacity, s, key, budget, now).ok
  {}

  lemma StaysBlocked(capacity: nat, s: State, e: Event, a: string, t: int)
    requires BlockedSince(s, a, t) && e.now < t + BLOCK
    requires e.call.Clear? ==> Address(a) !in e.call.keys
    ensures BlockedSince(Step(capacity, s, e).state, a, t)
    ensures e.call == Reserve(a) ==> !Step(capacity, s, e).ok
  {
    if e.call.Reserve? {
      ReserveStaysBlocked(capacity, s, Address(e.call.address), Budget(e.call.address), e.now, a, t);
    }
  }

  lemma {:induction false} BlockLasts(capacity: nat, s: State, log: seq<Event>, a: string, t: int)
    requires BlockedSince(s, a, t)
    requires forall e :: e in log ==> e.now < t + BLOCK && (e.call.Clear? ==> Address(a) !in e.call.keys)
    ensures BlockedSince(After(capacity, s, log), a, t)
    ensures |log| > 0 && log[|log| - 1].call == Reserve(a) ==> !Last(capacity, s, log).ok
  {
    if |log| > 0 {
      assert log[|log| - 1] in log;
      BlockLasts(capacity, s, log[..|log| - 1], a, t);
      StaysBlocked(capacity, After(capacity, s, log[..|log| - 1]), log[|log| - 1], a, t);
    }
  }

  /** Once refused for a used-up budget, an address is refused for the whole block, whatever
      sweeps, releases, failures and other addresses come between. */
  lemma {:induction false} RefusedMeansBlocked(capacity: nat, s: State, a: string, t: int, log: seq<Event>)
    requires Address(a) in s.fails && !Expired(s.fails[Address(a)], t) && !Blocked(s.fails[Address(a)], t)
    requires !Reserved(capacity, s, Address(a), Budget(a), t).ok
    requires |log| > 0 && log[|log| - 1].call == Reserve(a)
    requires forall e :: e in log ==> e.now < t + BLOCK && (e.call.Clear? ==> Address(a) !in e.call.keys)
    ensures !Last(capacity, Reserved(capacity, s, Address(a), Budget(a), t).state, log).ok
  {
    BlockLasts(capacity, Reserved(capacity, s, Address(a), Budget(a), t).state, log, a, t);
  }

  function Addresses(s: State): set<Key> {
    set k | k in s.fails && k.Address?
  }

  /** Sweeping tracks no more addresses than before. */
  lemma SweptFewer(capacity: nat, s: State, key: Key, now: int)
    ensures |Addresses(Counted(s, key, now))| <= |Addresses(s)|
    ensures |Addresses(WithRoom(capacity, s, now))| <= |Addresses(s)|
  {
    SubsetSize(Addresses(Counted(s, key, now)), Addresses(s));
    SubsetSize(Addresses(WithRoom(capacity, s, now)), Addresses(s));
  }

  /** A new address enters only a table with room. */
  lemma NewFits(capacity: nat, s: State, s': State, key: Key, f: Fails)
    requires |s.fails| < capacity && s'.fails == s.fails[key := f]
    ensures |Addresses(s')| <= capacity
  {
    SubsetSize(Addresses(s), s.fails.Keys);
    SubsetSize(Addresses(s'), Addresses(s) + {key});
  }

  lemma ReserveBounded(capacity: nat, s: State, key: Key, budget: nat, now: int)
    requires |Addresses(s)| <= capacity
    ensures |Addresses(Reserved(capacity, s, key, budget, now).state)| <= capacity
  {
    var s1 := Counted(s, key, now);
    var s2, s' := WithRoom(capacity, s1, now), Reserved(capacity, s, key, budget, now).state;
    SweptFewer(capacity, s, key, now);
    SweptFewer(capacity, s1, key, now);
    if key in s1.fails {
      assert Addresses(s') == Addresses(s1);
    } else if |s2.fails| < capacity {
      NewFits(capacity, s2, s', key, Fails(1, now, None));
    }
  }

  lemma StepBounded(capacity: nat, s: State, e: Event)
    requires |Addresses(s)| <= capacity
    ensures |Addresses(Step(capacity, s, e).state)| <= capacity
  {
    if e.call.Reserve? {
      ReserveBounded(capacity, s, Address(e.call.address), Budget(e.call.address), e.now);
    } else {
      SubsetSize(Addresses(Step(capacity, s, e).state), Addresses(s));
    }
  }

  /** At most capacity addresses are tracked, however many accounts fail. */
  lemma {:induction false} TableBounded(capacity: nat, log: seq<Event>)
    ensures |Addresses(After(capacity, Unused(), log))| <= capacity
  {
    if |log| > 0 {
      TableBounded(capacity, log[..|log| - 1]);
      StepBounded(capacity, After(capacity, Unused(), log[..|log| - 1]), log[|log| - 1]);
    }
  }

  // ---- nobody is refused early ----

  lemma {:induction false} GrantedNone(times: seq<int>, budget: nat, from: int, to: int)
    requires forall i :: 0 <= i < |times| ==> times[i] < from
    ensures Granted(times, budget, from, to) == 0
  {
    if |times| > 0 {
      GrantedNone(times[..|times| - 1], budget, from, to);
    }
  }

  /** A wider interval holds no fewer, and one that reaches past the last attempt no more. */
  lemma {:induction false} GrantedWider(times: seq<int>, budget: nat, from: int, from': int, to: int, to': int)
    requires from <= from' && forall i :: 0 <= i < |times| ==> times[i] <= to && times[i] <= to'
    ensures Granted(times, budget, from', to') <= Granted(times, budget, from, to)
    ensures from == from' ==> Granted(times, budget, from', to') == Granted(times, budget, from, to)
  {
    if |times| > 0 {
      GrantedWider(times[..|times| - 1], budget, from, from', to, to');
    }
  }

  /** What an entry says of the attempts granted: it counts those of its window, or it blocks
      after a whole budget of them. */
  predicate Tells(f: Fails, last: int, times: seq<int>, budget: nat, upto: int) {
    && f.first <= last
    && match f.blockedUntil
       case None => last <= f.first + WINDOW && f.count == Granted(times, budget, f.first, upto) && f.count > 0
       case Some(b) =>
         && b == f.first + BLOCK && last < b && f.count == 0
         && Granted(times, budget, f.first - WINDOW, f.first) >= budget
  }

  /** The window or the block of an entry that has expired is over. */
  lemma ExpiredIsOver(f: Fails, last: int, times: seq<int>, budget: nat, upto: int, now: int)
    requires Tells(f, last, times, budget, upto) && Expired(f, now)
    ensures last < now
  {}

  lemma FirstTells(before: seq<int>, now: int, budget: nat, upto: int)
    requires budget > 0 && InTime(before + [now], upto) && forall i :: 0 <= i < |before| ==> before[i] < now
    requires Attempted(before, budget).None? || Expired(Attempted(before, budget).value, now)
    ensures Tells(Attempt(Attempted(before, budget), budget, now).0, now, before + [now], budget, upto)
  {
    AttemptedAppend(before, now, budget, now, upto);
    GrantedNone(before, budget, now, upto);
    assert (before + [now])[|before|] == now;
  }

  lemma BlockedTells(before: seq<int>, now: int, budget: nat, upto: int, f: Fails)
    requires budget > 0 && Attempted(before, budget) == Some(f) && Blocked(f, now) && |before| > 0
    requires Tells(f, before[|before| - 1], before, budget, upto) && before[|before| - 1] <= now
    ensures Tells(f, now, before + [now], budget, upto)
  {
    AttemptedAppend(before, now, budget, f.first - WINDOW, f.first);
  }

  lemma SpentTells(before: seq<int>, now: int, budget: nat, upto: int, f: Fails)
    requires budget > 0 && Attempted(before, budget) == Some(f) && !Blocked(f, now) && !Expired(f, now)
    requires f.count >= budget && InTime(before, now) && now <= upto
    requires |before| > 0 && Tells(f, before[|before| - 1], before, budget, upto)
    ensures Tells(Fails(0, now, Some(now + BLOCK)), now, before + [now], budget, upto)
  {
    AttemptedAppend(before, now, budget, now - WINDOW, now);
    GrantedWider(before, budget, now - WINDOW, f.first, now, upto);
  }

  lemma MoreTells(before: seq<int>, now: int, budget: nat, upto: int, f: Fails)
    requires budget > 0 && Attempted(before, budget) == Some(f) && !Blocked(f, now) && !Expired(f, now)
    requires f.count < budget && |before| > 0 && before[|before| - 1] <= now <= upto
    requires Tells(f, before[|before| - 1], before, budget, upto)
    ensures Tells(f.(count := f.count + 1), now, before + [now], budget, upto)
  {
    AttemptedAppend(before, now, budget, f.first, upto);
  }

  lemma LaterTells(before: seq<int>, now: int, budget: nat, upto: int, f: Fails)
    requires budget > 0 && InTime(before, now) && now <= upto && |before| > 0
    requires Attempted(before, budget) == Some(f) && !Expired(f, now)
    requires Tells(f, before[|before| - 1], before, budget, upto)
    ensures Tells(Attempt(Some(f), budget, now).0, now, before + [now], budget, upto)
  {
    if Blocked(f, now) {
      BlockedTells(before, now, budget, upto, f);
    } else if f.count >= budget {
      SpentTells(before, now, budget, upto, f);
    } else {
      MoreTells(before, now, budget, upto, f);
    }
  }

  lemma NextTells(before: seq<int>, now: int, budget: nat, upto: int)
    requires budget > 0 && InTime(before + [now], upto)
    requires if |before| == 0 then Attempted(before, budget).None?
      else Attempted(before, budget).Some?
           && Tells(Attempted(before, budget).value, before[|before| - 1], before, budget, upto)
    ensures Tells(Attempt(Attempted(before, budget), budget, now).0, now, before + [now], budget, upto)
  {
    var times, f := before + [now], Attempted(before, budget);
    assert forall i :: 0 <= i < |before| ==> before[i] == times[i];
    if f.Some? && !Expired(f.value, now) {
      assert times[|before|] == now;
      assert InTime(before, now);
      LaterTells(before, now, budget, upto, f.value);
    } else {
      if f.Some? {
        ExpiredIsOver(f.value, before[|before| - 1], before, budget, upto, now);
      }
      FirstTells(before, now, budget, upto);
    }
  }

  lemma {:induction false} EntryTells(times: seq<int>, budget: nat, upto: int)
    requires budget > 0 && InTime(times, upto)
    ensures if |times| == 0 then Attempted(times, budget).None?
      else Attempted(times, budget).Some?
           && Tells(Attempted(times, budget).value, times[|times| - 1], times, budget, upto)
  {
    if |times| > 0 {
      var before, now := times[..|times| - 1], times[|times| - 1];
      EntryTells(before, budget, upto);
      assert before + [now] == times;
      NextTells(before, now, budget, upto);
    }
  }

  /** An attempt is refused only when a whole budget was granted within a window that ended
      less than the block ago. */
  lemma RefusedMeansSpent(times: seq<int>, budget: nat, now: int) returns (t: int)
    requires budget > 0 && InTime(times, now) && !Attempt(Attempted(times, budget), budget, now).1
    ensures now - BLOCK < t <= now && Granted(times, budget, t - WINDOW, t) >= budget
  {
    EntryTells(times, budget, now);
    var f := Attempted(times, budget).value;
    if Blocked(f, now) {
      t := f.first;
    } else {
      t := now;
      GrantedWider(times, budget, now - WINDOW, f.first, now, now);
    }
  }

  /** So an address with a place in the table is refused only when its whole budget was let
      through within a window that ended less than the block ago. */
  lemma {:induction false} NotRefusedEarly(capacity: nat, log: seq<Event>, a: string) returns (t: int)
    requires Ordered(log) && |log| > 0 && log[|log| - 1].call == Reserve(a)
    requires forall e :: e in log ==> Uncleared(e, a)
    requires Last(capacity, Unused(), log).own && !Last(capacity, Unused(), log).ok
    ensures log[|log| - 1].now - BLOCK < t <= log[|log| - 1].now
    ensures Passed(capacity, log[..|log| - 1], a, t - WINDOW, t) >= Budget(a)
  {
    var before, now := log[..|log| - 1], log[|log| - 1].now;
    RefinesUnswept(capacity, log, a);
    TimesInOrder(capacity, before, a, now);
    t := RefusedMeansSpent(OwnTimes(capacity, before, a), Budget(a), now);
    PassedGranted(capacity, before, a, t - WINDOW, t);
  }

  // ---- nor for want of room ----

  /** What the last full sweep left was live then, and what came since is newer. */
  predicate SinceSweep(s: State, upto: int) {
    s.lastFullSweep.Some? ==>
      s.lastFullSweep.value <= upto && forall k :: k in s.fails ==> !Expired(s.fails[k], s.lastFullSweep.value)
  }

  lemma SweptSince(capacity: nat, s: State, key: Key, now: int, upto: int)
    requires SinceSweep(s, upto) && upto <= now
    ensures SinceSweep(Counted(s, key, now), upto) && SinceSweep(WithRoom(capacity, s, now), now)
  {}

  lemma AttemptSince(f: Fails, budget: nat, now: int, t: int)
    requires t <= now && !Expired(f, t) && !Expired(f, now)
    ensures !Expired(Attempt(Some(f), budget, now).0, t)
  {}

  lemma ReserveSinceSweep(capacity: nat, s: State, key: Key, budget: nat, now: int, upto: int)
    requires SinceSweep(s, upto) && upto <= now
    ensures SinceSweep(Reserved(capacity, s, key, budget, now).state, now)
  {
    var s1 := Counted(s, key, now);
    SweptSince(capacity, s, key, now, upto);
    if key in s1.fails {
      if s1.lastFullSweep.Some? {
        AttemptSince(s1.fails[key], budget, now, s1.lastFullSweep.value);
      }
    } else {
      SweptSince(capacity, s1, key, now, upto);
    }
  }

  lemma ReleaseSinceSweep(s: State, key: Key, now: int, upto: int)
    requires SinceSweep(s, upto) && upto <= now
    ensures SinceSweep(Released(s, key, now), now)
  {}

  lemma FailSinceSweep(s: State, key: Key, now: int, upto: int)
    requires SinceSweep(s, upto) && upto <= now
    ensures SinceSweep(Failed(s, key, now), now)
  {}

  lemma {:induction false} RunSinceSweep(capacity: nat, log: seq<Event>, upto: int)
    requires Ordered(log) && (|log| > 0 ==> log[|log| - 1].now <= upto)
    ensures SinceSweep(After(capacity, Unused(), log), upto)
  {
    if |log| > 0 {
      var s, e := After(capacity, Unused(), log[..|log| - 1]), log[|log| - 1];
      RunSinceSweep(capacity, log[..|log| - 1], e.now);
      match e.call
      case Reserve(a) => ReserveSinceSweep(capacity, s, Address(a), Budget(a), e.now, e.now);
      case Release(a) => ReleaseSinceSweep(s, Address(a), e.now, e.now);
      case Fail(u) => FailSinceSweep(s, User(u), e.now, e.now);
      case Clear(keys) =>
    }
  }

  /** A new address is refused for want of room only when the table holds at least capacity
      entries that were all live less than a second ago. */
  lemma {:induction false} FullMeansLive(capacity: nat, log: seq<Event>, a: string) returns (t: int)
    requires Ordered(log) && |log| > 0 && log[|log| - 1].call == Reserve(a) && !Last(capacity, Unused(), log).own
    ensures |After(capacity, Unused(), log).fails| >= capacity && Address(a) !in After(capacity, Unused(), log).fails
    ensures log[|log| - 1].now - FULL_SWEEP_GAP < t <= log[|log| - 1].now
    ensures var fails := After(capacity, Unused(), log).fails;
      forall k :: k in fails ==> !Expired(fails[k], t)
  {
    var now := log[|log| - 1].now;
    RunSinceSweep(capacity, log, now);
    NoRoom(capacity, After(capacity, Unused(), log[..|log| - 1]), Address(a), Budget(a), now);
    t := After(capacity, Unused(), log).lastFullSweep.value;
  }

  lemma NoRoom(capacity: nat, s: State, key: Key, budget: nat, now: int)
    requires !Reserved(capacity, s, key, budget, now).own
    ensures var s' := Reserved(capacity, s, key, budget, now).state;
      && |s'.fails| >= capacity && key !in s'.fails
      && s'.lastFullSweep.Some? && now - s'.lastFullSweep.value < FULL_SWEEP_GAP
  {}

  // ---- handing back, and failing ----

  /** Releasing a granted attempt leaves its key as it was before. */
  lemma ReleaseGivesBack(capacity: nat, s: State, key: Key, budget: nat, now: int)
    requires Reserved(capacity, s, key, budget, now).ok
    ensures var s' := Released(Reserved(capacity, s, key, budget, now).state, key, now);
      if key in s.fails && !Expired(s.fails[key], now) then key in s'.fails && s'.fails[key] == s.fails[key]
      else key !in s'.fails
  {}

  function FailedAll(s: State, key: Key, times: seq<int>): State {
    if |times| == 0 then s else Failed(FailedAll(s, key, times[..|times| - 1]), key, times[|times| - 1])
  }

  const USER_MAX_FAILS := 20

  /** The next attempt on the account is delayed. */
  predicate Slow(s: State, key: Key, now: int) {
    key in s.fails && !Expired(s.fails[key], now) && s.fails[key].count >= USER_MAX_FAILS
  }

  /** Every failure of an account within a window counts, and from the twentieth on it is slow. */
  lemma {:induction false} FailuresCount(s: State, key: Key, times: seq<int>, now: int)
    requires |times| > 0 && key !in s.fails && InTime(times, now) && now <= times[0] + WINDOW
    ensures var s' := FailedAll(s, key, times);
      && key in s'.fails && s'.fails[key] == Fails(|times|, times[0], None)
      && (Slow(s', key, now) <==> |times| >= 20)
  {
    if |times| > 1 {
      FailuresCount(s, key, times[..|times| - 1], times[|times| - 1]);
    } else {
      assert FailedAll(s, key, times[..0]) == s;
    }
  }

  /** In numbers: at most 10 attempts of an address in any quarter of an hour, and at most 100
      of all those that come without an address together. */
  lemma TenInAWindow(capacity: nat, log: seq<Event>, a: string, from: int)
    requires Ordered(log) && forall e :: e in log ==> Uncleared(e, a)
    ensures Passed(capacity, log, a, from, from + 15 * 60 * SECOND) <= if a == "unknown" then 100 else 10
  {
    TwiceTheBudget(capacity, log, a, from);
  }

  /** And no fewer than 5, or 50, before one is refused for its budget. */
  lemma FiveBeforeRefusal(capacity: nat, log: seq<Event>, a: string) returns (t: int)
    requires Ordered(log) && |log| > 0 && log[|log| - 1].call == Reserve(a)
    requires forall e :: e in log ==> Uncleared(e, a)
    requires Last(capacity, Unused(), log).own && !Last(capacity, Unused(), log).ok
    ensures log[|log| - 1].now - 15 * 60 * SECOND < t <= log[|log| - 1].now
    ensures Passed(capacity, log[..|log| - 1], a, t - 15 * 60 * SECOND, t) >= if a == "unknown" then 50 else 5
  {
    t := NotRefusedEarly(capacity, log, a);
  }
}
