/** The shared wallet answers: one fetch per order in flight, its answer reused inside a
    window. Every critical section is one step; callers, leaders and forget interleave freely. */
module ReceiptThrottle {
  import opened Tables

  type Receipt = string

  /** Canceled is what errors.Is(err, context.Canceled) recognises; Recovered is the error
      reported for a panic inside fetch. */
  datatype Error = Canceled | Recovered | Other(text: string)

  datatype Answer = Answer(item: Receipt, err: Option<Error>)

  datatype Outcome = Fetched(answer: Answer) | Panicked

  function Reported(o: Outcome): Answer {
    if o.Panicked? then Answer("", Some(Recovered)) else o.answer
  }

  /** Whether the answer says something about the wallet, and so is cached. */
  predicate Kept(o: Outcome) {
    o.Fetched? && o.answer.err != Some(Canceled)
  }

  const WINDOW := 10 * SECOND
  const PRUNE_OVER := 4096

  /** An entry; flying is done != nil. Entries are named by the order they were made in. */
  datatype Entry = Entry(flying: bool, at: int, answer: Answer)

  datatype Cache = Cache(last: map<string, nat>, entries: seq<Entry>)

  datatype Decision = Serve(e: nat) | Wait(e: nat) | Lead(e: nat)

  predicate Named(c: Cache) {
    forall k :: k in c.last ==> c.last[k] < |c.entries|
  }

  // ---- the critical sections ----

  /** get, from locking to unlocking. */
  function Looked(c: Cache, key: string, now: int): (Cache, Decision)
    requires Named(c)
  {
    if key in c.last && !c.entries[c.last[key]].flying && now - c.entries[c.last[key]].at < WINDOW then
      (c, Serve(c.last[key]))
    else if key in c.last && c.entries[c.last[key]].flying then (c, Wait(c.last[key]))
    else
      (Cache(c.last[key := |c.entries|], c.entries + [Entry(true, 0, Answer("", None))]), Lead(|c.entries|))
  }

  predicate Expired(e: Entry, now: int) {
    !e.flying && now - e.at >= WINDOW
  }

  function Pruned(c: Cache, now: int): Cache
    requires Named(c)
  {
    if |c.last| <= PRUNE_OVER then c
    else c.(last := map k | k in c.last && !Expired(c.entries[c.last[k]], now) :: c.last[k])
  }

  /** lead's deferred bookkeeping. */
  function Finished(c: Cache, key: string, e: nat, now: int, o: Outcome): (r: Cache)
    requires Named(c) && e < |c.entries|
    ensures Named(r)
  {
    var c1 := c.(entries := c.entries[e := c.entries[e].(answer := Reported(o))]);
    var c2 :=
      if key !in c.last || c.last[key] != e then c1
      else if !Kept(o) then c1.(last := c1.last - {key})
      else Pruned(c1.(entries := c1.entries[e := c1.entries[e].(at := now)]), now);
    c2.(entries := c2.entries[e := c2.entries[e].(flying := false)])
  }

  function Forgotten(c: Cache, key: string): Cache {
    c.(last := c.last - {key})
  }

  /** The throttle itself; now is what the clock shows inside the critical section. */
  class Throttle {
    var last: map<string, nat>
    var entries: seq<Entry>

    function State(): Cache
      reads this
    {
      Cache(last, entries)
    }

    constructor ()
      ensures State() == Cache(map[], [])
    {
      last, entries := map[], [];
    }

    method Look(key: string, now: int) returns (d: Decision)
      requires Named(State())
      modifies this
      ensures (State(), d) == Looked(old(State()), key, now)
      ensures Named(State())
    {
      if key in last {
        var e := last[key];
        if !entries[e].flying && now - entries[e].at < WINDOW {
          return Serve(e);
        }
        if entries[e].flying {
          return Wait(e);
        }
      }
      d := Lead(|entries|);
      last := last[key := |entries|];
      entries := entries + [Entry(true, 0, Answer("", None))];
    }

    method Finish(key: string, e: nat, now: int, o: Outcome)
      requires Named(State()) && e < |entries|
      modifies this
      ensures State() == Finished(old(State()), key, e, now, o)
    {
      entries := entries[e := entries[e].(answer := Reported(o))];
      if key in last && last[key] == e {
        if !Kept(o) {
          last := last - {key};
        } else {
          entries := entries[e := entries[e].(at := now)];
          Prune(now);
        }
      }
      entries := entries[e := entries[e].(flying := false)];
    }

    method Prune(now: int)
      requires Named(State())
      modifies this`last
      ensures State() == Pruned(old(State()), now)
    {
      if |last| <= PRUNE_OVER {
        return;
      }
      ghost var was := last;
      var todo := last.Keys;
      while todo != {}
        invariant todo <= was.Keys
        invariant forall k :: k in last ==> k in was && last[k] == was[k]
        invariant forall k :: k in was ==> k in last || Expired(entries[was[k]], now)
        invariant forall k :: k in last && k !in todo ==> !Expired(entries[last[k]], now)
        decreases todo
      {
        var k :| k in todo;
        if k in last && Expired(entries[last[k]], now) {
          last := last - {k};
        }
        todo := todo - {k};
      }
      assert last == map k | k in was && !Expired(entries[was[k]], now) :: was[k];
    }

    method Forget(key: string)
      modifies this`last
      ensures State() == Forgotten(old(State()), key)
    {
      last := last - {key};
    }
  }

  // ---- callers and leaders ----

  /** Where one call of get is. e is the fetch an answer came from, lead the one it started. */
  datatype Caller =
    | Looking(key: string)
    | Waiting(key: string, e: nat)
    | Leading(key: string, e: nat)
    | Returned(key: string, fetched: bool, e: nat, answer: Answer, when: int)
    | GaveUp(key: string, lead: Option<nat>)

  /** The fetch a caller started, which it reports as fetched. */
  function Started(c: Caller): Option<nat> {
    match c
    case Looking(_) => None
    case Waiting(_, _) => None
    case Leading(_, e) => Some(e)
    case Returned(_, fetched, e, _, _) => if fetched then Some(e) else None
    case GaveUp(_, lead) => lead
  }

  /** The history of a wallet call: fetch e is the one started for entry e. dropped tells
      that forget took the entry out of the map. */
  datatype Fetch = Fetch(key: string, caller: int, start: int, outcome: Option<Outcome>, landed: int, dropped: bool)

  datatype State = State(now: int, cache: Cache, callers: map<int, Caller>, fetches: seq<Fetch>)

  datatype Event =
    | Tick(to: int)
    | Call(c: int, key: string)
    | Look(c: int)
    | Wake(c: int)
    | Collect(c: int)
    | GiveUp(c: int)
    | Finish(e: nat, o: Outcome)
    | Forget(key: string)

  function Decide(s: State, c: int): State
    requires Named(s.cache) && c in s.callers && s.callers[c].Looking?
  {
    var key := s.callers[c].key;
    var (cache, d) := Looked(s.cache, key, s.now);
    match d
    case Serve(e) =>
      var answer := if e < |cache.entries| then cache.entries[e].answer else Answer("", None);
      s.(callers := s.callers[c := Returned(key, false, e, answer, s.now)])
    case Wait(e) => s.(callers := s.callers[c := Waiting(key, e)])
    case Lead(e) =>
      State(s.now, cache, s.callers[c := Leading(key, e)], s.fetches + [Fetch(key, c, s.now, None, 0, false)])
  }

  /** One step; an event that is not enabled changes nothing. */
  function Step(s: State, ev: Event): State
    requires Named(s.cache)
  {
    var n := |s.cache.entries|;
    match ev
    case Tick(to) => if to >= s.now then s.(now := to) else s
    case Call(c, key) => if c !in s.callers then s.(callers := s.callers[c := Looking(key)]) else s
    case Look(c) => if c in s.callers && s.callers[c].Looking? then Decide(s, c) else s
    case Wake(c) =>
      if c in s.callers && s.callers[c].Waiting? && s.callers[c].e < n && !s.cache.entries[s.callers[c].e].flying then
        s.(callers := s.callers[c := Looking(s.callers[c].key)])
      else s
    case Collect(c) =>
      if c in s.callers && s.callers[c].Leading? && s.callers[c].e < n && !s.cache.entries[s.callers[c].e].flying then
        s.(callers := s.callers[c :=
          Returned(s.callers[c].key, true, s.callers[c].e, s.cache.entries[s.callers[c].e].answer, s.now)])
      else s
    case GiveUp(c) =>
      if c in s.callers && !s.callers[c].Returned? then
        s.(callers := s.callers[c := GaveUp(s.callers[c].key, Started(s.callers[c]))])
      else s
    case Finish(e, o) =>
      if e < n && e < |s.fetches| && s.cache.entries[e].flying then
        s.(cache := Finished(s.cache, s.fetches[e].key, e, s.now, o),
           fetches := s.fetches[e := s.fetches[e].(outcome := Some(o), landed := s.now)])
      else s
    case Forget(key) =>
      s.(cache := Forgotten(s.cache, key),
         fetches := if key in s.cache.last && s.cache.last[key] < |s.fetches| then
                      s.fetches[s.cache.last[key] := s.fetches[s.cache.last[key]].(dropped := true)]
                    else s.fetches)
  }

  // ---- the invariant ----

  predicate InMap(s: State, e: nat) {
    e < |s.fetches| && s.fetches[e].key in s.cache.last && s.cache.last[s.fetches[e].key] == e
  }

  /** What entry e says about fetch e, and when it is in the map. */
  predicate FetchOk(s: State, e: nat)
    requires e < |s.fetches| == |s.cache.entries|
  {
    var f, x := s.fetches[e], s.cache.entries[e];
    && f.start <= s.now
    && (x.flying <==> f.outcome.None?)
    && (f.outcome.Some? ==> f.start <= f.landed <= s.now && x.answer == Reported(f.outcome.value))
    && (InMap(s, e) ==> !f.dropped && (f.outcome.Some? ==> Kept(f.outcome.value) && x.at == f.landed))
    && (!InMap(s, e) ==> f.dropped || (f.outcome.Some? && (Kept(f.outcome.value) ==> s.now - f.landed >= WINDOW)))
    && f.caller in s.callers && Started(s.callers[f.caller]) == Some(e)
  }

  predicate CallerOk(s: State, c: int)
    requires c in s.callers
  {
    var x := s.callers[c];
    && (Started(x).Some? ==> Started(x).value < |s.fetches| && s.fetches[Started(x).value].caller == c)
    && (Started(x).Some? ==> s.fetches[Started(x).value].key == x.key)
    && (x.Waiting? ==> x.e < |s.fetches|)
    && (x.Returned? ==> AnswerOk(s.fetches, x))
  }

  /** An answer is what a real fetch for the order reported; a shared one was kept and is
      younger than the window. */
  predicate AnswerOk(fetches: seq<Fetch>, x: Caller)
    requires x.Returned?
  {
    && x.e < |fetches| && fetches[x.e].key == x.key
    && fetches[x.e].outcome.Some? && x.answer == Reported(fetches[x.e].outcome.value)
    && (!x.fetched ==> Kept(fetches[x.e].outcome.value) && 0 <= x.when - fetches[x.e].landed < WINDOW)
  }

  /** Two fetches for one order: the first was forgotten or dropped, or it landed at least
      a window before the second started. */
  predicate Apart(a: Fetch, b: Fetch) {
    a.key == b.key ==>
      || a.dropped
      || (a.outcome.Some? && (!Kept(a.outcome.value) || b.start - a.landed >= WINDOW))
  }

  ghost predicate Inv(s: State) {
    && |s.fetches| == |s.cache.entries| && Named(s.cache)
    && (forall k :: k in s.cache.last ==> s.fetches[s.cache.last[k]].key == k)
    && (forall e :: 0 <= e < |s.fetches| ==> FetchOk(s, e))
    && (forall c :: c in s.callers ==> CallerOk(s, c))
    && (forall a, b :: 0 <= a < b < |s.fetches| ==> Apart(s.fetches[a], s.fetches[b]))
  }

  predicate Leads(s: State, c: int)
    requires Named(s.cache)
  {
    c in s.callers && s.callers[c].Looking? && Looked(s.cache, s.callers[c].key, s.now).1.Lead?
  }

  /** Starting a fetch makes one entry; the entry it replaces, if any, has expired. */
  lemma LeadFetches(s: State, c: int, e: nat)
    requires Inv(s) && Leads(s, c) && e < |s.fetches|
    ensures var s' := Decide(s, c); FetchOk(s', e) && Apart(s'.fetches[e], s'.fetches[|s.fetches|])
  {
    assert FetchOk(s, e);
  }

  lemma LeadCallers(s: State, c: int, x: int)
    requires Inv(s) && Leads(s, c) && x in Decide(s, c).callers
    ensures CallerOk(Decide(s, c), x)
  {
    assert x in s.callers ==> CallerOk(s, x);
  }

  lemma LeadKeeps(s: State, c: int)
    requires Inv(s) && Leads(s, c)
    ensures Inv(Decide(s, c))
  {
    var s' := Decide(s, c);
    forall e: nat | e < |s.fetches| ensures FetchOk(s', e) && Apart(s'.fetches[e], s'.fetches[|s.fetches|]) {
      LeadFetches(s, c, e);
    }
    forall x | x in s'.callers ensures CallerOk(s', x) {
      LeadCallers(s, c, x);
    }
  }

  lemma DecideKeeps(s: State, c: int)
    requires Inv(s) && c in s.callers && s.callers[c].Looking?
    ensures Inv(Decide(s, c))
  {
    if Looked(s.cache, s.callers[c].key, s.now).1.Lead? {
      LeadKeeps(s, c);
    } else {
      assert CallerOk(s, c);
      var key := s.callers[c].key;
      assert key in s.cache.last ==> FetchOk(s, s.cache.last[key]);
      CallerMoves(s, c, Decide(s, c).callers[c]);
    }
  }

  /** A caller that moves without touching the cache. */
  lemma CallerMoves(s: State, c: int, x: Caller)
    requires Inv(s)
    requires Started(x) == if c in s.callers then Started(s.callers[c]) else None
    requires c in s.callers ==> x.key == s.callers[c].key
    requires x.Waiting? ==> x.e < |s.fetches|
    requires x.Returned? ==> AnswerOk(s.fetches, x)
    ensures Inv(s.(callers := s.callers[c := x]))
  {
    var s' := s.(callers := s.callers[c := x]);
    forall e | 0 <= e < |s.fetches| ensures FetchOk(s', e) {
      assert FetchOk(s, e);
    }
    forall y | y in s'.callers ensures CallerOk(s', y) {
      assert y in s.callers ==> CallerOk(s, y);
    }
  }

  /** What the end of fetch e does to the map. */
  lemma FinishMap(s: State, e: nat, o: Outcome)
    requires Inv(s) && e < |s.fetches| && s.cache.entries[e].flying
    ensures var s' := Step(s, Finish(e, o));
      && (forall k :: k in s'.cache.last ==> k in s.cache.last && s'.cache.last[k] == s.cache.last[k])
      && (forall x :: 0 <= x < |s.fetches| && x != e ==> s'.cache.entries[x] == s.cache.entries[x])
      && (forall x :: 0 <= x < |s.fetches| && x != e && InMap(s, x) ==>
            InMap(s', x) || Expired(s.cache.entries[x], s.now))
      && (InMap(s', e) <==> InMap(s, e) && Kept(o))
      && s'.cache.entries[e] == Entry(false, if InMap(s', e) then s.now else s.cache.entries[e].at, Reported(o))
      && |s'.cache.entries| == |s.cache.entries| && Named(s'.cache)
  {
  }

  lemma FinishKeeps(s: State, e: nat, o: Outcome)
    requires Inv(s) && e < |s.fetches| && s.cache.entries[e].flying
    ensures Inv(Step(s, Finish(e, o)))
  {
    var s' := Step(s, Finish(e, o));
    FinishMap(s, e, o);
    assert FetchOk(s, e);
    forall x | 0 <= x < |s.fetches| ensures FetchOk(s', x) {
      assert FetchOk(s, x);
    }
    forall c | c in s.callers ensures CallerOk(s', c) {
      assert CallerOk(s, c);
    }
    forall a, b | 0 <= a < b < |s.fetches| ensures Apart(s'.fetches[a], s'.fetches[b]) {
      assert Apart(s.fetches[a], s.fetches[b]);
    }
  }

  lemma ForgetKeeps(s: State, key: string)
    requires Inv(s)
    ensures Inv(Step(s, Forget(key)))
  {
    var s' := Step(s, Forget(key));
    forall x | 0 <= x < |s.fetches| ensures FetchOk(s', x) {
      assert FetchOk(s, x);
    }
    forall c | c in s.callers ensures CallerOk(s', c) {
      assert CallerOk(s, c);
    }
    forall a, b | 0 <= a < b < |s.fetches| ensures Apart(s'.fetches[a], s'.fetches[b]) {
      assert Apart(s.fetches[a], s.fetches[b]);
    }
  }

  lemma StepKeeps(s: State, ev: Event)
    requires Inv(s)
    ensures Inv(Step(s, ev))
  {
    match ev
    case Tick(to) =>
      var s' := Step(s, ev);
      forall x | 0 <= x < |s.fetches| ensures FetchOk(s', x) {
        assert FetchOk(s, x);
      }
      forall c | c in s.callers ensures CallerOk(s', c) {
        assert CallerOk(s, c);
      }
    case Call(c, key) =>
      if c !in s.callers {
        CallerMoves(s, c, Looking(key));
      }
    case Look(c) =>
      if c in s.callers && s.callers[c].Looking? {
        DecideKeeps(s, c);
      }
    case Finish(e, o) =>
      if e < |s.fetches| && s.cache.entries[e].flying {
        FinishKeeps(s, e, o);
      }
    case Forget(key) => ForgetKeeps(s, key);
    case Collect(c) =>
      if c in s.callers && s.callers[c].Leading? {
        assert CallerOk(s, c);
        assert FetchOk(s, s.callers[c].e);
        if !s.cache.entries[s.callers[c].e].flying {
          CallerMoves(s, c, Step(s, ev).callers[c]);
        }
      }
    case _ =>
      if ev.c in s.callers && Step(s, ev) != s {
        assert CallerOk(s, ev.c);
        CallerMoves(s, ev.c, Step(s, ev).callers[ev.c]);
      }
  }

  ghost function Run(s: State, events: seq<Event>): (r: State)
    requires Inv(s)
    ensures Inv(r)
  {
    if |events| == 0 then s else
      StepKeeps(Run(s, events[..|events| - 1]), events[|events| - 1]);
      Step(Run(s, events[..|events| - 1]), events[|events| - 1])
  }

  // ---- what it is for ----

  /** A throttle nobody has used yet. */
  function Idle(now: int): State {
    State(now, Cache(map[], []), map[], [])
  }

  /** Every wallet call is reported by exactly one caller, the one that started it. */
  lemma {:induction false} FetchedOnce(now: int, events: seq<Event>, e: nat, c: int)
    requires e < |Run(Idle(now), events).fetches|
    ensures var s := Run(Idle(now), events);
      c in s.callers && Started(s.callers[c]) == Some(e) <==> c == s.fetches[e].caller
  {
    var s := Run(Idle(now), events);
    assert FetchOk(s, e);
    assert c in s.callers ==> CallerOk(s, c);
  }

  /** Every answer is what a real wallet call for that order reported; one that was shared
      was not dropped, and was younger than the window. */
  lemma {:induction false} AnswersAreReal(now: int, events: seq<Event>, c: int)
    requires var s := Run(Idle(now), events); c in s.callers && s.callers[c].Returned?
    ensures var s := Run(Idle(now), events); AnswerOk(s.fetches, s.callers[c])
  {
    assert CallerOk(Run(Idle(now), events), c);
  }

  /** Two wallet calls for one order start at least a window apart, unless the first was
      forgotten, panicked or was cancelled; until it ends or is forgotten there is no other. */
  lemma {:induction false} CallsApart(now: int, events: seq<Event>, a: nat, b: nat)
    requires var s := Run(Idle(now), events); a < b < |s.fetches| && s.fetches[a].key == s.fetches[b].key
    ensures var s := Run(Idle(now), events);
      || s.fetches[a].dropped
      || (s.fetches[a].outcome.Some?
          && (Kept(s.fetches[a].outcome.value) ==>
                s.fetches[a].start <= s.fetches[a].landed <= s.fetches[b].start - WINDOW))
  {
    var s := Run(Idle(now), events);
    assert FetchOk(s, a);
    assert Apart(s.fetches[a], s.fetches[b]);
  }

  /** An entry is written by its own leader only, and leaves the map only when its own
      leader drops it, when its order is forgotten, or when it has expired; in particular
      a leader whose entry was forgotten never touches the one that came after. */
  lemma OwnLeaderOnly(s: State, ev: Event, e: nat)
    requires Inv(s) && e < |s.fetches|
    ensures !(ev.Finish? && ev.e == e) ==> Step(s, ev).cache.entries[e] == s.cache.entries[e]
    ensures InMap(s, e) && !InMap(Step(s, ev), e) ==>
      || ev == Forget(s.fetches[e].key)
      || (ev.Finish? && ev.e == e && !Kept(ev.o))
      || Expired(s.cache.entries[e], s.now)
  {
    if ev.Finish? && ev.e < |s.fetches| && s.cache.entries[ev.e].flying {
      FinishMap(s, ev.e, ev.o);
    }
  }

  /** What is left of the fetches before number n for one order: calls that were answered
      by then, and callers that had started one themselves and still get its answer. The
      map names none of them. */
  ghost predicate OnlyNewer(s: State, before: map<int, Caller>, key: string, n: nat) {
    && (key in s.cache.last ==> s.cache.last[key] >= n)
    && (forall c :: c in s.callers && s.callers[c].key == key ==> NewerOrOwn(s.callers[c], c, before, n))
    && (forall c :: c in before && Started(before[c]).Some? ==>
          c in s.callers && Started(s.callers[c]) == Started(before[c]))
  }

  predicate NewerOrOwn(x: Caller, c: int, before: map<int, Caller>, n: nat) {
    x.Returned? || x.Leading? ==>
      || x.e >= n
      || (c in before && (before[c] == x || Started(before[c]) == Some(x.e)))
  }

  lemma MapStaysNewer(s: State, ev: Event, key: string, n: nat)
    requires Inv(s) && n <= |s.fetches| && (key in s.cache.last ==> s.cache.last[key] >= n)
    ensures key in Step(s, ev).cache.last ==> Step(s, ev).cache.last[key] >= n
    ensures |s.fetches| <= |Step(s, ev).fetches|
  {
    if ev.Finish? && ev.e < |s.fetches| && s.cache.entries[ev.e].flying {
      FinishMap(s, ev.e, ev.o);
    }
  }

  lemma StartedStays(s: State, ev: Event, c: int)
    requires Inv(s) && c in s.callers && Started(s.callers[c]).Some?
    ensures c in Step(s, ev).callers && Started(Step(s, ev).callers[c]) == Started(s.callers[c])
  {}

  lemma CallStaysNewer(s: State, ev: Event, before: map<int, Caller>, n: nat, c: int)
    requires Inv(s) && n <= |s.fetches| && c in Step(s, ev).callers
    requires c in s.callers ==> NewerOrOwn(s.callers[c], c, before, n)
    requires c in s.callers && s.callers[c].key in s.cache.last ==> s.cache.last[s.callers[c].key] >= n
    ensures NewerOrOwn(Step(s, ev).callers[c], c, before, n)
  {}

  lemma StaysNewer(s: State, ev: Event, before: map<int, Caller>, key: string, n: nat)
    requires Inv(s) && OnlyNewer(s, before, key, n) && n <= |s.fetches|
    ensures OnlyNewer(Step(s, ev), before, key, n) && |s.fetches| <= |Step(s, ev).fetches|
  {
    var s' := Step(s, ev);
    MapStaysNewer(s, ev, key, n);
    forall c | c in s'.callers && s'.callers[c].key == key ensures NewerOrOwn(s'.callers[c], c, before, n) {
      assert c in s.callers ==> s.callers[c].key == key;
      CallStaysNewer(s, ev, before, n, c);
    }
    forall c | c in before && Started(before[c]).Some?
      ensures c in s'.callers && Started(s'.callers[c]) == Started(before[c])
    {
      StartedStays(s, ev, c);
    }
  }

  /** Nothing stale lingers: once an order is forgotten, every call for it that is still
      open or made later is answered by a wallet call started after that, except that a
      caller that had started one itself gets its own answer. */
  lemma {:induction false} NothingStale(s: State, key: string, events: seq<Event>)
    requires Inv(s)
    ensures Inv(Step(s, Forget(key)))
    ensures OnlyNewer(Run(Step(s, Forget(key)), events), s.callers, key, |s.fetches|)
    ensures |s.fetches| <= |Run(Step(s, Forget(key)), events).fetches|
  {
    StepKeeps(s, Forget(key));
    if |events| == 0 {
      forall c | c in s.callers && s.callers[c].key == key
        ensures NewerOrOwn(s.callers[c], c, s.callers, |s.fetches|)
      {}
    } else {
      var before := events[..|events| - 1];
      NothingStale(s, key, before);
      StaysNewer(Run(Step(s, Forget(key)), before), events[|events| - 1], s.callers, key, |s.fetches|);
    }
  }

  /** One call, in flight on the first wallet call, which may have been forgotten. */
  function InFlight(now: int, key: string, forgotten: bool): State {
    State(now, Cache(if forgotten then map[] else map[key := 0], [Entry(true, 0, Answer("", None))]),
          map[1 := Leading(key, 0)], [Fetch(key, 1, now, None, 0, forgotten)])
  }

  lemma FirstCallLeads(now: int, key: string)
    ensures Step(Step(Idle(now), Call(1, key)), Look(1)) == InFlight(now, key, false)
  {}

  lemma ForgetInFlight(now: int, key: string)
    ensures Step(InFlight(now, key, false), Forget(key)) == InFlight(now, key, true)
  {}

  lemma FinishInFlight(now: int, key: string, o: Outcome)
    ensures var s := Step(InFlight(now, key, true), Finish(0, o));
      && s.now == now && s.cache == Cache(map[], [Entry(false, 0, Reported(o))])
      && s.callers == map[1 := Leading(key, 0)]
  {}

  /** The exception happens: a call that is in flight when its order is forgotten ends with
      the answer of the wallet call it started before. */
  lemma OwnAnswerIsOlder(now: int, key: string, o: Outcome)
    ensures var s := Step(Step(Idle(now), Call(1, key)), Look(1));
      var s' := Step(Step(Step(s, Forget(key)), Finish(0, o)), Collect(1));
      |s.fetches| == 1 && key !in s'.cache.last && s'.callers[1] == Returned(key, true, 0, Reported(o), now)
  {
    FirstCallLeads(now, key);
    ForgetInFlight(now, key);
    FinishInFlight(now, key, o);
  }

  // ---- that it goes on ----

  /** A panic, or a cancelled fetch: its answer says nothing about the wallet. */
  predicate Spoiled(o: Outcome) {
    o.Panicked? || o.answer.err == Some(Canceled)
  }

  /** A fetch that calls for its order are still referred to. */
  predicate Current(f: Fetch, key: string) {
    f.key == key && !f.dropped
  }

  /** A call that finds no wallet call in flight and no fresh answer starts a wallet call. */
  lemma NobodyLeads(s: State, c: int)
    requires Inv(s) && c in s.callers && s.callers[c].Looking?
    requires forall e :: 0 <= e < |s.fetches| && Current(s.fetches[e], s.callers[c].key) ==>
      && s.fetches[e].outcome.Some?
      && (Spoiled(s.fetches[e].outcome.value) || s.now - s.fetches[e].landed >= WINDOW)
    ensures var s', key := Step(s, Look(c)), s.callers[c].key;
      && s'.callers == s.callers[c := Leading(key, |s.fetches|)]
      && s'.fetches == s.fetches + [Fetch(key, c, s.now, None, 0, false)]
  {
    var key := s.callers[c].key;
    if key in s.cache.last {
      assert FetchOk(s, s.cache.last[key]);
    }
  }

  /** One that finds a wallet call in flight waits for it. */
  lemma InFlightIsAwaited(s: State, c: int, e: nat)
    requires Inv(s) && c in s.callers && s.callers[c].Looking?
    requires e < |s.fetches| && Current(s.fetches[e], s.callers[c].key) && s.fetches[e].outcome.None?
    ensures Step(s, Look(c)) == s.(callers := s.callers[c := Waiting(s.callers[c].key, e)])
  {
    assert FetchOk(s, e);
  }

  /** One that finds a fresh answer returns it at once. */
  lemma FreshIsServed(s: State, c: int, e: nat)
    requires Inv(s) && c in s.callers && s.callers[c].Looking?
    requires e < |s.fetches| && Current(s.fetches[e], s.callers[c].key) && s.fetches[e].outcome.Some?
    requires !Spoiled(s.fetches[e].outcome.value) && s.now - s.fetches[e].landed < WINDOW
    ensures Step(s, Look(c)) ==
      s.(callers := s.callers[c := Returned(s.callers[c].key, false, e, s.fetches[e].outcome.value.answer, s.now)])
  {
    assert FetchOk(s, e);
  }

  /** When a wallet call ends, those who wait for it look again, and the caller that started
      it returns what it reported. */
  lemma LandingWakes(s: State, c: int)
    requires Inv(s) && c in s.callers && (s.callers[c].Waiting? || s.callers[c].Leading?)
    requires s.callers[c].e < |s.fetches| && s.fetches[s.callers[c].e].outcome.Some?
    ensures s.callers[c].Waiting? ==> Step(s, Wake(c)) == s.(callers := s.callers[c := Looking(s.callers[c].key)])
    ensures s.callers[c].Leading? ==>
      Step(s, Collect(c)) ==
        var o := s.fetches[s.callers[c].e].outcome.value;
        var answer := if o.Panicked? then Answer("", Some(Recovered)) else o.answer;
        s.(callers := s.callers[c := Returned(s.callers[c].key, true, s.callers[c].e, answer, s.now)])
  {
    assert FetchOk(s, s.callers[c].e);
  }

  /** A wallet call in flight can always end, and what it says is kept in its history. */
  lemma FetchLands(s: State, e: nat, o: Outcome)
    requires Inv(s) && e < |s.fetches| && s.fetches[e].outcome.None?
    ensures Step(s, Finish(e, o)).fetches == s.fetches[e := s.fetches[e].(outcome := Some(o), landed := s.now)]
  {
    assert FetchOk(s, e);
  }

  /** A shared answer is never a panic's or a cancelled fetch's. */
  lemma {:induction false} SharedIsSound(now: int, events: seq<Event>, c: int)
    requires var s := Run(Idle(now), events); c in s.callers && s.callers[c].Returned? && !s.callers[c].fetched
    ensures var s := Run(Idle(now), events);
      var x := s.callers[c];
      x.e < |s.fetches| && s.fetches[x.e].outcome == Some(Fetched(x.answer)) && x.answer.err != Some(Canceled)
  {
    AnswersAreReal(now, events, c);
  }

  /** Pruning leaves a small map alone, and takes out of a large one exactly the answers
      that have run out: no call could have been served from them. */
  lemma PrunesExpiredOnly(c: Cache, now: int, key: string)
    requires Named(c)
    ensures var last := Pruned(c, now).last;
      && Pruned(c, now).entries == c.entries
      && (key in last ==> key in c.last && last[key] == c.last[key])
      && (key in c.last && key !in last <==>
            |c.last| > 4096 && key in c.last && !c.entries[c.last[key]].flying
            && now - c.entries[c.last[key]].at >= WINDOW)
  {}
}
