/** The cached site settings: loads and saves interleave freely, and a save whose
    InvalidateSite has returned is never hidden behind an older read. */
module SiteCache {
  import opened Tables

  /** The settings table, which is what a Site is read from. */
  type Settings = map<string, string>

  const TTL := 10 * SECOND

  /** The fields siteMu guards; expires is None for the zero time. */
  datatype Cell = Cell(cached: Settings, expires: Option<int>, gen: nat)

  function Hit(c: Cell, now: int): Option<Settings> {
    if c.expires.Some? && now < c.expires.value then Some(c.cached) else None
  }

  function Kept(c: Cell, read: Settings, gen: nat, now: int): Cell {
    if c.gen == gen then c.(cached := read, expires := Some(now + TTL)) else c
  }

  function Invalidated(c: Cell): Cell {
    Cell(map[], None, c.gen + 1)
  }

  /** The critical sections of SiteOK and InvalidateSite. */
  class Cache {
    var cached: Settings
    var expires: Option<int>
    var gen: nat

    function Contents(): Cell
      reads this
    {
      Cell(cached, expires, gen)
    }

    constructor ()
      ensures Contents() == Cell(map[], None, 0)
    {
      cached, expires, gen := map[], None, 0;
    }

    /** The cached value, or the generation a load has to find again to be kept. */
    method Look(now: int) returns (hit: Option<Settings>, seen: nat)
      ensures hit == Hit(Contents(), now) && seen == gen
    {
      if expires.Some? && now < expires.value {
        return Some(cached), gen;
      }
      return None, gen;
    }

    method Keep(read: Settings, seen: nat, now: int)
      modifies this
      ensures Contents() == Kept(old(Contents()), read, seen, now)
    {
      if gen == seen {
        cached := read;
        expires := Some(now + TTL);
      }
    }

    method Invalidate()
      modifies this
      ensures Contents() == Invalidated(old(Contents()))
    {
      gen := gen + 1;
      expires := None;
      cached := map[];
    }
  }

  // ---- loads and saves ----

  /** A call of SiteOK. floor is the last version cleared when it began; version is the
      table it read, or None when the read failed. */
  datatype Caller =
    | Called(floor: nat)
    | Loading(floor: nat, gen: nat)
    | Loaded(floor: nat, gen: nat, version: Option<nat>)
    | Served(floor: nat, version: Option<nat>, site: Settings, hit: bool)

  /** A save of some settings in one transaction: written (with the version it made, or
      None when it failed), then its InvalidateSite has returned. */
  datatype Saver =
    | Saving(changes: Settings)
    | Written(changes: Settings, version: Option<nat>)
    | Returned(changes: Settings, version: Option<nat>)

  /** tables holds every committed version of the settings; the cell was read from version,
      at stored; cleared is the current version at the last invalidation. */
  datatype State = State(now: int, cell: Cell, tables: seq<Settings>, version: nat, stored: int, cleared: nat,
                         callers: map<int, Caller>, savers: map<int, Saver>)

  datatype Event =
    | Tick(to: int)
    | Call(c: int)
    | Look(c: int)
    | Read(c: int, ok: bool)
    | Finish(c: int)
    | Save(w: int, changes: Settings)
    | Write(w: int, ok: bool)
    | Invalidate(w: int)

  /** One step; an event that is not enabled changes nothing. */
  function Step(s: State, e: Event): State
    requires s.tables != []
  {
    match e
    case Tick(to) => if to >= s.now then s.(now := to) else s
    case Call(c) => if c !in s.callers then s.(callers := s.callers[c := Called(s.cleared)]) else s
    case Look(c) =>
      if c in s.callers && s.callers[c].Called? then
        var hit := Hit(s.cell, s.now);
        s.(callers := s.callers[c :=
          if hit.Some? then Served(s.callers[c].floor, Some(s.version), hit.value, true)
          else Loading(s.callers[c].floor, s.cell.gen)])
      else s
    case Read(c, ok) =>
      if c in s.callers && s.callers[c].Loading? then
        s.(callers := s.callers[c :=
          Loaded(s.callers[c].floor, s.callers[c].gen, if ok then Some(|s.tables| - 1) else None)])
      else s
    case Finish(c) =>
      if c in s.callers && s.callers[c].Loaded? then
        var x := s.callers[c];
        if x.version.None? || x.version.value >= |s.tables| then
          s.(callers := s.callers[c := Served(x.floor, None, map[], false)])
        else
          var read := s.tables[x.version.value];
          var kept := s.cell.gen == x.gen;
          s.(cell := Kept(s.cell, read, x.gen, s.now),
             version := if kept then x.version.value else s.version,
             stored := if kept then s.now else s.stored,
             callers := s.callers[c := Served(x.floor, x.version, read, false)])
      else s
    case Save(w, changes) => if w !in s.savers then s.(savers := s.savers[w := Saving(changes)]) else s
    case Write(w, ok) =>
      if w in s.savers && s.savers[w].Saving? then
        var x := s.savers[w];
        if ok then
          s.(tables := s.tables + [s.tables[|s.tables| - 1] + x.changes],
             savers := s.savers[w := Written(x.changes, Some(|s.tables|))])
        else s.(savers := s.savers[w := Written(x.changes, None)])
      else s
    case Invalidate(w) =>
      if w in s.savers && s.savers[w].Written? then
        s.(cell := Invalidated(s.cell), cleared := |s.tables| - 1,
           savers := s.savers[w := Returned(s.savers[w].changes, s.savers[w].version)])
      else s
  }

  // ---- the invariant ----

  predicate CallerOk(s: State, x: Caller) {
    && x.floor <= s.cleared
    && (x.Loading? ==> x.gen <= s.cell.gen)
    && (x.Loaded? ==> x.gen <= s.cell.gen)
    && (x.Loaded? && x.version.Some? ==>
          && x.floor <= x.version.value < |s.tables|
          && (x.gen == s.cell.gen ==> s.cleared <= x.version.value))
    && (x.Served? && x.version.Some? ==>
          x.floor <= x.version.value < |s.tables| && x.site == s.tables[x.version.value])
  }

  predicate SaverOk(s: State, x: Saver) {
    && (!x.Saving? && x.version.Some? ==>
          0 < x.version.value < |s.tables|
          && s.tables[x.version.value] == s.tables[x.version.value - 1] + x.changes)
    && (x.Returned? && x.version.Some? ==> x.version.value <= s.cleared)
  }

  ghost predicate Inv(s: State) {
    && s.cleared < |s.tables|
    && (s.cell.expires.Some? ==>
          && s.cleared <= s.version < |s.tables| && s.cell.cached == s.tables[s.version]
          && s.cell.expires.value == s.stored + TTL)
    && (forall c :: c in s.callers ==> CallerOk(s, s.callers[c]))
    && (forall w :: w in s.savers ==> SaverOk(s, s.savers[w]))
  }

  /** A call that does not move stays good when others do. */
  lemma CallerStays(s: State, e: Event, c: int)
    requires Inv(s) && c in s.callers && c in Step(s, e).callers && Step(s, e).callers[c] == s.callers[c]
    ensures CallerOk(Step(s, e), s.callers[c])
  {
    assert CallerOk(s, s.callers[c]);
  }

  lemma CallerMoves(s: State, e: Event, c: int)
    requires Inv(s) && c in Step(s, e).callers && (c in s.callers ==> Step(s, e).callers[c] != s.callers[c])
    ensures CallerOk(Step(s, e), Step(s, e).callers[c])
  {
    assert c in s.callers ==> CallerOk(s, s.callers[c]);
  }

  lemma CallersKeep(s: State, e: Event, c: int)
    requires Inv(s) && c in Step(s, e).callers
    ensures CallerOk(Step(s, e), Step(s, e).callers[c])
  {
    if c in s.callers && Step(s, e).callers[c] == s.callers[c] {
      CallerStays(s, e, c);
    } else {
      CallerMoves(s, e, c);
    }
  }

  lemma SaversKeep(s: State, e: Event, w: int)
    requires Inv(s) && w in Step(s, e).savers
    ensures SaverOk(Step(s, e), Step(s, e).savers[w])
  {
    assert w in s.savers ==> SaverOk(s, s.savers[w]);
  }

  lemma CellKeeps(s: State, e: Event)
    requires Inv(s)
    ensures var s' := Step(s, e);
      && s'.cleared < |s'.tables|
      && (s'.cell.expires.Some? ==>
            && s'.cleared <= s'.version < |s'.tables| && s'.cell.cached == s'.tables[s'.version]
            && s'.cell.expires.value == s'.stored + TTL)
  {
    match e
    case Finish(c) => assert c in s.callers ==> CallerOk(s, s.callers[c]);
    case _ =>
  }

  lemma StepKeeps(s: State, e: Event)
    requires Inv(s)
    ensures Inv(Step(s, e))
  {
    CellKeeps(s, e);
    forall c | c in Step(s, e).callers ensures CallerOk(Step(s, e), Step(s, e).callers[c]) {
      CallersKeep(s, e, c);
    }
    forall w | w in Step(s, e).savers ensures SaverOk(Step(s, e), Step(s, e).savers[w]) {
      SaversKeep(s, e, w);
    }
  }

  ghost function Run(s: State, events: seq<Event>): (r: State)
    requires Inv(s)
    ensures Inv(r)
  {
    if |events| == 0 then s else
      StepKeeps(Run(s, events[..|events| - 1]), events[|events| - 1]);
      Step(Run(s, events[..|events| - 1]), events[|events| - 1])
  }

  /** A process that has read nothing yet. */
  function Started(now: int, settings: Settings): State {
    State(now, Cell(map[], None, 0), [settings], 0, 0, 0, map[], map[])
  }

  lemma StartedInv(now: int, settings: Settings)
    ensures Inv(Started(now, settings))
  {}

  /** The process after some events from its start. */
  ghost function Reached(now: int, settings: Settings, events: seq<Event>): (r: State)
    ensures Inv(r)
  {
    StartedInv(now, settings);
    Run(Started(now, settings), events)
  }

  // ---- what it is for ----

  /** In every reachable state a value served from the cache was stored less than the
      lifetime ago, and is a committed version no older than the last invalidation and than
      every save whose InvalidateSite returned: never a failed read's defaults, nor a read
      that an invalidation overtook. */
  lemma {:induction false} HitsAreFresh(now: int, settings: Settings, events: seq<Event>, w: int)
    requires var s := Reached(now, settings, events); Hit(s.cell, s.now).Some?
    ensures var s := Reached(now, settings, events);
      && s.now - s.stored < TTL
      && s.cleared <= s.version < |s.tables| && Hit(s.cell, s.now).value == s.tables[s.version]
      && (w in s.savers && s.savers[w].Returned? && s.savers[w].version.Some? ==>
            s.savers[w].version.value <= s.version)
  {
    var s := Reached(now, settings, events);
    assert w in s.savers ==> SaverOk(s, s.savers[w]);
  }

  /** What was cleared stays cleared, and a call keeps the floor it began with. */
  predicate Later(s: State, s': State, c: int, floor: nat) {
    && s.cleared <= s'.cleared && |s.tables| <= |s'.tables| && s.tables == s'.tables[..|s.tables|]
    && (c in s'.callers ==> s'.callers[c].floor >= floor)
  }

  lemma StepLater(s: State, s1: State, e: Event, c: int, floor: nat)
    requires Inv(s1) && Later(s, s1, c, floor) && floor <= s.cleared
    ensures Later(s, Step(s1, e), c, floor)
  {
    var s2 := Step(s1, e);
    assert s2.tables[..|s1.tables|] == s1.tables;
    assert s2.tables[..|s.tables|] == s1.tables[..|s.tables|];
  }

  lemma {:induction false} FloorStays(s: State, events: seq<Event>, c: int)
    requires Inv(s) && c !in s.callers
    ensures Later(s, Run(s, events), c, s.cleared)
  {
    if |events| > 0 {
      var before := events[..|events| - 1];
      FloorStays(s, before, c);
      StepLater(s, Run(s, before), events[|events| - 1], c, s.cleared);
    }
  }

  /** An answer read from the settings shows the save: its version is no older than the
      one the save made, which has all the values the save wrote. */
  predicate Shows(s: State, answer: Caller, save: Saver)
    requires answer.Served? && answer.version.Some? && !save.Saving? && save.version.Some?
  {
    && 0 < save.version.value <= answer.version.value < |s.tables|
    && answer.site == s.tables[answer.version.value]
    && s.tables[save.version.value] == s.tables[save.version.value - 1] + save.changes
  }

  lemma {:induction false} SeenFrom(s: State, events: seq<Event>, w: int, c: int)
    requires Inv(s) && w in s.savers && s.savers[w].Returned? && s.savers[w].version.Some? && c !in s.callers
    requires var s' := Run(s, events); c in s'.callers && s'.callers[c].Served? && s'.callers[c].version.Some?
    ensures Shows(Run(s, events), Run(s, events).callers[c], s.savers[w])
  {
    FloorStays(s, events, c);
    var s', v := Run(s, events), s.savers[w].version.value;
    assert SaverOk(s, s.savers[w]);
    assert CallerOk(s', s'.callers[c]);
    assert s'.tables[..|s.tables|][v] == s.tables[v] && s'.tables[..|s.tables|][v - 1] == s.tables[v - 1];
  }

  /** A save is never hidden: from the start of the process, once its InvalidateSite has
      returned, every call begun later that is answered from the settings, cached or not,
      shows it. */
  lemma {:induction false} SavesAreSeen(now: int, settings: Settings, events: seq<Event>, later: seq<Event>,
                                        w: int, c: int)
    requires var s := Reached(now, settings, events);
      w in s.savers && s.savers[w].Returned? && s.savers[w].version.Some? && c !in s.callers
    requires var s' := Run(Reached(now, settings, events), later);
      c in s'.callers && s'.callers[c].Served? && s'.callers[c].version.Some?
    ensures var s := Reached(now, settings, events);
      var s' := Run(s, later);
      Shows(s', s'.callers[c], s.savers[w])
  {
    SeenFrom(Reached(now, settings, events), later, w, c);
  }

  /** A load that an invalidation has overtaken, at whatever point of its read. */
  predicate Overtaken(s: State, c: int) {
    && c in s.callers
    && (s.callers[c].Loading? || s.callers[c].Loaded? ==> s.callers[c].gen < s.cell.gen)
    && !s.callers[c].Called?
  }

  lemma StaysOvertaken(s: State, e: Event, c: int)
    requires Inv(s) && Overtaken(s, c)
    ensures Overtaken(Step(s, e), c)
  {}

  lemma {:induction false} RunOvertaken(s: State, events: seq<Event>, c: int)
    requires Inv(s) && Overtaken(s, c)
    ensures Overtaken(Run(s, events), c)
  {
    if |events| > 0 {
      RunOvertaken(s, events[..|events| - 1], c);
      StaysOvertaken(Run(s, events[..|events| - 1]), events[|events| - 1], c);
    }
  }

  /** A load in flight when an InvalidateSite returns never reaches the cache, whatever
      happens before it ends. */
  lemma {:induction false} OvertakenNeverKept(s: State, w: int, events: seq<Event>, c: int)
    requires Inv(s) && w in s.savers && s.savers[w].Written?
    requires c in s.callers && (s.callers[c].Loading? || s.callers[c].Loaded?)
    ensures Inv(Step(s, Invalidate(w)))
    ensures var s' := Run(Step(s, Invalidate(w)), events); Step(s', Finish(c)).cell == s'.cell
  {
    StepKeeps(s, Invalidate(w));
    assert CallerOk(s, s.callers[c]);
    RunOvertaken(Step(s, Invalidate(w)), events, c);
  }

  /** And a read that none overtook is served for its whole lifetime, without reading again. */
  lemma KeptIsServed(s: State, c: int, later: int, reader: int)
    requires Inv(s) && c in s.callers && s.callers[c].Loaded? && s.callers[c].version.Some?
    requires s.callers[c].gen == s.cell.gen && s.now <= later < s.now + TTL && reader !in s.callers
    ensures s.callers[c].version.value < |s.tables|
    ensures var read := s.tables[s.callers[c].version.value];
      var s' := Step(Step(Step(Step(s, Finish(c)), Tick(later)), Call(reader)), Look(reader));
      reader in s'.callers && s'.callers[reader].Served? && s'.callers[reader].hit && s'.callers[reader].site == read
  {
    assert CallerOk(s, s.callers[c]);
  }

  /** Without a cached value a call reads the table as it is, and returns what it read. */
  lemma MissReadsAgain(s: State, c: int)
    requires Inv(s) && c in s.callers && s.callers[c].Called? && Hit(s.cell, s.now).None?
    ensures var s' := Step(Step(Step(s, Look(c)), Read(c, true)), Finish(c));
      && c in s'.callers && s'.callers[c].Served? && !s'.callers[c].hit
      && s'.callers[c].version == Some(|s.tables| - 1) && s'.callers[c].site == s.tables[|s.tables| - 1]
  {}
}
