/** The unpaid-order quota of concurrent checkouts: advisory locks, a count of committed
    orders, an insert stamped with the transaction's start, and a commit that ends the
    locks. Every statement is its own step, so checkouts interleave freely. */
module UnpaidQuota {
  /** What the quota counts by: an address block, or an email in lower case. */
  datatype Who = Email(email: string) | Source(source: string)

  const MAX_PER_EMAIL := 3
  const MAX_PER_SOURCE := 5

  function Quota(who: Who): nat {
    if who.Email? then MAX_PER_EMAIL else MAX_PER_SOURCE
  }

  /** A committed order; created is the start of the transaction that placed it. */
  datatype Order = Order(source: string, email: string, unpaid: bool, created: int)

  predicate Belongs(o: Order, who: Who) {
    match who
    case Email(e) => o.email == e
    case Source(s) => o.source == s
  }

  /** count(*) of one key's unpaid orders created after a moment. */
  function Count(orders: seq<Order>, who: Who, since: int): nat {
    if |orders| == 0 then 0 else
    var o := orders[|orders| - 1];
    Count(orders[..|orders| - 1], who, since) + if Belongs(o, who) && o.unpaid && o.created > since then 1 else 0
  }

  /** The keys a checkout locks, in the order their texts sort: email before source;
      an unknown address ("") is not a key. */
  function Keys(source: string, email: string): seq<Who> {
    [Email(email)] + if source != "" then [Source(source)] else []
  }

  /** locked counts the keys taken so far; counted tells that the quota let it through. */
  datatype Tx = Tx(source: string, email: string, start: int, locked: nat, counted: bool)

  function KeysOf(t: Tx): seq<Who> {
    Keys(t.source, t.email)
  }

  predicate Holds(t: Tx, who: Who) {
    exists i :: 0 <= i < t.locked && i < |KeysOf(t)| && KeysOf(t)[i] == who
  }

  datatype State = State(now: int, txs: map<int, Tx>, orders: seq<Order>)

  datatype Event =
    | Tick(to: int)
    | Begin(t: int, source: string, email: string)
    | LockKey(t: int)
    | CountOrders(t: int)
    | Commit(t: int)
    | Abort(t: int)
    | Settle(order: int)

  /** Every key the checkout counts is below its limit; only known addresses are counted. */
  predicate Admits(orders: seq<Order>, t: Tx, expire: int) {
    && (t.source != "" ==> Count(orders, Source(t.source), t.start - expire) < MAX_PER_SOURCE)
    && Count(orders, Email(t.email), t.start - expire) < MAX_PER_EMAIL
  }

  /** One step; an event that is not enabled changes nothing. Settle is a payment or an
      expiry: either way the order stops being unpaid. */
  function Step(s: State, e: Event, expire: int): State {
    match e
    case Tick(to) => if to >= s.now then s.(now := to) else s
    case Begin(t, source, email) =>
      if t !in s.txs then s.(txs := s.txs[t := Tx(source, email, s.now, 0, false)]) else s
    case LockKey(t) =>
      if t in s.txs && s.txs[t].locked < |KeysOf(s.txs[t])|
         && forall u :: u in s.txs && u != t ==> !Holds(s.txs[u], KeysOf(s.txs[t])[s.txs[t].locked]) then
        s.(txs := s.txs[t := s.txs[t].(locked := s.txs[t].locked + 1)])
      else s
    case CountOrders(t) =>
      if t in s.txs && s.txs[t].locked == |KeysOf(s.txs[t])| && !s.txs[t].counted then
        if Admits(s.orders, s.txs[t], expire) then s.(txs := s.txs[t := s.txs[t].(counted := true)])
        else s.(txs := s.txs - {t})
      else s
    case Commit(t) =>
      if t in s.txs && s.txs[t].counted then
        State(s.now, s.txs - {t}, s.orders + [Order(s.txs[t].source, s.txs[t].email, true, s.txs[t].start)])
      else s
    case Abort(t) => s.(txs := s.txs - {t})
    case Settle(i) =>
      if 0 <= i < |s.orders| then s.(orders := s.orders[i := s.orders[i].(unpaid := false)]) else s
  }

  function Run(s: State, events: seq<Event>, expire: int): State {
    if |events| == 0 then s else Step(Run(s, events[..|events| - 1], expire), events[|events| - 1], expire)
  }

  // ---- counting ----

  lemma CountAppend(orders: seq<Order>, o: Order, who: Who, since: int)
    ensures Count(orders + [o], who, since) ==
      Count(orders, who, since) + if Belongs(o, who) && o.unpaid && o.created > since then 1 else 0
  {
    assert (orders + [o])[..|orders|] == orders;
  }

  /** A later moment counts no more. */
  lemma {:induction false} CountLater(orders: seq<Order>, who: Who, since: int, later: int)
    requires since <= later
    ensures Count(orders, who, later) <= Count(orders, who, since)
  {
    if |orders| > 0 {
      CountLater(orders[..|orders| - 1], who, since, later);
    }
  }

  /** A settled order counts no more. */
  lemma {:induction false} CountSettled(orders: seq<Order>, i: int, who: Who, since: int)
    requires 0 <= i < |orders|
    ensures Count(orders[i := orders[i].(unpaid := false)], who, since) <= Count(orders, who, since)
  {
    var orders' := orders[i := orders[i].(unpaid := false)];
    if i == |orders| - 1 {
      assert orders'[..|orders| - 1] == orders[..|orders| - 1];
    } else {
      assert orders'[..|orders| - 1] == orders[..|orders| - 1][i := orders[i].(unpaid := false)];
      CountSettled(orders[..|orders| - 1], i, who, since);
    }
  }

  // ---- the invariant ----

  /** A counted checkout still has room under each of its keys: it holds them, so nobody
      else has inserted under them since. */
  ghost predicate TxOk(s: State, t: Tx, expire: int) {
    && t.start <= s.now
    && t.locked <= |KeysOf(t)|
    && (t.counted ==> t.locked == |KeysOf(t)| && Admits(s.orders, t, expire))
  }

  ghost predicate Inv(s: State, expire: int) {
    && (forall t :: t in s.txs ==> TxOk(s, s.txs[t], expire))
    && (forall t, u, who :: t in s.txs && u in s.txs && t != u && Holds(s.txs[t], who) ==> !Holds(s.txs[u], who))
    && (forall who: Who :: who != Source("") ==> Count(s.orders, who, s.now - expire) <= Quota(who))
  }

  /** A checkout that has all its keys holds exactly those. */
  lemma AllHeld(t: Tx, who: Who)
    requires t.locked == |KeysOf(t)|
    ensures Holds(t, who) <==> who == Email(t.email) || (t.source != "" && who == Source(t.source))
  {
    assert KeysOf(t)[0] == Email(t.email);
    if t.source != "" {
      assert KeysOf(t)[1] == Source(t.source);
    }
  }

  /** The inserted order fits every quota it counts against. */
  lemma CommitCounts(s: State, t: int, expire: int, who: Who)
    requires Inv(s, expire) && t in s.txs && s.txs[t].counted && who != Source("")
    ensures Count(Step(s, Commit(t), expire).orders, who, s.now - expire) <= Quota(who)
  {
    var tx := s.txs[t];
    assert TxOk(s, tx, expire);
    CountAppend(s.orders, Order(tx.source, tx.email, true, tx.start), who, s.now - expire);
    CountLater(s.orders, who, tx.start - expire, s.now - expire);
  }

  lemma CommitKeeps(s: State, t: int, expire: int)
    requires Inv(s, expire) && t in s.txs && s.txs[t].counted
    ensures Inv(Step(s, Commit(t), expire), expire)
  {
    var s' := Step(s, Commit(t), expire);
    forall u | u in s'.txs ensures TxOk(s', s'.txs[u], expire) {
      CommitOther(s, t, u, expire);
    }
    forall who: Who | who != Source("") ensures Count(s'.orders, who, s'.now - expire) <= Quota(who) {
      CommitCounts(s, t, expire, who);
    }
  }

  /** An insert under other keys leaves a counted checkout its room. */
  lemma CommitOther(s: State, t: int, u: int, expire: int)
    requires Inv(s, expire) && t in s.txs && s.txs[t].counted && u in s.txs && u != t
    ensures TxOk(Step(s, Commit(t), expire), s.txs[u], expire)
  {
    var a, b := s.txs[t], s.txs[u];
    var o := Order(a.source, a.email, true, a.start);
    if b.counted {
      assert TxOk(s, a, expire) && TxOk(s, b, expire);
      AllHeld(a, Email(a.email));
      AllHeld(b, Email(a.email));
      AllHeld(a, Source(a.source));
      AllHeld(b, Source(a.source));
      CountAppend(s.orders, o, Email(b.email), b.start - expire);
      CountAppend(s.orders, o, Source(b.source), b.start - expire);
    }
  }

  lemma SettleKeeps(s: State, i: int, expire: int)
    requires Inv(s, expire)
    ensures Inv(Step(s, Settle(i), expire), expire)
  {
    if 0 <= i < |s.orders| {
      var s' := Step(s, Settle(i), expire);
      forall u | u in s'.txs ensures TxOk(s', s'.txs[u], expire) {
        CountSettled(s.orders, i, Email(s.txs[u].email), s.txs[u].start - expire);
        CountSettled(s.orders, i, Source(s.txs[u].source), s.txs[u].start - expire);
        assert TxOk(s, s.txs[u], expire);
      }
      forall who: Who | who != Source("") ensures Count(s'.orders, who, s'.now - expire) <= Quota(who) {
        CountSettled(s.orders, i, who, s.now - expire);
      }
    }
  }

  lemma LockKeeps(s: State, t: int, expire: int)
    requires Inv(s, expire)
    ensures Inv(Step(s, LockKey(t), expire), expire)
  {
    var s' := Step(s, LockKey(t), expire);
    if s' != s {
      var tx, tx' := s.txs[t], s'.txs[t];
      var key := KeysOf(tx)[tx.locked];
      assert TxOk(s, tx, expire);
      forall who ensures Holds(tx', who) <==> Holds(tx, who) || who == key {
        if who == key {
          assert KeysOf(tx')[tx.locked] == who;
        }
        if Holds(tx, who) {
          var i :| 0 <= i < tx.locked && i < |KeysOf(tx)| && KeysOf(tx)[i] == who;
          assert KeysOf(tx')[i] == who;
        }
      }
      forall u | u in s'.txs ensures TxOk(s', s'.txs[u], expire) {
        assert TxOk(s, s.txs[u], expire);
      }
    }
  }

  lemma TickKeeps(s: State, to: int, expire: int)
    requires Inv(s, expire)
    ensures Inv(Step(s, Tick(to), expire), expire)
  {
    if to >= s.now {
      forall t | t in s.txs ensures TxOk(Step(s, Tick(to), expire), s.txs[t], expire) {
        assert TxOk(s, s.txs[t], expire);
      }
      forall who: Who | who != Source("") ensures Count(s.orders, who, to - expire) <= Quota(who) {
        CountLater(s.orders, who, s.now - expire, to - expire);
      }
    }
  }

  /** Steps that leave the clock, the orders and everyone's keys as they are, or end a checkout. */
  lemma QuietKeeps(s: State, e: Event, expire: int)
    requires Inv(s, expire) && (e.Begin? || e.CountOrders? || e.Abort?)
    ensures Inv(Step(s, e, expire), expire)
  {
    var s' := Step(s, e, expire);
    forall t | t in s'.txs ensures TxOk(s', s'.txs[t], expire) {
      assert t in s.txs ==> TxOk(s, s.txs[t], expire);
    }
    forall t, who | t in s'.txs && Holds(s'.txs[t], who) ensures t in s.txs && Holds(s.txs[t], who) {
      assert t in s.txs ==> s'.txs[t].locked == s.txs[t].locked && KeysOf(s'.txs[t]) == KeysOf(s.txs[t]);
    }
  }

  lemma StepKeeps(s: State, e: Event, expire: int)
    requires Inv(s, expire)
    ensures Inv(Step(s, e, expire), expire)
  {
    match e
    case Tick(to) => TickKeeps(s, to, expire);
    case LockKey(t) => LockKeeps(s, t, expire);
    case Commit(t) =>
      if t in s.txs && s.txs[t].counted {
        CommitKeeps(s, t, expire);
      }
    case Settle(i) => SettleKeeps(s, i, expire);
    case _ => QuietKeeps(s, e, expire);
  }

  lemma {:induction false} RunKeeps(s: State, events: seq<Event>, expire: int)
    requires s.txs == map[] && s.orders == []
    ensures Inv(Run(s, events, expire), expire)
  {
    if |events| > 0 {
      RunKeeps(s, events[..|events| - 1], expire);
      StepKeeps(Run(s, events[..|events| - 1], expire), events[|events| - 1], expire);
    }
  }

  /** At every moment of every interleaving: at most 5 unpaid, unexpired orders of one
      known address block and at most 3 of one email. */
  lemma QuotaHolds(s: State, events: seq<Event>, expire: int, source: string, email: string)
    requires s.txs == map[] && s.orders == []
    ensures var s' := Run(s, events, expire);
      && (source != "" ==> Count(s'.orders, Source(source), s'.now - expire) <= 5)
      && Count(s'.orders, Email(email), s'.now - expire) <= 3
  {
    RunKeeps(s, events, expire);
    var s' := Run(s, events, expire);
    assert source != "" ==> Count(s'.orders, Source(source), s'.now - expire) <= Quota(Source(source));
    assert Count(s'.orders, Email(email), s'.now - expire) <= Quota(Email(email));
  }

  // ---- and no more than that is refused ----

  /** An order that a key has unpaid and unexpired at a moment. */
  predicate Holding(o: Order, who: Who, since: int) {
    o.unpaid && o.created > since && match who case Email(e) => o.email == e case Source(a) => o.source == a
  }

  function Unpaid(orders: seq<Order>, who: Who, since: int): set<int> {
    set i | 0 <= i < |orders| && Holding(orders[i], who, since)
  }

  lemma UnpaidGrows(orders: seq<Order>, who: Who, since: int)
    requires |orders| > 0
    ensures var n := |orders| - 1;
      Unpaid(orders, who, since) == Unpaid(orders[..n], who, since) + if Holding(orders[n], who, since) then {n} else {}
  {}

  lemma {:induction false} CountIsSize(orders: seq<Order>, who: Who, since: int)
    ensures Count(orders, who, since) == |Unpaid(orders, who, since)|
  {
    if |orders| == 0 {
      assert Unpaid(orders, who, since) == {};
    } else {
      CountIsSize(orders[..|orders| - 1], who, since);
      UnpaidGrows(orders, who, since);
      assert |orders| - 1 !in Unpaid(orders[..|orders| - 1], who, since);
    }
  }

  /** A checkout that holds its keys is let through if and only if each is below its limit. */
  lemma CountedExactly(s: State, t: int, expire: int)
    requires t in s.txs && s.txs[t].locked == |KeysOf(s.txs[t])| && !s.txs[t].counted
    ensures var s', x := Step(s, CountOrders(t), expire), s.txs[t];
      if |Unpaid(s.orders, Email(x.email), x.start - expire)| < 3
         && (x.source != "" ==> |Unpaid(s.orders, Source(x.source), x.start - expire)| < 5)
      then s' == s.(txs := s.txs[t := x.(counted := true)]) else s' == s.(txs := s.txs - {t})
  {
    CountIsSize(s.orders, Email(s.txs[t].email), s.txs[t].start - expire);
    CountIsSize(s.orders, Source(s.txs[t].source), s.txs[t].start - expire);
  }

  /** Nobody else stands in its way: a checkout alone takes its keys one after the other, and
      with room under each it is placed. */
  lemma RoomMeansPlaced(s: State, t: int, source: string, email: string, expire: int)
    requires s.txs == map[]
    requires |Unpaid(s.orders, Email(email), s.now - expire)| < 3
    requires source != "" ==> |Unpaid(s.orders, Source(source), s.now - expire)| < 5
    ensures var s1 := Step(Step(s, Begin(t, source, email), expire), LockKey(t), expire);
      var s2 := if source != "" then Step(s1, LockKey(t), expire) else s1;
      var s3 := Step(Step(s2, CountOrders(t), expire), Commit(t), expire);
      s3.orders == s.orders + [Order(source, email, true, s.now)] && s3.txs == map[]
  {
    var s1 := Step(Step(s, Begin(t, source, email), expire), LockKey(t), expire);
    assert s1.txs == map[t := Tx(source, email, s.now, 1, false)];
    var s2 := if source != "" then Step(s1, LockKey(t), expire) else s1;
    assert s2 == s.(txs := map[t := Tx(source, email, s.now, |Keys(source, email)|, false)]);
    CountedExactly(s2, t, expire);
  }
}
