/** Row locks of the concurrent transactions, as lock-acquiring steps: which lock each
    asks for next, which it may be granted, and why no set of them can wait in a circle. */
module LockOrder {
  import opened Tables

  datatype Resource = Advisory(key: int) | OrderRow(id: int) | GoodsRow(id: int) | CouponRow(id: int) | CardRow(id: int)

  /** The PostgreSQL row lock modes in use: FOR KEY SHARE, FOR NO KEY UPDATE (also what
      UPDATE takes when no key column changes), FOR UPDATE. */
  datatype Mode = KeyShare | NoKeyUpdate | ForUpdate

  predicate Conflict(a: Mode, b: Mode) {
    match a
    case KeyShare => b.ForUpdate?
    case NoKeyUpdate => !b.KeyShare?
    case ForUpdate => true
  }

  /** What a transaction does next. PickCards is the SKIP LOCKED query: it never waits.
      ReleaseCards is the UPDATE of every card reserved for the transaction's order. */
  datatype Ask = Lock(r: Resource, m: Mode) | PickCards | ReleaseCards

  datatype Kind = Checkout | Payment | Expiry | BackOffice | CouponEdit | CardEdit

  /** order is the row a payment, expiry or back-office save works on, and the number a
      checkout's new order gets. */
  datatype Tx = Tx(kind: Kind, order: int, held: map<Resource, Mode>, todo: seq<Ask>)

  /** Live transactions, the committed reservation of every card, and the lock queues: the
      ticket of every transaction that stands in one, for what it asks next. */
  datatype State = State(txs: map<int, Tx>, owner: map<int, Option<int>>, queue: map<int, int>, ticket: int)

  function OwnerOf(owner: map<int, Option<int>>, card: int): Option<int> {
    if card in owner then owner[card] else None
  }

  // ---- the order of asking ----

  function Class(r: Resource): int {
    match r
    case Advisory(_) => 0
    case OrderRow(_) => 1
    case GoodsRow(_) => 2
    case CouponRow(_) => 3
    case CardRow(_) => 4
  }

  function Key(r: Resource): int {
    match r
    case Advisory(k) => k
    case OrderRow(i) => i
    case GoodsRow(i) => i
    case CouponRow(i) => i
    case CardRow(i) => i
  }

  predicate Before(a: Resource, b: Resource) {
    Class(a) < Class(b) || (Class(a) == Class(b) && Key(a) < Key(b))
  }

  // ---- the scripts ----

  function Locks(keys: seq<int>, of: int -> Resource, m: Mode): (r: seq<Ask>)
    ensures |r| == |keys|
    ensures forall i :: 0 <= i < |r| ==> r[i] == Lock(of(keys[i]), m)
  {
    seq(|keys|, i requires 0 <= i < |keys| => Lock(of(keys[i]), m))
  }

  function CouponAsk(coupon: Option<int>): seq<Ask> {
    if coupon.Some? then [Lock(CouponRow(coupon.value), NoKeyUpdate)] else []
  }

  /** createOrder: the quota keys in order, the goods row, cards by SKIP LOCKED, the coupon. */
  function CheckoutScript(keys: seq<int>, g: int, auto: bool, coupon: Option<int>): seq<Ask> {
    Locks(keys, k => Advisory(k), ForUpdate) + [Lock(GoodsRow(g), NoKeyUpdate)]
    + (if auto then [PickCards] else []) + CouponAsk(coupon)
  }

  /** settle: the order row, the goods row, a late payment's coupon, cards by SKIP LOCKED,
      then the release of the order's remaining cards. */
  function PaymentScript(order: int, g: int, auto: bool, coupon: Option<int>): seq<Ask> {
    [Lock(OrderRow(order), ForUpdate), Lock(GoodsRow(g), NoKeyUpdate)] + CouponAsk(coupon)
    + (if auto then [PickCards, ReleaseCards] else [])
  }

  /** expireOne: the order row, the goods row, the coupon, the order's cards. */
  function ExpiryScript(order: int, g: int, coupon: Option<int>): seq<Ask> {
    [Lock(OrderRow(order), NoKeyUpdate), Lock(GoodsRow(g), NoKeyUpdate)] + CouponAsk(coupon) + [ReleaseCards]
  }

  /** orderSave: the order row, then stock on the goods row or the order's cards. */
  function BackOfficeScript(order: int, stock: Option<int>, releases: bool): seq<Ask> {
    [Lock(OrderRow(order), NoKeyUpdate)]
    + (if stock.Some? then [Lock(GoodsRow(stock.value), NoKeyUpdate)] else [])
    + (if releases then [ReleaseCards] else [])
  }

  /** couponSave: every goods row it refers to in id order, then the coupon row. */
  function CouponEditScript(goods: seq<int>, coupon: int, m: Mode): seq<Ask> {
    Locks(goods, g => GoodsRow(g), KeyShare) + [Lock(CouponRow(coupon), m)]
  }

  /** A transaction about to run one of the scripts. */
  ghost predicate Starts(t: Tx) {
    && t.held == map[]
    && match t.kind
       case Checkout => exists keys, g, auto, coupon :: Ascends(keys) && t.todo == CheckoutScript(keys, g, auto, coupon)
       case Payment => exists g, auto, coupon :: t.todo == PaymentScript(t.order, g, auto, coupon)
       case Expiry => exists g, coupon :: t.todo == ExpiryScript(t.order, g, coupon)
       case BackOffice => exists stock, releases :: t.todo == BackOfficeScript(t.order, stock, releases)
       case CouponEdit => exists goods, coupon, m ::
           Ascends(goods) && (m == NoKeyUpdate || m == ForUpdate) && t.todo == CouponEditScript(goods, coupon, m)
       case CardEdit => exists k :: t.todo == [Lock(CardRow(k), NoKeyUpdate)]
  }

  // ---- steps ----

  /** u holds r in a mode that conflicts with m. */
  predicate Blocks(s: State, u: int, r: Resource, m: Mode) {
    u in s.txs && r in s.txs[u].held && Conflict(m, s.txs[u].held[r])
  }

  /** t asks for a lock next. */
  predicate Asks(s: State, t: int) {
    t in s.txs && |s.txs[t].todo| > 0 && s.txs[t].todo[0].Lock?
  }

  /** u stands in a queue, and t does not or joined one later. */
  predicate Earlier(s: State, u: int, t: int) {
    u in s.queue && (t in s.queue ==> s.queue[u] < s.queue[t])
  }

  /** t waits for u, which holds what it asks for. */
  predicate WaitsForHolder(s: State, t: int, u: int) {
    Asks(s, t) && t != u && Blocks(s, u, s.txs[t].todo[0].r, s.txs[t].todo[0].m)
  }

  /** t waits behind u, which asked earlier for the same in a mode that conflicts. */
  predicate WaitsBehind(s: State, t: int, u: int) {
    && Asks(s, t) && t != u && Asks(s, u) && Earlier(s, u, t)
    && s.txs[u].todo[0].r == s.txs[t].todo[0].r && Conflict(s.txs[t].todo[0].m, s.txs[u].todo[0].m)
    && s.txs[t].todo[0].r !in s.txs[t].held
  }

  predicate WaitsFor(s: State, t: int, u: int) {
    WaitsForHolder(s, t, u) || WaitsBehind(s, t, u)
  }

  /** Nothing more can be granted to t as long as others hold what they hold. */
  predicate Withheld(s: State, t: int) {
    exists u :: u in s.txs && WaitsForHolder(s, t, u)
  }

  predicate Blocked(s: State, t: int) {
    exists u :: u in s.txs && WaitsFor(s, t, u)
  }

  datatype Event =
    | Begin(t: int, tx: Tx)
    | Enqueue(t: int)
    | Acquire(t: int)
    | Pick(t: int, cards: set<int>)
    | Expand(t: int, own: seq<int>)
    | Commit(t: int, freed: set<int>)
    | Abort(t: int)

  /** The cards a SKIP LOCKED query may return: free ones, or for a payment its order's own, held by nobody. */
  predicate Pickable(s: State, tx: Tx, t: int, k: int) {
    && (OwnerOf(s.owner, k).None? || (tx.kind.Payment? && OwnerOf(s.owner, k) == Some(tx.order)))
    && forall u :: u in s.txs && u != t ==> CardRow(k) !in s.txs[u].held
  }

  function Hold(held: map<Resource, Mode>, cards: set<int>): map<Resource, Mode> {
    held + map k | k in cards :: CardRow(k) := ForUpdate
  }

  /** What committing does to the reservations: a checkout reserves the cards it picked,
      the others clear some of the cards they hold. */
  function OwnersAfter(s: State, tx: Tx, freed: set<int>): map<int, Option<int>> {
    map k | k in s.owner ::
      if CardRow(k) !in tx.held then s.owner[k]
      else if tx.kind.Checkout? then Some(tx.order)
      else if (tx.kind.Payment? || tx.kind.Expiry? || tx.kind.BackOffice?) && k in freed then None
      else s.owner[k]
  }

  /** One step; an event that is not enabled changes nothing. A grant need not respect the
      queue: a request that meets no holder may overtake those who wait. */
  ghost function Step(s: State, e: Event): State {
    match e
    case Begin(t, tx) => if t !in s.txs && Starts(tx) then s.(txs := s.txs[t := tx]) else s
    case Enqueue(t) =>
      if Asks(s, t) && Blocked(s, t) && t !in s.queue then
        s.(queue := s.queue[t := s.ticket], ticket := s.ticket + 1)
      else s
    case Acquire(t) =>
      if Asks(s, t) && !Withheld(s, t) then
        var tx := s.txs[t];
        s.(txs := s.txs[t := tx.(held := tx.held[tx.todo[0].r := tx.todo[0].m], todo := tx.todo[1..])],
           queue := s.queue - {t})
      else s
    case Pick(t, cards) =>
      if t in s.txs && |s.txs[t].todo| > 0 && s.txs[t].todo[0].PickCards?
         && forall k :: k in cards ==> Pickable(s, s.txs[t], t, k) then
        var tx := s.txs[t];
        s.(txs := s.txs[t := tx.(held := Hold(tx.held, cards), todo := tx.todo[1..])])
      else s
    case Expand(t, own) =>
      if t in s.txs && |s.txs[t].todo| > 0 && s.txs[t].todo[0].ReleaseCards?
         && forall i :: 0 <= i < |own| ==> OwnerOf(s.owner, own[i]) == Some(s.txs[t].order) then
        var tx := s.txs[t];
        s.(txs := s.txs[t := tx.(todo := Locks(own, k => CardRow(k), NoKeyUpdate) + tx.todo[1..])])
      else s
    case Commit(t, freed) =>
      if t in s.txs && s.txs[t].todo == [] then
        State(s.txs - {t}, OwnersAfter(s, s.txs[t], freed), s.queue - {t}, s.ticket)
      else s
    case Abort(t) => s.(txs := s.txs - {t}, queue := s.queue - {t})
  }

  ghost function Run(s: State, events: seq<Event>): State {
    if |events| == 0 then s else Step(Run(s, events[..|events| - 1]), events[|events| - 1])
  }

  // ---- the invariant ----

  /** A transaction that works under an order's row lock. */
  predicate ForOrder(tx: Tx) {
    tx.kind.Payment? || tx.kind.Expiry? || tx.kind.BackOffice?
  }

  /** Locks are asked for in order; only card locks, taken last, are exempt. */
  ghost predicate Orderly(tx: Tx) {
    && (forall i, j :: 0 <= i < j < |tx.todo| && tx.todo[i].Lock? && tx.todo[j].Lock? && !tx.todo[i].r.CardRow? ==>
          Before(tx.todo[i].r, tx.todo[j].r))
    && (forall r, j :: r in tx.held && !r.CardRow? && 0 <= j < |tx.todo| && tx.todo[j].Lock? ==>
          Before(r, tx.todo[j].r))
  }

  /** A transaction on an order asks for that row before anything else, exclusively. */
  ghost predicate RowFirst(tx: Tx) {
    ForOrder(tx) ==>
      || (OrderRow(tx.order) in tx.held && !tx.held[OrderRow(tx.order)].KeyShare?)
      || (tx.held == map[] && |tx.todo| > 0 && tx.todo[0].Lock? && tx.todo[0].r == OrderRow(tx.order)
          && !tx.todo[0].m.KeyShare?)
  }

  /** What the cards a transaction holds or asks for are: a card edit's one card, or cards
      of the transaction's own order, or free ones. */
  predicate CardAsk(a: Ask) {
    a.Lock? && a.r.CardRow?
  }

  ghost predicate CardsOf(owner: map<int, Option<int>>, tx: Tx) {
    && (forall k :: CardRow(k) in tx.held && !tx.kind.CardEdit? ==>
          OwnerOf(owner, k).None? || (ForOrder(tx) && OwnerOf(owner, k) == Some(tx.order)))
    && (forall j :: 0 <= j < |tx.todo| && CardAsk(tx.todo[j]) && !tx.kind.CardEdit? ==>
          ForOrder(tx) && OwnerOf(owner, tx.todo[j].r.id) == Some(tx.order))
    && (forall i, j :: 0 <= i < j < |tx.todo| && CardAsk(tx.todo[j]) ==> CardAsk(tx.todo[i]))
    && (forall j :: 0 <= j < |tx.todo| && tx.todo[j].ReleaseCards? ==>
          ForOrder(tx) && j == |tx.todo| - 1)
    && (tx.kind.CardEdit? ==> tx.todo == [] || (tx.held == map[] && |tx.todo| == 1 && CardAsk(tx.todo[0])))
  }

  predicate Compatible(a: map<Resource, Mode>, b: map<Resource, Mode>) {
    forall r :: r in a && r in b ==> !Conflict(a[r], b[r])
  }

  ghost predicate Exclusive(s: State) {
    forall t, u :: t in s.txs && u in s.txs && t != u ==> Compatible(s.txs[t].held, s.txs[u].held)
  }

  /** Card rows are only ever held exclusively. */
  ghost predicate CardModes(s: State) {
    && (forall t, k :: t in s.txs && CardRow(k) in s.txs[t].held ==> !s.txs[t].held[CardRow(k)].KeyShare?)
    && (forall t, j :: t in s.txs && 0 <= j < |s.txs[t].todo| && CardAsk(s.txs[t].todo[j]) ==>
          !s.txs[t].todo[j].m.KeyShare?)
  }

  ghost predicate Inv(s: State) {
    && (forall t :: t in s.txs ==> Orderly(s.txs[t]) && RowFirst(s.txs[t]) && CardsOf(s.owner, s.txs[t]))
    && Exclusive(s) && CardModes(s)
  }

  ghost predicate StartsOk(owner: map<int, Option<int>>, tx: Tx) {
    && Orderly(tx) && RowFirst(tx) && CardsOf(owner, tx)
    && forall j :: 0 <= j < |tx.todo| && CardAsk(tx.todo[j]) ==> !tx.todo[j].m.KeyShare?
  }

  predicate InOrder(asks: seq<Ask>) {
    forall i, j :: 0 <= i < j < |asks| && asks[i].Lock? && asks[j].Lock? ==> Before(asks[i].r, asks[j].r)
  }

  /** Locks of these classes only, and no release of cards. */
  predicate Within(asks: seq<Ask>, low: int, high: int) {
    forall i :: 0 <= i < |asks| ==> !asks[i].ReleaseCards? && (asks[i].Lock? ==> low <= Class(asks[i].r) <= high)
  }

  /** Asking for the rest after everything of a lower class keeps the order. */
  lemma InOrderThen(first: seq<Ask>, rest: seq<Ask>, top: int)
    requires top <= 3 && InOrder(first) && Within(first, 0, top) && InOrder(rest) && Within(rest, top + 1, 3)
    ensures InOrder(first + rest) && Within(first + rest, 0, 3)
  {
    var all := first + rest;
    forall i, j | 0 <= i < j < |all| && all[i].Lock? && all[j].Lock? ensures Before(all[i].r, all[j].r) {
      assert i >= |first| ==> all[i] == rest[i - |first|];
      assert j >= |first| ==> all[j] == rest[j - |first|];
    }
  }

  /** A script without cards that locks in order is a good start. */
  lemma PlainStarts(owner: map<int, Option<int>>, tx: Tx)
    requires tx.held == map[] && !ForOrder(tx) && !tx.kind.CardEdit?
    requires InOrder(tx.todo) && Within(tx.todo, 0, 3)
    ensures StartsOk(owner, tx)
  {}

  lemma CheckoutStarts(owner: map<int, Option<int>>, tx: Tx, keys: seq<int>, g: int, auto: bool, coupon: Option<int>)
    requires tx.held == map[] && tx.kind.Checkout? && Ascends(keys) && tx.todo == CheckoutScript(keys, g, auto, coupon)
    ensures StartsOk(owner, tx)
  {
    var first := Locks(keys, k => Advisory(k), ForUpdate);
    var rest := [Lock(GoodsRow(g), NoKeyUpdate)] + (if auto then [PickCards] else []) + CouponAsk(coupon);
    assert tx.todo == first + rest;
    InOrderThen(first, rest, 0);
    PlainStarts(owner, tx);
  }

  /** So is one that locks its order's row first and ends with a release of cards, if any. */
  lemma OrderStarts(owner: map<int, Option<int>>, tx: Tx, locks: seq<Ask>, tail: seq<Ask>)
    requires tx.held == map[] && ForOrder(tx) && tx.todo == locks + tail
    requires |locks| > 0 && locks[0].Lock? && locks[0].r == OrderRow(tx.order) && !locks[0].m.KeyShare?
    requires InOrder(locks) && Within(locks, 0, 3)
    requires forall i :: 0 <= i < |tail| ==> !tail[i].Lock? && (tail[i].ReleaseCards? ==> i == |tail| - 1)
    ensures StartsOk(owner, tx)
  {
    forall i | 0 <= i < |tx.todo| ensures tx.todo[i] == if i < |locks| then locks[i] else tail[i - |locks|] {}
  }

  lemma PaymentStarts(owner: map<int, Option<int>>, tx: Tx, g: int, auto: bool, coupon: Option<int>)
    requires tx.held == map[] && tx.kind.Payment? && tx.todo == PaymentScript(tx.order, g, auto, coupon)
    ensures StartsOk(owner, tx)
  {
    OrderStarts(owner, tx, [Lock(OrderRow(tx.order), ForUpdate), Lock(GoodsRow(g), NoKeyUpdate)] + CouponAsk(coupon),
                if auto then [PickCards, ReleaseCards] else []);
  }

  lemma ExpiryStarts(owner: map<int, Option<int>>, tx: Tx, g: int, coupon: Option<int>)
    requires tx.held == map[] && tx.kind.Expiry? && tx.todo == ExpiryScript(tx.order, g, coupon)
    ensures StartsOk(owner, tx)
  {
    OrderStarts(owner, tx, [Lock(OrderRow(tx.order), NoKeyUpdate), Lock(GoodsRow(g), NoKeyUpdate)] + CouponAsk(coupon),
                [ReleaseCards]);
  }

  lemma BackOfficeStarts(owner: map<int, Option<int>>, tx: Tx, stock: Option<int>, releases: bool)
    requires tx.held == map[] && tx.kind.BackOffice? && tx.todo == BackOfficeScript(tx.order, stock, releases)
    ensures StartsOk(owner, tx)
  {
    var taken := if stock.Some? then [Lock(GoodsRow(stock.value), NoKeyUpdate)] else [];
    OrderStarts(owner, tx, [Lock(OrderRow(tx.order), NoKeyUpdate)] + taken, if releases then [ReleaseCards] else []);
  }

  lemma CouponEditStarts(owner: map<int, Option<int>>, tx: Tx, goods: seq<int>, coupon: int, m: Mode)
    requires tx.held == map[] && tx.kind.CouponEdit? && Ascends(goods) && tx.todo == CouponEditScript(goods, coupon, m)
    ensures StartsOk(owner, tx)
  {
    InOrderThen(Locks(goods, g => GoodsRow(g), KeyShare), [Lock(CouponRow(coupon), m)], 2);
    PlainStarts(owner, tx);
  }

  /** Every script is orderly, asks for its order row first and leaves the cards for last. */
  lemma StartOk(owner: map<int, Option<int>>, tx: Tx)
    requires Starts(tx)
    ensures StartsOk(owner, tx)
  {
    match tx.kind
    case Checkout =>
      var keys, g, auto, coupon :| Ascends(keys) && tx.todo == CheckoutScript(keys, g, auto, coupon);
      CheckoutStarts(owner, tx, keys, g, auto, coupon);
    case Payment =>
      var g, auto, coupon :| tx.todo == PaymentScript(tx.order, g, auto, coupon);
      PaymentStarts(owner, tx, g, auto, coupon);
    case Expiry =>
      var g, coupon :| tx.todo == ExpiryScript(tx.order, g, coupon);
      ExpiryStarts(owner, tx, g, coupon);
    case BackOffice =>
      var stock, releases :| tx.todo == BackOfficeScript(tx.order, stock, releases);
      BackOfficeStarts(owner, tx, stock, releases);
    case CouponEdit =>
      var goods, coupon, m :| Ascends(goods) && (m == NoKeyUpdate || m == ForUpdate)
                              && tx.todo == CouponEditScript(goods, coupon, m);
      CouponEditStarts(owner, tx, goods, coupon, m);
    case CardEdit =>
  }

  ghost predicate TxOk(owner: map<int, Option<int>>, tx: Tx) {
    Orderly(tx) && RowFirst(tx) && CardsOf(owner, tx)
  }

  lemma BeginKeeps(s: State, t: int, tx: Tx)
    requires Inv(s)
    ensures Inv(Step(s, Begin(t, tx)))
  {
    if t !in s.txs && Starts(tx) {
      StartOk(s.owner, tx);
    }
  }

  lemma AcquireOwn(owner: map<int, Option<int>>, tx: Tx, tx': Tx)
    requires TxOk(owner, tx) && |tx.todo| > 0 && tx.todo[0].Lock?
    requires tx' == tx.(held := tx.held[tx.todo[0].r := tx.todo[0].m], todo := tx.todo[1..])
    ensures TxOk(owner, tx')
  {
    assert forall j :: 0 <= j < |tx'.todo| ==> tx'.todo[j] == tx.todo[j + 1];
  }

  lemma ConflictBothWays(a: Mode, b: Mode)
    ensures Conflict(a, b) <==> Conflict(b, a)
  {}

  lemma GrantCompatible(a: map<Resource, Mode>, b: map<Resource, Mode>, r: Resource, m: Mode)
    requires Compatible(a, b) && (r in b ==> !Conflict(m, b[r]))
    ensures Compatible(a[r := m], b) && Compatible(b, a[r := m])
  {
    forall q | q in b && q in a[r := m] ensures !Conflict(b[q], a[r := m][q]) {
      ConflictBothWays(b[q], a[r := m][q]);
    }
  }

  lemma GrantedExclusive(s: State, t: int)
    requires Inv(s) && Asks(s, t) && !Withheld(s, t)
    ensures Exclusive(Step(s, Acquire(t)))
  {
    var s', r, m := Step(s, Acquire(t)), s.txs[t].todo[0].r, s.txs[t].todo[0].m;
    forall u | u in s.txs && u != t
      ensures Compatible(s'.txs[t].held, s.txs[u].held) && Compatible(s.txs[u].held, s'.txs[t].held)
    {
      assert !WaitsForHolder(s, t, u);
      GrantCompatible(s.txs[t].held, s.txs[u].held, r, m);
    }
  }

  lemma GrantedModes(s: State, t: int)
    requires Inv(s) && Asks(s, t) && !Withheld(s, t)
    ensures CardModes(Step(s, Acquire(t)))
  {
    var tx, tx' := s.txs[t], Step(s, Acquire(t)).txs[t];
    assert CardAsk(tx.todo[0]) ==> !tx.todo[0].m.KeyShare?;
    assert forall j :: 0 <= j < |tx'.todo| ==> tx'.todo[j] == tx.todo[j + 1];
  }

  lemma AcquireKeeps(s: State, t: int)
    requires Inv(s)
    ensures Inv(Step(s, Acquire(t)))
  {
    if Asks(s, t) && !Withheld(s, t) {
      AcquireOwn(s.owner, s.txs[t], Step(s, Acquire(t)).txs[t]);
      GrantedExclusive(s, t);
      GrantedModes(s, t);
    }
  }

  lemma PickOwn(s: State, t: int, cards: set<int>, tx': Tx)
    requires t in s.txs && TxOk(s.owner, s.txs[t]) && |s.txs[t].todo| > 0 && s.txs[t].todo[0].PickCards?
    requires forall k :: k in cards ==> Pickable(s, s.txs[t], t, k)
    requires tx' == s.txs[t].(held := Hold(s.txs[t].held, cards), todo := s.txs[t].todo[1..])
    ensures TxOk(s.owner, tx')
  {
    assert forall j :: 0 <= j < |tx'.todo| ==> tx'.todo[j] == s.txs[t].todo[j + 1];
  }

  lemma PickCompatible(a: map<Resource, Mode>, b: map<Resource, Mode>, cards: set<int>)
    requires Compatible(a, b) && Compatible(b, a) && forall k :: k in cards ==> CardRow(k) !in b
    ensures Compatible(Hold(a, cards), b) && Compatible(b, Hold(a, cards))
  {}

  lemma PickedExclusive(s: State, t: int, cards: set<int>)
    requires Inv(s)
    ensures Exclusive(Step(s, Pick(t, cards)))
  {
    var s' := Step(s, Pick(t, cards));
    if s' != s {
      forall u | u in s.txs && u != t
        ensures Compatible(s'.txs[t].held, s.txs[u].held) && Compatible(s.txs[u].held, s'.txs[t].held)
      {
        PickCompatible(s.txs[t].held, s.txs[u].held, cards);
      }
    }
  }

  lemma PickedModes(s: State, t: int, cards: set<int>)
    requires Inv(s)
    ensures CardModes(Step(s, Pick(t, cards)))
  {
    var s' := Step(s, Pick(t, cards));
    if s' != s {
      assert forall j :: 0 <= j < |s'.txs[t].todo| ==> s'.txs[t].todo[j] == s.txs[t].todo[j + 1];
    }
  }

  lemma PickKeeps(s: State, t: int, cards: set<int>)
    requires Inv(s)
    ensures Inv(Step(s, Pick(t, cards)))
  {
    var s' := Step(s, Pick(t, cards));
    PickedExclusive(s, t, cards);
    PickedModes(s, t, cards);
    if s' != s {
      PickOwn(s, t, cards, s'.txs[t]);
    }
  }

  lemma ExpandOwn(owner: map<int, Option<int>>, tx: Tx, own: seq<int>, tx': Tx)
    requires TxOk(owner, tx) && |tx.todo| > 0 && tx.todo[0].ReleaseCards?
    requires forall i :: 0 <= i < |own| ==> OwnerOf(owner, own[i]) == Some(tx.order)
    requires tx' == tx.(todo := Locks(own, k => CardRow(k), NoKeyUpdate) + tx.todo[1..])
    ensures TxOk(owner, tx')
    ensures forall j :: 0 <= j < |tx'.todo| ==> tx'.todo[j] == Lock(CardRow(own[j]), NoKeyUpdate)
  {
    assert tx.todo[1..] == [];
  }

  lemma ExpandKeeps(s: State, t: int, own: seq<int>)
    requires Inv(s)
    ensures Inv(Step(s, Expand(t, own)))
  {
    var s' := Step(s, Expand(t, own));
    if t in s.txs && |s.txs[t].todo| > 0 && s.txs[t].todo[0].ReleaseCards?
       && forall i :: 0 <= i < |own| ==> OwnerOf(s.owner, own[i]) == Some(s.txs[t].order) {
      ExpandOwn(s.owner, s.txs[t], own, s'.txs[t]);
    }
  }

  /** Two transactions never work under the same order's row lock. */
  lemma OrderRowUnique(s: State, t: int, u: int)
    requires Inv(s) && t in s.txs && u in s.txs && t != u && ForOrder(s.txs[t]) && ForOrder(s.txs[u])
    requires OrderRow(s.txs[t].order) in s.txs[t].held && OrderRow(s.txs[u].order) in s.txs[u].held
    ensures s.txs[t].order != s.txs[u].order
  {
    assert RowFirst(s.txs[t]) && RowFirst(s.txs[u]);
  }

  /** A transaction that asks for its order's cards, or holds one of them, holds the order's row. */
  lemma RowHeld(s: State, t: int)
    requires Inv(s) && t in s.txs && ForOrder(s.txs[t])
    requires s.txs[t].todo == [] || CardAsk(s.txs[t].todo[0]) || s.txs[t].held != map[]
    ensures OrderRow(s.txs[t].order) in s.txs[t].held
  {
    assert RowFirst(s.txs[t]);
  }

  /** Nobody else holds a card whose reservation a commit changes, nor asks for it as its own. */
  lemma CommitTouches(s: State, t: int, u: int, k: int, freed: set<int>)
    requires Inv(s) && t in s.txs && u in s.txs && t != u && s.txs[t].todo == [] && k in s.owner
    requires OwnersAfter(s, s.txs[t], freed)[k] != s.owner[k]
    ensures CardRow(k) !in s.txs[u].held
    ensures !s.txs[u].kind.CardEdit? ==>
      forall j :: 0 <= j < |s.txs[u].todo| && CardAsk(s.txs[u].todo[j]) ==> s.txs[u].todo[j].r.id != k
  {
    var a, b := s.txs[t], s.txs[u];
    assert CardsOf(s.owner, a) && CardsOf(s.owner, b);
    assert CardRow(k) in a.held && !a.held[CardRow(k)].KeyShare?;
    assert s.owner[k].None? || (ForOrder(a) && s.owner[k] == Some(a.order));
    if s.owner[k].Some? && |b.todo| > 0 && CardAsk(b.todo[0]) && ForOrder(b) {
      RowHeld(s, t);
      RowHeld(s, u);
      OrderRowUnique(s, t, u);
    }
  }

  lemma CommitKeeps(s: State, t: int, freed: set<int>)
    requires Inv(s)
    ensures Inv(Step(s, Commit(t, freed)))
  {
    if t in s.txs && s.txs[t].todo == [] {
      var s' := Step(s, Commit(t, freed));
      forall u | u in s'.txs ensures CardsOf(s'.owner, s'.txs[u]) {
        assert CardsOf(s.owner, s.txs[u]);
        forall k | k in s.owner && OwnersAfter(s, s.txs[t], freed)[k] != s.owner[k]
          ensures CardRow(k) !in s.txs[u].held
          ensures !s.txs[u].kind.CardEdit? ==>
            forall j :: 0 <= j < |s.txs[u].todo| && CardAsk(s.txs[u].todo[j]) ==> s.txs[u].todo[j].r.id != k
        {
          CommitTouches(s, t, u, k, freed);
        }
      }
    }
  }

  lemma StepKeeps(s: State, e: Event)
    requires Inv(s)
    ensures Inv(Step(s, e))
  {
    match e
    case Begin(t, tx) => BeginKeeps(s, t, tx);
    case Acquire(t) => AcquireKeeps(s, t);
    case Pick(t, cards) => PickKeeps(s, t, cards);
    case Expand(t, own) => ExpandKeeps(s, t, own);
    case Commit(t, freed) => CommitKeeps(s, t, freed);
    case Enqueue(t) =>
    case Abort(t) =>
  }

  lemma {:induction false} RunKeeps(s: State, events: seq<Event>)
    requires s.txs == map[]
    ensures Inv(Run(s, events))
  {
    if |events| > 0 {
      RunKeeps(s, events[..|events| - 1]);
      StepKeeps(Run(s, events[..|events| - 1]), events[|events| - 1]);
    }
  }

  // ---- no circle of waiting ----

  /** While a transaction works under an order's row lock, only a back-office card edit can
      hold a card that is reserved to that order besides it. */
  lemma OwnCardsFree(s: State, t: int, u: int, k: int)
    requires Inv(s) && t in s.txs && u in s.txs && t != u
    requires ForOrder(s.txs[t]) && OrderRow(s.txs[t].order) in s.txs[t].held
    requires OwnerOf(s.owner, k) == Some(s.txs[t].order) && CardRow(k) in s.txs[u].held
    ensures s.txs[u].kind.CardEdit?
  {
    assert CardsOf(s.owner, s.txs[u]);
    if ForOrder(s.txs[u]) {
      RowHeld(s, u);
      OrderRowUnique(s, t, u);
    }
  }

  /** A transaction that still asks for something and holds anything is no card edit. */
  lemma EditHoldsNothing(s: State, t: int, u: int)
    requires Inv(s) && WaitsForHolder(s, t, u) && u in s.txs && |s.txs[u].todo| > 0
    ensures !s.txs[u].kind.CardEdit?
  {
    assert CardsOf(s.owner, s.txs[u]);
  }

  /** Checkouts, payments, expiries and order saves never find each other holding a card
      they ask for, although they take cards and coupons in opposite orders: a wait for
      the holder of a card has a back-office card edit at one end. */
  lemma CardWaits(s: State, t: int, u: int)
    requires Inv(s) && WaitsForHolder(s, t, u) && u in s.txs && s.txs[t].todo[0].r.CardRow?
    ensures s.txs[t].kind.CardEdit? || s.txs[u].kind.CardEdit?
  {
    var a, k := s.txs[t], s.txs[t].todo[0].r.id;
    assert CardsOf(s.owner, a);
    if !a.kind.CardEdit? {
      assert CardAsk(a.todo[0]) && ForOrder(a) && OwnerOf(s.owner, k) == Some(a.order);
      RowHeld(s, t);
      OwnCardsFree(s, t, u, k);
    }
  }

  /** A card edit that waits for a card which one of the ledger's transactions holds: the
      one wait that does not follow the order of asking. */
  predicate Stray(s: State, t: int, u: int) {
    && Asks(s, t) && s.txs[t].kind.CardEdit?
    && u in s.txs && !s.txs[u].kind.CardEdit? && s.txs[t].todo[0].r in s.txs[u].held
  }

  ghost predicate Strays(s: State, t: int) {
    exists u :: u in s.txs && Stray(s, t, u)
  }

  /** x's request comes after t's in the order of asking, or stands before it in one queue. */
  predicate Onward(s: State, t: int, x: int) {
    && Asks(s, t) && Asks(s, x)
    && (|| Before(s.txs[t].todo[0].r, s.txs[x].todo[0].r)
        || (s.txs[t].todo[0].r == s.txs[x].todo[0].r && Earlier(s, x, t)))
  }

  lemma OnwardOnward(s: State, t: int, u: int, x: int)
    requires Onward(s, t, u) && Onward(s, u, x)
    ensures Onward(s, t, x)
  {}

  lemma NotOnwardToItself(s: State, t: int)
    ensures !Onward(s, t, t)
  {}

  /** Whoever is waited for waits, if at all, for something later in the order of asking,
      or as an earlier one in the same queue. */
  lemma WaitsGrow(s: State, t: int, u: int)
    requires Inv(s) && WaitsFor(s, t, u) && Asks(s, u) && !Strays(s, t)
    ensures Onward(s, t, u)
  {
    if WaitsForHolder(s, t, u) {
      EditHoldsNothing(s, t, u);
      assert !Stray(s, t, u);
      assert Orderly(s.txs[u]);
      if s.txs[t].todo[0].r.CardRow? {
        CardWaits(s, t, u);
        assert false;
      }
    }
  }

  /** Only strays wait for a stray, all for the same card and in its queue. */
  lemma StraysBehindStray(s: State, t: int, u: int, x: int)
    requires Inv(s) && WaitsFor(s, t, u) && u in s.txs && x in s.txs && Stray(s, u, x)
    ensures Stray(s, t, x) && Onward(s, t, u)
  {
    assert CardsOf(s.owner, s.txs[u]);
    if !s.txs[t].kind.CardEdit? {
      var k := s.txs[t].todo[0].r.id;
      assert CardsOf(s.owner, s.txs[t]) && CardAsk(s.txs[t].todo[0]);
      assert WaitsBehind(s, t, u) && t != x;
      assert WaitsForHolder(s, t, x);
      CardWaits(s, t, x);
      assert false;
    }
  }

  /** A path in the waits-for graph. */
  ghost predicate Path(s: State, p: seq<int>) {
    |p| >= 2 ==> WaitsFor(s, p[0], p[1]) && Path(s, p[1..])
  }

  lemma PathTail(s: State, p: seq<int>)
    requires |p| >= 3 && Path(s, p)
    ensures var q := p[1..]; WaitsFor(s, p[0], q[0]) && Path(s, q) && q[0] == p[1] && q[|q| - 1] == p[|p| - 1]
  {}

  lemma PathStarts(s: State, p: seq<int>)
    requires |p| >= 2 && Path(s, p)
    ensures WaitsFor(s, p[0], p[1])
  {}

  /** A path to a stray is all strays in one queue. */
  lemma {:induction false} StrayPath(s: State, p: seq<int>, x: int)
    requires Inv(s) && |p| >= 2 && Path(s, p) && x in s.txs && Stray(s, p[|p| - 1], x)
    ensures Stray(s, p[0], x) && Onward(s, p[0], p[|p| - 1])
  {
    if |p| == 2 {
      StraysBehindStray(s, p[0], p[1], x);
    } else {
      PathTail(s, p);
      StrayPath(s, p[1..], x);
      StraysBehindStray(s, p[0], p[1], x);
      OnwardOnward(s, p[0], p[1], p[|p| - 1]);
    }
  }

  /** A stray is waited for by strays only. */
  lemma NotToStray(s: State, t: int, u: int)
    requires Inv(s) && WaitsFor(s, t, u) && u in s.txs && !Strays(s, t)
    ensures !Strays(s, u)
  {
    if Strays(s, u) {
      var x :| x in s.txs && Stray(s, u, x);
      StraysBehindStray(s, t, u, x);
    }
  }

  /** Along any other path, what is waited for only moves onward. */
  lemma {:induction false} PathGrows(s: State, p: seq<int>)
    requires Inv(s) && |p| >= 2 && Path(s, p) && !Strays(s, p[0]) && Asks(s, p[|p| - 1])
    ensures Onward(s, p[0], p[|p| - 1])
  {
    if |p| == 2 {
      WaitsGrow(s, p[0], p[1]);
    } else {
      PathTail(s, p);
      PathStarts(s, p[1..]);
      WaitsGrow(s, p[0], p[1]);
      NotToStray(s, p[0], p[1]);
      PathGrows(s, p[1..]);
      OnwardOnward(s, p[0], p[1], p[|p| - 1]);
    }
  }

  /** In every reachable state the waits-for graph, with its edges to holders and to earlier
      waiters, has no cycle of whatever length. */
  lemma NoDeadlock(s: State, events: seq<Event>, cycle: seq<int>)
    requires s.txs == map[]
    requires |cycle| >= 2 && cycle[0] == cycle[|cycle| - 1]
    ensures !Path(Run(s, events), cycle)
  {
    var s' := Run(s, events);
    RunKeeps(s, events);
    if Path(s', cycle) {
      assert WaitsFor(s', cycle[0], cycle[1]);
      NotOnwardToItself(s', cycle[0]);
      if Strays(s', cycle[0]) {
        var x :| x in s'.txs && Stray(s', cycle[0], x);
        StrayPath(s', cycle, x);
      } else {
        PathGrows(s', cycle);
      }
    }
  }

  // ---- someone can always go on ----

  /** The blocked transactions onward from t. */
  ghost function BlockedOnward(s: State, t: int): set<int> {
    set x | x in s.txs && Blocked(s, x) && Onward(s, t, x)
  }

  /** Following the waits from t ends at a transaction that is not blocked. */
  lemma {:induction false} Follow(s: State, t: int) returns (free: int)
    requires Inv(s) && t in s.txs && Blocked(s, t) && !Strays(s, t)
    ensures free in s.txs && !Blocked(s, free)
    decreases |BlockedOnward(s, t)|
  {
    var u :| u in s.txs && WaitsFor(s, t, u);
    if Blocked(s, u) {
      WaitsGrow(s, t, u);
      NotToStray(s, t, u);
      FewerOnward(s, t, u);
      free := Follow(s, u);
    } else {
      free := u;
    }
  }

  lemma FewerOnward(s: State, t: int, u: int)
    requires u in s.txs && Blocked(s, u) && Onward(s, t, u)
    ensures |BlockedOnward(s, u)| < |BlockedOnward(s, t)|
  {
    var all, rest := BlockedOnward(s, t), BlockedOnward(s, u);
    NotOnwardToItself(s, u);
    assert u in all && u !in rest;
    forall x | x in rest ensures x in all - {u} {
      OnwardOnward(s, t, u, x);
    }
    SubsetSize(rest, all - {u});
  }

  /** In every reachable state with live transactions some transaction waits for nobody,
      neither for a holder nor behind an earlier waiter. */
  lemma SomeoneCanGo(s: State, events: seq<Event>) returns (free: int)
    requires s.txs == map[] && Run(s, events).txs != map[]
    ensures free in Run(s, events).txs && !Blocked(Run(s, events), free)
  {
    var s' := Run(s, events);
    RunKeeps(s, events);
    SomeLive(s');
    var t :| t in s'.txs;
    if !Blocked(s', t) {
      free := t;
    } else if Strays(s', t) {
      var u :| u in s'.txs && Stray(s', t, u);
      HolderIsNoStray(s', u);
      if Blocked(s', u) {
        free := Follow(s', u);
      } else {
        free := u;
      }
    } else {
      free := Follow(s', t);
    }
  }

  lemma HolderIsNoStray(s: State, u: int)
    requires u in s.txs && !s.txs[u].kind.CardEdit?
    ensures !Strays(s, u)
  {}

  lemma SomeLive(s: State)
    requires s.txs != map[]
    ensures exists t :: t in s.txs
  {
    NonEmpty(s.txs.Keys);
  }

  // ---- and goes on ----

  /** A transaction that waits for nobody can take a step: its next lock is granted, its cards
      are picked or listed, or it commits. */
  lemma FreeMoves(s: State, t: int) returns (e: Event)
    requires t in s.txs && !Blocked(s, t)
    ensures var s' := Step(s, e);
      if s.txs[t].todo == [] then t !in s'.txs else t in s'.txs && s'.txs[t].todo == s.txs[t].todo[1..]
    ensures s.txs[t].todo != [] && s.txs[t].todo[0].Lock? ==>
      e == Acquire(t) && s.txs[t].todo[0].r in Step(s, e).txs[t].held
  {
    var todo := s.txs[t].todo;
    if todo == [] {
      e := Commit(t, {});
    } else if todo[0].Lock? {
      e := Acquire(t);
      assert !Withheld(s, t) by {
        if u :| u in s.txs && WaitsForHolder(s, t, u) {
          assert WaitsFor(s, t, u);
        }
      }
    } else if todo[0].PickCards? {
      e := Pick(t, {});
    } else {
      e := Expand(t, []);
      assert Locks([], k => CardRow(k), NoKeyUpdate) + todo[1..] == todo[1..];
    }
  }
}
