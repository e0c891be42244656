/** Whole runs of the shop: any interleaving of checkouts, payment notices (repeated,
    late, wrong), redeliveries, expiries, stale back-office saves and card edits. */
module LedgerRuns {
  import opened Tables
  import opened Text
  import opened Ledger
  import opened LedgerInvariant
  import opened LedgerSteps

  /** One committed transaction or edit. skip is the set of cards other transactions
      hold at that moment; a Save carries a row some earlier Load returned. */
  datatype Event =
    | Checkout(form: Ledger.Checkout, skip: set<int>)
    | Notice(id: int, paid: int, trade: string, skip: set<int>)
    | Redeliver(id: int, skip: set<int>)
    | Expire(id: int)
    | Load(id: int)
    | Save(row: Row, formOk: bool, to: int, info: string)
    | EditCard(card: int, goods: int, status: int, loop: bool, text: string)
    | DeleteCard(card: int, restore: bool)
    | ImportCards(goods: int, loop: bool, texts: seq<string>)
    | DeleteGoods(goods: int, restore: bool)
    | DeleteCoupon(coupon: int, restore: bool)

  /** One settlement that delivered: consumed are its cards that are not loop cards; own and
      shelf are the cards of its goods that were reserved to it, and free, at that moment. */
  datatype Delivery = Delivery(order: int, goods: int, amount: int, cards: seq<int>, consumed: set<int>,
                               own: set<int>, shelf: set<int>)

  /** The tables, the rows loaded into back-office forms, and the deliveries so far. */
  datatype World = World(db: Db, rows: set<Row>, log: seq<Delivery>)

  function Consumed(cards: map<int, Card>, picked: seq<int>): set<int> {
    set k | k in picked && k in cards && !cards[k].loop
  }

  function Entry(db: Db, id: int, picked: seq<int>): Delivery
    requires id in db.orders
  {
    var o := db.orders[id];
    Delivery(id, o.goods, o.amount, picked, Consumed(db.cards, picked),
             OwnCards(db.cards, o.goods, id), FreeCards(db.cards, o.goods))
  }

  function Settle(w: World, id: int, paid: int, trade: string, redeliver: bool, skip: set<int>): World {
    var (db', r) := SettleStep(w.db, id, paid, trade, redeliver, skip);
    if r.Delivered? && id in w.db.orders then World(db', w.rows, w.log + [Entry(w.db, id, r.cards)])
    else w.(db := db')
  }

  function Step(w: World, e: Event): World {
    match e
    case Checkout(form, skip) => w.(db := CheckoutStep(w.db, form, skip).0)
    case Notice(id, paid, trade, skip) => Settle(w, id, paid, trade, false, skip)
    case Redeliver(id, skip) => Settle(w, id, 0, "", true, skip)
    case Expire(id) => w.(db := ExpireStep(w.db, id))
    case Load(id) => (match LoadRow(w.db, id) case None => w case Some(row) => w.(rows := w.rows + {row}))
    case Save(row, formOk, to, info) =>
      if row in w.rows then w.(db := SaveStep(w.db, row, formOk, to, info).0) else w
    case EditCard(k, g, status, loop, text) => w.(db := EditCardStep(w.db, k, g, status, loop, text))
    case DeleteCard(k, restore) => w.(db := DeleteCardStep(w.db, k, restore))
    case ImportCards(g, loop, texts) => w.(db := ImportStep(w.db, g, loop, texts))
    case DeleteGoods(g, restore) => w.(db := DeleteGoodsStep(w.db, g, restore))
    case DeleteCoupon(c, restore) => w.(db := DeleteCouponStep(w.db, c, restore))
  }

  function Run(w: World, events: seq<Event>): World {
    if |events| == 0 then w else Step(Run(w, events[..|events| - 1]), events[|events| - 1])
  }

  ghost predicate RowsOk(w: World) {
    forall row :: row in w.rows ==> RowOk(row, w.db.orders)
  }

  ghost predicate WorldInv(w: World) {
    Inv(w.db) && RowsOk(w)
  }

  ghost predicate FreshWorld(w: World) {
    Fresh(w.db) && w.rows == {} && w.log == []
  }

  predicate IsEdit(e: Event) {
    e.EditCard? || e.DeleteCard? || e.ImportCards? || e.DeleteGoods? || e.DeleteCoupon?
  }

  lemma EditsKept(w: World, e: Event)
    requires WorldInv(w) && IsEdit(e)
    ensures StepOk(w.db, Step(w, e).db)
  {
    match e
    case EditCard(k, g, status, loop, text) => EditCardKeeps(w.db, k, g, status, loop, text);
    case DeleteCard(k, restore) => DeleteCardKeeps(w.db, k, restore);
    case ImportCards(g, loop, texts) =>
      Unchanged(w.db);
      ImportKeeps(w.db, g, loop, texts);
    case DeleteGoods(g, restore) => DeleteGoodsKeeps(w.db, g, restore);
    case DeleteCoupon(c, restore) => DeleteCouponKeeps(w.db, c, restore);
  }

  lemma FormsKept(w: World, e: Event)
    requires WorldInv(w) && (e.Load? || e.Save?)
    ensures StepOk(w.db, Step(w, e).db)
  {
    Unchanged(w.db);
    if e.Save? && e.row in w.rows {
      SaveKeeps(w.db, e.row, e.formOk, e.to, e.info);
    }
  }

  lemma TablesKept(w: World, e: Event)
    requires WorldInv(w) && !IsEdit(e)
    ensures StepOk(w.db, Step(w, e).db)
  {
    match e
    case Checkout(form, skip) => CheckoutKeeps(w.db, form, skip);
    case Notice(id, paid, trade, skip) => SettleKeeps(w.db, id, paid, trade, false, skip);
    case Redeliver(id, skip) => SettleKeeps(w.db, id, 0, "", true, skip);
    case Expire(id) => ExpireKeeps(w.db, id);
    case _ => FormsKept(w, e);
  }

  /** Loaded rows stay as good as they were, and a new one is read off a sound order. */
  lemma RowsStay(w: World, e: Event)
    requires WorldInv(w) && OrdersEvolve(w.db, Step(w, e).db)
    ensures RowsOk(Step(w, e))
  {
    if e.Load? && e.id in w.db.orders {
      assert OrderOk(w.db.orders[e.id]);
    }
    forall row | row in w.rows ensures RowOk(row, Step(w, e).db.orders) {
      assert RowOk(row, w.db.orders);
      assert Evolves(w.db.orders[row.id], Step(w, e).db.orders[row.id]);
    }
  }

  lemma StepKeeps(w: World, e: Event)
    requires WorldInv(w)
    ensures WorldInv(Step(w, e)) && StepOk(w.db, Step(w, e).db)
  {
    if IsEdit(e) {
      EditsKept(w, e);
    } else {
      TablesKept(w, e);
    }
    RowsStay(w, e);
  }

  /** Any run keeps the invariant, conserves the totals, moves orders only forward and
      leaves a still unpaid order its cards. */
  lemma {:induction false} RunKeeps(w: World, events: seq<Event>)
    requires WorldInv(w)
    ensures WorldInv(Run(w, events)) && StepOk(w.db, Run(w, events).db)
  {
    if |events| == 0 {
      Unchanged(w.db);
    } else {
      var before := Run(w, events[..|events| - 1]);
      RunKeeps(w, events[..|events| - 1]);
      StepKeeps(before, events[|events| - 1]);
      StepsCompose(w.db, before.db, Run(w, events).db);
    }
  }

  // ---- conservation ----

  lemma NothingTaken(db: Db)
    requires Fresh(db)
    ensures forall g :: g in db.goods ==> StockTotal(db, g) == db.goods[g].stock
    ensures forall c :: c in db.coupons ==> CouponTotal(db, c) == db.coupons[c].ret
  {}

  /** From a fresh shop: the counter of a goods plus what its manual orders took is the
      supply it started with, the counter is never negative, and exactly the manual
      orders parked as short still owe their stock. */
  lemma {:induction false} StockConserved(w: World, events: seq<Event>, g: int)
    requires FreshWorld(w) && g in w.db.goods
    ensures var db := Run(w, events).db;
      && g in db.goods
      && db.goods[g].stock + Total(db.orders, StockUnits(g)) == w.db.goods[g].stock
      && db.goods[g].stock >= 0
      && forall id :: id in db.orders ==>
           (db.orders[id].owed <==> db.orders[id].kind.Manual? && db.orders[id].status == SHORT)
  {
    FreshInv(w.db);
    RunKeeps(w, events);
    NothingTaken(w.db);
    var db := Run(w, events).db;
    assert StockTotal(db, g) == StockTotal(w.db, g);
    forall id | id in db.orders
      ensures db.orders[id].owed <==> db.orders[id].kind.Manual? && db.orders[id].status == SHORT
    {
      assert OrderOk(db.orders[id]);
    }
  }

  /** From a fresh shop: the uses left on a coupon plus the orders that hold one are the
      uses it started with, and none is overdrawn. */
  lemma {:induction false} CouponConserved(w: World, events: seq<Event>, c: int)
    requires FreshWorld(w) && c in w.db.coupons
    ensures var db := Run(w, events).db;
      && c in db.coupons
      && db.coupons[c].ret + Total(db.orders, CouponUnits(c)) == w.db.coupons[c].ret
      && db.coupons[c].ret >= 0
  {
    FreshInv(w.db);
    RunKeeps(w, events);
    NothingTaken(w.db);
    assert CouponTotal(Run(w, events).db, c) == CouponTotal(w.db, c);
  }

  /** From a fresh shop: an order's coupon use is handed back exactly while the order is
      expired, and an unpaid order has it. */
  lemma {:induction false} HandedBackExactly(w: World, events: seq<Event>, id: int)
    requires FreshWorld(w) && id in Run(w, events).db.orders
    ensures var o := Run(w, events).db.orders[id];
      && (o.coupon > 0 ==> (o.retBack == HANDED_BACK <==> o.status == EXPIRED))
      && (o.status == UNPAID ==> o.retBack == TAKEN)
  {
    FreshInv(w.db);
    RunKeeps(w, events);
    assert OrderOk(Run(w, events).db.orders[id]);
  }

  /** From a fresh shop: every reserved card is on sale, not deleted, of the goods its
      order bought, and its order is automatic and unpaid or short; an unpaid automatic
      order holds exactly its amount. */
  lemma {:induction false} ReservationsSound(w: World, events: seq<Event>)
    requires FreshWorld(w)
    ensures var db := Run(w, events).db;
      && (forall k :: k in db.cards && db.cards[k].owner.Some? ==>
            var id := db.cards[k].owner.value;
            && db.cards[k].status == ON_SALE && !db.cards[k].deleted
            && id in db.orders && db.orders[id].goods == db.cards[k].goods && db.orders[id].kind.Auto?
            && (db.orders[id].status == UNPAID || db.orders[id].status == SHORT))
      && (forall id :: id in db.orders && db.orders[id].kind.Auto? && db.orders[id].status == UNPAID ==>
            |Reserved(db.cards, id)| == db.orders[id].amount)
  {
    FreshInv(w.db);
    RunKeeps(w, events);
    var db := Run(w, events).db;
    forall k | k in db.cards && db.cards[k].owner.Some? ensures CardOk(db.cards[k], db.orders) {}
  }

  /** Whatever happens next: an unpaid status is never entered again, an order expires
      only out of it, a finished order stays finished, and what was bought never changes. */
  lemma OrdersMoveForward(w: World, events: seq<Event>, id: int)
    requires WorldInv(w) && id in w.db.orders
    ensures var a, db := w.db.orders[id], Run(w, events).db;
      && id in db.orders
      && var b := db.orders[id];
      && (b.status == UNPAID ==> a.status == UNPAID)
      && (b.status == EXPIRED ==> a.status == UNPAID || a.status == EXPIRED)
      && (a.status == DONE ==> b.status == DONE)
      && b.goods == a.goods && b.kind == a.kind && b.amount == a.amount && b.actual == a.actual && b.coupon == a.coupon
  {
    RunKeeps(w, events);
    assert Evolves(w.db.orders[id], Run(w, events).db.orders[id]);
  }

  // ---- nothing is fulfilled unpaid ----

  predicate Fulfilled(status: int) {
    2 <= status <= 6
  }

  /** A step from db to db' fulfils an order only if it was fulfilled already, or paid. */
  predicate FulfilsOnly(db: Db, db': Db, id: int, pays: bool) {
    id in db'.orders && Fulfilled(db'.orders[id].status) ==>
      id in db.orders && (Fulfilled(db.orders[id].status) || pays)
  }

  lemma CheckoutPays(db: Db, form: Ledger.Checkout, skip: set<int>, id: int)
    ensures FulfilsOnly(db, CheckoutStep(db, form, skip).0, id, false)
  {}

  /** A settlement writes at most one row, and only one whose payment it accepted. */
  lemma SettlePays(db: Db, i: int, paid: int, trade: string, redeliver: bool, skip: set<int>, id: int)
    ensures FulfilsOnly(db, SettleStep(db, i, paid, trade, redeliver, skip).0, id,
                        !redeliver && i == id && id in db.orders && paid == db.orders[id].actual)
  {}

  lemma SavePays(db: Db, row: Row, formOk: bool, to: int, info: string, id: int)
    ensures FulfilsOnly(db, SaveStep(db, row, formOk, to, info).0, id, false)
  {}

  lemma EditPays(w: World, e: Event, id: int)
    requires WorldInv(w) && IsEdit(e)
    ensures FulfilsOnly(w.db, Step(w, e).db, id, false)
  {
    if e.ImportCards? {
      ImportKeeps(w.db, e.goods, e.loop, e.texts);
    }
  }

  /** An order leaves the unpaid and expired states for a fulfilled one only in the
      settlement of a notice that names its price. */
  lemma PaidByNotice(w: World, e: Event, id: int)
    requires WorldInv(w) && id in Step(w, e).db.orders && Fulfilled(Step(w, e).db.orders[id].status)
    ensures id in w.db.orders
    ensures Fulfilled(w.db.orders[id].status) || (e.Notice? && e.id == id && e.paid == w.db.orders[id].actual)
  {
    if IsEdit(e) {
      EditPays(w, e, id);
    } else {
      match e
      case Checkout(form, skip) => CheckoutPays(w.db, form, skip, id);
      case Notice(i, paid, trade, skip) => SettlePays(w.db, i, paid, trade, false, skip, id);
      case Redeliver(i, skip) => SettlePays(w.db, i, 0, "", true, skip, id);
      case Save(row, formOk, to, info) => SavePays(w.db, row, formOk, to, info, id);
      case _ =>
    }
  }

  /** One of these events is a notice for this order and this price. */
  predicate Noticed(events: seq<Event>, id: int, price: int) {
    exists i :: 0 <= i < |events| && events[i].Notice? && events[i].id == id && events[i].paid == price
  }

  lemma NoticedStill(events: seq<Event>, id: int, price: int)
    requires |events| > 0 && Noticed(events[..|events| - 1], id, price)
    ensures Noticed(events, id, price)
  {
    var init := events[..|events| - 1];
    var i :| 0 <= i < |init| && init[i].Notice? && init[i].id == id && init[i].paid == price;
    assert events[i] == init[i];
  }

  /** The price an order had before a step is the price it has after. */
  lemma PriceStays(w: World, e: Event, id: int)
    requires WorldInv(w) && id in w.db.orders
    ensures id in Step(w, e).db.orders && Step(w, e).db.orders[id].actual == w.db.orders[id].actual
  {
    StepKeeps(w, e);
    assert Evolves(w.db.orders[id], Step(w, e).db.orders[id]);
  }

  lemma {:induction false} NoticedUnlessUnpaid(w: World, events: seq<Event>, id: int)
    requires WorldInv(w) && w.db.orders == map[]
    requires id in Run(w, events).db.orders && Fulfilled(Run(w, events).db.orders[id].status)
    ensures Noticed(events, id, Run(w, events).db.orders[id].actual)
  {
    if |events| > 0 {
      var init, e := events[..|events| - 1], events[|events| - 1];
      var before := Run(w, init);
      RunKeeps(w, init);
      PaidByNotice(before, e, id);
      PriceStays(before, e, id);
      if Fulfilled(before.db.orders[id].status) {
        NoticedUnlessUnpaid(w, init, id);
        NoticedStill(events, id, before.db.orders[id].actual);
      }
    }
  }

  /** In every reachable state an order that is being fulfilled, failed or parked as
      short has had a payment notice for exactly its price. */
  lemma {:induction false} NothingFulfilledUnpaid(w: World, events: seq<Event>, id: int)
    requires FreshWorld(w)
    requires id in Run(w, events).db.orders && Fulfilled(Run(w, events).db.orders[id].status)
    ensures Noticed(events, id, Run(w, events).db.orders[id].actual)
  {
    FreshInv(w.db);
    NoticedUnlessUnpaid(w, events, id);
  }

  // ---- exactly once ----

  /** Where a delivered order can stand: an automatic one is done for good, a manual one
      is somewhere in its handling. */
  predicate SettledStatus(o: Order) {
    if o.kind.Auto? then o.status == DONE else PENDING <= o.status <= FAILED
  }

  ghost predicate DeliveryOk(d: Delivery, db: Db) {
    && d.order in db.orders && SettledStatus(db.orders[d.order])
    && d.goods == db.orders[d.order].goods && d.amount == db.orders[d.order].amount
    && (db.orders[d.order].kind.Auto? ==> |d.cards| == d.amount)
    && (forall i, j :: 0 <= i < j < |d.cards| ==> d.cards[i] != d.cards[j])
    && (forall k :: k in d.cards ==> k in d.own || k in d.shelf)
    && (forall k :: k in d.consumed ==> k in db.cards && db.cards[k].status == SOLD)
  }

  ghost predicate LogInv(w: World) {
    && (forall i :: 0 <= i < |w.log| ==> DeliveryOk(w.log[i], w.db))
    && (forall i, j :: 0 <= i < j < |w.log| ==>
          w.log[i].order != w.log[j].order && w.log[i].consumed !! Members(w.log[j].cards))
  }

  /** Units of g handed out by the deliveries so far. */
  ghost function SoldUnits(log: seq<Delivery>, g: int): int {
    if |log| == 0 then 0 else
    SoldUnits(log[..|log| - 1], g) + if log[|log| - 1].goods == g then log[|log| - 1].amount else 0
  }

  ghost predicate SoldStays(db: Db, db': Db) {
    forall k :: k in db.cards && db.cards[k].status == SOLD ==> k in db'.cards && db'.cards[k].status == SOLD
  }

  /** What a run does not change about the deliveries already made and the sales counters. */
  ghost predicate LogKept(w: World, w': World) {
    && w.log <= w'.log
    && SoldStays(w.db, w'.db)
    && w'.db.goods.Keys == w.db.goods.Keys
    && forall g :: g in w.db.goods ==>
         w'.db.goods[g].sales - SoldUnits(w'.log, g) == w.db.goods[g].sales - SoldUnits(w.log, g)
  }

  lemma {:induction false} ImportedStay(db: Db, g: int, loop: bool, texts: seq<string>)
    requires Inv(db)
    ensures var db' := Ledger.ImportCards(db, g, loop, texts);
      SoldStays(db, db') && db'.goods == db.goods && Inv(db')
  {
    if |texts| > 0 {
      ImportedStay(db, g, loop, texts[..|texts| - 1]);
      ImportKeeps(db, g, loop, texts);
      var before := Ledger.ImportCards(db, g, loop, texts[..|texts| - 1]);
      assert before.nextCard !in before.cards;
    }
  }

  /** The sales counters move only in a delivery, and no card on sale is made of a sold one. */
  ghost predicate SalesKept(db: Db, db': Db) {
    && SoldStays(db, db') && db'.goods.Keys == db.goods.Keys
    && forall g :: g in db.goods ==> db'.goods[g].sales == db.goods[g].sales
  }

  lemma PlaceSales(db: Db, o: Order, picked: set<int>)
    ensures SalesKept(db, Place(db, o, picked))
  {}

  lemma CheckoutSales(db: Db, form: Ledger.Checkout, skip: set<int>)
    ensures SalesKept(db, CheckoutStep(db, form, skip).0)
  {
    if CheckoutRule(db, form, skip).None? {
      PlaceSales(db, NewOrder(db, form), Members(CheckoutPick(db.cards, form.goods, form.amount, skip)));
    }
  }

  lemma ExpireSales(db: Db, id: int)
    ensures SalesKept(db, ExpireStep(db, id))
  {}

  lemma SaveSales(db: Db, row: Row, formOk: bool, to: int, info: string)
    ensures SalesKept(db, SaveStep(db, row, formOk, to, info).0)
  {}

  lemma EditSales(db: Db, e: Event)
    requires e.EditCard? || e.DeleteCard? || e.DeleteGoods? || e.DeleteCoupon?
    ensures SalesKept(db, Step(World(db, {}, []), e).db)
  {}

  /** Steps that do not settle leave the log, the sold cards and the sales counters. */
  lemma OtherStepsKeepLog(w: World, e: Event)
    requires WorldInv(w) && !e.Notice? && !e.Redeliver?
    ensures SalesKept(w.db, Step(w, e).db) && Step(w, e).log == w.log
  {
    match e
    case Checkout(form, skip) => CheckoutSales(w.db, form, skip);
    case Expire(id) => ExpireSales(w.db, id);
    case Save(row, formOk, to, info) => SaveSales(w.db, row, formOk, to, info);
    case ImportCards(g, loop, texts) => ImportedStay(w.db, g, loop, texts);
    case Load(id) =>
    case _ => EditSales(w.db, e);
  }

  /** What a settlement does to the log and the sales: nothing, or one delivery of an
      order that had none, out of cards that were on sale. */
  ghost predicate AppendsTo(w: World, w': World, d: Delivery) {
    && w'.log == w.log + [d]
    && d.order in w.db.orders && !SettledStatus(w.db.orders[d.order])
    && DeliveryOk(d, w'.db)
    && (forall k :: k in d.cards ==> k in w.db.cards && w.db.cards[k].status == ON_SALE)
    && SoldStays(w.db, w'.db) && w'.db.goods.Keys == w.db.goods.Keys
    && forall g :: g in w.db.goods ==>
         w'.db.goods[g].sales == w.db.goods[g].sales + if g == d.goods then d.amount else 0
  }

  lemma SettleLog(w: World, id: int, paid: int, trade: string, redeliver: bool, skip: set<int>)
    requires WorldInv(w)
    ensures var w' := Settle(w, id, paid, trade, redeliver, skip);
      || (w'.log == w.log && SalesKept(w.db, w'.db))
      || (|w'.log| == |w.log| + 1 && AppendsTo(w, w', w'.log[|w.log|]))
  {
    var (db', r) := SettleStep(w.db, id, paid, trade, redeliver, skip);
    if r.Delivered? {
      assert OrderOk(w.db.orders[id]);
      if w.db.orders[id].kind.Auto? {
        AutoSettleLog(w, id, paid, trade, redeliver, skip);
      } else {
        ManualSettleLog(w, id, paid, trade, redeliver, skip);
      }
    }
  }

  lemma AutoSettleLog(w: World, id: int, paid: int, trade: string, redeliver: bool, skip: set<int>)
    requires WorldInv(w) && id in w.db.orders && w.db.orders[id].kind.Auto? && OrderOk(w.db.orders[id])
    requires SettleStep(w.db, id, paid, trade, redeliver, skip).1.Delivered?
    ensures var w' := Settle(w, id, paid, trade, redeliver, skip);
      |w'.log| == |w.log| + 1 && AppendsTo(w, w', w'.log[|w.log|])
  {
    var (db', r) := SettleStep(w.db, id, paid, trade, redeliver, skip);
    var o, picked := w.db.orders[id], r.cards;
    assert picked == SettlePick(w.db.cards, o.goods, id, o.amount, skip) && |picked| == o.amount;
    assert db'.cards == Release(Ship(w.db.cards, Members(picked)), id, o.goods, true);
    assert db'.goods == AddSales(w.db.goods, o.goods, o.amount);
    assert db'.orders == w.db.orders[id := db'.orders[id]] && db'.orders[id].status == DONE
           && db'.orders[id] == o.(status := DONE, info := db'.orders[id].info, trade := db'.orders[id].trade,
                                   retBack := db'.orders[id].retBack);
    SettlePicks(w.db.cards, o.goods, id, o.amount, skip);
    AutoAppends(w, Settle(w, id, paid, trade, redeliver, skip), id, picked);
  }

  lemma AutoAppends(w: World, w': World, id: int, picked: seq<int>)
    requires id in w.db.orders && w.db.orders[id].kind.Auto? && w.db.orders[id].status != DONE
    requires var o := w.db.orders[id];
      && |picked| == o.amount
      && Members(picked) <= OwnCards(w.db.cards, o.goods, id) + FreeCards(w.db.cards, o.goods)
      && (forall i, j :: 0 <= i < j < |picked| ==> picked[i] != picked[j])
      && w'.log == w.log + [Entry(w.db, id, picked)]
      && w'.db.cards == Release(Ship(w.db.cards, Members(picked)), id, o.goods, true)
      && w'.db.goods == AddSales(w.db.goods, o.goods, o.amount)
      && id in w'.db.orders
      && w'.db.orders[id] == o.(status := DONE, info := w'.db.orders[id].info, trade := w'.db.orders[id].trade,
                                retBack := w'.db.orders[id].retBack)
    ensures AppendsTo(w, w', w'.log[|w.log|])
  {
    DeliveredCards(w.db, id, picked);
    forall k | k in picked ensures k in Entry(w.db, id, picked).own || k in Entry(w.db, id, picked).shelf {
      assert k in Members(picked);
    }
  }

  lemma ManualSettleLog(w: World, id: int, paid: int, trade: string, redeliver: bool, skip: set<int>)
    requires WorldInv(w) && id in w.db.orders && w.db.orders[id].kind.Manual? && OrderOk(w.db.orders[id])
    requires SettleStep(w.db, id, paid, trade, redeliver, skip).1.Delivered?
    ensures var w' := Settle(w, id, paid, trade, redeliver, skip);
      |w'.log| == |w.log| + 1 && AppendsTo(w, w', w'.log[|w.log|])
  {
    var (db', r) := SettleStep(w.db, id, paid, trade, redeliver, skip);
    var o := w.db.orders[id];
    var d := Entry(w.db, id, []);
    assert d.consumed == {};
    assert Settle(w, id, paid, trade, redeliver, skip).log == w.log + [d];
    assert db'.cards == w.db.cards;
  }

  /** The shipped cards: on sale before, and sold after unless they are loop cards. */
  lemma DeliveredCards(db: Db, id: int, picked: seq<int>)
    requires id in db.orders
    requires Members(picked) <= OwnCards(db.cards, db.orders[id].goods, id) + FreeCards(db.cards, db.orders[id].goods)
    ensures forall k :: k in picked ==> k in db.cards && db.cards[k].status == ON_SALE
    ensures var cards := Release(Ship(db.cards, Members(picked)), id, db.orders[id].goods, true);
      forall k :: k in Consumed(db.cards, picked) ==> k in cards && cards[k].status == SOLD
  {
    forall k | k in picked ensures k in db.cards && db.cards[k].status == ON_SALE {
      assert k in Members(picked);
    }
  }

  /** Deliveries already made stay as good as they were. */
  lemma DeliveriesStay(w: World, w': World)
    requires LogInv(w) && StepOk(w.db, w'.db) && SoldStays(w.db, w'.db)
    ensures forall i :: 0 <= i < |w.log| ==> DeliveryOk(w.log[i], w'.db)
  {
    forall i | 0 <= i < |w.log| ensures DeliveryOk(w.log[i], w'.db) {
      assert DeliveryOk(w.log[i], w.db);
      assert Evolves(w.db.orders[w.log[i].order], w'.db.orders[w.log[i].order]);
      assert OrderOk(w'.db.orders[w.log[i].order]);
    }
  }

  /** The new delivery is of an order that had none, with cards no earlier one used up. */
  lemma AppendedOnce(w: World, w': World, d: Delivery, i: nat)
    requires LogInv(w) && AppendsTo(w, w', d) && i < |w.log|
    ensures w.log[i].order != d.order && w.log[i].consumed !! Members(d.cards)
  {
    assert DeliveryOk(w.log[i], w.db);
    forall k | k in w.log[i].consumed ensures k !in d.cards {}
  }

  lemma AppendedSales(w: World, w': World, d: Delivery)
    requires AppendsTo(w, w', d)
    ensures LogKept(w, w')
  {
    assert w'.log[..|w'.log| - 1] == w.log;
  }

  lemma AppendKeeps(w: World, w': World, d: Delivery)
    requires LogInv(w) && StepOk(w.db, w'.db) && AppendsTo(w, w', d)
    ensures LogInv(w') && LogKept(w, w')
  {
    AppendedSales(w, w', d);
    DeliveriesStay(w, w');
    assert DeliveryOk(d, w'.db);
    forall i, j | 0 <= i < j < |w'.log|
      ensures w'.log[i].order != w'.log[j].order && w'.log[i].consumed !! Members(w'.log[j].cards)
    {
      if j == |w.log| {
        AppendedOnce(w, w', d, i);
      }
    }
  }

  lemma LogStep(w: World, e: Event)
    requires WorldInv(w) && LogInv(w)
    ensures LogInv(Step(w, e)) && LogKept(w, Step(w, e))
  {
    var w' := Step(w, e);
    StepKeeps(w, e);
    if e.Notice? {
      SettleLog(w, e.id, e.paid, e.trade, false, e.skip);
    } else if e.Redeliver? {
      SettleLog(w, e.id, 0, "", true, e.skip);
    } else {
      OtherStepsKeepLog(w, e);
    }
    if w'.log == w.log {
      DeliveriesStay(w, w');
    } else {
      AppendKeeps(w, w', w'.log[|w.log|]);
    }
  }

  lemma {:induction false} LogRun(w: World, events: seq<Event>)
    requires WorldInv(w) && LogInv(w)
    ensures LogInv(Run(w, events)) && LogKept(w, Run(w, events))
  {
    if |events| > 0 {
      LogRun(w, events[..|events| - 1]);
      RunKeeps(w, events[..|events| - 1]);
      LogStep(Run(w, events[..|events| - 1]), events[|events| - 1]);
    }
  }

  /** Exactly-once settlement over whole runs from a fresh shop: an order is delivered at
      most once, each sales counter grew by exactly the amounts delivered, an automatic
      delivery has exactly its amount of distinct cards, each of them of its goods and
      reserved to it or free when it was delivered, and a card that is not a loop card is
      never delivered again. */
  lemma DeliveredOnce(w: World, events: seq<Event>)
    requires FreshWorld(w)
    ensures var w' := Run(w, events);
      && (forall i, j :: 0 <= i < j < |w'.log| ==>
            w'.log[i].order != w'.log[j].order && w'.log[i].consumed !! Members(w'.log[j].cards))
      && (forall i :: 0 <= i < |w'.log| ==> DeliveryOk(w'.log[i], w'.db))
      && (forall g :: g in w.db.goods ==>
            g in w'.db.goods && w'.db.goods[g].sales == w.db.goods[g].sales + SoldUnits(w'.log, g))
  {
    FreshInv(w.db);
    LogRun(w, events);
  }

  // ---- a payment before expiry is never short ----

  /** What an unpaid automatic order holds is what its settlement looks for first. */
  lemma OwnCardsHeld(db: Db, id: int)
    requires Inv(db) && id in db.orders && db.orders[id].kind.Auto? && db.orders[id].status == UNPAID
    ensures OwnCards(db.cards, db.orders[id].goods, id) == Reserved(db.cards, id)
  {
    forall k ensures k in OwnCards(db.cards, db.orders[id].goods, id) <==> k in Reserved(db.cards, id) {
      if k in Reserved(db.cards, id) {
        assert CardOk(db.cards[k], db.orders);
      }
    }
  }

  lemma FirstPicked(own: seq<int>, rest: seq<int>)
    ensures Limit(own + rest, |own|) == own
  {}

  /** With this order's own reservations not held by anyone else, a settlement of the
      unpaid order picks exactly them, in id order. */
  lemma OwnCardsPicked(db: Db, id: int, skip: set<int>)
    requires Inv(db) && id in db.orders && db.orders[id].kind.Auto? && db.orders[id].status == UNPAID
    requires skip !! Reserved(db.cards, id)
    ensures SettlePick(db.cards, db.orders[id].goods, id, db.orders[id].amount, skip) ==
      Ascending(Reserved(db.cards, id))
    ensures |Ascending(Reserved(db.cards, id))| == db.orders[id].amount
  {
    var held := Reserved(db.cards, id);
    OwnCardsHeld(db, id);
    assert held - skip == held;
    FirstPicked(Ascending(held), Ascending(FreeCards(db.cards, db.orders[id].goods) - skip));
  }

  /** A notice for the order's price now delivers these cards, with these texts. */
  predicate DeliversCards(db: Db, id: int, trade: string, skip: set<int>, picked: seq<int>, info: string)
    requires id in db.orders
  {
    var (db', r) := SettleStep(db, id, db.orders[id].actual, trade, false, skip);
    r == Delivered(picked) && id in db'.orders && db'.orders[id].status == DONE && db'.orders[id].info == info
  }

  /** A notice for the order's price now settles it, and no stock counter moves. */
  predicate LeavesStock(db: Db, id: int, trade: string, skip: set<int>)
    requires id in db.orders
  {
    var (db', r) := SettleStep(db, id, db.orders[id].actual, trade, false, skip);
    && r == Delivered([]) && id in db'.orders && db'.orders[id].status == PENDING
    && forall g :: g in db.goods ==> g in db'.goods && db'.goods[g].stock == db.goods[g].stock
  }

  lemma AutoPaidInTime(db: Db, id: int, trade: string, skip: set<int>)
    requires Inv(db) && id in db.orders && db.orders[id].status == UNPAID && db.orders[id].kind.Auto?
    requires skip !! Reserved(db.cards, id)
    ensures var held := Ascending(Reserved(db.cards, id));
      |held| == db.orders[id].amount && DeliversCards(db, id, trade, skip, held, Lines(db.cards, held))
  {
    var o, held := db.orders[id], Ascending(Reserved(db.cards, id));
    OwnCardsPicked(db, id, skip);
    assert SettleRule(db, id, o.actual, false).None?;
    assert Pick(db, id, skip) == held && Covers(db, o, held);
    assert SettleStep(db, id, o.actual, trade, false, skip) == (AutoDelivered(db, id, held, trade), Delivered(held));
  }

  lemma ManualPaidInTime(db: Db, id: int, trade: string, skip: set<int>)
    requires Inv(db) && id in db.orders && db.orders[id].status == UNPAID && db.orders[id].kind.Manual?
    ensures LeavesStock(db, id, trade, skip)
  {}

  /** An order still unpaid after any run, paid now: it is delivered the very cards it
      reserved when the run began, in id order and with the texts they had then; a
      manual order is settled without touching the stock counter. That nobody holds those
      cards meanwhile is assumed; under the order's row lock only a back-office card edit
      could (LockOrder.OwnCardsFree). */
  lemma PaidInTime(w: World, events: seq<Event>, id: int, trade: string, skip: set<int>)
    requires WorldInv(w) && id in w.db.orders && w.db.orders[id].status == UNPAID
    requires id in Run(w, events).db.orders && Run(w, events).db.orders[id].status == UNPAID
    requires skip !! Reserved(w.db.cards, id)
    ensures var db, held := Run(w, events).db, Ascending(Reserved(w.db.cards, id));
      if w.db.orders[id].kind.Auto? then
        |held| == w.db.orders[id].amount && DeliversCards(db, id, trade, skip, held, Lines(w.db.cards, held))
      else LeavesStock(db, id, trade, skip)
  {
    RunKeeps(w, events);
    var db := Run(w, events).db;
    assert Evolves(w.db.orders[id], db.orders[id]);
    if w.db.orders[id].kind.Auto? {
      AutoPaidInTime(db, id, trade, skip);
      SameLines(w.db.cards, db.cards, Ascending(Reserved(w.db.cards, id)));
    } else {
      ManualPaidInTime(db, id, trade, skip);
    }
  }

  /** That hypothesis is needed: with its own cards all held elsewhere and no free one to be
      had, an unpaid automatic order that is paid comes up short. */
  lemma ShortThoughReserved(db: Db, id: int, trade: string, skip: set<int>)
    requires Inv(db) && id in db.orders && db.orders[id].kind.Auto? && db.orders[id].status == UNPAID
    requires Reserved(db.cards, id) <= skip && FreeCards(db.cards, db.orders[id].goods) <= skip
    ensures var (db', r) := SettleStep(db, id, db.orders[id].actual, trade, false, skip);
      r == Refused(OutOfStock) && id in db'.orders && db'.orders[id].status == SHORT
  {
    var o := db.orders[id];
    OwnCardsHeld(db, id);
    assert OrderOk(o);
    assert OwnCards(db.cards, o.goods, id) - skip == {} && FreeCards(db.cards, o.goods) - skip == {};
    assert Pick(db, id, skip) == [];
  }

  /** Nothing is reserved under an order number that is not given yet, so what a placed
      order's number reserves is what was picked for it. */
  lemma PlacedReserves(db: Db, o: Order, picked: set<int>)
    requires Inv(db) && o.kind.Auto? && picked <= FreeCards(db.cards, o.goods)
    ensures Reserved(Place(db, o, picked).cards, db.nextOrder) == picked
    ensures forall k :: k in picked ==>
      k in db.cards && k in Place(db, o, picked).cards && Place(db, o, picked).cards[k].text == db.cards[k].text
  {
    assert db.nextOrder !in db.orders;
    forall k | k in db.cards ensures db.cards[k].owner != Some(db.nextOrder) {
      assert CardOk(db.cards[k], db.orders);
    }
    ReserveHolds(db.cards, picked, db.nextOrder);
  }

  lemma PickedListing(cards: map<int, Card>, g: int, n: int, skip: set<int>)
    requires n >= 1
    ensures var picked := CheckoutPick(cards, g, n, skip); Ascending(Members(picked)) == picked
  {
    var picked := CheckoutPick(cards, g, n, skip);
    assert Members(Ascending(Members(picked))) == Members(picked);
    SameListing(Ascending(Members(picked)), picked);
  }

  /** What a checkout reserves, listed again by id, is what it picked. */
  lemma PickedIsReserved(db: Db, form: Ledger.Checkout, skip: set<int>)
    requires Inv(db) && CheckoutRule(db, form, skip).None? && db.goods[form.goods].kind.Auto?
    ensures var picked := CheckoutPick(db.cards, form.goods, form.amount, skip);
      var cards := Place(db, NewOrder(db, form), Members(picked)).cards;
      && Reserved(cards, db.nextOrder) == Members(picked) && Ascending(Reserved(cards, db.nextOrder)) == picked
      && forall k :: k in Members(picked) ==> k in db.cards && k in cards && cards[k].text == db.cards[k].text
  {
    var picked := CheckoutPick(db.cards, form.goods, form.amount, skip);
    NewOrderPlaced(db, form, skip);
    CheckoutPicks(db.cards, form.goods, form.amount, skip);
    PlacedReserves(db, NewOrder(db, form), Members(picked));
    PickedListing(db.cards, form.goods, form.amount, skip);
  }

  /** From checkout to delivery: the cards an automatic order picked when it was placed are,
      whatever happens while it stays unpaid, the cards a notice for its price delivers, in
      the same order and with the texts they had at checkout. */
  lemma BoughtIsDelivered(w: World, form: Ledger.Checkout, skip: set<int>, events: seq<Event>,
                          trade: string, skip': set<int>)
    requires WorldInv(w) && CheckoutRule(w.db, form, skip).None? && w.db.goods[form.goods].kind.Auto?
    requires var id, db := w.db.nextOrder, Run(Step(w, Event.Checkout(form, skip)), events).db;
      id in db.orders && db.orders[id].status == UNPAID
    requires skip' !! Members(CheckoutPick(w.db.cards, form.goods, form.amount, skip))
    ensures var picked := CheckoutPick(w.db.cards, form.goods, form.amount, skip);
      && |picked| == form.amount
      && DeliversCards(Run(Step(w, Event.Checkout(form, skip)), events).db, w.db.nextOrder, trade, skip', picked,
                       Lines(w.db.cards, picked))
  {
    var placed, id := Step(w, Event.Checkout(form, skip)), w.db.nextOrder;
    var picked := CheckoutPick(w.db.cards, form.goods, form.amount, skip);
    StepKeeps(w, Event.Checkout(form, skip));
    NewOrderPlaced(w.db, form, skip);
    PickedIsReserved(w.db, form, skip);
    assert placed.db == Place(w.db, NewOrder(w.db, form), Members(picked));
    assert placed.db.orders[id] == NewOrder(w.db, form);
    PaidInTime(placed, events, id, trade, skip');
    forall k | k in picked
      ensures k in w.db.cards && k in placed.db.cards && placed.db.cards[k].text == w.db.cards[k].text
    {
      assert k in Members(picked);
    }
    SameLines(w.db.cards, placed.db.cards, picked);
  }

  lemma {:induction false} SameLines(a: map<int, Card>, b: map<int, Card>, picked: seq<int>)
    requires forall k :: k in picked ==> k in a && k in b && a[k].text == b[k].text
    ensures Lines(a, picked) == Lines(b, picked)
  {
    if |picked| > 0 {
      var last := picked[|picked| - 1];
      assert last in picked && a[last].text == b[last].text;
      SameLines(a, b, picked[..|picked| - 1]);
      assert Lines(a, picked) ==
        if |picked| == 1 then a[last].text else Lines(a, picked[..|picked| - 1]) + "\n" + a[last].text;
      assert Lines(b, picked) ==
        if |picked| == 1 then b[last].text else Lines(b, picked[..|picked| - 1]) + "\n" + b[last].text;
    }
  }

  // ---- repeated notices, and when a settlement is short ----

  /** What a notice for its price finds when the order was delivered before. */
  predicate Acknowledges(db: Db, id: int, trade: string, skip: set<int>) {
    id in db.orders &&
    SettleStep(db, id, db.orders[id].actual, trade, false, skip) ==
      (db, if db.orders[id].status == FAILED then Refused(NotPayable) else Already)
  }

  lemma SettledAcknowledges(db: Db, id: int, trade: string, skip: set<int>)
    requires id in db.orders && SettledStatus(db.orders[id])
    ensures Acknowledges(db, id, trade, skip)
  {}

  lemma DeliveredIsSettled(db: Db, id: int, paid: int, trade: string, redeliver: bool, skip: set<int>)
    requires id in db.orders && SettleStep(db, id, paid, trade, redeliver, skip).1.Delivered?
    ensures var db' := SettleStep(db, id, paid, trade, redeliver, skip).0;
      id in db'.orders && SettledStatus(db'.orders[id])
  {}

  /** A delivered order stays settled, whatever follows. */
  lemma SettledStays(w: World, events: seq<Event>, id: int)
    requires WorldInv(w) && id in w.db.orders && SettledStatus(w.db.orders[id])
    ensures var db := Run(w, events).db;
      id in db.orders && SettledStatus(db.orders[id]) && db.orders[id].actual == w.db.orders[id].actual
  {
    RunKeeps(w, events);
    assert Evolves(w.db.orders[id], Run(w, events).db.orders[id]) && OrderOk(Run(w, events).db.orders[id]);
  }

  /** A second notice for a delivered order changes nothing: it is acknowledged, or
      refused when the owner has failed the order meanwhile. */
  lemma RepeatedNotice(w: World, id: int, trade: string, skip: set<int>, events: seq<Event>,
                       trade': string, skip': set<int>)
    requires WorldInv(w) && id in w.db.orders
    requires SettleStep(w.db, id, w.db.orders[id].actual, trade, false, skip).1.Delivered?
    ensures var w' := Run(Step(w, Notice(id, w.db.orders[id].actual, trade, skip)), events);
      Acknowledges(w'.db, id, trade', skip') && w'.db.orders[id].actual == w.db.orders[id].actual
  {
    var n := Notice(id, w.db.orders[id].actual, trade, skip);
    StepKeeps(w, n);
    PriceStays(w, n, id);
    DeliveredIsSettled(w.db, id, w.db.orders[id].actual, trade, false, skip);
    SettledStays(Step(w, n), events, id);
    SettledAcknowledges(Run(Step(w, n), events).db, id, trade', skip');
  }

  /** The refusal happens: an unpaid manual order is paid, its form is loaded, the owner
      fails it, and the gateway repeats its notice. */
  lemma FailedThenRefused(w: World, id: int, trade: string, info: string, trade': string, skip: set<int>)
    requires WorldInv(w) && id in w.db.orders && w.db.orders[id].kind.Manual? && w.db.orders[id].status == UNPAID
    ensures var price := w.db.orders[id].actual;
      var paid := Step(w, Notice(id, price, trade, skip));
      LoadRow(paid.db, id).Some? &&
      var failed := Step(Step(paid, Load(id)), Save(LoadRow(paid.db, id).value, true, FAILED, info));
      && id in failed.db.orders && failed.db.orders[id].status == FAILED
      && SettleStep(failed.db, id, price, trade', false, skip) == (failed.db, Refused(NotPayable))
  {
    var price := w.db.orders[id].actual;
    var paid := Step(w, Notice(id, price, trade, skip));
    PaidIsPending(w, id, trade, skip);
    PendingFails(paid, id, info);
    var failed := Step(Step(paid, Load(id)), Save(LoadRow(paid.db, id).value, true, FAILED, info));
    SettledAcknowledges(failed.db, id, trade', skip);
    assert Acknowledges(failed.db, id, trade', skip);
  }

  lemma PaidIsPending(w: World, id: int, trade: string, skip: set<int>)
    requires WorldInv(w) && id in w.db.orders && w.db.orders[id].kind.Manual? && w.db.orders[id].status == UNPAID
    ensures var db := Step(w, Notice(id, w.db.orders[id].actual, trade, skip)).db;
      id in db.orders && db.orders[id].status == PENDING && db.orders[id].kind.Manual?
      && db.orders[id].actual == w.db.orders[id].actual
  {
    assert OrderOk(w.db.orders[id]);
  }

  lemma PendingFails(w: World, id: int, info: string)
    requires id in w.db.orders && w.db.orders[id].status == PENDING && w.db.orders[id].kind.Manual?
    ensures LoadRow(w.db, id).Some?
    ensures var db := Step(Step(w, Load(id)), Save(LoadRow(w.db, id).value, true, FAILED, info)).db;
      id in db.orders && db.orders[id].status == FAILED && db.orders[id].kind.Manual?
      && db.orders[id].actual == w.db.orders[id].actual
  {
    var row := LoadRow(w.db, id).value;
    assert Step(w, Load(id)) == w.(rows := w.rows + {row});
    PendingSaves(w.db, row, info);
  }

  lemma PendingSaves(db: Db, row: Row, info: string)
    requires row.id in db.orders && LoadRow(db, row.id) == Some(row) && row.status == PENDING && row.kind.Manual?
    ensures var db' := SaveStep(db, row, true, FAILED, info).0;
      row.id in db'.orders && db'.orders[row.id].status == FAILED && db'.orders[row.id].kind.Manual?
      && db'.orders[row.id].actual == db.orders[row.id].actual
  {}

  /** When a payment or a redelivery meets short stock: an automatic order when fewer cards
      are left to it than it bought, a manual one when it had expired and the counter is
      below its amount. A redelivery that does changes nothing. */
  lemma ShortExactly(db: Db, id: int, trade: string, redeliver: bool, skip: set<int>)
    requires Inv(db) && id in db.orders
    requires var o := db.orders[id];
      (o.status == SHORT && o.kind.Auto?) || (!redeliver && (o.status == UNPAID || o.status == EXPIRED))
    ensures var o := db.orders[id];
      var (db', r) := SettleStep(db, id, o.actual, trade, redeliver, skip);
      && (r == Refused(OutOfStock) || r.Delivered?)
      && (redeliver && r == Refused(OutOfStock) ==> db' == db)
      && (o.kind.Auto? ==>
            (r == Refused(OutOfStock) <==>
             |OwnCards(db.cards, o.goods, id) - skip| + |FreeCards(db.cards, o.goods) - skip| < o.amount))
      && (o.kind.Manual? ==>
            (r == Refused(OutOfStock) <==> o.status == EXPIRED && db.goods[o.goods].stock < o.amount))
  {
    assert OrderOk(db.orders[id]);
  }

  /** The note put in front of a manual order's input comes off again without a trace. */
  lemma MarkerStrips(info: string)
    ensures StripMarker(ShortInfo(Manual, info)) == info
  {
    var noted := MARKER + "\n" + info;
    assert noted == MARKER + ("\n" + info);
    assert noted[|MARKER|..] == "\n" + info;
    assert !("\r" <= "\n" + info) by {
      assert ("\n" + info)[0] == '\n';
    }
    assert ("\n" + info)[1..] == info;
  }
}
