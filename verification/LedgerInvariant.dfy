/** What every transaction of the ledger keeps, and the quantities it conserves. */
module LedgerInvariant {
  import opened Tables
  import opened Text
  import opened Ledger

  /** One order row: the flags are determined by where the order stands. */
  ghost predicate OrderOk(o: Order) {
    && o.amount >= 1 && o.actual > 0 && o.coupon >= 0 && ValidStatus(o.status)
    && TAKEN <= o.retBack <= UNRECOVERABLE
    && (o.owed <==> o.kind.Manual? && o.status == SHORT)
    && (o.status == UNPAID ==> o.retBack == TAKEN)
    && (o.coupon > 0 ==> (o.retBack == HANDED_BACK <==> o.status == EXPIRED))
  }

  /** Only an unpaid or short automatic order reserves cards: cards of its own goods, on sale. */
  ghost predicate CardOk(c: Card, orders: map<int, Order>) {
    c.owner.Some? ==>
      && c.owner.value in orders
      && orders[c.owner.value].kind.Auto?
      && (orders[c.owner.value].status == UNPAID || orders[c.owner.value].status == SHORT)
      && orders[c.owner.value].goods == c.goods
      && c.status == ON_SALE && !c.deleted
  }

  ghost predicate OrdersOk(db: Db) {
    forall id :: id in db.orders ==>
      && id < db.nextOrder
      && OrderOk(db.orders[id])
      && db.orders[id].goods in db.goods
      && (db.orders[id].coupon > 0 ==> db.orders[id].coupon in db.coupons)
  }

  ghost predicate CountersOk(db: Db) {
    && (forall g :: g in db.goods ==> db.goods[g].stock >= 0)
    && (forall c :: c in db.coupons ==> c > 0 && db.coupons[c].ret >= 0)
  }

  ghost predicate CardsOk(db: Db) {
    forall k :: k in db.cards ==> k < db.nextCard && CardOk(db.cards[k], db.orders)
  }

  /** An unpaid automatic order holds exactly the cards it bought. */
  ghost predicate HoldsOk(db: Db) {
    forall id :: id in db.orders && db.orders[id].kind.Auto? && db.orders[id].status == UNPAID ==>
      |Reserved(db.cards, id)| == db.orders[id].amount
  }

  ghost predicate Inv(db: Db) {
    OrdersOk(db) && CountersOk(db) && CardsOk(db) && HoldsOk(db)
  }

  /** A fresh install: no orders, nothing reserved, no counter below zero. */
  ghost predicate Fresh(db: Db) {
    && db.orders == map[]
    && CountersOk(db)
    && forall k :: k in db.cards ==> k < db.nextCard && db.cards[k].owner.None?
  }

  lemma FreshInv(db: Db)
    requires Fresh(db)
    ensures Inv(db)
  {}

  // ---- conserved quantities ----

  /** Units of g's stock counter an order keeps out of the counter. */
  function StockTaken(o: Order, g: int): int {
    if o.kind.Manual? && o.goods == g && o.status != EXPIRED && !o.owed then o.amount else 0
  }

  function CouponTaken(o: Order, c: int): int {
    if o.coupon == c && o.retBack == TAKEN then 1 else 0
  }

  ghost function StockUnits(g: int): Order -> int {
    (o: Order) => StockTaken(o, g)
  }

  ghost function CouponUnits(c: int): Order -> int {
    (o: Order) => CouponTaken(o, c)
  }

  /** The supply of a manual goods: what is on the counter plus what orders took. */
  ghost function StockTotal(db: Db, g: int): int
    requires g in db.goods
  {
    db.goods[g].stock + Total(db.orders, StockUnits(g))
  }

  /** The uses of a coupon: what is left plus what orders took. */
  ghost function CouponTotal(db: Db, c: int): int
    requires c in db.coupons
  {
    db.coupons[c].ret + Total(db.orders, CouponUnits(c))
  }

  ghost predicate StockConserves(db: Db, db': Db) {
    && db'.goods.Keys == db.goods.Keys
    && forall g :: g in db.goods ==> StockTotal(db', g) == StockTotal(db, g)
  }

  ghost predicate CouponConserves(db: Db, db': Db) {
    && db'.coupons.Keys == db.coupons.Keys
    && forall c :: c in db.coupons ==> CouponTotal(db', c) == CouponTotal(db, c)
  }

  ghost predicate Conserves(db: Db, db': Db) {
    StockConserves(db, db') && CouponConserves(db, db')
  }

  function OldStockTaken(orders: map<int, Order>, id: int, g: int): int {
    if id in orders then StockTaken(orders[id], g) else 0
  }

  function OldCouponTaken(orders: map<int, Order>, id: int, c: int): int {
    if id in orders then CouponTaken(orders[id], c) else 0
  }

  /** Writing row id takes from the counters what the order takes more than before. */
  ghost predicate StockMoves(orders: map<int, Order>, goods: map<int, Goods>, goods': map<int, Goods>,
                             id: int, o: Order)
  {
    && goods'.Keys == goods.Keys
    && forall g :: g in goods ==>
         && goods'[g].stock >= 0
         && goods'[g].stock + StockTaken(o, g) == goods[g].stock + OldStockTaken(orders, id, g)
  }

  ghost predicate CouponMoves(orders: map<int, Order>, coupons: map<int, Coupon>, coupons': map<int, Coupon>,
                              id: int, o: Order)
  {
    && coupons'.Keys == coupons.Keys
    && forall c :: c in coupons ==>
         && coupons'[c].ret >= 0
         && coupons'[c].ret + CouponTaken(o, c) == coupons[c].ret + OldCouponTaken(orders, id, c)
  }

  lemma StockWrite(db: Db, db': Db, id: int, o: Order)
    requires db'.orders == db.orders[id := o] && StockMoves(db.orders, db.goods, db'.goods, id, o)
    ensures StockConserves(db, db')
  {
    forall g | g in db.goods ensures StockTotal(db', g) == StockTotal(db, g) {
      TotalUpdate(db.orders, StockUnits(g), id, o);
    }
  }

  lemma CouponWrite(db: Db, db': Db, id: int, o: Order)
    requires db'.orders == db.orders[id := o] && CouponMoves(db.orders, db.coupons, db'.coupons, id, o)
    ensures CouponConserves(db, db')
  {
    forall c | c in db.coupons ensures CouponTotal(db', c) == CouponTotal(db, c) {
      TotalUpdate(db.orders, CouponUnits(c), id, o);
    }
  }

  // ---- how one order may change ----

  /** What an order row never changes, and the moves its status never makes. */
  ghost predicate Evolves(a: Order, b: Order) {
    && b.goods == a.goods && b.kind == a.kind && b.amount == a.amount
    && b.actual == a.actual && b.coupon == a.coupon
    && (b.status == UNPAID ==> a.status == UNPAID)
    && (b.status == EXPIRED ==> a.status == UNPAID || a.status == EXPIRED)
    && (a.status == DONE ==> b.status == DONE)
    && (a.kind.Manual? && b.status == SHORT ==>
          a.status == UNPAID || a.status == EXPIRED || a.status == SHORT)
  }

  ghost predicate OrdersEvolve(db: Db, db': Db) {
    db.nextOrder <= db'.nextOrder
    && forall id :: id in db.orders ==> id in db'.orders && Evolves(db.orders[id], db'.orders[id])
  }

  /** A row that may be written under id. */
  ghost predicate RowFits(db: Db, db': Db, id: int, o: Order) {
    && id < db'.nextOrder && db.nextOrder <= db'.nextOrder
    && OrderOk(o) && o.goods in db.goods && (o.coupon > 0 ==> o.coupon in db.coupons)
    && (id in db.orders ==> Evolves(db.orders[id], o))
  }

  lemma OrdersWrite(db: Db, db': Db, id: int, o: Order)
    requires OrdersOk(db) && db'.orders == db.orders[id := o] && RowFits(db, db', id, o)
    requires db'.goods.Keys == db.goods.Keys && db'.coupons.Keys == db.coupons.Keys
    ensures OrdersOk(db') && OrdersEvolve(db, db')
  {}

  lemma CountersWrite(db: Db, db': Db, id: int, o: Order)
    requires CountersOk(db)
    requires StockMoves(db.orders, db.goods, db'.goods, id, o) && CouponMoves(db.orders, db.coupons, db'.coupons, id, o)
    ensures CountersOk(db')
  {}

  /** One written order keeps all that does not concern cards, when the counters move the
      opposite way. */
  lemma WriteKeeps(db: Db, db': Db, id: int, o: Order)
    requires OrdersOk(db) && CountersOk(db) && db'.orders == db.orders[id := o] && RowFits(db, db', id, o)
    requires StockMoves(db.orders, db.goods, db'.goods, id, o) && CouponMoves(db.orders, db.coupons, db'.coupons, id, o)
    ensures OrdersOk(db') && CountersOk(db') && Conserves(db, db') && OrdersEvolve(db, db')
  {
    OrdersWrite(db, db', id, o);
    CountersWrite(db, db', id, o);
    StockWrite(db, db', id, o);
    CouponWrite(db, db', id, o);
  }

  /** Cards held by an order that is still unpaid are not touched. */
  ghost predicate HeldCardsStay(db: Db, db': Db) {
    forall id :: id in db.orders && id in db'.orders && db'.orders[id].status == UNPAID ==>
      && Reserved(db'.cards, id) == Reserved(db.cards, id)
      && forall k :: k in Reserved(db.cards, id) ==> k in db'.cards && db'.cards[k] == db.cards[k]
  }

  ghost predicate StepOk(db: Db, db': Db) {
    Inv(db') && Conserves(db, db') && OrdersEvolve(db, db') && HeldCardsStay(db, db')
  }
}
