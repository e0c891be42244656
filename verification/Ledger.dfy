/** The order ledger as a function of its four tables: what each transaction reads,
    what it refuses, and what it writes. Every function is total; a refusal leaves
    the tables as they were, which is the rollback. */
module Ledger {
  import opened Tables
  import opened Text
  import Price

  /** goods.type: 1 hands out cards by itself, 2 is fulfilled by hand from a stock counter. */
  datatype Kind = Auto | Manual

  // orders.status
  const EXPIRED := -1
  const UNPAID := 1
  const PENDING := 2
  const HANDLING := 3
  const DONE := 4
  const FAILED := 5
  const SHORT := 6

  // carmis.status
  const ON_SALE := 1
  const SOLD := 2

  // orders.coupon_ret_back
  const TAKEN := 0
  const HANDED_BACK := 1
  const UNRECOVERABLE := 2

  datatype Goods = Goods(kind: Kind, price: Int64, wholesale: string, open: bool, limit: int,
                         stock: int, sales: int, deleted: bool)

  datatype Card = Card(goods: int, status: int, loop: bool, text: string, owner: Option<int>, deleted: bool)

  datatype Coupon = Coupon(discount: string, goods: set<int>, ret: int, open: int, used: int, deleted: bool)

  /** coupon is 0 when the order took none. */
  datatype Order = Order(goods: int, kind: Kind, amount: int, actual: int, coupon: int,
                         status: int, retBack: int, owed: bool, trade: string, info: string)

  /** The tables, with the identity counters of the two that grow. */
  datatype Db = Db(orders: map<int, Order>, goods: map<int, Goods>, cards: map<int, Card>,
                   coupons: map<int, Coupon>, nextOrder: int, nextCard: int)

  datatype Rule =
    | BadAmount | BadEmail | NoSearchPassword | NoPayChannel | NoSuchGoods | GoodsClosed | OverLimit
    | LoopSoldSingly | ChannelClosed | TooManyUnpaid | OutOfStock | NoSuchCoupon | CouponUsed | CouponSpent
    | MissingInput | PriceRefused | NothingToPay | NoSuchOrder | AmountDiffers | NotPayable | AutoOnly
    | BadTitle | BadStatus | ManualShortByHand | ManualShortToFailed | NotByHand | StaleRow | NotEnoughStock
    | NoSuchRow

  // ---- cards ----

  function FreeCards(cards: map<int, Card>, g: int): set<int> {
    set k | k in cards && cards[k].goods == g && cards[k].status == ON_SALE
            && cards[k].owner.None? && !cards[k].deleted
  }

  function OwnCards(cards: map<int, Card>, g: int, order: int): set<int> {
    set k | k in cards && cards[k].goods == g && cards[k].status == ON_SALE
            && cards[k].owner == Some(order) && !cards[k].deleted
  }

  /** Every card that carries the order's reservation. */
  function Reserved(cards: map<int, Card>, order: int): set<int> {
    set k | k in cards && cards[k].owner == Some(order)
  }

  /** ORDER BY id FOR UPDATE SKIP LOCKED LIMIT n: skip is whatever other transactions hold. */
  function CheckoutPick(cards: map<int, Card>, g: int, n: int, skip: set<int>): seq<int> {
    Limit(Ascending(FreeCards(cards, g) - skip), n)
  }

  /** The order's own reservations first, then free cards, each by id. */
  function SettlePick(cards: map<int, Card>, g: int, order: int, n: int, skip: set<int>): seq<int> {
    Limit(Ascending(OwnCards(cards, g, order) - skip) + Ascending(FreeCards(cards, g) - skip), n)
  }

  function Reserve(cards: map<int, Card>, picked: set<int>, order: int): map<int, Card> {
    map k | k in cards :: if k in picked then cards[k].(owner := Some(order)) else cards[k]
  }

  /** A delivered card: sold unless it is a loop card, and no longer reserved. */
  function Shipped(c: Card): Card {
    c.(status := if c.loop then c.status else SOLD, owner := None)
  }

  function Ship(cards: map<int, Card>, picked: set<int>): map<int, Card> {
    map k | k in cards :: if k in picked then Shipped(cards[k]) else cards[k]
  }

  /** The order's remaining reservations on its own goods go back to the shelf;
      onSaleOnly is the extra status=1 of the settlement's release. */
  function Release(cards: map<int, Card>, order: int, g: int, onSaleOnly: bool): map<int, Card> {
    map k | k in cards ::
      if cards[k].owner == Some(order) && cards[k].goods == g && (onSaleOnly ==> cards[k].status == ON_SALE)
      then cards[k].(owner := None) else cards[k]
  }

  /** The back office releases by order alone. */
  function ReleaseAny(cards: map<int, Card>, order: int): map<int, Card> {
    map k | k in cards ::
      if cards[k].owner == Some(order) && cards[k].status == ON_SALE then cards[k].(owner := None) else cards[k]
  }

  function Lines(cards: map<int, Card>, picked: seq<int>): string {
    if |picked| == 0 then "" else
    var text := if picked[|picked| - 1] in cards then cards[picked[|picked| - 1]].text else "";
    if |picked| == 1 then text else Lines(cards, picked[..|picked| - 1]) + "\n" + text
  }

  // ---- checkout ----

  /** Identity columns start at 1. */
  type RowId = i: int | i > 0 witness 1

  /** A checkout: the form (as far as the ledger is concerned) and the coupon row its
      code names, if one was typed. payReady, quotaOk and extraOk stand for the pay
      channel lookup, the unpaid quota and the manual goods' required inputs. */
  datatype Checkout = Checkout(goods: int, payId: int, amount: Int64, emailOk: bool, passwordMissing: bool,
                               payReady: bool, quotaOk: bool, coupon: Option<RowId>, extraOk: bool, info: string)

  function LoopCards(cards: map<int, Card>, g: int): set<int> {
    set k | k in cards && cards[k].goods == g && cards[k].status == ON_SALE && cards[k].loop && !cards[k].deleted
  }

  /** The refusals before any row is written, in order. */
  function Precheck(db: Db, form: Checkout): Option<Rule> {
    if form.amount < 1 then Some(BadAmount)
    else if !form.emailOk then Some(BadEmail)
    else if form.passwordMissing then Some(NoSearchPassword)
    else if form.payId <= 0 then Some(NoPayChannel)
    else if form.goods !in db.goods || db.goods[form.goods].deleted then Some(NoSuchGoods)
    else
      var g := db.goods[form.goods];
      if !g.open then Some(GoodsClosed)
      else if g.limit > 0 && form.amount > g.limit then Some(OverLimit)
      else if LoopCards(db.cards, form.goods) != {} && form.amount > 1 then Some(LoopSoldSingly)
      else if !form.payReady then Some(ChannelClosed)
      else if !form.quotaOk then Some(TooManyUnpaid)
      else None
  }

  /** One use is taken only from a row that is open, not marked used and has uses
      left, and that the conditional update changed. */
  function TakeCoupon(open: int, used: int, ret: int, rows: int): Option<Rule> {
    if open != 1 then Some(NoSuchCoupon)
    else if used == 2 then Some(CouponUsed)
    else if ret <= 0 || rows != 1 then Some(CouponSpent)
    else None
  }

  function CouponRows(c: Coupon): int {
    if c.ret > 0 && c.open == 1 && c.used != 2 then 1 else 0
  }

  function CouponRule(coupons: map<int, Coupon>, coupon: Option<RowId>, g: int): Option<Rule> {
    match coupon
    case None => None
    case Some(id) =>
      if id !in coupons || g !in coupons[id].goods || coupons[id].deleted then Some(NoSuchCoupon)
      else TakeCoupon(coupons[id].open, coupons[id].used, coupons[id].ret, CouponRows(coupons[id]))
  }

  function ChangeRet(coupons: map<int, Coupon>, id: int, delta: int): map<int, Coupon> {
    if id in coupons then coupons[id := coupons[id].(ret := coupons[id].ret + delta)] else coupons
  }

  function ChangeStock(goods: map<int, Goods>, id: int, delta: int): map<int, Goods> {
    if id in goods then goods[id := goods[id].(stock := goods[id].stock + delta)] else goods
  }

  function AddSales(goods: map<int, Goods>, id: int, n: int): map<int, Goods> {
    if id in goods then goods[id := goods[id].(sales := goods[id].sales + n)] else goods
  }

  datatype Placed = Placed(order: int) | NotPlaced(rule: Rule)

  /** The refusals after the goods row is locked: stock, coupon, inputs, price. */
  function StockRule(db: Db, form: Checkout, skip: set<int>): Option<Rule>
    requires Precheck(db, form).None?
  {
    var g := db.goods[form.goods];
    if g.kind.Auto? then
      if |CheckoutPick(db.cards, form.goods, form.amount, skip)| != form.amount then Some(OutOfStock) else None
    else if g.stock < form.amount then Some(OutOfStock) else None
  }

  /** The face value of the coupon in use, as the money column prints it. */
  function Face(coupons: map<int, Coupon>, coupon: Option<RowId>): string {
    if coupon.Some? && coupon.value in coupons then coupons[coupon.value].discount else ""
  }

  function QuoteFor(db: Db, form: Checkout): Price.Quoted {
    if form.goods !in db.goods then Price.BadPrice else
    Price.Quote(db.goods[form.goods].price, form.amount, Face(db.coupons, form.coupon), db.goods[form.goods].wholesale)
  }

  function Payable(quote: Price.Quoted): int {
    if quote.Quoted? then quote.actual else 0
  }

  /** The last refusals: a manual goods' missing input, a price that does not fit, nothing to pay. */
  function PriceRule(kind: Kind, extraOk: bool, quote: Price.Quoted): Option<Rule> {
    if kind.Manual? && !extraOk then Some(MissingInput)
    else if quote.BadPrice? then Some(PriceRefused)
    else if Payable(quote) <= 0 then Some(NothingToPay)
    else None
  }

  /** The refusals once there is stock: the coupon's, then the last ones. */
  function TermsRule(db: Db, form: Checkout): Option<Rule>
    requires form.goods in db.goods
  {
    if CouponRule(db.coupons, form.coupon, form.goods).Some? then CouponRule(db.coupons, form.coupon, form.goods)
    else PriceRule(db.goods[form.goods].kind, form.extraOk, QuoteFor(db, form))
  }

  function CheckoutRule(db: Db, form: Checkout, skip: set<int>): Option<Rule> {
    if Precheck(db, form).Some? then Precheck(db, form)
    else if StockRule(db, form, skip).Some? then StockRule(db, form, skip)
    else TermsRule(db, form)
  }

  function NewOrder(db: Db, form: Checkout): Order
    requires form.goods in db.goods
  {
    Order(form.goods, db.goods[form.goods].kind, form.amount, Payable(QuoteFor(db, form)),
          if form.coupon.Some? then form.coupon.value else 0, UNPAID, TAKEN, false, "",
          if db.goods[form.goods].kind.Manual? then form.info else "")
  }

  /** The rows a placed order writes: its own, the cards it reserves or the stock it
      takes, and one use of its coupon. */
  function Place(db: Db, o: Order, picked: set<int>): Db {
    Db(db.orders[db.nextOrder := o],
       if o.kind.Manual? then ChangeStock(db.goods, o.goods, -o.amount) else db.goods,
       if o.kind.Auto? then Reserve(db.cards, picked, db.nextOrder) else db.cards,
       if o.coupon > 0 then ChangeRet(db.coupons, o.coupon, -1) else db.coupons,
       db.nextOrder + 1, db.nextCard)
  }

  /** createOrder. */
  function CheckoutStep(db: Db, form: Checkout, skip: set<int>): (Db, Placed) {
    var rule := CheckoutRule(db, form, skip);
    if rule.Some? then (db, NotPlaced(rule.value)) else
    (Place(db, NewOrder(db, form), Members(CheckoutPick(db.cards, form.goods, form.amount, skip))),
     Placed(db.nextOrder))
  }

  // ---- settlement ----

  datatype Settled = Delivered(cards: seq<int>) | Already | Idle | Refused(rule: Rule)

  const MARKER := "库存不足"

  /** A late payment takes the coupon use back, if the coupon still has one. */
  predicate Retakes(coupons: map<int, Coupon>, o: Order) {
    o.coupon > 0 && o.retBack == HANDED_BACK
    && o.coupon in coupons && coupons[o.coupon].ret > 0 && !coupons[o.coupon].deleted
  }

  function RetakenCoupons(coupons: map<int, Coupon>, o: Order): map<int, Coupon> {
    if Retakes(coupons, o) then ChangeRet(coupons, o.coupon, -1) else coupons
  }

  function RetBackAfter(coupons: map<int, Coupon>, o: Order): int {
    if o.coupon > 0 && o.retBack == HANDED_BACK
    then if Retakes(coupons, o) then TAKEN else UNRECOVERABLE
    else o.retBack
  }

  /** The buyer's input of a manual order is kept below the short-stock note. */
  function ShortInfo(kind: Kind, info: string): string {
    if kind.Manual? then MARKER + "\n" + info else MARKER
  }

  /** settleShort: the payment is recorded, the order waits for stock. */
  function ShortOrder(coupons: map<int, Coupon>, o: Order, trade: string): Order {
    o.(status := SHORT, info := ShortInfo(o.kind, o.info), trade := trade,
       retBack := RetBackAfter(coupons, o), owed := o.kind.Manual?)
  }

  /** What settles or refuses an order before any row but its own is looked at. */
  function SettleRule(db: Db, id: int, paid: int, redeliver: bool): Option<Settled> {
    if id !in db.orders then Some(Refused(NoSuchOrder)) else
    var o := db.orders[id];
    if redeliver && o.status != SHORT then Some(Idle)
    else if redeliver && o.kind.Manual? then Some(Refused(AutoOnly))
    else if !redeliver && paid != o.actual then Some(Refused(AmountDiffers))
    else if o.status == DONE || o.status == PENDING || o.status == HANDLING then Some(Already)
    else if o.status != UNPAID && o.status != EXPIRED && o.status != SHORT then Some(Refused(NotPayable))
    else if o.kind.Manual? && o.status == SHORT then Some(Already)
    else None
  }

  function TradeFor(o: Order, trade: string, redeliver: bool): string {
    if !redeliver then trade else if o.trade == "" then "manual" else o.trade
  }

  predicate EnoughStock(goods: map<int, Goods>, g: int, n: int) {
    g in goods && goods[g].stock >= n
  }

  /** The rows a short payment writes. */
  function ShortRecorded(db: Db, id: int, trade: string): Db
    requires id in db.orders
  {
    var o := db.orders[id];
    db.(orders := db.orders[id := ShortOrder(db.coupons, o, trade)], coupons := RetakenCoupons(db.coupons, o))
  }

  /** The rows a delivery of cards writes. */
  function AutoDelivered(db: Db, id: int, picked: seq<int>, trade: string): Db
    requires id in db.orders
  {
    var o := db.orders[id];
    Db(db.orders[id := o.(status := DONE, info := Lines(db.cards, picked), trade := trade,
                          retBack := RetBackAfter(db.coupons, o))],
       AddSales(db.goods, o.goods, o.amount),
       Release(Ship(db.cards, Members(picked)), id, o.goods, true),
       RetakenCoupons(db.coupons, o), db.nextOrder, db.nextCard)
  }

  /** The rows a paid manual order writes: stock is taken again only if it had expired. */
  function ManualDelivered(db: Db, id: int, trade: string): Db
    requires id in db.orders
  {
    var o := db.orders[id];
    Db(db.orders[id := o.(status := PENDING, trade := trade, retBack := RetBackAfter(db.coupons, o))],
       AddSales(if o.status == EXPIRED then ChangeStock(db.goods, o.goods, -o.amount) else db.goods, o.goods, o.amount),
       db.cards, RetakenCoupons(db.coupons, o), db.nextOrder, db.nextCard)
  }

  /** Enough cards were picked; or the counter has enough, unless the order still has its own. */
  predicate Covers(db: Db, o: Order, picked: seq<int>) {
    if o.kind.Auto? then |picked| == o.amount else o.status != EXPIRED || EnoughStock(db.goods, o.goods, o.amount)
  }

  function Pick(db: Db, id: int, skip: set<int>): seq<int>
    requires id in db.orders
  {
    var o := db.orders[id];
    if o.kind.Auto? then SettlePick(db.cards, o.goods, id, o.amount, skip) else []
  }

  /** settle, the one path of Complete (redeliver = false) and Redeliver. */
  function SettleStep(db: Db, id: int, paid: int, trade: string, redeliver: bool, skip: set<int>): (Db, Settled) {
    var early := SettleRule(db, id, paid, redeliver);
    if early.Some? then (db, early.value) else
    var o, picked, trade' := db.orders[id], Pick(db, id, skip), TradeFor(db.orders[id], trade, redeliver);
    if Covers(db, o, picked) then
      (if o.kind.Auto? then AutoDelivered(db, id, picked, trade') else ManualDelivered(db, id, trade'),
       Delivered(picked))
    else
      (if redeliver then db else ShortRecorded(db, id, trade), Refused(OutOfStock))
  }

  /** expireOne: an order still unpaid gives back its coupon use, its cards and its stock. */
  function ExpireStep(db: Db, id: int): Db {
    if id !in db.orders || db.orders[id].status != UNPAID then db else
    var o := db.orders[id];
    db.(orders := db.orders[id := o.(status := EXPIRED, retBack := HANDED_BACK)],
        coupons := if o.coupon > 0 then ChangeRet(db.coupons, o.coupon, 1) else db.coupons,
        cards := Release(db.cards, id, o.goods, false),
        goods := if o.kind.Manual? then ChangeStock(db.goods, o.goods, o.amount) else db.goods)
  }

  // ---- back office ----

  /** The row as the form handler read it, before its transaction. */
  datatype Row = Row(id: int, kind: Kind, status: int, owed: bool, trade: string)

  function LoadRow(db: Db, id: int): Option<Row> {
    if id !in db.orders then None else
    var o := db.orders[id];
    Some(Row(id, o.kind, o.status, o.owed, o.trade))
  }

  predicate ValidStatus(s: int) {
    s == -1 || 1 <= s <= 6
  }

  predicate ManualToShort(kind: Kind, from: int, to: int) {
    kind.Manual? && to == SHORT && from != SHORT
  }

  predicate OwesManualStock(kind: Kind, from: int, owed: bool) {
    kind.Manual? && from == SHORT && owed
  }

  predicate ManualShortToFailedMove(kind: Kind, from: int, to: int) {
    kind.Manual? && from == SHORT && to == FAILED
  }

  predicate TakesManualStock(kind: Kind, from: int, to: int) {
    kind.Manual? && from == SHORT && (to == PENDING || to == HANDLING || to == DONE)
  }

  predicate ReleasesReservations(kind: Kind, from: int, to: int) {
    kind.Auto? && from != to
    && (from == SHORT || ((from == PENDING || from == HANDLING) && (to == DONE || to == FAILED)))
  }

  /** A paid order may progress through fulfilment; payment and expiry are not set by hand. */
  predicate MovesByHand(row: Row, to: int) {
    && (row.status == PENDING || row.status == HANDLING
        || ((row.status == FAILED || row.status == SHORT) && row.trade != ""))
    && 2 <= to <= 6
  }

  function SaveRule(row: Row, formOk: bool, to: int): Option<Rule> {
    if !formOk then Some(BadTitle)
    else if !ValidStatus(to) then Some(BadStatus)
    else if ManualToShort(row.kind, row.status, to) then Some(ManualShortByHand)
    else if OwesManualStock(row.kind, row.status, row.owed) && ManualShortToFailedMove(row.kind, row.status, to)
    then Some(ManualShortToFailed)
    else if to != row.status && !MovesByHand(row, to) then Some(NotByHand)
    else None
  }

  /** Dropping the note settleShort put in front of the buyer's input. */
  function StripMarker(info: string): string {
    if !(MARKER <= info) then info else
    var rest := info[|MARKER|..];
    var rest' := if "\r" <= rest then rest[1..] else rest;
    if "\n" <= rest' then rest'[1..] else rest'
  }

  datatype Saved = Saved | NotSaved(rule: Rule)

  /** orderSave from the loaded row on: the guards, the compare-and-set on the status
      the form was loaded with, and what the move entails. */
  function SaveStep(db: Db, row: Row, formOk: bool, to: int, info: string): (Db, Saved) {
    var rule := SaveRule(row, formOk, to);
    if rule.Some? then (db, NotSaved(rule.value)) else
    var takes := OwesManualStock(row.kind, row.status, row.owed) && TakesManualStock(row.kind, row.status, to);
    if row.id !in db.orders || db.orders[row.id].status != row.status then (db, NotSaved(StaleRow)) else
    var o := db.orders[row.id];
    var o' := o.(status := to, info := if takes then StripMarker(info) else info);
    if takes && !EnoughStock(db.goods, o.goods, o.amount) then (db, NotSaved(NotEnoughStock)) else
    (db.(orders := db.orders[row.id := if takes then o'.(owed := false) else o'],
         goods := if takes then ChangeStock(db.goods, o.goods, -o.amount) else db.goods,
         cards := if ReleasesReservations(row.kind, row.status, to) then ReleaseAny(db.cards, row.id) else db.cards),
     Saved)
  }

  // ---- cards and soft deletion, edited around the ledger ----

  predicate Editable(cards: map<int, Card>, k: int) {
    k in cards && cards[k].owner.None? && cards[k].status == ON_SALE
  }

  predicate AutoGoods(goods: map<int, Goods>, g: int) {
    g in goods && goods[g].kind.Auto? && !goods[g].deleted
  }

  /** carmiSave: only a card that is on sale, unreserved and not deleted, and only to automatic goods. */
  function EditCardStep(db: Db, k: int, g: int, status: int, loop: bool, text: string): Db {
    if (status == ON_SALE || status == SOLD) && AutoGoods(db.goods, g) && Editable(db.cards, k) && !db.cards[k].deleted
    then db.(cards := db.cards[k := Card(g, status, loop, text, None, false)])
    else db
  }

  /** markDeleted on a card, and its reverse. */
  function DeleteCardStep(db: Db, k: int, restore: bool): Db {
    if Editable(db.cards, k) && db.cards[k].deleted == restore
    then db.(cards := db.cards[k := db.cards[k].(deleted := !restore)])
    else db
  }

  /** carmisImport, one inserted row. */
  function ImportCard(db: Db, g: int, loop: bool, text: string): Db {
    db.(cards := db.cards[db.nextCard := Card(g, ON_SALE, loop, text, None, false)], nextCard := db.nextCard + 1)
  }

  function ImportCards(db: Db, g: int, loop: bool, texts: seq<string>): Db {
    if |texts| == 0 then db else ImportCard(ImportCards(db, g, loop, texts[..|texts| - 1]), g, loop, texts[|texts| - 1])
  }

  function ImportStep(db: Db, g: int, loop: bool, texts: seq<string>): Db {
    if AutoGoods(db.goods, g) then ImportCards(db, g, loop, texts) else db
  }

  /** markDeleted on goods and coupons. */
  function DeleteGoodsStep(db: Db, g: int, restore: bool): Db {
    if g in db.goods && db.goods[g].deleted == restore
    then db.(goods := db.goods[g := db.goods[g].(deleted := !restore)]) else db
  }

  function DeleteCouponStep(db: Db, c: int, restore: bool): Db {
    if c in db.coupons && db.coupons[c].deleted == restore
    then db.(coupons := db.coupons[c := db.coupons[c].(deleted := !restore)]) else db
  }
}
