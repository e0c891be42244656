/** The transactions as they run: rows are updated in place, and an error after the
    first write rolls the tables back to where the transaction began. Each is proved
    to do exactly what the ledger function of the same name says. */
module Shop {
  import opened Tables
  import opened Ledger
  import Price

  class Database {
    var orders: map<int, Order>
    var goods: map<int, Goods>
    var cards: map<int, Card>
    var coupons: map<int, Coupon>
    var nextOrder: int
    var nextCard: int

    function Tables(): Db
      reads this
    {
      Db(orders, goods, cards, coupons, nextOrder, nextCard)
    }

    constructor (db: Db)
      ensures Tables() == db
    {
      orders, goods, cards, coupons := db.orders, db.goods, db.cards, db.coupons;
      nextOrder, nextCard := db.nextOrder, db.nextCard;
    }

    method Rollback(saved: Db)
      modifies this
      ensures Tables() == saved
    {
      orders, goods, cards, coupons := saved.orders, saved.goods, saved.cards, saved.coupons;
      nextOrder, nextCard := saved.nextOrder, saved.nextCard;
    }

    /** The cheap refusals of a checkout, before its transaction writes anything. */
    method Admit(form: Checkout) returns (r: Option<Rule>)
      ensures r == Precheck(Tables(), form)
    {
      if form.amount < 1 {
        return Some(BadAmount);
      }
      if !form.emailOk {
        return Some(BadEmail);
      }
      if form.passwordMissing {
        return Some(NoSearchPassword);
      }
      if form.payId <= 0 {
        return Some(NoPayChannel);
      }
      if form.goods !in goods || goods[form.goods].deleted {
        return Some(NoSuchGoods);
      }
      var g := goods[form.goods];
      if !g.open {
        return Some(GoodsClosed);
      }
      if g.limit > 0 && form.amount > g.limit {
        return Some(OverLimit);
      }
      if |LoopCards(cards, form.goods)| > 0 && form.amount > 1 {
        return Some(LoopSoldSingly);
      }
      if !form.payReady {
        return Some(ChannelClosed);
      }
      if !form.quotaOk {
        return Some(TooManyUnpaid);
      }
      return None;
    }

    /** The stock of a checkout: free cards to reserve, or units off the counter. */
    method TakeStock(form: Checkout, skip: set<int>, ghost db: Db) returns (refused: Option<Rule>, picked: seq<int>)
      requires db == Tables() && Precheck(db, form).None?
      modifies this`goods
      ensures picked == CheckoutPick(db.cards, form.goods, form.amount, skip)
      ensures refused == StockRule(db, form, skip)
      ensures goods == if refused.None? then GoodsAfter(db, form) else db.goods
    {
      var g := goods[form.goods];
      picked := CheckoutPick(cards, form.goods, form.amount, skip);
      refused := None;
      if g.kind.Auto? {
        if |picked| != form.amount {
          refused := Some(OutOfStock);
        }
      } else if g.stock < form.amount {
        refused := Some(OutOfStock);
      } else {
        goods := ChangeStock(goods, form.goods, -(form.amount as int));
      }
    }

    /** The coupon of a checkout: the row is read, conditionally decremented, and judged
        by what was read and how many rows changed. */
    method TakeUse(form: Checkout, ghost db: Db) returns (refused: Option<Rule>, face: string)
      requires coupons == db.coupons
      modifies this`coupons
      ensures refused == CouponRule(db.coupons, form.coupon, form.goods)
      ensures refused.None? ==> coupons == CouponsAfter(db, form) && face == Face(db.coupons, form.coupon)
    {
      if form.coupon.None? {
        return None, "";
      }
      var id := form.coupon.value;
      if id !in coupons || form.goods !in coupons[id].goods || coupons[id].deleted {
        return Some(NoSuchCoupon), "";
      }
      var c := coupons[id];
      var rows := CouponRows(c);
      if rows == 1 {
        coupons := ChangeRet(coupons, id, -1);
      }
      return TakeCoupon(c.open, c.used, c.ret, rows), c.discount;
    }

    /** The inputs and the price of a checkout. */
    method Bill(g: Goods, form: Checkout, face: string, ghost db: Db) returns (refused: Option<Rule>, actual: int)
      requires form.goods in db.goods && g == db.goods[form.goods] && face == Face(db.coupons, form.coupon)
      ensures refused == PriceRule(g.kind, form.extraOk, QuoteFor(db, form))
      ensures actual == Payable(QuoteFor(db, form))
    {
      var quote := Price.Quote(g.price, form.amount, face, g.wholesale);
      return PriceRule(g.kind, form.extraOk, quote), Payable(quote);
    }

    /** The coupon, then the inputs and the price; a refusal leaves the coupons as they were. */
    method ChargeLess(form: Checkout, g: Goods, ghost db: Db) returns (refused: Option<Rule>, actual: int)
      requires form.goods in db.goods && g == db.goods[form.goods] && coupons == db.coupons
      modifies this`coupons
      ensures refused == TermsRule(db, form)
      ensures refused.Some? ==> coupons == db.coupons
      ensures refused.None? ==> coupons == CouponsAfter(db, form) && actual == Payable(QuoteFor(db, form))
    {
      var couponsBefore := coupons;
      var face;
      actual := 0;
      refused, face := TakeUse(form, db);
      if refused.None? {
        refused, actual := Bill(g, form, face, db);
      }
      if refused.Some? {
        coupons := couponsBefore;
      }
    }

    /** The first part of createOrder: stock, then the coupon, then the inputs and the
        price; a refusal leaves the tables as they were. */
    method Charge(form: Checkout, skip: set<int>, ghost db: Db)
      returns (refused: Option<Rule>, actual: int, picked: seq<int>)
      requires db == Tables() && Precheck(db, form).None?
      modifies this`goods, this`coupons
      ensures refused == CheckoutRule(db, form, skip)
      ensures refused.Some? ==> goods == db.goods && coupons == db.coupons
      ensures refused.None? ==> picked == CheckoutPick(db.cards, form.goods, form.amount, skip)
      ensures refused.None? ==> actual == Payable(QuoteFor(db, form))
      ensures refused.None? ==> goods == GoodsAfter(db, form) && coupons == CouponsAfter(db, form)
    {
      var goodsBefore, g := goods, goods[form.goods];
      actual := 0;
      refused, picked := TakeStock(form, skip, db);
      if refused.None? {
        refused, actual := ChargeLess(form, g, db);
        if refused.Some? {
          goods := goodsBefore;
        }
      }
    }

    /** createOrder: once nothing refuses it, the row and its reservations. */
    method CreateOrder(form: Checkout, skip: set<int>) returns (r: Placed)
      modifies this
      ensures (Tables(), r) == CheckoutStep(old(Tables()), form, skip)
    {
      ghost var db := Tables();
      RefusedStep(db, form, skip);
      var refused := Admit(form);
      if refused.Some? {
        return NotPlaced(refused.value);
      }
      var actual, reserved;
      refused, actual, reserved := Charge(form, skip, db);
      if refused.Some? {
        return NotPlaced(refused.value);
      }
      PlacedStep(db, form, skip);
      var id := Record(form, actual, reserved, db);
      return Placed(id);
    }

    /** The last part of createOrder: the order that was charged for. */
    method Record(form: Checkout, actual: int, reserved: seq<int>, ghost db: Db) returns (id: int)
      requires form.goods in db.goods && actual == Payable(QuoteFor(db, form))
      requires Tables() == db.(goods := GoodsAfter(db, form), coupons := CouponsAfter(db, form))
      modifies this`orders, this`cards, this`nextOrder
      ensures Tables() == Place(db, NewOrder(db, form), Members(reserved)) && id == db.nextOrder
    {
      var kind := goods[form.goods].kind;
      var couponId := if form.coupon.Some? then form.coupon.value else 0;
      var o := Order(form.goods, kind, form.amount, actual, couponId, UNPAID, TAKEN, false, "",
                     if kind.Manual? then form.info else "");
      id := Insert(o, reserved);
      PlacedRows(db, form, Tables(), reserved);
    }

    /** The order row and its reservations. */
    method Insert(o: Order, reserved: seq<int>) returns (id: int)
      modifies this`orders, this`cards, this`nextOrder
      ensures id == old(nextOrder) && nextOrder == id + 1
      ensures orders == old(orders)[id := o]
      ensures cards == if o.kind.Auto? then Reserve(old(cards), Members(reserved), id) else old(cards)
    {
      id := nextOrder;
      nextOrder := id + 1;
      orders := orders[id := o];
      if o.kind.Auto? {
        ReserveAll(reserved, id);
      }
    }

    /** The reservation loop. */
    method ReserveAll(reserved: seq<int>, id: int)
      modifies this`cards
      ensures cards == Reserve(old(cards), Members(reserved), id)
    {
      var n := 0;
      while n < |reserved|
        invariant 0 <= n <= |reserved|
        invariant cards == Reserve(old(cards), Members(reserved[..n]), id)
      {
        var k := reserved[n];
        assert Members(reserved[..n + 1]) == Members(reserved[..n]) + {k};
        if k in cards {
          cards := cards[k := cards[k].(owner := Some(id))];
        }
        n := n + 1;
      }
      assert reserved[..|reserved|] == reserved;
    }

    /** settleShort: record the payment, note that stock is owed, commit. */
    method SettleShort(id: int, trade: string, retBack: int, ghost db: Db)
      requires id in orders && db.orders == orders
      requires Tables() == db.(coupons := RetakenCoupons(db.coupons, db.orders[id]))
      requires retBack == RetBackAfter(db.coupons, db.orders[id])
      modifies this`orders
      ensures Tables() == ShortRecorded(db, id, trade)
    {
      var o := orders[id];
      var info := MARKER;
      if o.kind.Manual? {
        info := info + "\n" + o.info;
      }
      orders := orders[id := o.(status := SHORT, info := info, trade := trade, retBack := retBack,
                                owed := o.kind.Manual?)];
    }

    /** One card of the delivery: its text is handed out; unless it is a loop card it is sold. */
    method ShipOne(k: int) returns (text: string)
      modifies this`cards
      ensures cards == ShippedOne(old(cards), k)
      ensures text == TextOf(old(cards), k)
    {
      text := "";
      if k in cards {
        text := cards[k].text;
        cards := cards[k := Shipped(cards[k])];
      }
    }

    /** The delivery loop: texts are collected, cards that are not loop cards are sold. */
    method ShipAll(picked: seq<int>) returns (info: string)
      modifies this`cards
      ensures cards == Ship(old(cards), Members(picked))
      ensures info == Lines(old(cards), picked)
    {
      info := "";
      ghost var was := cards;
      var n := 0;
      while n < |picked|
        invariant 0 <= n <= |picked|
        invariant cards == Ship(was, Members(picked[..n]))
        invariant info == Lines(was, picked[..n])
      {
        ShipOneMore(was, picked, n);
        LinesOneMore(was, picked, n);
        var text := ShipOne(picked[n]);
        info := if n == 0 then text else info + "\n" + text;
        n := n + 1;
      }
      assert picked[..|picked|] == picked;
    }

    /** settle: what the order row alone decides, then the settlement itself. */
    method Settle(id: int, paid: int, tradeNo: string, redeliver: bool, skip: set<int>) returns (r: Settled)
      modifies this
      ensures (Tables(), r) == SettleStep(old(Tables()), id, paid, tradeNo, redeliver, skip)
    {
      if id !in orders {
        return Refused(NoSuchOrder);
      }
      var o := orders[id];
      var amountPaid, trade := paid, tradeNo;
      if redeliver {
        if o.status != SHORT {
          return Idle;
        }
        if o.kind.Manual? {
          return Refused(AutoOnly);
        }
        amountPaid, trade := o.actual, if o.trade == "" then "manual" else o.trade;
      }
      if amountPaid != o.actual {
        return Refused(AmountDiffers);
      }
      if o.status == DONE || o.status == PENDING || o.status == HANDLING {
        return Already;
      }
      if o.status != UNPAID && o.status != EXPIRED && o.status != SHORT {
        return Refused(NotPayable);
      }
      if o.kind.Manual? && o.status == SHORT {
        return Already;
      }
      r := SettlePaid(id, trade, redeliver, skip);
    }

    /** settle past its guards, when the cards or the stock suffice. */
    method Deliver(id: int, picked: seq<int>, trade: string, retBack: int, ghost db: Db)
      requires id in orders && db.orders == orders
      requires Tables() == db.(coupons := RetakenCoupons(db.coupons, db.orders[id]))
      requires retBack == RetBackAfter(db.coupons, db.orders[id])
      modifies this
      ensures Tables() == if db.orders[id].kind.Auto? then AutoDelivered(db, id, picked, trade)
                          else ManualDelivered(db, id, trade)
    {
      var o := orders[id];
      if o.kind.Auto? {
        var info := ShipAll(picked);
        cards := Release(cards, id, o.goods, true);
        orders := orders[id := o.(status := DONE, info := info, trade := trade, retBack := retBack)];
      } else {
        if o.status == EXPIRED {
          goods := ChangeStock(goods, o.goods, -o.amount);
        }
        orders := orders[id := o.(status := PENDING, trade := trade, retBack := retBack)];
      }
      goods := AddSales(goods, o.goods, o.amount);
    }

    /** settle past its guards: the coupon, then the cards or the stock; short stock is
        recorded, except by a redelivery, which is rolled back. */
    method SettlePaid(id: int, trade: string, redeliver: bool, skip: set<int>) returns (r: Settled)
      requires id in orders
      modifies this
      ensures var db := old(Tables());
        var picked := Pick(db, id, skip);
        if Covers(db, db.orders[id], picked) then
          && r == Delivered(picked)
          && Tables() == (if db.orders[id].kind.Auto? then AutoDelivered(db, id, picked, trade)
                          else ManualDelivered(db, id, trade))
        else
          r == Refused(OutOfStock) && Tables() == (if redeliver then db else ShortRecorded(db, id, trade))
    {
      var saved := Tables();
      var retBack := Retake(orders[id]);
      var picked := Pick(Tables(), id, skip);
      if Covers(Tables(), orders[id], picked) {
        Deliver(id, picked, trade, retBack, saved);
        return Delivered(picked);
      }
      if redeliver {
        Rollback(saved);
      } else {
        SettleShort(id, trade, retBack, saved);
      }
      return Refused(OutOfStock);
    }

    /** The coupon of a late payment: taken again if it has a use left, else marked. */
    method Retake(o: Order) returns (retBack: int)
      modifies this`coupons
      ensures coupons == RetakenCoupons(old(coupons), o)
      ensures retBack == RetBackAfter(old(coupons), o)
    {
      retBack := o.retBack;
      if o.coupon > 0 && o.retBack == HANDED_BACK {
        if o.coupon in coupons && coupons[o.coupon].ret > 0 && !coupons[o.coupon].deleted {
          coupons := ChangeRet(coupons, o.coupon, -1);
          retBack := TAKEN;
        } else {
          retBack := UNRECOVERABLE;
        }
      }
    }

    /** A payment notice: it delivers only for exactly the price, and writes nothing when it
        is acknowledged or refused for any other reason than short stock. */
    method Complete(id: int, paid: int, tradeNo: string, skip: set<int>) returns (r: Settled)
      modifies this
      ensures r.Delivered? ==> id in old(orders) && paid == old(orders)[id].actual
      ensures !r.Delivered? && r != Refused(OutOfStock) ==> Tables() == old(Tables())
      ensures !r.Idle?
      ensures (Tables(), r) == SettleStep(old(Tables()), id, paid, tradeNo, false, skip)
    {
      r := Settle(id, paid, tradeNo, false, skip);
    }

    method Redeliver(id: int, skip: set<int>) returns (r: Settled)
      modifies this
      ensures (Tables(), r) == SettleStep(old(Tables()), id, 0, "", true, skip)
    {
      r := Settle(id, 0, "", true, skip);
    }

    /** expireOne, with the coupon id its caller read beside the order id. */
    method ExpireOne(id: int, coupon: int)
      requires id in orders ==> orders[id].coupon == coupon
      modifies this
      ensures Tables() == ExpireStep(old(Tables()), id)
    {
      if id !in orders || orders[id].status != UNPAID {
        return;
      }
      var o := orders[id];
      orders := orders[id := o.(status := EXPIRED, retBack := HANDED_BACK)];
      if coupon > 0 {
        coupons := ChangeRet(coupons, coupon, 1);
      }
      cards := Release(cards, id, o.goods, false);
      if o.kind.Manual? {
        goods := ChangeStock(goods, o.goods, o.amount);
      }
    }

    /** The sweep over the orders a query found due; due pairs an order with its coupon. */
    method ExpireDue(due: seq<(int, int)>)
      requires forall i :: 0 <= i < |due| && due[i].0 in orders ==> orders[due[i].0].coupon == due[i].1
      modifies this
      ensures Tables() == ExpireAll(old(Tables()), due)
    {
      var n := 0;
      while n < |due|
        invariant 0 <= n <= |due|
        invariant Tables() == ExpireAll(old(Tables()), due[..n])
        invariant orders.Keys == old(orders.Keys)
        invariant forall id :: id in orders ==> orders[id].coupon == old(orders)[id].coupon
      {
        ExpireOne(due[n].0, due[n].1);
        assert due[..n + 1][..n] == due[..n];
        n := n + 1;
      }
      assert due[..|due|] == due;
    }

    /** The read in front of the back-office form; saved at once, it is never stale. */
    method LoadOrder(id: int) returns (row: Option<Row>)
      ensures row == LoadRow(Tables(), id)
      ensures row.Some? ==> forall formOk, to, info ::
        SaveStep(Tables(), row.value, formOk, to, info).1 != NotSaved(StaleRow)
    {
      if id !in orders {
        return None;
      }
      var o := orders[id];
      return Some(Row(id, o.kind, o.status, o.owed, o.trade));
    }

    /** orderSave after the row was loaded; other transactions may have run since. */
    method OrderSave(row: Row, formOk: bool, to: int, info: string) returns (r: Saved)
      modifies this
      ensures (Tables(), r) == SaveStep(old(Tables()), row, formOk, to, info)
    {
      var saved := Tables();
      if !formOk {
        return NotSaved(BadTitle);
      }
      if !ValidStatus(to) {
        return NotSaved(BadStatus);
      }
      if ManualToShort(row.kind, row.status, to) {
        return NotSaved(ManualShortByHand);
      }
      var owes := OwesManualStock(row.kind, row.status, row.owed);
      if owes && ManualShortToFailedMove(row.kind, row.status, to) {
        return NotSaved(ManualShortToFailed);
      }
      if to != row.status && !MovesByHand(row, to) {
        return NotSaved(NotByHand);
      }
      var takeStock := owes && TakesManualStock(row.kind, row.status, to);
      var text := if takeStock then StripMarker(info) else info;
      if row.id !in orders || orders[row.id].status != row.status {
        return NotSaved(StaleRow);
      }
      orders := orders[row.id := orders[row.id].(status := to, info := text)];
      var o := orders[row.id];
      if takeStock {
        if !EnoughStock(goods, o.goods, o.amount) {
          Rollback(saved);
          return NotSaved(NotEnoughStock);
        }
        goods := ChangeStock(goods, o.goods, -o.amount);
        orders := orders[row.id := o.(owed := false)];
      }
      if ReleasesReservations(row.kind, row.status, to) {
        cards := ReleaseAny(cards, row.id);
      }
      ghost var o' := saved.orders[row.id].(status := to, info := text);
      assert orders == saved.orders[row.id := if takeStock then o'.(owed := false) else o'];
      return Saved;
    }

    /** carmiSave: a reserved, sold or deleted card, every other card and every other table
        stay as they are. */
    method CarmiSave(k: int, g: int, status: int, loop: bool, text: string)
      modifies this`cards
      ensures Tables() == EditCardStep(old(Tables()), k, g, status, loop, text)
      ensures cards.Keys == old(cards).Keys
      ensures forall j :: j in cards && (j != k || !Editable(old(cards), j) || old(cards)[j].deleted) ==>
        cards[j] == old(cards)[j]
    {
      if (status == ON_SALE || status == SOLD) && AutoGoods(goods, g) && Editable(cards, k) && !cards[k].deleted {
        cards := cards[k := Card(g, status, loop, text, None, false)];
      }
    }

    /** markDeleted on a card: only the mark of a card on sale and unreserved changes. */
    method CarmiMarkDeleted(k: int, restore: bool)
      modifies this`cards
      ensures Tables() == DeleteCardStep(old(Tables()), k, restore)
      ensures cards.Keys == old(cards).Keys
      ensures forall j :: j in cards ==> cards[j] == old(cards)[j].(deleted := cards[j].deleted)
      ensures forall j :: j in cards && (j != k || !Editable(old(cards), j)) ==> cards[j] == old(cards)[j]
    {
      if Editable(cards, k) && cards[k].deleted == restore {
        cards := cards[k := cards[k].(deleted := !restore)];
      }
    }

    /** carmisImport: one row per line. */
    method CarmisImport(g: int, loop: bool, texts: seq<string>)
      modifies this
      ensures Tables() == ImportStep(old(Tables()), g, loop, texts)
    {
      if !AutoGoods(goods, g) {
        return;
      }
      var n := 0;
      while n < |texts|
        invariant 0 <= n <= |texts|
        invariant Tables() == ImportCards(old(Tables()), g, loop, texts[..n])
      {
        assert texts[..n + 1][..n] == texts[..n];
        cards := cards[nextCard := Card(g, ON_SALE, loop, texts[n], None, false)];
        nextCard := nextCard + 1;
        n := n + 1;
      }
      assert texts[..|texts|] == texts;
    }
  }

  function ShippedOne(cards: map<int, Card>, k: int): map<int, Card> {
    if k in cards then cards[k := Shipped(cards[k])] else cards
  }

  function TextOf(cards: map<int, Card>, k: int): string {
    if k in cards then cards[k].text else ""
  }

  /** One more card of the delivery loop. */
  lemma ShipOneMore(cards: map<int, Card>, picked: seq<int>, n: nat)
    requires n < |picked|
    ensures var done := Ship(cards, Members(picked[..n]));
      && TextOf(done, picked[n]) == TextOf(cards, picked[n])
      && Ship(cards, Members(picked[..n + 1])) == ShippedOne(done, picked[n])
  {
    var k, done := picked[n], Members(picked[..n]);
    assert Members(picked[..n + 1]) == done + {k};
    forall j | j in cards ensures Ship(cards, done + {k})[j] == ShippedOne(Ship(cards, done), k)[j] {}
  }

  lemma LinesOneMore(cards: map<int, Card>, picked: seq<int>, n: nat)
    requires n < |picked|
    ensures var text := TextOf(cards, picked[n]);
      Lines(cards, picked[..n + 1]) == if n == 0 then text else Lines(cards, picked[..n]) + "\n" + text
  {
    assert picked[..n + 1][..n] == picked[..n];
  }

  lemma RefusedStep(db: Db, form: Checkout, skip: set<int>)
    ensures CheckoutRule(db, form, skip).Some? ==>
      CheckoutStep(db, form, skip) == (db, NotPlaced(CheckoutRule(db, form, skip).value))
    ensures Precheck(db, form).Some? ==> CheckoutRule(db, form, skip) == Precheck(db, form)
  {}

  lemma PlacedStep(db: Db, form: Checkout, skip: set<int>)
    requires CheckoutRule(db, form, skip).None?
    ensures form.goods in db.goods
    ensures CheckoutStep(db, form, skip) ==
      (Place(db, NewOrder(db, form), Members(CheckoutPick(db.cards, form.goods, form.amount, skip))),
       Placed(db.nextOrder))
  {}

  function GoodsAfter(db: Db, form: Checkout): map<int, Goods>
    requires form.goods in db.goods
  {
    if db.goods[form.goods].kind.Manual? then ChangeStock(db.goods, form.goods, -(form.amount as int)) else db.goods
  }

  function CouponsAfter(db: Db, form: Checkout): map<int, Coupon> {
    if form.coupon.Some? then ChangeRet(db.coupons, form.coupon.value, -1) else db.coupons
  }

  /** The rows written piece by piece are those of the placed order. */
  lemma PlacedRows(db: Db, form: Checkout, db': Db, reserved: seq<int>)
    requires form.goods in db.goods
    requires db'.goods == GoodsAfter(db, form) && db'.coupons == CouponsAfter(db, form)
    requires db'.orders == db.orders[db.nextOrder := NewOrder(db, form)]
    requires db'.cards ==
      if db.goods[form.goods].kind.Auto? then Reserve(db.cards, Members(reserved), db.nextOrder) else db.cards
    requires db'.nextOrder == db.nextOrder + 1 && db'.nextCard == db.nextCard
    ensures db' == Place(db, NewOrder(db, form), Members(reserved))
  {}

  /** The sweep as a function of the tables. */
  function ExpireAll(db: Db, due: seq<(int, int)>): Db {
    if |due| == 0 then db else ExpireStep(ExpireAll(db, due[..|due| - 1]), due[|due| - 1].0)
  }

  /** After a sweep every listed order that was unpaid is expired, and no other order changed. */
  lemma {:induction false} ExpireAllExact(db: Db, due: seq<(int, int)>)
    ensures var db' := ExpireAll(db, due);
      && db'.orders.Keys == db.orders.Keys
      && forall id :: id in db.orders ==>
           if db.orders[id].status == UNPAID && (exists i :: 0 <= i < |due| && due[i].0 == id)
           then db'.orders[id] == db.orders[id].(status := EXPIRED, retBack := HANDED_BACK)
           else db'.orders[id] == db.orders[id]
  {
    if |due| > 0 {
      var init := due[..|due| - 1];
      ExpireAllExact(db, init);
      forall id | id in db.orders
        ensures (exists i :: 0 <= i < |due| && due[i].0 == id) <==>
                due[|due| - 1].0 == id || exists i :: 0 <= i < |init| && init[i].0 == id
      {
        if i :| 0 <= i < |init| && init[i].0 == id {
          assert due[i].0 == id;
        }
        if i :| 0 <= i < |due| && due[i].0 == id {
          assert i < |init| ==> init[i].0 == id;
        }
      }
    }
  }
}
