/** Every transaction of the ledger, and every edit around it, keeps the invariant,
    conserves stock and coupon uses, and leaves unpaid orders their cards. */
module LedgerSteps {
  import opened Tables
  import opened Text
  import opened Ledger
  import opened LedgerInvariant

  lemma Unchanged(db: Db)
    requires Inv(db)
    ensures StepOk(db, db)
  {}

  // ---- checkout ----

  lemma CheckoutPicks(cards: map<int, Card>, g: int, n: int, skip: set<int>)
    requires n >= 1
    ensures var p := CheckoutPick(cards, g, n, skip);
      && Members(p) <= FreeCards(cards, g) - skip
      && |Members(p)| == |p|
  {
    var p := CheckoutPick(cards, g, n, skip);
    var all := Ascending(FreeCards(cards, g) - skip);
    DistinctMembers(p);
    forall x | x in p ensures x in FreeCards(cards, g) - skip {
      var i :| 0 <= i < |p| && p[i] == x;
      assert all[i] in all;
    }
  }

  /** The new order's reservation is exactly the picked cards; no other changes. */
  lemma ReserveHolds(cards: map<int, Card>, picked: set<int>, id: int)
    requires picked <= cards.Keys
    requires forall k :: k in cards ==> cards[k].owner != Some(id)
    requires forall k :: k in picked ==> cards[k].owner.None?
    ensures Reserved(Reserve(cards, picked, id), id) == picked
    ensures forall o :: o != id ==> Reserved(Reserve(cards, picked, id), o) == Reserved(cards, o)
  {
    var cards' := Reserve(cards, picked, id);
    forall k ensures k in Reserved(cards', id) <==> k in picked {}
    forall o | o != id ensures Reserved(cards', o) == Reserved(cards, o) {
      forall k ensures k in Reserved(cards', o) <==> k in Reserved(cards, o) {}
    }
  }

  ghost predicate NewlyPlaced(db: Db, o: Order) {
    && OrderOk(o) && o.status == UNPAID && o.goods in db.goods
    && (o.coupon > 0 ==> o.coupon in db.coupons && db.coupons[o.coupon].ret > 0)
  }

  lemma PlaceStock(db: Db, o: Order, picked: set<int>)
    requires OrdersOk(db) && CountersOk(db) && NewlyPlaced(db, o)
    requires o.kind.Manual? ==> db.goods[o.goods].stock >= o.amount
    ensures StockMoves(db.orders, db.goods, Place(db, o, picked).goods, db.nextOrder, o)
  {}

  lemma PlaceCoupon(db: Db, o: Order, picked: set<int>)
    requires OrdersOk(db) && CountersOk(db) && NewlyPlaced(db, o)
    ensures CouponMoves(db.orders, db.coupons, Place(db, o, picked).coupons, db.nextOrder, o)
  {}

  lemma PlaceCards(db: Db, o: Order, picked: set<int>)
    requires Inv(db) && NewlyPlaced(db, o)
    requires o.kind.Auto? ==> picked <= FreeCards(db.cards, o.goods) && |picked| == o.amount
    ensures var db' := Place(db, o, picked); CardsOk(db') && HoldsOk(db') && HeldCardsStay(db, db')
  {
    assert db.nextOrder !in db.orders;
    if o.kind.Auto? {
      ReserveHolds(db.cards, picked, db.nextOrder);
    }
  }

  lemma PlaceKeeps(db: Db, o: Order, picked: set<int>)
    requires Inv(db) && NewlyPlaced(db, o)
    requires o.kind.Auto? ==> picked <= FreeCards(db.cards, o.goods) && |picked| == o.amount
    requires o.kind.Manual? ==> db.goods[o.goods].stock >= o.amount
    ensures StepOk(db, Place(db, o, picked))
  {
    PlaceStock(db, o, picked);
    PlaceCoupon(db, o, picked);
    PlaceCards(db, o, picked);
    WriteKeeps(db, Place(db, o, picked), db.nextOrder, o);
  }

  lemma CheckoutKeeps(db: Db, form: Checkout, skip: set<int>)
    requires Inv(db)
    ensures StepOk(db, CheckoutStep(db, form, skip).0)
  {
    Unchanged(db);
    if CheckoutRule(db, form, skip).None? {
      NewOrderPlaced(db, form, skip);
      CheckoutPicks(db.cards, form.goods, form.amount, skip);
      PlaceKeeps(db, NewOrder(db, form), Members(CheckoutPick(db.cards, form.goods, form.amount, skip)));
    }
  }

  /** What no refusal means. */
  lemma Admitted(db: Db, form: Checkout, skip: set<int>)
    requires CheckoutRule(db, form, skip).None?
    ensures form.amount >= 1 && form.goods in db.goods && Precheck(db, form).None?
    ensures StockRule(db, form, skip).None? && CouponRule(db.coupons, form.coupon, form.goods).None?
    ensures Payable(QuoteFor(db, form)) > 0
  {}

  lemma NewOrderPlaced(db: Db, form: Checkout, skip: set<int>)
    requires CheckoutRule(db, form, skip).None?
    ensures form.amount >= 1 && form.goods in db.goods
    ensures var o := NewOrder(db, form);
      && NewlyPlaced(db, o) && o.goods == form.goods && o.amount == form.amount
      && (o.kind.Auto? ==> |CheckoutPick(db.cards, form.goods, form.amount, skip)| == form.amount)
      && (o.kind.Manual? ==> db.goods[o.goods].stock >= o.amount)
  {
    Admitted(db, form, skip);
  }

  // ---- settlement ----

  /** Where the members of two listings, one after the other, come from. */
  lemma ListedFrom(own: set<int>, free: set<int>, i: nat)
    requires i < |own| + |free|
    ensures var all := Ascending(own) + Ascending(free); if i < |own| then all[i] in own else all[i] in free
  {
    if i < |own| {
      assert Ascending(own)[i] in Ascending(own);
    } else {
      assert Ascending(free)[i - |own|] in Ascending(free);
    }
  }

  lemma ListedOnce(own: set<int>, free: set<int>, i: nat, j: nat)
    requires own !! free && i < j < |own| + |free|
    ensures var all := Ascending(own) + Ascending(free); all[i] != all[j]
  {
    ListedFrom(own, free, i);
    ListedFrom(own, free, j);
  }

  lemma SettlePicks(cards: map<int, Card>, g: int, order: int, n: int, skip: set<int>)
    requires n >= 1
    ensures var p := SettlePick(cards, g, order, n, skip);
      && Members(p) <= OwnCards(cards, g, order) + FreeCards(cards, g)
      && (forall i, j :: 0 <= i < j < |p| ==> p[i] != p[j])
  {
    var own, free := OwnCards(cards, g, order) - skip, FreeCards(cards, g) - skip;
    var p := SettlePick(cards, g, order, n, skip);
    forall k | k in p ensures k in own || k in free {
      var i: nat :| i < |p| && p[i] == k;
      ListedFrom(own, free, i);
    }
    forall i, j | 0 <= i < j < |p| ensures p[i] != p[j] {
      ListedOnce(own, free, i, j);
    }
  }

  /** After a delivery the order holds nothing and other orders hold what they held. */
  lemma ShipFrees(db: Db, id: int, g: int, picked: set<int>)
    requires CardsOk(db) && id in db.orders && db.orders[id].goods == g
    requires picked <= OwnCards(db.cards, g, id) + FreeCards(db.cards, g)
    ensures var cards := Release(Ship(db.cards, picked), id, g, true);
      && Reserved(cards, id) == {}
      && (forall o :: o != id ==> Reserved(cards, o) == Reserved(db.cards, o))
      && (forall k :: k in db.cards && db.cards[k].owner.Some? && db.cards[k].owner != Some(id) ==>
            cards[k] == db.cards[k])
  {
    var cards := Release(Ship(db.cards, picked), id, g, true);
    forall k | k in cards ensures cards[k].owner != Some(id) {
      assert CardOk(db.cards[k], db.orders);
    }
    forall o | o != id ensures Reserved(cards, o) == Reserved(db.cards, o) {
      forall k ensures k in Reserved(cards, o) <==> k in Reserved(db.cards, o) {}
    }
  }

  /** The paid order's row, whatever it turns into, and its coupon. */
  ghost predicate PaidWrite(db: Db, id: int, o': Order) {
    && id in db.orders
    && var o := db.orders[id];
    && (o.status == UNPAID || o.status == EXPIRED || o.status == SHORT)
    && o' == o.(status := o'.status, info := o'.info, trade := o'.trade,
                retBack := RetBackAfter(db.coupons, o), owed := o'.owed)
    && (o'.status == DONE || o'.status == PENDING || o'.status == SHORT)
    && (o'.owed <==> o.kind.Manual? && o'.status == SHORT)
    && (o.kind.Manual? ==> (o'.status == SHORT ==> o.status == EXPIRED) && o.status != SHORT)
  }

  /** The delivered order's rows, and the tables around the cards. */
  ghost predicate AutoWrite(db: Db, db': Db, id: int, o': Order, picked: set<int>) {
    && PaidWrite(db, id, o') && o'.kind.Auto? && o'.status == DONE
    && picked <= OwnCards(db.cards, o'.goods, id) + FreeCards(db.cards, o'.goods)
    && db' == db.(cards := Release(Ship(db.cards, picked), id, o'.goods, true),
                  orders := db.orders[id := o'], goods := AddSales(db.goods, o'.goods, o'.amount),
                  coupons := RetakenCoupons(db.coupons, db.orders[id]))
  }

  lemma AutoDeliveryCards(db: Db, db': Db, id: int, o': Order, picked: set<int>)
    requires Inv(db) && AutoWrite(db, db', id, o', picked)
    ensures CardsOk(db') && HoldsOk(db') && HeldCardsStay(db, db')
  {
    ShipFrees(db, id, o'.goods, picked);
    forall k | k in db'.cards ensures k < db'.nextCard && CardOk(db'.cards[k], db'.orders) {
      assert CardOk(db.cards[k], db.orders);
      assert db'.cards[k].owner == Some(id) ==> k in Reserved(db'.cards, id);
    }
  }

  /** The paid order's row fits, and its coupon moves with it. */
  lemma PaidFits(db: Db, db': Db, id: int, o': Order)
    requires OrdersOk(db) && PaidWrite(db, id, o') && db'.nextOrder == db.nextOrder
    ensures RowFits(db, db', id, o')
  {
    assert OrderOk(db.orders[id]);
  }

  lemma PaidCoupon(db: Db, id: int, o': Order)
    requires OrdersOk(db) && CountersOk(db) && PaidWrite(db, id, o')
    ensures CouponMoves(db.orders, db.coupons, RetakenCoupons(db.coupons, db.orders[id]), id, o')
  {
    assert OrderOk(db.orders[id]);
  }

  lemma AutoDeliveryKeeps(db: Db, db': Db, id: int, o': Order, picked: set<int>)
    requires Inv(db) && AutoWrite(db, db', id, o', picked)
    ensures StepOk(db, db')
  {
    PaidFits(db, db', id, o');
    PaidCoupon(db, id, o');
    AutoDeliveryCards(db, db', id, o', picked);
    assert StockMoves(db.orders, db.goods, db'.goods, id, o');
    WriteKeeps(db, db', id, o');
  }

  lemma ShortKeeps(db: Db, db': Db, id: int, o': Order)
    requires Inv(db) && PaidWrite(db, id, o') && o'.status == SHORT
    requires db' == db.(orders := db.orders[id := o'], coupons := RetakenCoupons(db.coupons, db.orders[id]))
    ensures StepOk(db, db')
  {
    PaidFits(db, db', id, o');
    PaidCoupon(db, id, o');
    PaidCards(db, db', id, o');
    assert OrderOk(db.orders[id]);
    assert StockMoves(db.orders, db.goods, db'.goods, id, o');
    WriteKeeps(db, db', id, o');
  }

  ghost predicate ManualWrite(db: Db, db': Db, id: int, o': Order) {
    && PaidWrite(db, id, o') && o'.kind.Manual? && o'.status == PENDING
    && (db.orders[id].status == EXPIRED ==> EnoughStock(db.goods, o'.goods, o'.amount))
    && var goods := if db.orders[id].status == EXPIRED then ChangeStock(db.goods, o'.goods, -o'.amount) else db.goods;
      db' == db.(orders := db.orders[id := o'], goods := AddSales(goods, o'.goods, o'.amount),
                 coupons := RetakenCoupons(db.coupons, db.orders[id]))
  }

  /** Recording a payment of a manual order, or a short one, leaves the cards alone. */
  lemma PaidCards(db: Db, db': Db, id: int, o': Order)
    requires Inv(db) && PaidWrite(db, id, o') && (o'.kind.Manual? || o'.status == SHORT)
    requires db'.orders == db.orders[id := o'] && db'.cards == db.cards && db'.nextCard == db.nextCard
    ensures CardsOk(db') && HoldsOk(db') && HeldCardsStay(db, db')
  {
    forall k | k in db'.cards ensures k < db'.nextCard && CardOk(db'.cards[k], db'.orders) {
      assert CardOk(db.cards[k], db.orders);
    }
  }

  lemma ManualStock(db: Db, db': Db, id: int, o': Order)
    requires OrdersOk(db) && CountersOk(db) && ManualWrite(db, db', id, o')
    ensures StockMoves(db.orders, db.goods, db'.goods, id, o')
  {
    assert OrderOk(db.orders[id]);
  }

  lemma ManualDeliveryKeeps(db: Db, db': Db, id: int, o': Order)
    requires Inv(db) && ManualWrite(db, db', id, o')
    ensures StepOk(db, db')
  {
    PaidFits(db, db', id, o');
    PaidCoupon(db, id, o');
    PaidCards(db, db', id, o');
    ManualStock(db, db', id, o');
    WriteKeeps(db, db', id, o');
  }

  lemma SettleKeeps(db: Db, id: int, paid: int, trade: string, redeliver: bool, skip: set<int>)
    requires Inv(db)
    ensures StepOk(db, SettleStep(db, id, paid, trade, redeliver, skip).0)
  {
    var (db', result) := SettleStep(db, id, paid, trade, redeliver, skip);
    Unchanged(db);
    if SettleRule(db, id, paid, redeliver).None? && db' != db {
      var o, o' := db.orders[id], db'.orders[id];
      assert OrderOk(o);
      assert PaidWrite(db, id, o');
      if o'.status == SHORT {
        ShortKeeps(db, db', id, o');
      } else if o.kind.Auto? {
        SettlePicks(db.cards, o.goods, id, o.amount, skip);
        var picked := Members(SettlePick(db.cards, o.goods, id, o.amount, skip));
        AutoDeliveryKeeps(db, db', id, o', picked);
      } else {
        ManualDeliveryKeeps(db, db', id, o');
      }
    }
  }

  // ---- expiry ----

  lemma ReleaseFrees(db: Db, id: int, g: int, onSaleOnly: bool)
    requires CardsOk(db) && id in db.orders && db.orders[id].goods == g
    ensures var cards := Release(db.cards, id, g, onSaleOnly);
      && cards == ReleaseAny(db.cards, id)
      && Reserved(cards, id) == {}
      && (forall o :: o != id ==> Reserved(cards, o) == Reserved(db.cards, o))
  {
    var cards := Release(db.cards, id, g, onSaleOnly);
    forall k | k in db.cards ensures cards[k] == ReleaseAny(db.cards, id)[k] && cards[k].owner != Some(id) {
      assert CardOk(db.cards[k], db.orders);
    }
    forall o | o != id ensures Reserved(cards, o) == Reserved(db.cards, o) {
      forall k ensures k in Reserved(cards, o) <==> k in Reserved(db.cards, o) {}
    }
  }

  lemma ExpireKeeps(db: Db, id: int)
    requires Inv(db)
    ensures StepOk(db, ExpireStep(db, id))
  {
    Unchanged(db);
    if id in db.orders && db.orders[id].status == UNPAID {
      var db' := ExpireStep(db, id);
      ExpireCards(db, id);
      ExpireStock(db, id);
      ExpireCoupon(db, id);
      assert RowFits(db, db', id, db'.orders[id]) by {
        assert OrderOk(db.orders[id]);
      }
      WriteKeeps(db, db', id, db'.orders[id]);
    }
  }

  lemma ExpireStock(db: Db, id: int)
    requires OrdersOk(db) && CountersOk(db) && id in db.orders && db.orders[id].status == UNPAID
    ensures var db' := ExpireStep(db, id); StockMoves(db.orders, db.goods, db'.goods, id, db'.orders[id])
  {
    assert OrderOk(db.orders[id]);
  }

  lemma ExpireCoupon(db: Db, id: int)
    requires OrdersOk(db) && CountersOk(db) && id in db.orders && db.orders[id].status == UNPAID
    ensures var db' := ExpireStep(db, id); CouponMoves(db.orders, db.coupons, db'.coupons, id, db'.orders[id])
  {
    assert OrderOk(db.orders[id]);
  }

  lemma ExpireCards(db: Db, id: int)
    requires Inv(db) && id in db.orders && db.orders[id].status == UNPAID
    ensures var db' := ExpireStep(db, id); CardsOk(db') && HoldsOk(db') && HeldCardsStay(db, db')
  {
    var db' := ExpireStep(db, id);
    ReleaseFrees(db, id, db.orders[id].goods, false);
    forall k | k in db'.cards ensures k < db'.nextCard && CardOk(db'.cards[k], db'.orders) {
      assert CardOk(db.cards[k], db.orders);
      assert db'.cards[k].owner == Some(id) ==> k in Reserved(db'.cards, id);
    }
  }

  // ---- the back office ----

  /** What a loaded row still says of its order, however long ago it was read. */
  ghost predicate RowOk(row: Row, orders: map<int, Order>) {
    && row.id in orders && orders[row.id].kind == row.kind
    && (row.owed <==> row.kind.Manual? && row.status == SHORT)
  }

  /** A saved row fits, and the counters move with it: stock is taken exactly when an
      owing manual order leaves the short state. */
  lemma SaveFits(db: Db, row: Row, to: int, info: string)
    requires OrdersOk(db) && RowOk(row, db.orders) && SaveStep(db, row, true, to, info).1.Saved?
    ensures var db' := SaveStep(db, row, true, to, info).0; RowFits(db, db', row.id, db'.orders[row.id])
  {
    assert OrderOk(db.orders[row.id]);
  }

  lemma SaveMoves(db: Db, row: Row, to: int, info: string)
    requires OrdersOk(db) && CountersOk(db) && RowOk(row, db.orders) && SaveStep(db, row, true, to, info).1.Saved?
    ensures var db' := SaveStep(db, row, true, to, info).0;
      && StockMoves(db.orders, db.goods, db'.goods, row.id, db'.orders[row.id])
      && CouponMoves(db.orders, db.coupons, db'.coupons, row.id, db'.orders[row.id])
  {
    assert OrderOk(db.orders[row.id]);
  }

  lemma SaveKeeps(db: Db, row: Row, formOk: bool, to: int, info: string)
    requires Inv(db) && RowOk(row, db.orders)
    ensures StepOk(db, SaveStep(db, row, formOk, to, info).0)
  {
    var (db', result) := SaveStep(db, row, formOk, to, info);
    Unchanged(db);
    if result.Saved? {
      SaveFits(db, row, to, info);
      SaveMoves(db, row, to, info);
      SaveCards(db, db', row, db'.orders[row.id], to);
      WriteKeeps(db, db', row.id, db'.orders[row.id]);
    }
  }

  /** The reservations after a manual move: kept as long as the order stays unpaid or
      short, released when it leaves. */
  lemma SaveCards(db: Db, db': Db, row: Row, o': Order, to: int)
    requires Inv(db) && RowOk(row, db.orders) && SaveRule(row, true, to).None?
    requires db.orders[row.id].status == row.status && o'.status == to
    requires o' == db.orders[row.id].(status := to, info := o'.info, owed := o'.owed)
    requires db'.orders == db.orders[row.id := o'] && db'.nextCard == db.nextCard
    requires db'.cards ==
      if ReleasesReservations(row.kind, row.status, to) then ReleaseAny(db.cards, row.id) else db.cards
    ensures CardsOk(db') && HoldsOk(db') && HeldCardsStay(db, db')
  {
    ReleaseFrees(db, row.id, o'.goods, true);
    forall k | k in db'.cards ensures CardOk(db'.cards[k], db'.orders) {
      assert CardOk(db.cards[k], db.orders);
      assert db'.cards[k].owner == Some(row.id) ==> k in Reserved(db'.cards, row.id);
    }
  }

  // ---- edits around the ledger ----

  /** No edit of a card, nor its deletion or restoring, touches a card that is reserved or
      sold, another card, any order's holding, or another table. */
  ghost predicate OnlyShelf(db: Db, db': Db, k: int) {
    && db' == db.(cards := db'.cards) && db'.cards.Keys == db.cards.Keys
    && (forall j :: j in db.cards && (j != k || db.cards[j].owner.Some? || db.cards[j].status != ON_SALE) ==>
          db'.cards[j] == db.cards[j])
    && (forall id :: Reserved(db'.cards, id) == Reserved(db.cards, id))
  }

  lemma ShelfWrite(db: Db, k: int, c: Card)
    requires Editable(db.cards, k) && c.owner.None?
    ensures OnlyShelf(db, db.(cards := db.cards[k := c]), k)
  {
    var cards := db.cards[k := c];
    forall id ensures Reserved(cards, id) == Reserved(db.cards, id) {
      forall j ensures j in Reserved(cards, id) <==> j in Reserved(db.cards, id) {}
    }
  }

  lemma EditsOnlyShelf(db: Db, k: int, g: int, status: int, loop: bool, text: string, restore: bool)
    ensures OnlyShelf(db, EditCardStep(db, k, g, status, loop, text), k)
    ensures OnlyShelf(db, DeleteCardStep(db, k, restore), k)
  {
    if Editable(db.cards, k) {
      ShelfWrite(db, k, Card(g, status, loop, text, None, false));
      ShelfWrite(db, k, db.cards[k].(deleted := !restore));
    }
  }

  /** A card that was deleted comes back as it was, and a deleted one is on no shelf. */
  lemma DeletedComesBack(db: Db, k: int)
    requires Editable(db.cards, k) && !db.cards[k].deleted
    ensures var gone := DeleteCardStep(db, k, false);
      && DeleteCardStep(gone, k, true) == db
      && forall g :: FreeCards(gone.cards, g) == FreeCards(db.cards, g) - {k}
  {
    var gone := DeleteCardStep(db, k, false);
    assert DeleteCardStep(gone, k, true).cards == db.cards;
    forall g ensures FreeCards(gone.cards, g) == FreeCards(db.cards, g) - {k} {
      forall j ensures j in FreeCards(gone.cards, g) <==> j in FreeCards(db.cards, g) - {k} {}
    }
  }

  /** An edit that writes one unreserved card, or adds one. */
  lemma CardWriteKeeps(db: Db, db': Db, k: int, c: Card)
    requires Inv(db) && c.owner.None? && k < db'.nextCard && db.nextCard <= db'.nextCard
    requires k in db.cards ==> db.cards[k].owner.None?
    requires db' == db.(cards := db.cards[k := c], nextCard := db'.nextCard)
    ensures StepOk(db, db')
  {
    forall o ensures Reserved(db'.cards, o) == Reserved(db.cards, o) {
      forall i ensures i in Reserved(db'.cards, o) <==> i in Reserved(db.cards, o) {}
    }
    forall i | i in db'.cards ensures i < db'.nextCard && CardOk(db'.cards[i], db'.orders) {
      if i != k {
        assert CardOk(db.cards[i], db.orders);
      }
    }
  }

  lemma EditCardKeeps(db: Db, k: int, g: int, status: int, loop: bool, text: string)
    requires Inv(db)
    ensures StepOk(db, EditCardStep(db, k, g, status, loop, text))
  {
    Unchanged(db);
    if EditCardStep(db, k, g, status, loop, text) != db {
      CardWriteKeeps(db, EditCardStep(db, k, g, status, loop, text), k, Card(g, status, loop, text, None, false));
    }
  }

  lemma DeleteCardKeeps(db: Db, k: int, restore: bool)
    requires Inv(db)
    ensures StepOk(db, DeleteCardStep(db, k, restore))
  {
    Unchanged(db);
    if DeleteCardStep(db, k, restore) != db {
      CardWriteKeeps(db, DeleteCardStep(db, k, restore), k, db.cards[k].(deleted := !restore));
    }
  }

  lemma {:induction false} ImportKeeps(db: Db, g: int, loop: bool, texts: seq<string>)
    requires Inv(db)
    ensures StepOk(db, ImportCards(db, g, loop, texts))
    ensures ImportCards(db, g, loop, texts).orders == db.orders
  {
    Unchanged(db);
    if |texts| > 0 {
      var before := ImportCards(db, g, loop, texts[..|texts| - 1]);
      ImportKeeps(db, g, loop, texts[..|texts| - 1]);
      assert before.nextCard !in before.cards;
      var after := ImportCard(before, g, loop, texts[|texts| - 1]);
      CardWriteKeeps(before, after, before.nextCard, Card(g, ON_SALE, loop, texts[|texts| - 1], None, false));
      StepsCompose(db, before, after);
    }
  }

  lemma DeleteGoodsKeeps(db: Db, g: int, restore: bool)
    requires Inv(db)
    ensures StepOk(db, DeleteGoodsStep(db, g, restore))
  {}

  lemma DeleteCouponKeeps(db: Db, c: int, restore: bool)
    requires Inv(db)
    ensures StepOk(db, DeleteCouponStep(db, c, restore))
  {}

  /** Steps compose: what each keeps, a run keeps. */
  lemma StepsCompose(a: Db, b: Db, c: Db)
    requires StepOk(a, b) && StepOk(b, c)
    ensures StepOk(a, c)
  {
    forall id | id in a.orders ensures id in c.orders && Evolves(a.orders[id], c.orders[id]) {
      assert Evolves(a.orders[id], b.orders[id]) && Evolves(b.orders[id], c.orders[id]);
    }
  }
}
