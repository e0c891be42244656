/** What each transaction of the ledger answers and writes, said row by row in terms of the
    tables it found: a reference the ledger's own functions are proved to meet. */
module LedgerOutcomes {
  import opened Tables
  import opened Text
  import opened Money
  import opened Ledger
  import opened LedgerInvariant
  import opened LedgerSteps
  import Price

  // ---- cards ----

  predicate OnShelf(c: Card, g: int) {
    c.goods == g && c.status == 1 && c.owner == None && !c.deleted
  }

  function Shelf(cards: map<int, Card>, g: int): set<int> {
    set k | k in cards && OnShelf(cards[k], g)
  }

  /** picked are the first n of these by id. */
  ghost predicate FirstOf(picked: seq<int>, all: set<int>, n: int) {
    && |picked| == n && Ascends(picked)
    && (forall k :: k in picked ==> k in all)
    && (forall j, k :: j in picked && k in all && k !in picked ==> j < k)
  }

  lemma InTaken(listed: seq<int>, n: nat, b: nat)
    requires n <= |listed| && b < |listed|
    ensures b < n ==> listed[b] in listed[..n]
  {
    if b < n {
      assert listed[..n][b] == listed[b];
    }
  }

  lemma TakenSplits(listed: seq<int>, n: nat, j: int, k: int)
    requires Ascends(listed) && n <= |listed| && j in listed[..n] && k in listed && k !in listed[..n]
    ensures j < k
  {
    var a: nat :| a < n && listed[..n][a] == j;
    var b: nat :| b < |listed| && listed[b] == k;
    InTaken(listed, n, b);
    assert a < b && listed[a] == j;
  }

  lemma TakenListed(listed: seq<int>, n: nat, k: int)
    requires n <= |listed| && k in listed[..n]
    ensures k in listed
  {
    var a: nat :| a < n && listed[..n][a] == k;
    assert listed[a] == k;
  }

  lemma TakenFirst(all: set<int>, n: nat)
    requires n <= |all|
    ensures FirstOf(Ascending(all)[..n], all, n)
  {
    ListedFirst(Ascending(all), all, n);
  }

  lemma ListedFirst(listed: seq<int>, all: set<int>, n: nat)
    requires Ascends(listed) && n <= |listed| && forall k :: k in listed <==> k in all
    ensures FirstOf(listed[..n], all, n)
  {
    forall k | k in listed[..n] ensures k in all {
      TakenListed(listed, n, k);
    }
    forall j, k | j in listed[..n] && k in all && k !in listed[..n] ensures j < k {
      TakenSplits(listed, n, j, k);
    }
  }

  /** The shelf is what the ledger calls free. */
  lemma ShelfIsFree(cards: map<int, Card>, g: int)
    ensures Shelf(cards, g) == FreeCards(cards, g)
  {
    forall k ensures k in Shelf(cards, g) <==> k in FreeCards(cards, g) {}
  }

  // ---- checkout ----

  predicate CouponOf(db: Db, form: Checkout, c: Coupon) {
    form.coupon.Some? && form.coupon.value in db.coupons && db.coupons[form.coupon.value] == c
  }

  function CouponWorth(db: Db, form: Checkout): int {
    if form.coupon.Some? && form.coupon.value in db.coupons
    then Price.CouponOff(db.coupons[form.coupon.value].discount) else 0
  }

  /** The price of the units, less the coupon and the wholesale discount, not below zero. */
  function Due(db: Db, form: Checkout): int
    requires form.goods in db.goods
  {
    var g := db.goods[form.goods];
    Max(0, g.price * form.amount - CouponWorth(db, form) - Price.Discount(g.wholesale, form.amount, g.price))
  }

  /** What makes a checkout break a rule, whether or not an earlier one is broken too. */
  predicate Breaks(db: Db, form: Checkout, skip: set<int>, rule: Rule) {
    var known := form.goods in db.goods;
    match rule
    case BadAmount => form.amount < 1
    case BadEmail => !form.emailOk
    case NoSearchPassword => form.passwordMissing
    case NoPayChannel => form.payId <= 0
    case NoSuchGoods => !known || db.goods[form.goods].deleted
    case GoodsClosed => known && !db.goods[form.goods].open
    case OverLimit => known && 0 < db.goods[form.goods].limit < form.amount
    case LoopSoldSingly =>
      form.amount > 1 && exists k :: k in db.cards && db.cards[k].goods == form.goods && db.cards[k].status == 1
                                     && db.cards[k].loop && !db.cards[k].deleted
    case ChannelClosed => !form.payReady
    case TooManyUnpaid => !form.quotaOk
    case OutOfStock =>
      known && if db.goods[form.goods].kind.Auto? then |Shelf(db.cards, form.goods) - skip| < form.amount
               else db.goods[form.goods].stock < form.amount
    case NoSuchCoupon =>
      form.coupon.Some? &&
      (form.coupon.value !in db.coupons || db.coupons[form.coupon.value].deleted
       || form.goods !in db.coupons[form.coupon.value].goods || db.coupons[form.coupon.value].open != 1)
    case CouponUsed =>
      form.coupon.Some? && form.coupon.value in db.coupons && db.coupons[form.coupon.value].used == 2
    case CouponSpent =>
      form.coupon.Some? && form.coupon.value in db.coupons && db.coupons[form.coupon.value].ret <= 0
    case MissingInput => known && db.goods[form.goods].kind.Manual? && !form.extraOk
    case PriceRefused =>
      known && (db.goods[form.goods].price < 0 || db.goods[form.goods].price * form.amount > MAX_CENTS)
    case NothingToPay => known && Due(db, form) == 0
    case _ => false
  }

  /** The order the rules are tried in. */
  function Rank(rule: Rule): int {
    match rule
    case BadAmount => 0
    case BadEmail => 1
    case NoSearchPassword => 2
    case NoPayChannel => 3
    case NoSuchGoods => 4
    case GoodsClosed => 5
    case OverLimit => 6
    case LoopSoldSingly => 7
    case ChannelClosed => 8
    case TooManyUnpaid => 9
    case OutOfStock => 10
    case NoSuchCoupon => 11
    case CouponUsed => 12
    case CouponSpent => 13
    case MissingInput => 14
    case PriceRefused => 15
    case NothingToPay => 16
    case _ => 17
  }

  /** Refused for this rule and no earlier one. */
  ghost predicate FirstBroken(db: Db, form: Checkout, skip: set<int>, rule: Rule) {
    && Breaks(db, form, skip, rule)
    && forall r: Rule :: Rank(r) < Rank(rule) ==> !Breaks(db, form, skip, r)
  }

  lemma LoopOnSale(db: Db, g: int)
    ensures LoopCards(db.cards, g) != {} <==>
      exists k :: k in db.cards && db.cards[k].goods == g && db.cards[k].status == 1
                  && db.cards[k].loop && !db.cards[k].deleted
  {
    if LoopCards(db.cards, g) != {} {
      NonEmpty(LoopCards(db.cards, g));
      var k: int :| k in LoopCards(db.cards, g);
      assert k in db.cards && db.cards[k].goods == g;
    }
    if k :| k in db.cards && db.cards[k].goods == g && db.cards[k].status == 1
            && db.cards[k].loop && !db.cards[k].deleted
    {
      assert k in LoopCards(db.cards, g);
    }
  }

  lemma PrecheckPassed(db: Db, form: Checkout, skip: set<int>)
    requires Precheck(db, form).None?
    ensures forall r: Rule :: Rank(r) < 10 ==> !Breaks(db, form, skip, r)
  {
    LoopOnSale(db, form.goods);
  }

  lemma PrecheckBreaks(db: Db, form: Checkout, skip: set<int>)
    requires Precheck(db, form).Some?
    ensures Rank(Precheck(db, form).value) < 10 && Breaks(db, form, skip, Precheck(db, form).value)
  {
    LoopOnSale(db, form.goods);
  }

  lemma PrecheckInOrder(db: Db, form: Checkout, skip: set<int>)
    requires Precheck(db, form).Some?
    ensures forall r: Rule :: Rank(r) < Rank(Precheck(db, form).value) ==> !Breaks(db, form, skip, r)
  {
    LoopOnSale(db, form.goods);
  }

  lemma PrecheckFirst(db: Db, form: Checkout, skip: set<int>)
    requires Precheck(db, form).Some?
    ensures Rank(Precheck(db, form).value) < 10 && FirstBroken(db, form, skip, Precheck(db, form).value)
  {
    PrecheckBreaks(db, form, skip);
    PrecheckInOrder(db, form, skip);
  }

  lemma StockFirst(db: Db, form: Checkout, skip: set<int>)
    requires Precheck(db, form).None?
    ensures StockRule(db, form, skip) ==
      if Breaks(db, form, skip, OutOfStock) then Some(OutOfStock) else None
  {
    ShelfIsFree(db.cards, form.goods);
  }

  lemma CouponFirst(db: Db, form: Checkout, skip: set<int>)
    ensures match CouponRule(db.coupons, form.coupon, form.goods)
      case None => forall r: Rule :: 10 < Rank(r) < 14 ==> !Breaks(db, form, skip, r)
      case Some(rule) =>
        && 10 < Rank(rule) < 14 && Breaks(db, form, skip, rule)
        && forall r: Rule :: 10 < Rank(r) < Rank(rule) ==> !Breaks(db, form, skip, r)
  {}

  /** The quote of a checkout, and what it comes to. */
  lemma QuoteIsDue(db: Db, form: Checkout)
    requires form.goods in db.goods && form.amount >= 1
    ensures var g := db.goods[form.goods];
      && (QuoteFor(db, form).Quoted? <==> 0 <= g.price && g.price * form.amount <= MAX_CENTS)
      && (QuoteFor(db, form).Quoted? ==> Payable(QuoteFor(db, form)) == Due(db, form))
  {
    var g, face := db.goods[form.goods], Face(db.coupons, form.coupon);
    Price.QuoteExact(g.price, form.amount, face, g.wholesale);
    Price.QuoteDiscount(g.price, form.amount, face, g.wholesale);
    Price.NoCoupon();
  }

  lemma PriceParts(kind: Kind, extraOk: bool, quote: Price.Quoted, refused: bool, nothing: bool)
    requires refused <==> quote.BadPrice?
    requires quote.Quoted? ==> (nothing <==> Payable(quote) <= 0)
    ensures PriceRule(kind, extraOk, quote) == FirstOfThree(kind.Manual? && !extraOk, refused, nothing)
  {}

  /** The last three rules, one by one. */
  lemma PriceRules(db: Db, form: Checkout, skip: set<int>)
    requires form.goods in db.goods
    ensures var g := db.goods[form.goods];
      && (Breaks(db, form, skip, MissingInput) <==> g.kind.Manual? && !form.extraOk)
      && (Breaks(db, form, skip, PriceRefused) <==> !(0 <= g.price && g.price * form.amount <= MAX_CENTS))
      && (Breaks(db, form, skip, NothingToPay) <==> Due(db, form) == 0)
  {}

  lemma PriceFirst(db: Db, form: Checkout, skip: set<int>)
    requires form.goods in db.goods && form.amount >= 1
    ensures PriceRule(db.goods[form.goods].kind, form.extraOk, QuoteFor(db, form)) ==
      FirstOfThree(Breaks(db, form, skip, MissingInput), Breaks(db, form, skip, PriceRefused),
                   Breaks(db, form, skip, NothingToPay))
  {
    var quote := QuoteFor(db, form);
    var refused, nothing := Breaks(db, form, skip, PriceRefused), Breaks(db, form, skip, NothingToPay);
    PriceRules(db, form, skip);
    QuoteIsDue(db, form);
    DueNotNegative(db, form);
    PriceParts(db.goods[form.goods].kind, form.extraOk, quote, refused, nothing);
  }

  lemma DueNotNegative(db: Db, form: Checkout)
    requires form.goods in db.goods
    ensures Due(db, form) >= 0
  {}

  lemma RankedLast(r: Rule)
    ensures 14 <= Rank(r) < 17 ==> r == MissingInput || r == PriceRefused || r == NothingToPay
    ensures Rank(r) == 10 ==> r == OutOfStock
  {}

  /** The first of three that is broken, if any. */
  function FirstOfThree(missing: bool, refused: bool, nothing: bool): Option<Rule> {
    if missing then Some(MissingInput) else if refused then Some(PriceRefused)
    else if nothing then Some(NothingToPay) else None
  }

  lemma UnrankedHold(db: Db, form: Checkout, skip: set<int>, r: Rule)
    ensures Rank(r) >= 17 ==> !Breaks(db, form, skip, r)
  {}

  lemma PriceRanked(db: Db, form: Checkout, skip: set<int>, rule: Option<Rule>, r: Rule)
    requires rule == FirstOfThree(Breaks(db, form, skip, MissingInput), Breaks(db, form, skip, PriceRefused),
                                  Breaks(db, form, skip, NothingToPay))
    ensures rule.Some? ==> Rank(rule.value) >= 14 && Breaks(db, form, skip, rule.value)
    ensures 14 <= Rank(r) && (rule.Some? ==> Rank(r) < Rank(rule.value)) ==> !Breaks(db, form, skip, r)
  {
    RankedLast(r);
    UnrankedHold(db, form, skip, r);
  }

  lemma TermsFirst(db: Db, form: Checkout, skip: set<int>)
    requires form.goods in db.goods && form.amount >= 1
    ensures match TermsRule(db, form)
      case None => forall r: Rule :: Rank(r) > 10 ==> !Breaks(db, form, skip, r)
      case Some(rule) =>
        && Rank(rule) > 10 && Breaks(db, form, skip, rule)
        && forall r: Rule :: 10 < Rank(r) < Rank(rule) ==> !Breaks(db, form, skip, r)
  {
    CouponFirst(db, form, skip);
    PriceFirst(db, form, skip);
    var last := PriceRule(db.goods[form.goods].kind, form.extraOk, QuoteFor(db, form));
    PriceRanked(db, form, skip, last, MissingInput);
    forall r: Rule | 14 <= Rank(r) && (last.Some? ==> Rank(r) < Rank(last.value))
      ensures !Breaks(db, form, skip, r)
    {
      PriceRanked(db, form, skip, last, r);
    }
  }

  lemma RuleFirst(db: Db, form: Checkout, skip: set<int>)
    ensures match CheckoutRule(db, form, skip)
      case None => forall r: Rule :: !Breaks(db, form, skip, r)
      case Some(rule) => FirstBroken(db, form, skip, rule)
  {
    if Precheck(db, form).Some? {
      PrecheckFirst(db, form, skip);
    } else {
      PrecheckPassed(db, form, skip);
      assert !Breaks(db, form, skip, BadAmount) && !Breaks(db, form, skip, NoSuchGoods);
      StockFirst(db, form, skip);
      TermsFirst(db, form, skip);
      forall r: Rule | Rank(r) == 10 ensures r == OutOfStock {
        RankedLast(r);
      }
    }
  }

  /** A checkout is placed if and only if it breaks no rule; else it is refused for the first
      rule it breaks, and nothing is written. */
  lemma PlacedExactly(db: Db, form: Checkout, skip: set<int>)
    ensures var (db', r) := CheckoutStep(db, form, skip);
      && (r.Placed? <==> forall rule: Rule :: !Breaks(db, form, skip, rule))
      && (r.NotPlaced? ==> db' == db && FirstBroken(db, form, skip, r.rule))
  {
    RuleFirst(db, form, skip);
  }

  /** The row of a placed order: what the form asked for, at the price that is due. */
  lemma PlacedRow(db: Db, form: Checkout, skip: set<int>)
    requires CheckoutStep(db, form, skip).1.Placed?
    ensures form.goods in db.goods
    ensures var (db', r) := CheckoutStep(db, form, skip);
      && r.order == db.nextOrder
      && db'.nextOrder == db.nextOrder + 1 && db'.nextCard == db.nextCard
      && db'.orders == db.orders[r.order :=
           Order(form.goods, db.goods[form.goods].kind, form.amount, Due(db, form),
                 if form.coupon.Some? then form.coupon.value else 0, 1, 0, false, "",
                 if db.goods[form.goods].kind.Manual? then form.info else "")]
  {
    Admitted(db, form, skip);
    QuoteIsDue(db, form);
  }

  lemma CheckoutPicksFirst(db: Db, form: Checkout, skip: set<int>)
    requires CheckoutStep(db, form, skip).1.Placed? && form.goods in db.goods && db.goods[form.goods].kind.Auto?
    ensures FirstOf(CheckoutPick(db.cards, form.goods, form.amount, skip), Shelf(db.cards, form.goods) - skip,
                    form.amount)
  {
    Admitted(db, form, skip);
    ShelfIsFree(db.cards, form.goods);
    var free := FreeCards(db.cards, form.goods) - skip;
    var listed, n: nat := Ascending(free), form.amount;
    assert |CheckoutPick(db.cards, form.goods, form.amount, skip)| == n;
    assert CheckoutPick(db.cards, form.goods, form.amount, skip) == listed[..n];
    TakenFirst(free, n);
  }

  lemma PlacedIs(db: Db, form: Checkout, skip: set<int>)
    requires CheckoutStep(db, form, skip).1.Placed?
    ensures form.goods in db.goods
    ensures var o := NewOrder(db, form);
      && CheckoutStep(db, form, skip).0 ==
           Place(db, o, Members(CheckoutPick(db.cards, form.goods, form.amount, skip)))
      && o.goods == form.goods && o.amount == form.amount && o.kind == db.goods[form.goods].kind
      && o.coupon == (if form.coupon.Some? then form.coupon.value else 0)
  {
    Admitted(db, form, skip);
  }

  /** The goods with one row's counter moved. */
  function StockMoved(goods: map<int, Goods>, g: int, moved: int): map<int, Goods>
    requires g in goods
  {
    goods[g := goods[g].(stock := goods[g].stock + moved)]
  }

  lemma PlaceCounter(db: Db, o: Order, picked: set<int>)
    requires o.goods in db.goods
    ensures Place(db, o, picked).goods == if o.kind.Manual? then StockMoved(db.goods, o.goods, -o.amount) else db.goods
  {}

  /** The units of a manual goods come off its counter. */
  lemma PlacedStock(db: Db, form: Checkout, skip: set<int>)
    requires CheckoutStep(db, form, skip).1.Placed?
    ensures form.goods in db.goods
    ensures CheckoutStep(db, form, skip).0.goods ==
      if db.goods[form.goods].kind.Manual? then StockMoved(db.goods, form.goods, -(form.amount as int)) else db.goods
  {
    var picked := Members(CheckoutPick(db.cards, form.goods, form.amount, skip));
    PlacedIs(db, form, skip);
    PlaceCounter(db, NewOrder(db, form), picked);
  }

  /** The coupons with one row's uses moved. */
  function UsesMoved(coupons: map<int, Coupon>, c: int, moved: int): map<int, Coupon>
    requires c in coupons
  {
    coupons[c := coupons[c].(ret := coupons[c].ret + moved)]
  }

  lemma PlaceUse(db: Db, o: Order, picked: set<int>)
    requires o.coupon > 0 ==> o.coupon in db.coupons
    ensures Place(db, o, picked).coupons == if o.coupon > 0 then UsesMoved(db.coupons, o.coupon, -1) else db.coupons
  {}

  lemma CouponFound(coupons: map<int, Coupon>, coupon: Option<RowId>, g: int)
    requires CouponRule(coupons, coupon, g).None?
    ensures coupon.Some? ==> coupon.value in coupons
  {}

  lemma CouponKnown(db: Db, form: Checkout, skip: set<int>)
    requires CheckoutStep(db, form, skip).1.Placed?
    ensures form.coupon.Some? ==> form.coupon.value in db.coupons
  {
    Admitted(db, form, skip);
    CouponFound(db.coupons, form.coupon, form.goods);
  }

  /** One use comes off its coupon. */
  lemma PlacedUse(db: Db, form: Checkout, skip: set<int>)
    requires CheckoutStep(db, form, skip).1.Placed?
    ensures form.coupon.Some? ==> form.coupon.value in db.coupons
    ensures CheckoutStep(db, form, skip).0.coupons ==
      if form.coupon.Some? then UsesMoved(db.coupons, form.coupon.value, -1) else db.coupons
  {
    PlacedIs(db, form, skip);
    CouponKnown(db, form, skip);
    PlaceUse(db, NewOrder(db, form), Members(CheckoutPick(db.cards, form.goods, form.amount, skip)));
  }

  /** The first free cards by id that nobody holds are reserved to an automatic order; no
      other card is touched. */
  lemma PlacedCards(db: Db, form: Checkout, skip: set<int>) returns (picked: seq<int>)
    requires CheckoutStep(db, form, skip).1.Placed?
    ensures form.goods in db.goods
    ensures if db.goods[form.goods].kind.Auto? then FirstOf(picked, Shelf(db.cards, form.goods) - skip, form.amount)
            else picked == []
    ensures var cards := CheckoutStep(db, form, skip).0.cards;
      && cards.Keys == db.cards.Keys
      && (forall k :: k in db.cards ==>
            cards[k] == if k in picked then db.cards[k].(owner := Some(db.nextOrder)) else db.cards[k])
  {
    PlacedIs(db, form, skip);
    picked := [];
    if db.goods[form.goods].kind.Auto? {
      CheckoutPicksFirst(db, form, skip);
      picked := CheckoutPick(db.cards, form.goods, form.amount, skip);
    }
  }

  // ---- settlement ----

  /** An order that a payment in full still settles. */
  predicate Awaits(o: Order) {
    o.status == 1 || o.status == -1 || (o.status == 6 && o.kind.Auto?)
  }

  function Own(cards: map<int, Card>, id: int): set<int> {
    set k | k in cards && cards[k].owner == Some(id)
  }

  /** Enough is left for it: cards of its own and on the shelf that nobody holds, or units
      on the counter unless it still has its own. */
  predicate Suffices(db: Db, id: int, skip: set<int>)
    requires id in db.orders && db.orders[id].goods in db.goods
  {
    var o := db.orders[id];
    if o.kind.Auto? then |Own(db.cards, id) - skip| + |Shelf(db.cards, o.goods) - skip| >= o.amount
    else o.status != -1 || db.goods[o.goods].stock >= o.amount
  }

  lemma OwnIsReserved(db: Db, id: int)
    requires Inv(db) && id in db.orders
    ensures Own(db.cards, id) == OwnCards(db.cards, db.orders[id].goods, id)
    ensures Own(db.cards, id) == Reserved(db.cards, id)
  {
    forall k ensures k in Own(db.cards, id) <==> k in OwnCards(db.cards, db.orders[id].goods, id) {
      if k in Own(db.cards, id) {
        assert CardOk(db.cards[k], db.orders);
      }
    }
  }

  lemma SufficesCovers(db: Db, id: int, skip: set<int>)
    requires Inv(db) && id in db.orders
    ensures db.orders[id].goods in db.goods && db.orders[id].amount >= 1
    ensures Covers(db, db.orders[id], Pick(db, id, skip)) <==> Suffices(db, id, skip)
  {
    assert OrderOk(db.orders[id]);
    OwnIsReserved(db, id);
    ShelfIsFree(db.cards, db.orders[id].goods);
  }

  /** A settlement answers by the order row alone, or else by what is left for it. */
  lemma AnswerBy(db: Db, id: int, paid: int, trade: string, redeliver: bool, skip: set<int>)
    ensures var (db', r) := SettleStep(db, id, paid, trade, redeliver, skip);
      match SettleRule(db, id, paid, redeliver)
      case Some(early) => db' == db && r == early
      case None =>
        && id in db.orders
        && (Covers(db, db.orders[id], Pick(db, id, skip)) ==> r == Delivered(Pick(db, id, skip)))
        && (!Covers(db, db.orders[id], Pick(db, id, skip)) ==> r == Refused(OutOfStock) && (redeliver ==> db' == db))
  {}

  /** What a notice finds on the row. */
  lemma NoticeRule(db: Db, id: int, paid: int)
    requires id in db.orders && ValidStatus(db.orders[id].status)
    ensures var o := db.orders[id];
      SettleRule(db, id, paid, false) ==
        if paid != o.actual then Some(Refused(AmountDiffers))
        else if Awaits(o) then None
        else if o.status == 5 then Some(Refused(NotPayable)) else Some(Already)
  {}

  lemma RedeliveryRule(db: Db, id: int)
    requires id in db.orders && ValidStatus(db.orders[id].status)
    ensures var o := db.orders[id];
      SettleRule(db, id, 0, true) ==
        if o.status != 6 then Some(Idle) else if o.kind.Manual? then Some(Refused(AutoOnly)) else None
  {}

  /** The answer to a payment notice, whatever its amount and however late it comes. */
  lemma NoticeExactly(db: Db, id: int, paid: int, trade: string, skip: set<int>)
    requires Inv(db)
    ensures var (db', r) := SettleStep(db, id, paid, trade, false, skip);
      if id !in db.orders then r == Refused(NoSuchOrder) && db' == db else
      var o := db.orders[id];
      && o.goods in db.goods
      && (paid != o.actual ==> r == Refused(AmountDiffers) && db' == db)
      && (paid == o.actual && !Awaits(o) ==> db' == db && r == if o.status == 5 then Refused(NotPayable) else Already)
      && (paid == o.actual && Awaits(o) ==> if Suffices(db, id, skip) then r.Delivered? else r == Refused(OutOfStock))
  {
    AnswerBy(db, id, paid, trade, false, skip);
    if id in db.orders {
      assert OrderOk(db.orders[id]);
      NoticeRule(db, id, paid);
      SufficesCovers(db, id, skip);
    }
  }

  /** The answer to a redelivery; one that comes up short writes nothing. */
  lemma RedeliveryExactly(db: Db, id: int, skip: set<int>)
    requires Inv(db)
    ensures var (db', r) := SettleStep(db, id, 0, "", true, skip);
      if id !in db.orders then r == Refused(NoSuchOrder) && db' == db else
      var o := db.orders[id];
      && o.goods in db.goods
      && (o.status != 6 ==> r == Idle && db' == db)
      && (o.status == 6 && o.kind.Manual? ==> r == Refused(AutoOnly) && db' == db)
      && (o.status == 6 && o.kind.Auto? ==>
            if Suffices(db, id, skip) then r.Delivered? else r == Refused(OutOfStock) && db' == db)
  {
    AnswerBy(db, id, 0, "", true, skip);
    if id in db.orders {
      assert OrderOk(db.orders[id]);
      RedeliveryRule(db, id);
      SufficesCovers(db, id, skip);
    }
  }

  /** The coupon of a paid order: one whose use was handed back takes it again if there is
      one left, and is marked if there is not; any other is left alone. */
  predicate CouponSettled(db: Db, db': Db, o: Order, retBack: int) {
    var late := o.coupon > 0 && o.retBack == 1;
    var takes := late && o.coupon in db.coupons && db.coupons[o.coupon].ret > 0 && !db.coupons[o.coupon].deleted;
    && retBack == (if takes then 0 else if late then 2 else o.retBack)
    && db'.coupons == if takes then db.coupons[o.coupon := db.coupons[o.coupon].(ret := db.coupons[o.coupon].ret - 1)]
                      else db.coupons
  }

  function TradeOf(o: Order, trade: string, redeliver: bool): string {
    if !redeliver then trade else if o.trade == "" then "manual" else o.trade
  }

  /** Only this order is written, and these columns of it. */
  predicate RowSettled(db: Db, db': Db, id: int, status: int, info: string, trade: string, owed: bool)
    requires id in db.orders
  {
    && id in db'.orders
    && db'.orders == db.orders[id := db.orders[id].(status := status, info := info, trade := trade, owed := owed,
                                                    retBack := db'.orders[id].retBack)]
    && CouponSettled(db, db', db.orders[id], db'.orders[id].retBack)
    && db'.nextOrder == db.nextOrder && db'.nextCard == db.nextCard
  }

  predicate Settles(db: Db, id: int, paid: int, trade: string, redeliver: bool, skip: set<int>) {
    SettleStep(db, id, paid, trade, redeliver, skip).1.Delivered?
  }

  lemma DeliveryFound(db: Db, id: int, paid: int, trade: string, redeliver: bool, skip: set<int>)
    requires Settles(db, id, paid, trade, redeliver, skip)
    ensures id in db.orders
    ensures SettleStep(db, id, paid, trade, redeliver, skip).1 == Delivered(Pick(db, id, skip))
    ensures Covers(db, db.orders[id], Pick(db, id, skip))
    ensures var t := TradeOf(db.orders[id], trade, redeliver);
      SettleStep(db, id, paid, trade, redeliver, skip).0 ==
        if db.orders[id].kind.Auto? then AutoDelivered(db, id, Pick(db, id, skip), t) else ManualDelivered(db, id, t)
  {}

  lemma RetakenIsSettled(db: Db, db': Db, o: Order)
    requires db'.coupons == RetakenCoupons(db.coupons, o)
    ensures CouponSettled(db, db', o, RetBackAfter(db.coupons, o))
  {}

  /** The row of a delivered order: done with its cards' texts, or pending with its input kept,
      and the notice's trade number. */
  lemma DeliveredRow(db: Db, id: int, paid: int, trade: string, redeliver: bool, skip: set<int>)
    requires Inv(db) && Settles(db, id, paid, trade, redeliver, skip)
    ensures id in db.orders
    ensures var (db', r) := SettleStep(db, id, paid, trade, redeliver, skip);
      var o := db.orders[id];
      RowSettled(db, db', id, if o.kind.Auto? then 4 else 2, if o.kind.Auto? then Lines(db.cards, r.cards) else o.info,
                 TradeOf(o, trade, redeliver), o.owed)
  {
    DeliveryFound(db, id, paid, trade, redeliver, skip);
    RetakenIsSettled(db, SettleStep(db, id, paid, trade, redeliver, skip).0, db.orders[id]);
  }

  function SoldOf(g: Goods, o: Order): Goods {
    g.(sales := g.sales + o.amount, stock := if o.kind.Manual? && o.status == -1 then g.stock - o.amount else g.stock)
  }

  lemma AutoCounters(db: Db, id: int, picked: seq<int>, trade: string)
    requires id in db.orders && db.orders[id].kind.Auto? && db.orders[id].goods in db.goods
    ensures var o := db.orders[id];
      AutoDelivered(db, id, picked, trade).goods == db.goods[o.goods := SoldOf(db.goods[o.goods], o)]
  {}

  lemma ManualCounters(db: Db, id: int, trade: string)
    requires id in db.orders && db.orders[id].kind.Manual? && db.orders[id].goods in db.goods
    ensures var o := db.orders[id];
      ManualDelivered(db, id, trade).goods == db.goods[o.goods := SoldOf(db.goods[o.goods], o)]
  {}

  /** Its amount is added to the sales, and comes off the counter again if it is manual and
      had expired. */
  lemma DeliveredCounters(db: Db, id: int, paid: int, trade: string, redeliver: bool, skip: set<int>)
    requires Inv(db) && Settles(db, id, paid, trade, redeliver, skip)
    ensures id in db.orders && db.orders[id].goods in db.goods
    ensures var (db', r) := SettleStep(db, id, paid, trade, redeliver, skip);
      var o := db.orders[id];
      && db'.goods == db.goods[o.goods := SoldOf(db.goods[o.goods], o)]
      && (o.kind.Manual? ==> r.cards == [] && db'.cards == db.cards)
  {
    DeliveryFound(db, id, paid, trade, redeliver, skip);
    var t := TradeOf(db.orders[id], trade, redeliver);
    if db.orders[id].kind.Auto? {
      AutoCounters(db, id, Pick(db, id, skip), t);
    } else {
      ManualCounters(db, id, t);
    }
  }

  /** Its cards: its own first, then the shelf's, each by id. */
  lemma DeliveredCards(db: Db, id: int, paid: int, trade: string, redeliver: bool, skip: set<int>)
    returns (own: seq<int>, shelf: seq<int>)
    requires Inv(db) && Settles(db, id, paid, trade, redeliver, skip)
    ensures id in db.orders
    ensures var o := db.orders[id];
      o.kind.Auto? ==>
        && SettleStep(db, id, paid, trade, redeliver, skip).1 == Delivered(own + shelf)
        && FirstOf(own, Own(db.cards, id) - skip, |own|) && FirstOf(shelf, Shelf(db.cards, o.goods) - skip, |shelf|)
        && |own| + |shelf| == o.amount && (shelf == [] || |own| == |Own(db.cards, id) - skip|)
  {
    DeliveryFound(db, id, paid, trade, redeliver, skip);
    own, shelf := [], [];
    var o := db.orders[id];
    if o.kind.Auto? {
      assert OrderOk(o);
      OwnIsReserved(db, id);
      ShelfIsFree(db.cards, o.goods);
      own, shelf := TwoListings(Own(db.cards, id) - skip, Shelf(db.cards, o.goods) - skip, o.amount);
    }
  }

  lemma TwoListings(a: set<int>, b: set<int>, n: nat) returns (first: seq<int>, rest: seq<int>)
    requires n <= |a| + |b|
    ensures Limit(Ascending(a) + Ascending(b), n) == first + rest && |first| + |rest| == n
    ensures FirstOf(first, a, |first|) && FirstOf(rest, b, |rest|) && (rest == [] || |first| == |a|)
  {
    var m: nat := if n <= |a| then n else |a|;
    first, rest := Ascending(a)[..m], Ascending(b)[..n - m];
    TakenFirst(a, m);
    TakenFirst(b, n - m);
    LimitSplits(Ascending(a), Ascending(b), n, m);
  }

  lemma LimitSplits(a: seq<int>, b: seq<int>, n: nat, m: nat)
    requires n <= |a| + |b| && m == if n <= |a| then n else |a|
    ensures Limit(a + b, n) == a[..m] + b[..n - m]
  {}

  /** Every delivered card is handed out and leaves the shelf unless it is a loop card; what
      the order had reserved besides goes back; no other card is touched. */
  lemma CardsHandedOut(db: Db, id: int, paid: int, trade: string, redeliver: bool, skip: set<int>)
    requires Inv(db) && Settles(db, id, paid, trade, redeliver, skip) && id in db.orders && db.orders[id].kind.Auto?
    ensures var (db', r) := SettleStep(db, id, paid, trade, redeliver, skip);
      && db'.cards.Keys == db.cards.Keys
      && forall k :: k in db.cards ==>
           var c := db.cards[k];
           db'.cards[k] == if k in r.cards then c.(owner := None, status := if c.loop then c.status else 2)
                           else if c.owner == Some(id) then c.(owner := None) else c
  {
    DeliveryFound(db, id, paid, trade, redeliver, skip);
    var picked := Pick(db, id, skip);
    var db' := SettleStep(db, id, paid, trade, redeliver, skip).0;
    assert db'.cards == Release(Ship(db.cards, Members(picked)), id, db.orders[id].goods, true);
    forall k | k in db.cards
      ensures db'.cards[k] == if k in picked then Shipped(db.cards[k])
                              else if db.cards[k].owner == Some(id) then db.cards[k].(owner := None) else db.cards[k]
    {
      assert CardOk(db.cards[k], db.orders);
    }
  }

  lemma ShortIs(db: Db, id: int, paid: int, trade: string, skip: set<int>)
    requires SettleStep(db, id, paid, trade, false, skip).1 == Refused(OutOfStock)
    ensures id in db.orders && SettleStep(db, id, paid, trade, false, skip).0 == ShortRecorded(db, id, trade)
  {}

  lemma RecordedRow(db: Db, id: int, trade: string)
    requires id in db.orders
    ensures var o, db' := db.orders[id], ShortRecorded(db, id, trade);
      && RowSettled(db, db', id, 6, if o.kind.Manual? then "库存不足\n" + o.info else "库存不足", trade, o.kind.Manual?)
      && db'.goods == db.goods && db'.cards == db.cards
  {
    RetakenIsSettled(db, ShortRecorded(db, id, trade), db.orders[id]);
    assert "库存不足\n" == MARKER + "\n";
  }

  /** A payment that meets short stock is recorded: the order waits with its trade number and
      the note, and owes its stock if it is manual. */
  lemma ShortRow(db: Db, id: int, paid: int, trade: string, skip: set<int>)
    requires SettleStep(db, id, paid, trade, false, skip).1 == Refused(OutOfStock)
    ensures id in db.orders
    ensures var o, db' := db.orders[id], SettleStep(db, id, paid, trade, false, skip).0;
      && RowSettled(db, db', id, 6, if o.kind.Manual? then "库存不足\n" + o.info else "库存不足", trade, o.kind.Manual?)
      && db'.goods == db.goods && db'.cards == db.cards
  {
    ShortIs(db, id, paid, trade, skip);
    RecordedRow(db, id, trade);
  }

  // ---- expiry ----

  /** An expired order gives back its coupon use, its cards and its stock; nothing else moves. */
  lemma ExpiryWrites(db: Db, id: int)
    requires Inv(db) && id in db.orders && db.orders[id].status == 1
    ensures db.orders[id].goods in db.goods
    ensures var db', o := ExpireStep(db, id), db.orders[id];
      && db'.orders == db.orders[id := o.(status := -1, retBack := 1)]
      && db'.nextOrder == db.nextOrder && db'.nextCard == db.nextCard
      && db'.cards.Keys == db.cards.Keys
      && (forall k :: k in db.cards ==>
            db'.cards[k] == if db.cards[k].owner == Some(id) then db.cards[k].(owner := None) else db.cards[k])
      && db'.goods == (if o.kind.Manual?
                       then db.goods[o.goods := db.goods[o.goods].(stock := db.goods[o.goods].stock + o.amount)]
                       else db.goods)
      && db'.coupons == if o.coupon in db.coupons
                        then db.coupons[o.coupon := db.coupons[o.coupon].(ret := db.coupons[o.coupon].ret + 1)]
                        else db.coupons
  {
    assert OrderOk(db.orders[id]);
    forall k | k in db.cards
      ensures ExpireStep(db, id).cards[k] ==
        if db.cards[k].owner == Some(id) then db.cards[k].(owner := None) else db.cards[k]
    {
      assert CardOk(db.cards[k], db.orders);
    }
  }

  /** An order that is not unpaid does not expire. */
  lemma OnlyUnpaidExpires(db: Db, id: int)
    ensures id !in db.orders || db.orders[id].status != 1 ==> ExpireStep(db, id) == db
  {}

  // ---- the shelf ----

  /** Clearing an order's reservations puts exactly its cards back on the shelf of its goods. */
  lemma ClearedShelf(db: Db, cards: map<int, Card>, id: int, gone: set<int>, g: int)
    requires Inv(db) && id in db.orders && cards.Keys == db.cards.Keys
    requires forall k :: k in gone ==>
      k in db.cards && (db.cards[k].owner == Some(id) || OnShelf(db.cards[k], db.orders[id].goods))
    requires forall k :: k in db.cards ==>
      if k in gone then cards[k] == db.cards[k].(owner := None, status := 2)
      else if db.cards[k].owner == Some(id) then cards[k] == db.cards[k].(owner := None)
      else cards[k] == db.cards[k] || (cards[k].(owner := None) == db.cards[k].(owner := None) && cards[k].owner.None?
                                       && db.cards[k].owner.None?)
    ensures Shelf(cards, g) == if g == db.orders[id].goods then Shelf(db.cards, g) + Own(db.cards, id) - gone
                               else Shelf(db.cards, g)
  {
    forall k ensures k in Shelf(cards, g) <==>
      k in if g == db.orders[id].goods then Shelf(db.cards, g) + Own(db.cards, id) - gone else Shelf(db.cards, g)
    {
      if k in db.cards {
        assert CardOk(db.cards[k], db.orders);
      }
    }
  }

  /** After an expiry the order's cards are on sale again, and only they are new there. */
  lemma ShelfAfterExpiry(db: Db, id: int, g: int)
    requires Inv(db) && id in db.orders && db.orders[id].status == 1
    ensures Shelf(ExpireStep(db, id).cards, g) ==
      if g == db.orders[id].goods then Shelf(db.cards, g) + Own(db.cards, id) else Shelf(db.cards, g)
  {
    ExpiryWrites(db, id);
    ClearedShelf(db, ExpireStep(db, id).cards, id, {}, g);
  }

  /** After a delivery: the cards handed out that are not loop cards are gone, and what was
      left of the order's reservation is on sale. */
  lemma ShelfAfterDelivery(db: Db, id: int, paid: int, trade: string, redeliver: bool, skip: set<int>, g: int)
    requires Inv(db) && Settles(db, id, paid, trade, redeliver, skip) && id in db.orders && db.orders[id].kind.Auto?
    ensures var (db', r) := SettleStep(db, id, paid, trade, redeliver, skip);
      var gone := set k | k in r.cards && k in db.cards && !db.cards[k].loop;
      Shelf(db'.cards, g) == if g == db.orders[id].goods then Shelf(db.cards, g) + Own(db.cards, id) - gone
                             else Shelf(db.cards, g)
  {
    var (db', r) := SettleStep(db, id, paid, trade, redeliver, skip);
    var gone := set k | k in r.cards && k in db.cards && !db.cards[k].loop;
    CardsHandedOut(db, id, paid, trade, redeliver, skip);
    var own, shelf := DeliveredCards(db, id, paid, trade, redeliver, skip);
    forall k | k in r.cards
      ensures k in db.cards && (db.cards[k].owner == Some(id) || OnShelf(db.cards[k], db.orders[id].goods))
    {
      assert k in own || k in shelf;
    }
    forall k | k in gone ensures db'.cards[k] == db.cards[k].(owner := None, status := 2) {}
    ClearedShelf(db, db'.cards, id, gone, g);
  }

  // ---- the back office ----

  /** The save takes the stock an order owes. */
  predicate Takes(row: Row, to: int) {
    row.kind.Manual? && row.status == 6 && row.owed && (to == 2 || to == 3 || to == 4)
  }

  /** The save ends the order's claim on cards. */
  predicate Ends(row: Row, to: int) {
    row.kind.Auto? && to != row.status
    && (row.status == 6 || ((row.status == 2 || row.status == 3) && (to == 4 || to == 5)))
  }

  predicate SaveBreaks(db: Db, row: Row, formOk: bool, to: int, rule: Rule) {
    match rule
    case BadTitle => !formOk
    case BadStatus => to != -1 && to != 1 && to != 2 && to != 3 && to != 4 && to != 5 && to != 6
    case ManualShortByHand => row.kind.Manual? && to == 6 && row.status != 6
    case ManualShortToFailed => row.kind.Manual? && row.status == 6 && row.owed && to == 5
    case NotByHand =>
      to != row.status &&
      (to < 2 || to > 6
       || !(row.status == 2 || row.status == 3 || ((row.status == 5 || row.status == 6) && row.trade != "")))
    case StaleRow => row.id !in db.orders || db.orders[row.id].status != row.status
    case NotEnoughStock =>
      Takes(row, to) && row.id in db.orders
      && (db.orders[row.id].goods !in db.goods || db.goods[db.orders[row.id].goods].stock < db.orders[row.id].amount)
    case _ => false
  }

  function SaveRank(rule: Rule): int {
    match rule
    case BadTitle => 0
    case BadStatus => 1
    case ManualShortByHand => 2
    case ManualShortToFailed => 3
    case NotByHand => 4
    case StaleRow => 5
    case NotEnoughStock => 6
    case _ => 7
  }

  lemma SaveRuleFirst(db: Db, row: Row, formOk: bool, to: int)
    ensures match SaveRule(row, formOk, to)
      case None => forall q: Rule :: SaveRank(q) < 5 ==> !SaveBreaks(db, row, formOk, to, q)
      case Some(rule) =>
        && SaveRank(rule) < 5 && SaveBreaks(db, row, formOk, to, rule)
        && forall q: Rule :: SaveRank(q) < SaveRank(rule) ==> !SaveBreaks(db, row, formOk, to, q)
  {}

  lemma SaveRanked(rule: Rule)
    ensures SaveRank(rule) == 5 ==> rule == StaleRow
    ensures SaveRank(rule) == 6 ==> rule == NotEnoughStock
  {}

  /** A save succeeds if and only if it breaks no rule; else it is refused for the first one
      it breaks, and nothing is written. */
  lemma SavedExactly(db: Db, row: Row, formOk: bool, to: int, info: string)
    ensures var (db', r) := SaveStep(db, row, formOk, to, info);
      && (r.Saved? <==> forall rule: Rule :: !SaveBreaks(db, row, formOk, to, rule))
      && (r.NotSaved? ==>
            && db' == db && SaveBreaks(db, row, formOk, to, r.rule)
            && forall q: Rule :: SaveRank(q) < SaveRank(r.rule) ==> !SaveBreaks(db, row, formOk, to, q))
  {
    SaveRuleFirst(db, row, formOk, to);
    var r := SaveStep(db, row, formOk, to, info).1;
    if SaveRule(row, formOk, to).None? {
      assert SaveBreaks(db, row, formOk, to, StaleRow) <==> r == NotSaved(StaleRow);
      assert r != NotSaved(StaleRow) ==>
        (SaveBreaks(db, row, formOk, to, NotEnoughStock) <==> r == NotSaved(NotEnoughStock));
      forall q: Rule
        ensures SaveRank(q) < 5 || q == StaleRow || q == NotEnoughStock || !SaveBreaks(db, row, formOk, to, q)
      {
        SaveRanked(q);
      }
      forall q: Rule | SaveRank(q) < 6 ensures SaveRank(q) < 5 || q == StaleRow {
        SaveRanked(q);
      }
    }
  }

  /** The note in front of a manual order's input goes with its line end, and only the note. */
  lemma StripsExactly(info: string, rest: string)
    ensures StripMarker("库存不足\n" + rest) == rest
    ensures StripMarker("库存不足\r\n" + rest) == rest
    ensures !("\r" <= rest) && !("\n" <= rest) ==> StripMarker("库存不足" + rest) == rest
    ensures !("库存不足" <= info) ==> StripMarker(info) == info
  {
    assert ("库存不足" + rest)[4..] == rest;
    assert ("库存不足\n" + rest)[4..] == "\n" + rest && ("\n" + rest)[1..] == rest;
    assert ("库存不足\r\n" + rest)[4..] == "\r\n" + rest && ("\r\n" + rest)[1..] == "\n" + rest;
    assert ("\n" + rest)[0] == '\n';
  }

  /** What a save writes: the status and the typed text, without the note when owed stock is
      taken with it; that stock; and the cards a finished claim gives back. */
  lemma SaveWrites(db: Db, row: Row, formOk: bool, to: int, info: string)
    requires Inv(db) && RowOk(row, db.orders) && SaveStep(db, row, formOk, to, info).1.Saved?
    ensures var db' := SaveStep(db, row, formOk, to, info).0;
      var o, takes := db.orders[row.id], Takes(row, to);
      && o.goods in db.goods
      && db'.orders == db.orders[row.id := o.(status := to, info := if takes then StripMarker(info) else info,
                                              owed := o.owed && !takes)]
      && db'.goods == (if takes
                       then db.goods[o.goods := db.goods[o.goods].(stock := db.goods[o.goods].stock - o.amount)]
                       else db.goods)
      && db'.coupons == db.coupons && db'.nextOrder == db.nextOrder && db'.nextCard == db.nextCard
      && db'.cards.Keys == db.cards.Keys
      && forall k :: k in db.cards ==>
           db'.cards[k] == if Ends(row, to) && db.cards[k].owner == Some(row.id) then db.cards[k].(owner := None)
                           else db.cards[k]
  {
    assert OrderOk(db.orders[row.id]);
    var db' := SaveStep(db, row, formOk, to, info).0;
    forall k | k in db.cards
      ensures db'.cards[k] == if Ends(row, to) && db.cards[k].owner == Some(row.id) then db.cards[k].(owner := None)
                              else db.cards[k]
    {
      assert CardOk(db.cards[k], db.orders);
    }
  }

  /** After a save that ends a claim, the order's cards are on sale again. */
  lemma ShelfAfterSave(db: Db, row: Row, formOk: bool, to: int, info: string, g: int)
    requires Inv(db) && RowOk(row, db.orders) && SaveStep(db, row, formOk, to, info).1.Saved?
    ensures Shelf(SaveStep(db, row, formOk, to, info).0.cards, g) ==
      if Ends(row, to) && g == db.orders[row.id].goods then Shelf(db.cards, g) + Own(db.cards, row.id)
      else Shelf(db.cards, g)
  {
    SaveWrites(db, row, formOk, to, info);
    var cards := SaveStep(db, row, formOk, to, info).0.cards;
    if Ends(row, to) {
      ClearedShelf(db, cards, row.id, {}, g);
    } else {
      assert cards == db.cards;
    }
  }

  /** A form loaded for a paid order that the owner failed can move it on. */
  lemma FailedMovesOn(db: Db, id: int, to: int, info: string)
    requires id in db.orders && db.orders[id].status == 5 && db.orders[id].trade != ""
    requires 2 <= to <= 5 || (to == 6 && db.orders[id].kind.Auto?)
    ensures LoadRow(db, id).Some? && SaveStep(db, LoadRow(db, id).value, true, to, info).1.Saved?
  {
    var row := LoadRow(db, id).value;
    SavedExactly(db, row, true, to, info);
    forall rule: Rule ensures !SaveBreaks(db, row, true, to, rule) {
      LoadedBreaksNone(db, id, to, row, rule);
    }
  }

  lemma LoadedBreaksNone(db: Db, id: int, to: int, row: Row, rule: Rule)
    requires id in db.orders && db.orders[id].status == 5 && db.orders[id].trade != "" && LoadRow(db, id) == Some(row)
    requires 2 <= to <= 5 || (to == 6 && db.orders[id].kind.Auto?)
    ensures !SaveBreaks(db, row, true, to, rule)
  {}

  // ---- edits ----

  predicate SellsCards(db: Db, g: int) {
    g in db.goods && db.goods[g].kind.Auto? && !db.goods[g].deleted
  }

  /** An edited card is on the shelf of the goods it was given, if it is on sale, and on no
      other; it hands out the typed text. */
  lemma EditMovesCard(db: Db, k: int, from: int, to: int, status: int, loop: bool, text: string, g: int)
    requires k in db.cards && OnShelf(db.cards[k], from) && SellsCards(db, to) && (status == 1 || status == 2)
    ensures var cards := EditCardStep(db, k, to, status, loop, text).cards;
      && Shelf(cards, g) == (if g == to && status == 1 then Shelf(db.cards, g) + {k} else Shelf(db.cards, g) - {k})
      && TextOf(cards, k) == text && k in cards && cards[k].loop == loop
  {
    var cards := EditCardStep(db, k, to, status, loop, text).cards;
    forall j ensures j in Shelf(cards, g) <==>
      j in if g == to && status == 1 then Shelf(db.cards, g) + {k} else Shelf(db.cards, g) - {k}
    {}
  }

  predicate NewCard(cards: map<int, Card>, k: int, g: int, loop: bool, text: string) {
    k in cards && OnShelf(cards[k], g) && cards[k].text == text && cards[k].loop == loop
  }

  /** An import puts one new card for every line on the shelf of its goods. */
  lemma {:induction false} ImportStocks(db: Db, g: int, loop: bool, texts: seq<string>)
    requires Inv(db)
    ensures var db' := ImportCards(db, g, loop, texts);
      && db' == db.(cards := db'.cards, nextCard := db.nextCard + |texts|)
      && (forall k :: k in db'.cards <==> k in db.cards || db.nextCard <= k < db.nextCard + |texts|)
      && (forall k :: k in db.cards ==> k in db'.cards && db'.cards[k] == db.cards[k])
      && (forall i :: 0 <= i < |texts| ==> NewCard(db'.cards, db.nextCard + i, g, loop, texts[i]))
  {
    if |texts| > 0 {
      var n := |texts| - 1;
      ImportStocks(db, g, loop, texts[..n]);
      var before, cards := ImportCards(db, g, loop, texts[..n]), ImportCards(db, g, loop, texts).cards;
      assert cards == before.cards[before.nextCard := Card(g, ON_SALE, loop, texts[n], None, false)];
      forall i | 0 <= i < |texts| ensures NewCard(cards, db.nextCard + i, g, loop, texts[i]) {
        if i < n {
          assert NewCard(before.cards, db.nextCard + i, g, loop, texts[..n][i]);
        }
      }
    }
  }

  lemma ImportNeedsGoods(db: Db, g: int, loop: bool, texts: seq<string>)
    ensures ImportStep(db, g, loop, texts) == if SellsCards(db, g) then ImportCards(db, g, loop, texts) else db
  {}

  /** A deleted goods sells nothing until it is restored, and restoring undoes the deletion. */
  lemma DeletedGoodsSellsNot(db: Db, form: Checkout, skip: set<int>)
    requires form.goods in db.goods && !db.goods[form.goods].deleted
    ensures var gone := DeleteGoodsStep(db, form.goods, false);
      && CheckoutStep(gone, form, skip).1.NotPlaced? && DeleteGoodsStep(gone, form.goods, true) == db
      && gone.goods.Keys == db.goods.Keys && gone == db.(goods := gone.goods)
  {
    var gone := DeleteGoodsStep(db, form.goods, false);
    PlacedExactly(gone, form, skip);
    assert Breaks(gone, form, skip, NoSuchGoods);
    assert DeleteGoodsStep(gone, form.goods, true).goods == db.goods;
  }

  /** So does a deleted coupon buy nothing. */
  lemma DeletedCouponBuysNot(db: Db, form: Checkout, skip: set<int>)
    requires form.coupon.Some? && form.coupon.value in db.coupons && !db.coupons[form.coupon.value].deleted
    ensures var gone := DeleteCouponStep(db, form.coupon.value, false);
      && CheckoutStep(gone, form, skip).1.NotPlaced? && DeleteCouponStep(gone, form.coupon.value, true) == db
  {
    var gone := DeleteCouponStep(db, form.coupon.value, false);
    PlacedExactly(gone, form, skip);
    assert Breaks(gone, form, skip, NoSuchCoupon);
    assert DeleteCouponStep(gone, form.coupon.value, true).coupons == db.coupons;
  }

  // ---- texts ----

  function TextOf(cards: map<int, Card>, k: int): string {
    if k in cards then cards[k].text else ""
  }

  function TextsOf(cards: map<int, Card>, picked: seq<int>): seq<string> {
    seq(|picked|, i requires 0 <= i < |picked| => TextOf(cards, picked[i]))
  }

  lemma TextsGrow(cards: map<int, Card>, picked: seq<int>)
    requires |picked| > 0
    ensures TextsOf(cards, picked) == TextsOf(cards, picked[..|picked| - 1]) + [TextOf(cards, picked[|picked| - 1])]
  {}

  lemma LinesGrow(cards: map<int, Card>, picked: seq<int>)
    requires |picked| > 0
    ensures var init, last := picked[..|picked| - 1], TextOf(cards, picked[|picked| - 1]);
      Lines(cards, picked) == if |picked| == 1 then last else Lines(cards, init) + ['\n'] + last
  {}

  /** The delivered text splits into exactly the texts of the cards, in order, when none of
      them has a line end of its own. */
  lemma {:induction false} LinesSplit(cards: map<int, Card>, picked: seq<int>)
    requires |picked| > 0 && forall i :: 0 <= i < |picked| ==> '\n' !in TextOf(cards, picked[i])
    ensures Split(Lines(cards, picked), '\n') == TextsOf(cards, picked)
  {
    var init, last := picked[..|picked| - 1], TextOf(cards, picked[|picked| - 1]);
    TextsGrow(cards, picked);
    LinesGrow(cards, picked);
    if |picked| == 1 {
      SplitNone(last, '\n');
    } else {
      LinesSplit(cards, init);
      SplitLast(Lines(cards, init), '\n', last);
    }
  }

  lemma SplitNone(s: string, sep: char)
    requires sep !in s
    ensures Split(s, sep) == [s]
  {
    if IndexOf(s, sep) < |s| {
      assert false;
    }
  }

  lemma SplitCut(a: string, sep: char, b: string)
    requires sep !in a
    ensures Split(a + [sep] + b, sep) == [a] + Split(b, sep)
  {
    CutAt(a, sep, b);
  }

  lemma {:induction false} SplitLast(a: string, sep: char, b: string)
    requires sep !in b
    ensures Split(a + [sep] + b, sep) == Split(a, sep) + [b]
    decreases |a|
  {
    var i := IndexOf(a, sep);
    if i == |a| {
      SplitNone(a, sep);
      SplitNone(b, sep);
      SplitCut(a, sep, b);
    } else {
      var first, rest := a[..i], a[i + 1..];
      assert a == first + [sep] + rest;
      assert a + [sep] + b == first + [sep] + (rest + [sep] + b);
      SplitCut(first, sep, rest);
      SplitCut(first, sep, rest + [sep] + b);
      SplitLast(rest, sep, b);
    }
  }
}
