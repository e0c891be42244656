/** Checkout arithmetic: the guarded product, wholesale tiers, and the quote. */
module Price {
  import opened Tables
  import opened Text
  import opened Money

  /** The product with its guards: a division before the int64 multiplication, the
      column bound after it. */
  function Mul(unit: Int64, qty: Int64): Option<int> {
    if qty < 0 || unit < 0 then None
    else if qty == 0 || unit == 0 then Some(0)
    else if qty > MAX_INT64 / unit then None
    else
      var v := Wrap64(unit * qty);
      if v > MAX_CENTS then None else Some(v)
  }

  /** The guarded product is the true product exactly when neither factor is negative
      and it fits the money column; the multiplication that runs never wraps. */
  lemma MulExact(unit: Int64, qty: Int64)
    ensures Mul(unit, qty) == if 0 <= unit && 0 <= qty && unit * qty <= MAX_CENTS then Some(unit * qty) else None
    ensures 0 < unit && 0 < qty && qty <= MAX_INT64 / unit ==> IsInt64(unit * qty)
  {
    if 0 < unit && 0 < qty {
      DivisionGuard(MAX_INT64, unit, qty);
    }
  }

  /** Dividing the bound tells exactly when the product exceeds it. */
  lemma DivisionGuard(bound: int, unit: int, qty: int)
    requires bound >= 0 && unit > 0 && qty > 0
    ensures qty <= bound / unit <==> unit * qty <= bound
    ensures unit * qty > 0
  {
    var q, r := bound / unit, bound % unit;
    assert bound == unit * q + r;
    Monotone(unit, qty, q);
    Monotone(unit, q + 1, qty);
    assert unit * (q + 1) == unit * q + unit;
    Monotone(unit, 1, qty);
  }

  lemma Monotone(u: int, a: int, b: int)
    requires u > 0
    ensures a <= b ==> u * a <= u * b
    ensures a < b ==> u * a < u * b
  {
    assert u * b - u * a == u * (b - a);
  }

  /** One wholesale line: a quantity threshold and the unit price from there on. */
  datatype Tier = Tier(need: int, price: int)

  /** "quantity=unitPrice"; anything else, and anything not positive, is skipped. */
  function ParseTier(raw: string): Option<Tier> {
    var line := TrimSpace(raw);
    var eq := IndexOf(line, '=');
    if eq == |line| then None else
    var need := ParseInt(TrimSpace(line[..eq]));
    var price := Parsed(TrimSpace(line[eq + 1..]));
    if need.None? || price.None? || need.value <= 0 || price.value <= 0 then None
    else Some(Tier(need.value, price.value))
  }

  /** A line that states a tier, and one that a purchase of qty reaches. */
  predicate Reached(t: Option<Tier>, qty: int) {
    t.Some? && t.value.need <= qty
  }

  /** What the tier rule promises of the chosen tier: it stands on some line, no
      reached threshold is higher, and no line with that threshold is cheaper; none
      is chosen only when none is reached. */
  ghost predicate Chosen(best: Option<Tier>, tiers: seq<Option<Tier>>, qty: int) {
    && (best.Some? ==> best in tiers && Reached(best, qty))
    && forall t :: t in tiers && Reached(t, qty) ==>
         && best.Some?
         && (t.value.need < best.value.need
             || (t.value.need == best.value.need && best.value.price <= t.value.price))
  }

  /** One line against the best tier so far. */
  function Better(best: Option<Tier>, tier: Option<Tier>, qty: int): Option<Tier> {
    if tier.None? || qty < tier.value.need then best
    else if best.None? || tier.value.need > best.value.need
            || (tier.value.need == best.value.need && tier.value.price < best.value.price) then tier
    else best
  }

  function BestTier(tiers: seq<Option<Tier>>, qty: int): Option<Tier> {
    if |tiers| == 0 then None else Better(BestTier(tiers[..|tiers| - 1], qty), tiers[|tiers| - 1], qty)
  }

  /** The tier rule holds of the tier the lines leave standing. */
  lemma {:induction false} BestTierChosen(tiers: seq<Option<Tier>>, qty: int)
    ensures Chosen(BestTier(tiers, qty), tiers, qty)
  {
    if |tiers| > 0 {
      var seen, last := tiers[..|tiers| - 1], tiers[|tiers| - 1];
      BestTierChosen(seen, qty);
      assert tiers == seen + [last];
    }
  }

  /** Price lists with the same lines, in whatever order and however often each,
      choose the same tier. */
  lemma ChosenPermuted(xs: seq<Option<Tier>>, ys: seq<Option<Tier>>, qty: int)
    requires forall t :: t in xs <==> t in ys
    ensures BestTier(xs, qty) == BestTier(ys, qty)
  {
    BestTierChosen(xs, qty);
    BestTierChosen(ys, qty);
  }

  /** The lines of a price list. */
  function Tiers(raw: string): seq<Option<Tier>> {
    TiersOf(Split(raw, '\n'))
  }

  function TiersOf(lines: seq<string>): (r: seq<Option<Tier>>)
    ensures |r| == |lines|
  {
    seq(|lines|, i requires 0 <= i < |lines| => ParseTier(lines[i]))
  }

  /** The wholesale discount: qty times what the chosen tier saves per unit, or
      nothing when no tier saves or the total does not fit the money column. */
  function Saving(best: Option<Tier>, qty: int, unit: int): int {
    if best.Some? && qty > 0 && best.value.price < unit && unit * qty <= MAX_CENTS
    then (unit - best.value.price) * qty else 0
  }

  /** The discount of a price list for one purchase. */
  function Discount(raw: string, qty: int, unit: int): int {
    Saving(BestTier(Tiers(raw), qty), qty, unit)
  }

  /** Rearranging the lines of a price list does not change the discount. */
  lemma DiscountPermuted(raw: string, raw': string, qty: int, unit: int)
    requires multiset(Split(raw, '\n')) == multiset(Split(raw', '\n'))
    ensures Discount(raw, qty, unit) == Discount(raw', qty, unit)
  {
    SameTiers(Split(raw, '\n'), Split(raw', '\n'));
    SameTiers(Split(raw', '\n'), Split(raw, '\n'));
    ChosenPermuted(Tiers(raw), Tiers(raw'), qty);
  }

  lemma SameTiers(xs: seq<string>, ys: seq<string>)
    requires multiset(xs) == multiset(ys)
    ensures forall t :: t in TiersOf(xs) ==> t in TiersOf(ys)
  {
    forall t | t in TiersOf(xs) ensures t in TiersOf(ys) {
      var i :| 0 <= i < |xs| && TiersOf(xs)[i] == t;
      assert xs[i] in multiset(ys);
      var j :| 0 <= j < |ys| && ys[j] == xs[i];
      assert TiersOf(ys)[j] == t;
    }
  }

  /** Every stated tier is positive. */
  lemma TierPositive(line: string)
    ensures var t := ParseTier(line);
      t.Some? ==> 0 < t.value.need && 0 < t.value.price && IsInt64(t.value.price)
  {
    if ParseTier(line).Some? {
      var l := TrimSpace(line);
      var cents := Parsed(TrimSpace(l[IndexOf(l, '=') + 1..]));
      assert cents.Some? && IsInt64(cents.value);
    }
  }

  lemma TiersPositive(raw: string, t: Option<Tier>)
    requires t in Tiers(raw) && t.Some?
    ensures 0 < t.value.need && 0 < t.value.price && IsInt64(t.value.price)
  {
    var lines := Split(raw, '\n');
    var i :| 0 <= i < |lines| && Tiers(raw)[i] == t;
    TierPositive(lines[i]);
  }

  lemma SavingBounds(best: Option<Tier>, qty: int, unit: int)
    requires best.Some? ==> 0 < best.value.price
    ensures 0 <= Saving(best, qty, unit)
    ensures qty > 0 && 0 <= unit ==> Saving(best, qty, unit) <= unit * qty
  {
    if Saving(best, qty, unit) != 0 {
      SavingCompares(qty, best.value.price, unit);
      SavingCompares(qty, 0, best.value.price);
    } else if qty > 0 {
      SavingCompares(qty, 0, unit);
    }
  }

  /** The discount never exceeds the total it is taken from. */
  lemma DiscountBounds(raw: string, qty: int, unit: int)
    ensures 0 <= Discount(raw, qty, unit)
    ensures qty > 0 && 0 <= unit ==> Discount(raw, qty, unit) <= unit * qty
  {
    var tiers := Tiers(raw);
    var best := BestTier(tiers, qty);
    BestTierChosen(tiers, qty);
    if best.Some? {
      TiersPositive(raw, best);
    }
    SavingBounds(best, qty, unit);
  }

  /** A purchase of nothing, or an empty list, earns no discount. */
  lemma NoDiscount(raw: string, qty: int, unit: int)
    requires qty <= 0 || raw == ""
    ensures Discount(raw, qty, unit) == 0
  {
    if qty > 0 {
      assert Split("", '\n') == [""];
      assert TrimSpace("") == "" && IndexOf("", '=') == 0;
      assert ParseTier("").None?;
      assert Tiers("") == [None];
      BestTierChosen([None], qty);
    }
  }

  /** The arithmetic after the loop. */
  method OffFor(best: Option<Tier>, qty: Int64, unit: Int64) returns (off: int)
    requires 0 < qty
    requires best.Some? ==> 0 < best.value.price && IsInt64(best.value.price)
    ensures off == Saving(best, qty, unit)
  {
    if best.None? {
      return 0;
    }
    var total, next := Mul(unit, qty), Mul(best.value.price, qty);
    MulExact(unit, qty);
    MulExact(best.value.price, qty);
    SavingCompares(qty, best.value.price, unit);
    if total.None? || next.None? || next.value >= total.value {
      return 0;
    }
    return total.value - next.value;
  }

  lemma SavingCompares(qty: int, price: int, unit: int)
    requires qty > 0
    ensures price < unit <==> price * qty < unit * qty
    ensures unit * qty - price * qty == (unit - price) * qty
  {
    Monotone(qty, price, unit);
    Monotone(qty, unit, price);
  }

  /** The loop over the lines of a price list. */
  method WholesaleOff(raw: string, qty: Int64, unit: Int64) returns (off: int)
    ensures off == Discount(raw, qty, unit)
  {
    if qty <= 0 || raw == "" {
      NoDiscount(raw, qty, unit);
      return 0;
    }
    var lines := Split(raw, '\n');
    ghost var tiers := TiersOf(lines);
    var best: Option<Tier> := None;
    for i := 0 to |lines|
      invariant best == BestTier(tiers[..i], qty)
    {
      assert tiers[..i + 1][..i] == tiers[..i];
      best := Better(best, ParseTier(lines[i]), qty);
    }
    assert tiers[..|lines|] == tiers == Tiers(raw);
    BestTierChosen(tiers, qty);
    if best.Some? {
      TiersPositive(raw, best);
    }
    off := OffFor(best, qty, unit);
  }

  datatype Quoted = BadPrice | Quoted(total: int, couponOff: int, wholesaleOff: int, actual: int)

  /** The coupon's face value; a text that is empty, unreadable or not positive is worth nothing. */
  function CouponOff(text: string): (off: int)
    ensures 0 <= off <= MAX_INT64
  {
    var c := if TrimSpace(text) == "" then None else Parsed(text);
    if c.Some? && c.value > 0 then
      assert IsInt64(c.value);
      c.value
    else 0
  }

  /** The price pipeline: total, coupon, wholesale, payable. */
  function Quote(unit: Int64, quantity: Int64, coupon: string, wholesale: string): Quoted {
    var qty := if quantity < 1 then 1 else quantity;
    var total := Mul(unit, qty);
    if total.None? then BadPrice else
      var off, face := Discount(wholesale, qty, unit), CouponOff(coupon);
      var actual := Wrap64(Wrap64(total.value - face) - off);
      Quoted(total.value, face, off, if actual < 0 then 0 else actual)
  }

  /** A quote succeeds exactly when the total fits the money column; then the wholesale
      discount is inside the total, and what is payable is the exact difference, never
      below zero: the int64 subtractions do not wrap. */
  lemma QuoteExact(unit: Int64, quantity: Int64, coupon: string, wholesale: string)
    ensures var q, qty := Quote(unit, quantity, coupon, wholesale), Max(quantity, 1);
      && (q.Quoted? <==> 0 <= unit && unit * qty <= MAX_CENTS)
      && (q.Quoted? ==>
            && q.total == unit * qty
            && 0 <= q.wholesaleOff <= q.total <= MAX_CENTS
            && q.couponOff == CouponOff(coupon)
            && q.actual == Max(0, q.total - q.couponOff - q.wholesaleOff))
  {
    var qty := Max(quantity, 1);
    MulExact(unit, qty);
    DiscountBounds(wholesale, qty, unit);
    if Mul(unit, qty).Some? {
      var total, off, face := unit * qty, Discount(wholesale, qty, unit), CouponOff(coupon);
      assert IsInt64(total - face) && IsInt64(total - face - off);
    }
  }

  /** The wholesale discount of a quote is the price list's. */
  lemma QuoteDiscount(unit: Int64, quantity: Int64, coupon: string, wholesale: string)
    ensures var q := Quote(unit, quantity, coupon, wholesale);
      q.Quoted? ==> q.wholesaleOff == Discount(wholesale, Max(quantity, 1), unit)
  {}

  /** No coupon text is worth nothing. */
  lemma NoCoupon()
    ensures CouponOff("") == 0
  {
    assert TrimSpace("") == "";
  }

  /** A line of digits, a separator and an amount, read part by part. */
  lemma LineReads(n: string, p: string, need: int, price: int)
    requires |n| > 0 && AllDigits(n) && |p| > 0 && TrimSpace(p) == p && !IsSpace(p[|p| - 1])
    requires ParseInt(n) == Some(need) && Parsed(p) == Some(price) && 0 < need && 0 < price
    ensures ParseTier(n + ['='] + p) == Some(Tier(need, price))
  {
    assert IsDigit(n[0]) && IsDigit(n[|n| - 1]);
    TrimSpaceNothing(n);
    LineParts(n, p);
  }

  lemma LineParts(n: string, p: string)
    requires |n| > 0 && AllDigits(n) && |p| > 0 && !IsSpace(p[|p| - 1])
    ensures var line := n + ['='] + p;
      TrimSpace(line) == line && IndexOf(line, '=') == |n| < |line| && line[..|n|] == n && line[|n| + 1..] == p
  {
    var line := n + ['='] + p;
    assert line[0] == n[0] && line[|line| - 1] == p[|p| - 1];
    assert IsDigit(n[0]);
    TrimSpaceNothing(line);
    CutAt(n, '=', p);
  }

  lemma PrintedEnds(v: nat)
    requires v <= MAX_INT64
    ensures var p := Plain(v); |p| > 0 && TrimSpace(p) == p && !IsSpace(p[|p| - 1])
  {
    PlainReads(v);
    TrimSpaceNothing(Plain(v));
  }

  /** What a price list line says: a quantity and the price from there on. */
  lemma TierReads(need: nat, price: nat)
    requires 0 < need <= MAX_INT64 && 0 < price <= MAX_INT64
    ensures ParseTier(Digits(need) + ['='] + Yuan(price)) == Some(Tier(need, price))
  {
    YuanPlain(price);
    PrintedEnds(price);
    YuanRoundTrip(price);
    ParseDigits(Digits(need));
    LineReads(Digits(need), Plain(price), need, price);
  }

  /** The tier rule names one tier. */
  lemma ChosenOnce(a: Option<Tier>, b: Option<Tier>, tiers: seq<Option<Tier>>, qty: int)
    requires Chosen(a, tiers, qty) && Chosen(b, tiers, qty)
    ensures a == b
  {}

  /** The discount is what the tier that the rule chooses saves on every unit; there is none
      when it saves nothing, no tier is reached, or the total does not fit the column. */
  lemma DiscountExact(raw: string, qty: int, unit: int, t: Option<Tier>)
    requires Chosen(t, Tiers(raw), qty)
    ensures Discount(raw, qty, unit) ==
      if t.Some? && 0 < qty && t.value.price < unit && unit * qty <= MAX_CENTS
      then (unit - t.value.price) * qty else 0
  {
    var tiers := Tiers(raw);
    BestTierChosen(tiers, qty);
    ChosenOnce(t, BestTier(tiers, qty), tiers, qty);
  }

  /** A coupon is worth the amount its column prints, and nothing below zero. */
  lemma CouponReads(c: int)
    requires IsInt64(c) && IsInt64(-c)
    ensures CouponOff(Yuan(c)) == Max(0, c)
  {
    YuanRoundTrip(c);
    ReadsAs(Yuan(c), c);
  }

  lemma ReadsAs(text: string, c: int)
    requires Parsed(text) == Some(c)
    ensures CouponOff(text) == Max(0, c)
  {}
}
