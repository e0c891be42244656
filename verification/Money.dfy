/** The text the money code reads and writes: trimming, cutting, splitting and
    decimal integers, as Go's strings and strconv packages define them. */
module Text {
  import opened Tables

  const MAX_INT64 := 0x7FFF_FFFF_FFFF_FFFF
  const MIN_INT64 := -0x8000_0000_0000_0000

  predicate IsInt64(n: int) {
    MIN_INT64 <= n <= MAX_INT64
  }

  type Int64 = n: int | IsInt64(n)

  /** Two's complement wrap-around of an int64 result. */
  function Wrap64(n: int): (r: int)
    ensures IsInt64(r)
    ensures IsInt64(n) ==> r == n
  {
    if IsInt64(n) then n else (n + 0x8000_0000_0000_0000) % 0x1_0000_0000_0000_0000 - 0x8000_0000_0000_0000
  }

  /** The white space of unicode.IsSpace. */
  predicate IsSpace(c: char) {
    || '\t' <= c <= '\r'
    || c == ' '
    || c == '\U{85}' || c == '\U{A0}' || c == '\U{1680}'
    || '\U{2000}' <= c <= '\U{200a}'
    || c == '\U{2028}' || c == '\U{2029}' || c == '\U{202f}' || c == '\U{205f}' || c == '\U{3000}'
  }

  function TrimLeft(s: string): string {
    if |s| > 0 && IsSpace(s[0]) then TrimLeft(s[1..]) else s
  }

  function TrimRight(s: string): string {
    if |s| > 0 && IsSpace(s[|s| - 1]) then TrimRight(s[..|s| - 1]) else s
  }

  function TrimSpace(s: string): string {
    TrimRight(TrimLeft(s))
  }

  /** Text without white space at its ends is its own trimmed form. */
  lemma TrimSpaceNothing(s: string)
    requires |s| > 0 ==> !IsSpace(s[0]) && !IsSpace(s[|s| - 1])
    ensures TrimSpace(s) == s
  {}

  /** Where sep first occurs in s, or |s|. */
  function IndexOf(s: string, sep: char): (i: nat)
    ensures i <= |s|
    ensures i < |s| ==> s[i] == sep
    ensures forall j :: 0 <= j < i ==> s[j] != sep
  {
    if |s| == 0 || s[0] == sep then 0 else 1 + IndexOf(s[1..], sep)
  }

  /** strings.Split(s, sep) for a one-character separator. */
  function Split(s: string, sep: char): (r: seq<string>)
    ensures |r| >= 1
    decreases |s|
  {
    var i := IndexOf(s, sep);
    if i == |s| then [s] else [s[..i]] + Split(s[i + 1..], sep)
  }

  predicate IsDigit(c: char) {
    '0' <= c <= '9'
  }

  predicate AllDigits(s: string) {
    forall i :: 0 <= i < |s| ==> IsDigit(s[i])
  }

  /** The number a string of digits denotes. */
  function Value(s: string): (n: nat)
    requires AllDigits(s)
  {
    if |s| == 0 then 0 else 10 * Value(s[..|s| - 1]) + (s[|s| - 1] as int - '0' as int)
  }

  /** strconv.ParseInt(s, 10, 64); strconv.Atoi on a 64-bit platform. */
  function ParseInt(s: string): (r: Option<int>)
    ensures r.Some? ==> IsInt64(r.value)
  {
    var signed := |s| > 0 && (s[0] == '+' || s[0] == '-');
    var digits := if signed then s[1..] else s;
    if |digits| == 0 || !AllDigits(digits) then None else
    var n: int := if signed && s[0] == '-' then -(Value(digits) as int) else Value(digits);
    if IsInt64(n) then Some(n) else None
  }

  lemma ParseDigits(s: string)
    requires |s| > 0 && AllDigits(s) && Value(s) <= MAX_INT64
    ensures ParseInt(s) == Some(Value(s))
  {
    assert IsDigit(s[0]);
  }

  /** Cutting at the first separator. */
  lemma CutAt(a: string, sep: char, b: string)
    requires forall i :: 0 <= i < |a| ==> a[i] != sep
    ensures var s := a + [sep] + b; IndexOf(s, sep) == |a| && s[..|a|] == a && s[|a| + 1..] == b
  {
    var s := a + [sep] + b;
    var i := IndexOf(s, sep);
    assert s[|a|] == sep;
    assert forall j :: 0 <= j < |a| ==> s[j] == a[j];
  }

  /** The decimal digits of n without leading zeros. */
  function Digits(n: nat): (s: string)
    ensures |s| > 0 && AllDigits(s)
    ensures Value(s) == n
  {
    var last := [(n % 10 + '0' as int) as char];
    if n < 10 then
      assert Value(last[..0]) == 0;
      last
    else
      var s := Digits(n / 10) + last;
      assert s[..|s| - 1] == Digits(n / 10);
      s
  }

  /** strconv.FormatInt(n, 10). */
  function FormatInt(n: int): string {
    if n < 0 then "-" + Digits(-n) else Digits(n)
  }

  /** Integer division and remainder as Go defines them: truncated toward zero. */
  function Quo(a: int, b: int): int
    requires b > 0
  {
    if a < 0 then -((-a) / b) else a / b
  }

  function Rem(a: int, b: int): int
    requires b > 0
  {
    if a < 0 then -((-a) % b) else a % b
  }

  function Pow10(n: nat): (p: nat)
    ensures p >= 1
  {
    if n == 0 then 1 else 10 * Pow10(n - 1)
  }

  lemma Scale(v: int, p: int, w: int, d: int)
    ensures 10 * (v * p + w) + d == v * (10 * p) + (10 * w + d)
  {}

  /** The value of a concatenation of digits. */
  lemma {:induction false} ValueConcat(a: string, b: string)
    requires AllDigits(a) && AllDigits(b)
    ensures AllDigits(a + b)
    ensures Value(a + b) == Value(a) * Pow10(|b|) + Value(b)
    decreases |b|
  {
    if |b| == 0 {
      assert a + b == a;
    } else {
      var init, last := b[..|b| - 1], b[|b| - 1] as int - '0' as int;
      ValueConcat(a, init);
      assert (a + b)[..|a + b| - 1] == a + init;
      assert Value(a + b) == 10 * Value(a + init) + last;
      assert Value(b) == 10 * Value(init) + last;
      Scale(Value(a), Pow10(|init|), Value(init), last);
    }
  }

  /** A string of digits is worth less than the next power of ten. */
  lemma {:induction false} ValueBound(s: string)
    requires AllDigits(s)
    ensures Value(s) < Pow10(|s|)
  {
    if |s| > 0 {
      ValueBound(s[..|s| - 1]);
    }
  }

  function TrimZeros(s: string): (r: string)
    ensures |r| <= |s|
    ensures AllDigits(s) ==> AllDigits(r)
    ensures |r| > 0 ==> r[0] != '0'
  {
    if |s| > 0 && s[0] == '0' then TrimZeros(s[1..]) else s
  }

  lemma {:induction false} TrimZerosValue(s: string)
    requires AllDigits(s)
    ensures Value(TrimZeros(s)) == Value(s)
  {
    if |s| > 0 && s[0] == '0' {
      TrimZerosValue(s[1..]);
      assert s == s[..1] + s[1..];
      assert Value(s[..1][..0]) == 0;
      ValueConcat(s[..1], s[1..]);
    }
  }

  /** A leading digit other than 0 makes the number at least that power of ten. */
  lemma {:induction false} ValueLeading(s: string)
    requires AllDigits(s) && |s| > 0 && s[0] != '0'
    ensures Value(s) >= Pow10(|s| - 1)
  {
    if |s| > 1 {
      ValueLeading(s[..|s| - 1]);
    }
  }
}

/** Decimal amounts of yuan held as int64 cents: printing, parsing, and the form
    field that feeds the parser. */
module Money {
  import opened Tables
  import opened Text

  /** The largest value of a numeric(10,2) column. */
  const MAX_CENTS := 9999999999

  /** Two fraction digits: longer fractions are cut, shorter ones padded. */
  function Fraction(frac: string): (r: string)
    ensures |r| == 2
  {
    if |frac| >= 2 then frac[..2] else if |frac| == 1 then frac + "0" else "00"
  }

  function Decimal(whole: string, frac: string): string {
    whole + "." + frac
  }

  /** The cents of a whole and a fraction part, in int64 arithmetic. */
  function Join(whole: Option<int>, frac: Option<int>): Option<int> {
    if whole.None? || frac.None? then None else Some(Wrap64(Wrap64(whole.value * 100) + frac.value))
  }

  function Negate(c: Option<int>): Option<int> {
    if c.None? then None else Some(Wrap64(-c.value))
  }

  /** What the parser answers for the text after trimming and the sign. */
  function Unsigned(s: string): Option<int> {
    var dot := IndexOf(s, '.');
    Join(ParseInt(s[..dot]), ParseInt(if dot < |s| then Fraction(s[dot + 1..]) else "00"))
  }

  function Parsed(text: string): Option<int> {
    var s := TrimSpace(text);
    if s == "" then None else if s[0] == '-' then Negate(Unsigned(s[1..])) else Unsigned(s)
  }

  /** The parser, with its padding loop. */
  method ParseYuan(text: string) returns (r: Option<int>)
    ensures r == Parsed(text)
  {
    var s := TrimSpace(text);
    if s == "" {
      return None;
    }
    var neg := false;
    if s[0] == '-' {
      neg := true;
      s := s[1..];
    }
    var dot := IndexOf(s, '.');
    var frac := "00";
    if dot < |s| {
      frac := s[dot + 1..];
    }
    ghost var cents := Fraction(frac);
    assert "00" == "00"[..2];
    assert cents == if dot < |s| then Fraction(s[dot + 1..]) else "00";
    if |frac| > 2 {
      frac := frac[..2];
    }
    while |frac| < 2
      invariant |frac| <= 2
      invariant Fraction(frac) == cents
    {
      frac := frac + "0";
    }
    assert |frac| == 2 && frac == frac[..2] == cents;
    r := Join(ParseInt(s[..dot]), ParseInt(frac));
    assert r == Unsigned(s);
    if neg {
      r := Negate(r);
    }
  }

  /** The printer. */
  function Yuan(c: int): string
    requires IsInt64(c)
  {
    var v := if c < 0 then Wrap64(-c) else c;
    (if c < 0 then "-" else "")
    + FormatInt(Quo(v, 100)) + "." + FormatInt(Quo(Rem(v, 100), 10)) + FormatInt(Rem(v, 10))
  }

  /** Plain digits, a dot and two digits parse to exactly what they say. */
  lemma PlainParses(whole: string, frac: string, w: nat, f: nat)
    requires |whole| > 0 && AllDigits(whole) && |frac| == 2 && AllDigits(frac)
    requires w == Value(whole) && f == Value(frac) && w * 100 + f <= MAX_INT64
    ensures Unsigned(Decimal(whole, frac)) == Some(w * 100 + f)
  {
    ParseDigits(whole);
    ParseDigits(frac);
    CutParses(whole, frac);
    JoinFits(w, f);
  }

  lemma CutParses(whole: string, frac: string)
    requires |frac| == 2 && forall i :: 0 <= i < |whole| ==> whole[i] != '.'
    ensures Unsigned(Decimal(whole, frac)) == Join(ParseInt(whole), ParseInt(frac))
  {
    var s := Decimal(whole, frac);
    assert s == whole + ['.'] + frac;
    CutAt(whole, '.', frac);
    assert frac[..2] == frac;
  }

  lemma JoinFits(w: nat, f: nat)
    requires w * 100 + f <= MAX_INT64
    ensures Join(Some(w), Some(f)) == Some(w * 100 + f)
  {
    assert IsInt64(w * 100) && IsInt64(w * 100 + f);
  }

  /** Two digits printed one at a time. */
  function TwoDigits(n: nat): (f: string)
    requires n < 100
    ensures |f| == 2 && AllDigits(f) && Value(f) == n
  {
    ValueConcat(Digits(n / 10), Digits(n % 10));
    assert Pow10(1) == 10 by { assert Pow10(0) == 1; }
    Digits(n / 10) + Digits(n % 10)
  }

  /** The printed text of an amount that is not negative. */
  function Plain(v: nat): string {
    Decimal(Digits(v / 100), TwoDigits(v % 100))
  }

  lemma YuanPlain(c: int)
    requires MIN_INT64 < c <= MAX_INT64
    ensures Yuan(c) == if c < 0 then "-" + Plain(-c) else Plain(c)
  {
    var v: nat := if c < 0 then -c else c;
    assert v % 100 % 10 == v % 10;
    assert c < 0 ==> Wrap64(-c) == v;
    assert TwoDigits(v % 100) == Digits(v % 100 / 10) + Digits(v % 10);
    assert Quo(v, 100) == v / 100 && Quo(Rem(v, 100), 10) == v % 100 / 10 && Rem(v, 10) == v % 10;
  }

  /** A text that starts and ends with a digit is its own trimmed form, and has no sign. */
  lemma PlusParses(plain: string, v: int)
    requires |plain| > 0 && IsDigit(plain[0]) && IsDigit(plain[|plain| - 1]) && Unsigned(plain) == Some(v)
    ensures Parsed(plain) == Some(v)
  {
    TrimSpaceNothing(plain);
  }

  lemma MinusParses(plain: string, v: nat)
    requires |plain| > 0 && IsDigit(plain[|plain| - 1]) && v <= MAX_INT64 && Unsigned(plain) == Some(v)
    ensures Parsed("-" + plain) == Some(-(v as int))
  {
    var signed := "-" + plain;
    TrimSpaceNothing(signed);
    assert signed[1..] == plain;
  }

  lemma EndsInDigits(whole: string, frac: string)
    requires |whole| > 0 && AllDigits(whole) && |frac| == 2 && AllDigits(frac)
    ensures var s := Decimal(whole, frac); |s| > 0 && IsDigit(s[0]) && IsDigit(s[|s| - 1])
  {
    var s := Decimal(whole, frac);
    assert s[0] == whole[0] && s[|s| - 1] == frac[1];
  }

  lemma PlainReads(v: nat)
    requires v <= MAX_INT64
    ensures var s := Plain(v); |s| > 0 && IsDigit(s[0]) && IsDigit(s[|s| - 1]) && Unsigned(s) == Some(v)
  {
    var whole, frac := Digits(v / 100), TwoDigits(v % 100);
    EndsInDigits(whole, frac);
    DigitsRead(whole, frac, v / 100, v % 100, v);
  }

  lemma DigitsRead(whole: string, frac: string, w: nat, f: nat, v: nat)
    requires |whole| > 0 && AllDigits(whole) && |frac| == 2 && AllDigits(frac)
    requires w == Value(whole) && f == Value(frac) && w * 100 + f == v <= MAX_INT64
    ensures Unsigned(Decimal(whole, frac)) == Some(v)
  {
    PlainParses(whole, frac, w, f);
  }

  lemma PrintedReads(c: int)
    requires MIN_INT64 < c <= MAX_INT64
    ensures Parsed(Yuan(c)) == Some(c)
  {
    var v: nat := if c < 0 then -c else c;
    YuanPlain(c);
    PlainReads(v);
    if c < 0 {
      MinusParses(Plain(v), v);
    } else {
      PlusParses(Plain(v), v);
    }
  }

  lemma LeastFails()
    ensures Parsed(Yuan(MIN_INT64)).None?
  {
    var d := LeastPrints();
    TwoSigns(d);
  }

  /** Reading back what was printed gives the amount again, for every int64 except
      the one whose negation overflows. */
  lemma YuanRoundTrip(c: int)
    requires IsInt64(c)
    ensures Parsed(Yuan(c)) == Some(c) <==> IsInt64(-c)
  {
    if c == MIN_INT64 {
      LeastFails();
    } else {
      PrintedReads(c);
    }
  }

  /** The least int64 prints as a text with a second sign. */
  lemma LeastPrints() returns (d: string)
    ensures AllDigits(d) && Yuan(MIN_INT64) == "-" + (("-" + d) + ['.'] + "0-8")
  {
    assert Wrap64(-MIN_INT64) == MIN_INT64;
    assert Rem(MIN_INT64, 100) == -8 && Rem(MIN_INT64, 10) == -8 && Quo(-8, 10) == 0;
    var whole: nat := -Quo(MIN_INT64, 100);
    d := Digits(whole);
    assert Digits(0) == "0" && Digits(8) == "8";
    assert FormatInt(0) + FormatInt(-8) == "0-8";
    assert whole > 0 && FormatInt(-(whole as int)) == "-" + d;
  }

  /** A sign inside the fraction part is a syntax error. */
  lemma {:induction false} SecondSign(d: string)
    requires AllDigits(d)
    ensures Unsigned(("-" + d) + ['.'] + "0-8").None?
  {
    var whole := "-" + d;
    CutAt(whole, '.', "0-8");
    assert Fraction("0-8") == "0-";
    assert !IsDigit("0-"[1]);
    assert ParseInt("0-").None?;
  }

  lemma TwoSigns(d: string)
    requires AllDigits(d)
    ensures Parsed("-" + (("-" + d) + ['.'] + "0-8")).None?
  {
    var rest := ("-" + d) + ['.'] + "0-8";
    SecondSign(d);
    var s := "-" + rest;
    assert s[1..] == rest && s[|s| - 1] == '8';
    TrimSpaceNothing(s);
  }

  /** ^\d+(\.\d{1,2})?$ */
  predicate MoneyShape(s: string) {
    var dot := IndexOf(s, '.');
    && dot > 0 && AllDigits(s[..dot])
    && (dot < |s| ==> 1 <= |s[dot + 1..]| <= 2 && AllDigits(s[dot + 1..]))
  }

  function WholePart(s: string): (r: string)
    requires MoneyShape(s)
    ensures |r| > 0 && AllDigits(r)
  {
    s[..IndexOf(s, '.')]
  }

  /** The fraction digits, padded to two. */
  function CentsPart(s: string): (r: string)
    requires MoneyShape(s)
    ensures |r| == 2 && AllDigits(r)
  {
    var dot := IndexOf(s, '.');
    if dot == |s| then "00" else if |s[dot + 1..]| == 1 then s[dot + 1..] + "0" else s[dot + 1..]
  }

  datatype Field = Accepted(text: string) | Empty | BadFormat | OutOfRange

  /** The form field: the text is kept, its fraction padded to two digits. */
  function MoneyField(text: string, allowEmpty: bool): Field {
    var s := TrimSpace(text);
    if s == "" then
      if allowEmpty then Accepted("0.00") else Empty
    else if !MoneyShape(s) then BadFormat
    else
      var trimmed := if TrimZeros(WholePart(s)) == "" then "0" else TrimZeros(WholePart(s));
      if |trimmed| > 8 then OutOfRange else Accepted(Decimal(WholePart(s), CentsPart(s)))
  }

  /** The cents a decimal text denotes: all its digits as one number, scaled by the
      fraction digits it leaves out. */
  function Denoted(s: string): nat
    requires MoneyShape(s)
  {
    var dot := IndexOf(s, '.');
    if dot == |s| then 100 * Value(s)
    else
      var frac := s[dot + 1..];
      ValueConcat(s[..dot], frac);
      Value(s[..dot] + frac) * Pow10(2 - |frac|)
  }

  /** The eight-digit rule on the whole part is exactly the column bound. */
  lemma EightDigits(whole: string, frac: string)
    requires |whole| > 0 && AllDigits(whole) && |frac| == 2 && AllDigits(frac)
    ensures |TrimZeros(whole)| <= 8 <==> Value(whole) * 100 + Value(frac) <= MAX_CENTS
  {
    var t := TrimZeros(whole);
    TrimZerosValue(whole);
    ValueBound(frac);
    assert Pow10(2) == 100 by { assert Pow10(1) == 10 by { assert Pow10(0) == 1; } }
    PowersOfTen();
    if |t| <= 8 {
      ValueBound(t);
      PowMonotone(|t|, 8);
    } else {
      ValueLeading(t);
      PowMonotone(8, |t| - 1);
    }
  }

  lemma PowersOfTen()
    ensures Pow10(8) == 100000000
  {
    assert Pow10(2) == 100 by { assert Pow10(1) == 10 by { assert Pow10(0) == 1; } }
    assert Pow10(4) == 10000 by { assert Pow10(3) == 1000; }
    assert Pow10(6) == 1000000 by { assert Pow10(5) == 100000; }
    assert Pow10(7) == 10000000;
  }

  lemma {:induction false} PowMonotone(a: nat, b: nat)
    requires a <= b
    ensures Pow10(a) <= Pow10(b)
    decreases b - a
  {
    if a < b {
      PowMonotone(a, b - 1);
    }
  }

  /** The padded fraction and what it is worth. */
  lemma PaddedDenotes(s: string)
    requires MoneyShape(s)
    ensures Value(WholePart(s)) * 100 + Value(CentsPart(s)) == Denoted(s)
  {
    var dot := IndexOf(s, '.');
    assert Pow10(0) == 1 && Pow10(1) == 10 && Pow10(2) == 100 by {
      assert Pow10(1) == 10 * Pow10(0);
    }
    if dot == |s| {
      assert s[..dot] == s;
      assert Value("00") == 0 by {
        assert "00"[..1] == "0" && "0"[..0] == "";
        assert Value("0") == 0;
      }
    } else {
      var frac := s[dot + 1..];
      ValueConcat(s[..dot], frac);
      if |frac| == 1 {
        assert (frac + "0")[..1] == frac;
      }
    }
  }

  lemma ShapedField(text: string, allowEmpty: bool)
    requires MoneyShape(TrimSpace(text))
    ensures var s := TrimSpace(text);
      MoneyField(text, allowEmpty) ==
        if |TrimZeros(WholePart(s))| <= 8 then Accepted(Decimal(WholePart(s), CentsPart(s))) else OutOfRange
  {}

  lemma FieldAccepts(text: string, allowEmpty: bool, cents: nat)
    requires MoneyShape(TrimSpace(text)) && cents == Denoted(TrimSpace(text))
    ensures var s := TrimSpace(text);
      && (|TrimZeros(WholePart(s))| <= 8 <==> cents <= MAX_CENTS)
      && MoneyField(text, allowEmpty) ==
           if cents <= MAX_CENTS then Accepted(Decimal(WholePart(s), CentsPart(s))) else OutOfRange
  {
    var s := TrimSpace(text);
    ShapedField(text, allowEmpty);
    PaddedDenotes(s);
    EightDigits(WholePart(s), CentsPart(s));
  }

  lemma NormalParses(s: string, cents: nat)
    requires MoneyShape(s) && cents == Denoted(s) && cents <= MAX_CENTS
    ensures Parsed(Decimal(WholePart(s), CentsPart(s))) == Some(cents)
  {
    PaddedDenotes(s);
    var w, f := Value(WholePart(s)), Value(CentsPart(s));
    NormalFits(WholePart(s), CentsPart(s), w, f, cents);
  }

  lemma NormalFits(whole: string, frac: string, w: nat, f: nat, v: nat)
    requires |whole| > 0 && AllDigits(whole) && |frac| == 2 && AllDigits(frac)
    requires w == Value(whole) && f == Value(frac) && w * 100 + f == v <= MAX_INT64
    ensures Parsed(Decimal(whole, frac)) == Some(v)
  {
    EndsInDigits(whole, frac);
    DigitsRead(whole, frac, w, f, v);
    PlusParses(Decimal(whole, frac), v);
  }

  /** A field of the right shape is accepted exactly when the amount fits the
      column, and then it parses to the amount it denotes. */
  lemma MoneyFieldExact(text: string, allowEmpty: bool, cents: nat)
    requires MoneyShape(TrimSpace(text)) && cents == Denoted(TrimSpace(text))
    ensures MoneyField(text, allowEmpty).Accepted? <==> cents <= MAX_CENTS
    ensures MoneyField(text, allowEmpty).Accepted? ==> Parsed(MoneyField(text, allowEmpty).text) == Some(cents)
  {
    FieldAccepts(text, allowEmpty, cents);
    if cents <= MAX_CENTS {
      NormalParses(TrimSpace(text), cents);
    }
  }

  /** What an accepted field stores: digits that are worth what the column can hold. */
  lemma AcceptedShape(text: string, allowEmpty: bool) returns (whole: string, frac: string)
    requires MoneyField(text, allowEmpty).Accepted?
    ensures |whole| > 0 && AllDigits(whole) && |frac| == 2 && AllDigits(frac) && |TrimZeros(whole)| <= 8
    ensures MoneyField(text, allowEmpty).text == Decimal(whole, frac)
  {
    var s := TrimSpace(text);
    if s == "" {
      whole, frac := "0", "00";
    } else {
      whole, frac := WholePart(s), CentsPart(s);
    }
  }

  /** Whatever the field accepts, empty included, the parser accepts, inside the
      column; and submitting the stored text again changes nothing. */
  lemma MoneyFieldStable(text: string, allowEmpty: bool, again: bool)
    requires MoneyField(text, allowEmpty).Accepted?
    ensures var m := MoneyField(text, allowEmpty).text;
      && Parsed(m).Some? && 0 <= Parsed(m).value <= MAX_CENTS
      && MoneyField(m, again) == Accepted(m)
  {
    var whole, frac := AcceptedShape(text, allowEmpty);
    var w, f := Value(whole), Value(frac);
    EightDigits(whole, frac);
    NormalFits(whole, frac, w, f, w * 100 + f);
    NormalAccepted(whole, frac, again);
  }

  lemma NormalShape(whole: string, frac: string)
    requires |whole| > 0 && AllDigits(whole) && |frac| == 2 && AllDigits(frac)
    ensures var m := Decimal(whole, frac);
      MoneyShape(m) && WholePart(m) == whole && CentsPart(m) == frac && TrimSpace(m) == m
  {
    var m := Decimal(whole, frac);
    assert m[0] == whole[0] && IsDigit(whole[0]);
    assert m[|m| - 1] == frac[1] && IsDigit(frac[1]);
    TrimSpaceNothing(m);
    assert m == whole + ['.'] + frac;
    CutAt(whole, '.', frac);
  }

  /** A text already in normal form is stored as it is. */
  lemma NormalAccepted(whole: string, frac: string, again: bool)
    requires |whole| > 0 && AllDigits(whole) && |frac| == 2 && AllDigits(frac) && |TrimZeros(whole)| <= 8
    ensures var m := Decimal(whole, frac); MoneyField(m, again) == Accepted(m)
  {
    NormalShape(whole, frac);
  }

  /** Every plain decimal with up to two fraction digits parses to the cents it denotes. */
  lemma ShapeParses(s: string)
    requires MoneyShape(s) && Denoted(s) <= MAX_INT64
    ensures Parsed(s) == Some(Denoted(s))
  {
    var dot := IndexOf(s, '.');
    var w, f := Value(WholePart(s)), Value(CentsPart(s));
    PaddedDenotes(s);
    ShapeEnds(s);
    ParseDigits(WholePart(s));
    ParseDigits(CentsPart(s));
    JoinFits(w, f);
    ShapeCuts(s);
    PlusParses(s, Denoted(s));
  }

  lemma ShapeEnds(s: string)
    requires MoneyShape(s)
    ensures |s| > 0 && IsDigit(s[0]) && IsDigit(s[|s| - 1])
  {
    var dot := IndexOf(s, '.');
    assert s[0] == s[..dot][0];
    if dot < |s| {
      assert s[|s| - 1] == s[dot + 1..][|s| - dot - 2];
    } else {
      assert s[..dot] == s;
    }
  }

  lemma ShapeCuts(s: string)
    requires MoneyShape(s)
    ensures Unsigned(s) == Join(ParseInt(WholePart(s)), ParseInt(CentsPart(s)))
  {
    var dot := IndexOf(s, '.');
    if dot < |s| && |s[dot + 1..]| == 2 {
      assert s[dot + 1..][..2] == s[dot + 1..];
    }
  }
}
