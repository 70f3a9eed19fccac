/** Decimal quantities in millionths: the parser and printer of the cookbook, and recipe scaling. */
module Quantity {
  import opened Common
  import opened Text

  /** Quantities are kept in millionths, as integers a double holds exactly. */
  const SCALE := 1_000_000

  // --- Characters and digits ----------------------------------------------------------------------

  predicate IsDigit(c: char) {
    '0' <= c <= '9'
  }

  predicate AllDigits(s: string) {
    forall i :: 0 <= i < |s| ==> IsDigit(s[i])
  }

  function DigitValue(c: char): nat
    requires IsDigit(c)
  {
    c as int - '0' as int
  }

  function Digit(d: nat): char
    requires d < 10
  {
    (d + '0' as int) as char
  }

  /** The decimal text of a natural number. */
  function Decimal(n: nat): string {
    if n < 10 then [Digit(n)] else Decimal(n / 10) + [Digit(n % 10)]
  }

  /** The number a text of digits stands for; the empty text is zero. */
  function Number(s: string): nat
    requires AllDigits(s)
  {
    if s == "" then 0 else 10 * Number(s[..|s| - 1]) + DigitValue(s[|s| - 1])
  }

  function Zeros(n: nat): string {
    if n == 0 then "" else Zeros(n - 1) + "0"
  }

  function PadStart(s: string, n: nat): string {
    if |s| < n then Zeros(n - |s|) + s else s
  }

  function PadEnd(s: string, n: nat): string {
    if |s| < n then s + Zeros(n - |s|) else s
  }

  function StripZeros(s: string): string {
    if s != "" && s[|s| - 1] == '0' then StripZeros(s[..|s| - 1]) else s
  }

  function LeadingDigits(s: string): nat {
    if s != "" && IsDigit(s[0]) then 1 + LeadingDigits(s[1..]) else 0
  }

  // --- Reading and printing -----------------------------------------------------------------------

  /** A column or field of unknown type. */
  datatype Raw = Missing | Numeric(value: int) | Fraction | Text(text: string)

  /** sourceQuantity: a safe non-negative integer, as a number or as digits. */
  function SourceQuantity(raw: Raw): (r: Option<nat>)
    ensures r.Some? ==> r.value <= MAX_SAFE
  {
    match raw
    case Numeric(n) => if 0 <= n <= MAX_SAFE then Some(n) else None
    case Text(s) => if s != "" && AllDigits(s) && Number(s) <= MAX_SAFE then Some(Number(s)) else None
    case _ => None
  }

  /** quantityInput. */
  function QuantityInput(raw: Raw): string {
    match SourceQuantity(raw)
    case None => ""
    case Some(q) =>
      var fraction := StripZeros(PadStart(Decimal(q % SCALE), 6));
      Decimal(q / SCALE) + if fraction != "" then "." + fraction else ""
  }

  /** The two groups of the pattern: up to ten digits, then optionally a point and one to six digits. */
  function Match(s: string): Option<(string, string)> {
    var n := LeadingDigits(s);
    LeadingDigitsBound(s);
    if n > 10 then None
    else if n == |s| then Some((s, ""))
    else if s[n] == '.' && 1 <= |s| - n - 1 <= 6 && AllDigits(s[n + 1..]) then Some((s[..n], s[n + 1..]))
    else None
  }

  lemma {:induction false} LeadingDigitsBound(s: string)
    ensures LeadingDigits(s) <= |s| && AllDigits(s[..LeadingDigits(s)])
    ensures LeadingDigits(s) < |s| ==> !IsDigit(s[LeadingDigits(s)])
  {
    if s != "" && IsDigit(s[0]) {
      LeadingDigitsBound(s[1..]);
      forall i | 0 <= i < LeadingDigits(s)
        ensures IsDigit(s[i])
      {
        if i > 0 { assert s[i] == s[1..][..LeadingDigits(s[1..])][i - 1]; }
      }
    }
  }

  lemma MatchIsDigits(s: string)
    ensures Match(s).Some? ==> AllDigits(Match(s).value.0) && AllDigits(Match(s).value.1) && |Match(s).value.1| <= 6
  {
    LeadingDigitsBound(s);
    assert s[..|s|] == s;
  }

  lemma {:induction false} PaddingIsDigits(s: string, n: nat)
    requires AllDigits(s)
    ensures AllDigits(Zeros(n)) && |Zeros(n)| == n && AllDigits(PadEnd(s, n)) && AllDigits(PadStart(s, n))
  {
    ZerosAreDigits(n);
    if |s| < n { ZerosAreDigits(n - |s|); }
  }

  lemma {:induction false} ZerosAreDigits(n: nat)
    ensures AllDigits(Zeros(n)) && |Zeros(n)| == n
  {
    if n > 0 { ZerosAreDigits(n - 1); }
  }

  /** Millionths of a numeral: the fraction is padded to six digits. */
  function Micro(whole: string, fraction: string): nat
    requires AllDigits(whole) && AllDigits(fraction)
  {
    PaddingIsDigits(fraction, 6);
    Number(whole) * SCALE + Number(PadEnd(fraction, 6))
  }

  function ReadTrimmed(s: string): Option<nat> {
    match Match(s)
    case None => None
    case Some((whole, fraction)) =>
      MatchIsDigits(s);
      if (whole == "" && fraction == "") || Micro(whole, fraction) <= 0 || Micro(whole, fraction) > MAX_SAFE then None
      else Some(Micro(whole, fraction))
  }

  /** targetQuantity. */
  function TargetQuantity(text: string): (r: Option<nat>)
    ensures r.Some? ==> 0 < r.value <= MAX_SAFE
  {
    ReadTrimmed(Trim(text))
  }

  // --- The round trip -----------------------------------------------------------------------------

  lemma {:induction false} NumberOfDecimal(n: nat)
    ensures |Decimal(n)| >= 1 && AllDigits(Decimal(n)) && Number(Decimal(n)) == n
  {
    if n < 10 {
      assert Decimal(n)[..0] == "";
    } else {
      NumberOfDecimal(n / 10);
      assert Decimal(n)[..|Decimal(n)| - 1] == Decimal(n / 10);
    }
  }

  function Pow10(k: nat): nat {
    if k == 0 then 1 else 10 * Pow10(k - 1)
  }

  lemma {:induction false} DecimalLength(n: nat, k: nat)
    requires k >= 1 && n < Pow10(k)
    ensures |Decimal(n)| <= k
  {
    if n >= 10 { DecimalLength(n / 10, k - 1); }
  }

  lemma {:induction false} LeadingZeros(s: string, n: nat)
    requires AllDigits(s)
    ensures AllDigits(Zeros(n) + s) && Number(Zeros(n) + s) == Number(s)
  {
    ZerosAreDigits(n);
    if s != "" {
      LeadingZeros(s[..|s| - 1], n);
      assert (Zeros(n) + s)[..n + |s| - 1] == Zeros(n) + s[..|s| - 1];
    } else {
      assert Zeros(n) + s == Zeros(n);
      if n > 0 {
        LeadingZeros("", n - 1);
        assert Zeros(n)[..n - 1] == Zeros(n - 1) == Zeros(n - 1) + "";
      }
    }
  }

  /** Stripped trailing zeros come back as padding. */
  lemma {:induction false} StripThenPad(s: string)
    ensures |StripZeros(s)| <= |s| && StripZeros(s) == s[..|StripZeros(s)|]
    ensures StripZeros(s) + Zeros(|s| - |StripZeros(s)|) == s
    ensures StripZeros(s) != "" ==> StripZeros(s)[|StripZeros(s)| - 1] != '0'
  {
    if s != "" && s[|s| - 1] == '0' {
      var t := s[..|s| - 1];
      StripThenPad(t);
      assert StripZeros(s) + Zeros(|s| - |StripZeros(s)|) == StripZeros(t) + Zeros(|t| - |StripZeros(t)|) + "0"
             == t + "0" == s;
      assert StripZeros(s) == s[..|StripZeros(s)|];
    }
  }

  lemma {:induction false} LeadingDigitsOf(w: string, rest: string)
    requires AllDigits(w) && (rest == "" || !IsDigit(rest[0]))
    ensures LeadingDigits(w + rest) == |w|
  {
    if w == "" {
      assert w + rest == rest;
    } else {
      LeadingDigitsOf(w[1..], rest);
      assert (w + rest)[1..] == w[1..] + rest;
    }
  }

  lemma MatchOf(w: string, f: string)
    requires AllDigits(w) && AllDigits(f) && |w| <= 10 && |f| <= 6
    ensures Match(if f == "" then w else w + "." + f) == Some((w, f))
  {
    var s := if f == "" then w else w + "." + f;
    if f == "" {
      LeadingDigitsOf(w, "");
      assert w + "" == w;
    } else {
      LeadingDigitsOf(w, "." + f);
      assert w + ("." + f) == s;
      assert s[..|w|] == w && s[|w|] == '.' && s[|w| + 1..] == f;
    }
  }

  lemma NotTrimmed(s: string)
    requires s != "" && !IsSpace(s[0]) && !IsSpace(s[|s| - 1])
    ensures Trim(s) == s
  {
  }

  lemma DigitsAreNotSpaces(s: string)
    requires AllDigits(s)
    ensures forall i :: 0 <= i < |s| ==> !IsSpace(s[i])
  {
  }

  lemma PaddedDecimal(m: nat, n: nat)
    requires n >= 1 && m < Pow10(n)
    ensures var p := PadStart(Decimal(m), n); |p| == n && AllDigits(p) && Number(p) == m
  {
    NumberOfDecimal(m);
    DecimalLength(m, n);
    PadStartKeepsNumber(Decimal(m), n);
  }

  lemma PadStartKeepsNumber(t: string, n: nat)
    requires AllDigits(t) && |t| <= n
    ensures var p := PadStart(t, n); |p| == n && AllDigits(p) && Number(p) == Number(t)
  {
    if |t| < n {
      LeadingZeros(t, n - |t|);
      ZerosAreDigits(n - |t|);
    }
  }

  /** Stripping a padded text's zeros and padding it again changes nothing. */
  lemma PadStripped(p: string)
    requires AllDigits(p)
    ensures var f := StripZeros(p); AllDigits(f) && |f| <= |p| && PadEnd(f, |p|) == p
  {
    StripThenPad(p);
    var f := StripZeros(p);
    if |f| == |p| { assert p[..|p|] == p; }
  }

  /** `s` is the numeral with whole part `w` and fraction `f`. */
  predicate Numeral(s: string, w: string, f: string) {
    AllDigits(w) && AllDigits(f) && |w| <= 10 && |f| <= 6 && (w != "" || f != "")
    && s == if f == "" then w else w + "." + f
  }

  lemma NumeralIsTrimmed(s: string, w: string, f: string)
    requires Numeral(s, w, f)
    ensures Trim(s) == s
  {
    DigitsAreNotSpaces(w);
    DigitsAreNotSpaces(f);
    NotTrimmed(s);
  }

  /** What the reader makes of a numeral. */
  lemma ReadNumeral(s: string, w: string, f: string)
    requires Numeral(s, w, f)
    ensures ReadTrimmed(s) == if 0 < Micro(w, f) <= MAX_SAFE then Some(Micro(w, f)) else None
  {
    MatchOf(w, f);
  }

  /** The printed text of a quantity is a numeral of its whole part and its six padded decimals. */
  lemma PrintedNumeral(q: nat) returns (w: string, f: string)
    requires q <= MAX_SAFE
    ensures Numeral(QuantityInput(Numeric(q)), w, f) && Micro(w, f) == q
  {
    var p := PadStart(Decimal(q % SCALE), 6);
    w, f := Decimal(q / SCALE), StripZeros(p);
    NumberOfDecimal(q / SCALE);
    PowersOfTen();
    DecimalLength(q / SCALE, 10);
    PaddedDecimal(q % SCALE, 6);
    PadStripped(p);
    assert w + "" == w && w + ("." + f) == w + "." + f;
  }

  lemma PowersOfTen()
    ensures Pow10(6) == SCALE && Pow10(10) == 10_000_000_000
  {
  }

  /** Every positive quantity survives being printed and read back. */
  lemma RoundTrip(q: nat)
    requires 0 < q <= MAX_SAFE
    ensures TargetQuantity(QuantityInput(Numeric(q))) == Some(q)
  {
    var w, f := PrintedNumeral(q);
    NumeralIsTrimmed(QuantityInput(Numeric(q)), w, f);
    ReadNumeral(QuantityInput(Numeric(q)), w, f);
  }

  // --- What an accepted text means ------------------------------------------------------------------

  /** The fraction 0.d1d2... as a real number. */
  function FractionValue(f: string): real
    requires AllDigits(f)
  {
    if f == "" then 0.0 else (DigitValue(f[0]) as real + FractionValue(f[1..])) / 10.0
  }

  function Value(w: string, f: string): real
    requires AllDigits(w) && AllDigits(f)
  {
    Number(w) as real + FractionValue(f)
  }

  lemma TenTimes(d: nat, p: nat)
    ensures d * (10 * p) == 10 * (d * p)
  {
  }

  lemma {:induction false} NumberFromLeft(c: char, s: string)
    requires IsDigit(c) && AllDigits(s)
    ensures AllDigits([c] + s) && Number([c] + s) == DigitValue(c) * Pow10(|s|) + Number(s)
  {
    if s == "" {
      assert [c] + s == [c] && [c][..0] == "";
    } else {
      var t := s[..|s| - 1];
      NumberFromLeft(c, t);
      assert ([c] + s)[..|s|] == [c] + t;
      assert Number([c] + s) == 10 * Number([c] + t) + DigitValue(s[|s| - 1]);
      TenTimes(DigitValue(c), Pow10(|t|));
    }
  }

  /** `num` over `big` is `v`. */
  predicate IsRatio(v: real, big: nat, num: nat) {
    v * big as real == num as real
  }

  lemma {:induction false} FractionScaled(f: string)
    requires AllDigits(f)
    ensures IsRatio(FractionValue(f), Pow10(|f|), Number(f))
  {
    if f == "" {
    } else {
      FractionScaled(f[1..]);
      FractionUnfolds(f);
      ScaleTenth(FractionValue(f), Pow10(|f|), Number(f), DigitValue(f[0]), FractionValue(f[1..]), Pow10(|f| - 1),
                 Number(f[1..]));
    }
  }

  lemma FractionUnfolds(f: string)
    requires AllDigits(f) && f != ""
    ensures Number(f) == DigitValue(f[0]) * Pow10(|f| - 1) + Number(f[1..]) && Pow10(|f|) == 10 * Pow10(|f| - 1)
    ensures FractionValue(f) == (DigitValue(f[0]) as real + FractionValue(f[1..])) / 10.0
  {
    NumberFromLeft(f[0], f[1..]);
    assert f == [f[0]] + f[1..];
  }

  lemma ScaleTenth(v: real, big: nat, num: nat, d: nat, r: real, p: nat, n: nat)
    requires v == (d as real + r) / 10.0 && big == 10 * p && num == d * p + n && IsRatio(r, p, n)
    ensures IsRatio(v, big, num)
  {
    assert v * 10.0 == d as real + r;
    assert v * big as real == v * (10.0 * p as real) == (v * 10.0) * p as real == (d as real + r) * p as real;
    assert (d as real + r) * p as real == d as real * p as real + r * p as real;
  }

  lemma {:induction false} TrailingZeros(f: string, n: nat)
    requires AllDigits(f)
    ensures AllDigits(f + Zeros(n)) && FractionValue(f + Zeros(n)) == FractionValue(f)
  {
    ZerosAreDigits(n);
    if f != "" {
      TrailingZeros(f[1..], n);
      assert (f + Zeros(n))[1..] == f[1..] + Zeros(n);
    } else {
      ZerosAreNothing(n);
      assert f + Zeros(n) == Zeros(n);
    }
  }

  lemma {:induction false} ZerosAreNothing(n: nat)
    ensures AllDigits(Zeros(n)) && FractionValue(Zeros(n)) == 0.0
  {
    ZerosAreDigits(n);
    if n > 0 {
      ZerosAreNothing(n - 1);
      AllZeros(n);
      AllZeros(n - 1);
      assert Zeros(n)[1..] == Zeros(n - 1);
    }
  }

  lemma {:induction false} AllZeros(n: nat)
    ensures |Zeros(n)| == n && forall i :: 0 <= i < n ==> Zeros(n)[i] == '0'
  {
    if n > 0 { AllZeros(n - 1); }
  }

  lemma MicroIsScaledValue(w: string, f: string)
    requires AllDigits(w) && AllDigits(f) && |f| <= 6
    ensures Micro(w, f) as real == Value(w, f) * SCALE as real
  {
    PaddingIsDigits(f, 6);
    ZerosAreDigits(6 - |f|);
    TrailingZeros(f, 6 - |f|);
    assert f + Zeros(0) == f;
    assert PadEnd(f, 6) == f + Zeros(6 - |f|);
    FractionScaled(PadEnd(f, 6));
    assert Pow10(6) == SCALE;
    assert Value(w, f) * SCALE as real == Number(w) as real * SCALE as real + FractionValue(f) * SCALE as real;
  }

  lemma MatchIsNumeral(s: string)
    requires Match(s).Some? && (Match(s).value.0 != "" || Match(s).value.1 != "")
    ensures Numeral(s, Match(s).value.0, Match(s).value.1)
  {
    LeadingDigitsBound(s);
    var n := LeadingDigits(s);
    assert s[..|s|] == s;
    if n < |s| { assert s == s[..n] + "." + s[n + 1..]; }
  }

  /** A text is read as `q` exactly if, trimmed, it is a decimal numeral within the supported digits
      whose value is `q` millionths, positive and safe. */
  lemma TargetMeaning(text: string, q: nat)
    ensures TargetQuantity(text) == Some(q)
            <==> (&& 0 < q <= MAX_SAFE
                  && exists w, f :: Numeral(Trim(text), w, f) && Value(w, f) * SCALE as real == q as real)
  {
    if TargetQuantity(text) == Some(q) { AcceptedIsNumeral(Trim(text), q); }
    if w, f :| 0 < q <= MAX_SAFE && Numeral(Trim(text), w, f) && Value(w, f) * SCALE as real == q as real {
      NumeralIsAccepted(Trim(text), w, f, q);
    }
  }

  lemma NumeralIsAccepted(s: string, w: string, f: string, q: nat)
    requires 0 < q <= MAX_SAFE && Numeral(s, w, f) && Value(w, f) * SCALE as real == q as real
    ensures ReadTrimmed(s) == Some(q)
  {
    MicroIsScaledValue(w, f);
    ReadNumeral(s, w, f);
  }

  lemma AcceptedIsNumeral(s: string, q: nat)
    requires ReadTrimmed(s) == Some(q)
    ensures 0 < q <= MAX_SAFE && exists w, f :: Numeral(s, w, f) && Value(w, f) * SCALE as real == q as real
  {
    var (w, f) := Match(s).value;
    MatchIsNumeral(s);
    MicroIsScaledValue(w, f);
  }

  /** An accepted text reprints to a text with the same value. */
  lemma ReprintKeepsValue(text: string)
    requires TargetQuantity(text).Some?
    ensures TargetQuantity(QuantityInput(Numeric(TargetQuantity(text).value))) == TargetQuantity(text)
  {
    RoundTrip(TargetQuantity(text).value);
  }

  // --- Scaling a recipe ---------------------------------------------------------------------------

  datatype Ingredient = Ingredient(quantity: Raw, unit: Option<string>)

  datatype Recipe = Recipe(portions: Raw, unit: Option<string>, ingredients: seq<Ingredient>)

  datatype Request = ToYield(target: string) | ToIngredient(index: int, target: string)

  datatype Error = NoBase | BadTarget | OutOfRange | BelowPrecision

  datatype Scaling = Scaling(quantities: seq<Option<nat>>, portions: Option<nat>, error: Option<Error>)

  /** multiplyDivide for a non-negative value and positive factors: rounded half up. */
  function MultiplyDivide(value: nat, numerator: nat, denominator: nat): Result<nat, Error>
    requires denominator > 0
  {
    var rounded := (value * numerator + denominator / 2) / denominator;
    if rounded > MAX_SAFE then Err(OutOfRange) else Ok(rounded)
  }

  function ScaleOne(raw: Raw, target: nat, base: nat): Result<Option<nat>, Error>
    requires base > 0
  {
    match SourceQuantity(raw)
    case None => Ok(None)
    case Some(q) =>
      match MultiplyDivide(q, target, base)
      case Err(e) => Err(e)
      case Ok(r) => if q > 0 && r == 0 then Err(BelowPrecision) else Ok(Some(r))
  }

  /** The map over the ingredients, which the first error ends. */
  function ScaleAll(ingredients: seq<Ingredient>, target: nat, base: nat): Result<seq<Option<nat>>, Error>
    requires base > 0
  {
    if ingredients == [] then Ok([])
    else match ScaleAll(ingredients[..|ingredients| - 1], target, base)
      case Err(e) => Err(e)
      case Ok(quantities) =>
        match ScaleOne(ingredients[|ingredients| - 1].quantity, target, base)
        case Err(e) => Err(e)
        case Ok(q) => Ok(quantities + [q])
  }

  /** The amount that is scaled to the target, when it is known, positive and has a unit. */
  function Base(recipe: Recipe, request: Request): Option<nat> {
    var (raw, unit) := match request
      case ToYield(_) => (recipe.portions, recipe.unit)
      case ToIngredient(i, _) =>
        if 0 <= i < |recipe.ingredients| then (recipe.ingredients[i].quantity, recipe.ingredients[i].unit)
        else (Missing, None);
    match SourceQuantity(raw)
    case None => None
    case Some(q) => if q == 0 || unit.None? || Trim(unit.value) == "" then None else Some(q)
  }

  function Unavailable(recipe: Recipe, e: Error): Scaling {
    Scaling(seq(|recipe.ingredients|, _ => None), None, Some(e))
  }

  /** scaleCookbook. */
  function ScaleCookbook(recipe: Recipe, request: Request): Scaling {
    match Base(recipe, request)
    case None => Unavailable(recipe, NoBase)
    case Some(base) =>
      match TargetQuantity(request.target)
      case None => Unavailable(recipe, BadTarget)
      case Some(target) =>
        match ScaleAll(recipe.ingredients, target, base)
        case Err(e) => Unavailable(recipe, e)
        case Ok(quantities) =>
          match ScaleOne(recipe.portions, target, base)
          case Err(e) => Unavailable(recipe, e)
          case Ok(portions) => Scaling(quantities, portions, None)
  }

  lemma Product(a: int, b: int, c: nat)
    requires a <= b
    ensures a * c <= b * c
  {
  }

  /** `r` is the integer nearest to product / base, a half rounding up. */
  predicate Nearest(product: int, r: int, base: int) {
    -base <= 2 * (product - r * base) < base
  }

  lemma RoundedToNearest(product: nat, base: nat, r: nat)
    requires base > 0
    ensures (product + base / 2) / base == r <==> Nearest(product, r, base)
  {
    FloorIs(product + base / 2, base, r);
    NearestIsFloor(product, r * base, r, base);
  }

  lemma FloorIs(s: nat, base: nat, r: nat)
    requires base > 0
    ensures s / base == r <==> r * base <= s < r * base + base
  {
    var q := s / base;
    assert q * base <= s < q * base + base;
    if q < r { Product(q + 1, r, base); }
    if q > r { Product(r + 1, q, base); }
  }

  lemma NearestIsFloor(product: int, multiple: int, r: int, base: int)
    requires multiple == r * base && base > 0
    ensures Nearest(product, r, base) <==> multiple <= product + base / 2 < multiple + base
  {
  }

  /** Exactly when a known quantity can be scaled: not so small that it rounds away, not too large. */
  predicate Scalable(raw: Raw, target: nat, base: nat) {
    match SourceQuantity(raw)
    case None => true
    case Some(q) => (q > 0 ==> base <= 2 * (q * target)) && 2 * (q * target) < (2 * MAX_SAFE + 1) * base
  }

  /** `out` is the nearest quantity in the ratio target : base, or unknown as `raw` is. */
  predicate InRatio(raw: Raw, out: Option<nat>, target: nat, base: nat) {
    match SourceQuantity(raw)
    case None => out.None?
    case Some(q) =>
      out.Some? && out.value <= MAX_SAFE && Nearest(q * target, out.value, base) && (q > 0 ==> out.value > 0)
  }

  lemma ScaleOneMeaning(raw: Raw, target: nat, base: nat)
    requires base > 0
    ensures ScaleOne(raw, target, base).Ok? <==> Scalable(raw, target, base)
    ensures ScaleOne(raw, target, base).Ok? ==> InRatio(raw, ScaleOne(raw, target, base).value, target, base)
  {
    if SourceQuantity(raw).Some? { QuotientFits(SourceQuantity(raw).value * target, base); }
  }

  lemma QuotientFits(product: nat, base: nat)
    requires base > 0
    ensures var r := (product + base / 2) / base;
            Nearest(product, r, base) && (r == 0 <==> 2 * product < base)
            && (r <= MAX_SAFE <==> 2 * product < (2 * MAX_SAFE + 1) * base)
  {
    var r := (product + base / 2) / base;
    RoundedToNearest(product, base, r);
    RoundedToNearest(product, base, 0);
    NearestBounds(product, r, base);
    if r > MAX_SAFE { Product(2 * MAX_SAFE + 1, 2 * r - 1, base); } else { Product(2 * r + 1, 2 * MAX_SAFE + 1, base); }
  }

  lemma NearestBounds(product: int, r: int, base: int)
    requires Nearest(product, r, base)
    ensures (2 * r - 1) * base <= 2 * product < (2 * r + 1) * base
  {
  }

  lemma {:induction false} ScaleAllMeaning(ingredients: seq<Ingredient>, target: nat, base: nat)
    requires base > 0
    ensures var r := ScaleAll(ingredients, target, base);
            && (r.Ok? <==> forall i :: 0 <= i < |ingredients| ==> Scalable(ingredients[i].quantity, target, base))
            && (r.Ok? ==> |r.value| == |ingredients|)
            && (r.Ok? ==> forall i :: 0 <= i < |ingredients| ==>
                 InRatio(ingredients[i].quantity, r.value[i], target, base))
  {
    if ingredients != [] {
      var n := |ingredients| - 1;
      ScaleAllMeaning(ingredients[..n], target, base);
      ScaleOneMeaning(ingredients[n].quantity, target, base);
      if forall i :: 0 <= i < |ingredients| ==> Scalable(ingredients[i].quantity, target, base) {
        forall i | 0 <= i < n
          ensures Scalable(ingredients[..n][i].quantity, target, base)
        {
          assert ingredients[..n][i] == ingredients[i];
        }
      }
    }
  }

  /** Scaling is all or nothing: it succeeds exactly if the base and the target are known and every
      known quantity can be scaled, and then each one is the nearest in the ratio; otherwise
      nothing is shown. */
  lemma ScalingIsAllOrNothing(recipe: Recipe, request: Request)
    ensures var s := ScaleCookbook(recipe, request); var b := Base(recipe, request);
            var t := TargetQuantity(request.target);
            && |s.quantities| == |recipe.ingredients|
            && (s.error.None? <==> (b.Some? && t.Some? && Scalable(recipe.portions, t.value, b.value)
                                    && forall i :: 0 <= i < |recipe.ingredients| ==>
                                         Scalable(recipe.ingredients[i].quantity, t.value, b.value)))
            && (s.error.Some? ==> s.portions.None? && forall i :: 0 <= i < |s.quantities| ==> s.quantities[i].None?)
            && (s.error.None? ==> InRatio(recipe.portions, s.portions, t.value, b.value)
                                  && forall i :: 0 <= i < |recipe.ingredients| ==>
                                       InRatio(recipe.ingredients[i].quantity, s.quantities[i], t.value, b.value))
  {
    var b, t := Base(recipe, request), TargetQuantity(request.target);
    if b.Some? && t.Some? {
      ScaleAllMeaning(recipe.ingredients, t.value, b.value);
      ScaleOneMeaning(recipe.portions, t.value, b.value);
    }
  }

  /** Only one quantity is nearest, so an exact quotient is what scaling gives. */
  lemma ExactRatio(q: nat, target: nat, base: nat, r: nat, exact: nat)
    requires base > 0 && q * target == exact * base && Nearest(q * target, r, base)
    ensures r == exact
  {
    if r < exact { Product(r + 1, exact, base); }
    if r > exact { Product(exact + 1, r, base); }
  }

  /** The quantity the request names lands exactly on the target. */
  lemma AnchorLands(recipe: Recipe, request: Request)
    requires ScaleCookbook(recipe, request).error.None?
    ensures var s := ScaleCookbook(recipe, request);
            match request
            case ToYield(text) => s.portions == TargetQuantity(text)
            case ToIngredient(i, text) => 0 <= i < |s.quantities| && s.quantities[i] == TargetQuantity(text)
  {
    ScalingIsAllOrNothing(recipe, request);
    var s, base, target := ScaleCookbook(recipe, request), Base(recipe, request).value,
      TargetQuantity(request.target).value;
    match request
    case ToYield(_) => ExactRatio(base, target, base, s.portions.value, target);
    case ToIngredient(i, _) => ExactRatio(base, target, base, s.quantities[i].value, target);
  }

  lemma OwnAmountFits(raw: Raw, base: nat)
    requires base > 0
    ensures Scalable(raw, base, base)
    ensures forall out :: InRatio(raw, out, base, base) ==> out == SourceQuantity(raw)
  {
    if SourceQuantity(raw).Some? {
      var q := SourceQuantity(raw).value;
      OwnProduct(q, base);
      forall out | InRatio(raw, out, base, base)
        ensures out == SourceQuantity(raw)
      {
        ExactRatio(q, base, base, out.value, q);
      }
    }
  }

  lemma OwnProduct(q: nat, base: nat)
    requires base > 0 && q <= MAX_SAFE
    ensures (q > 0 ==> base <= 2 * (q * base)) && 2 * (q * base) < (2 * MAX_SAFE + 1) * base
  {
    if q > 0 { Product(1, q, base); }
    Product(2 * q, 2 * MAX_SAFE, base);
  }

  /** Scaling a recipe to its own amount, as printed, returns every known quantity unchanged. */
  lemma OwnAmountChangesNothing(recipe: Recipe, request: Request)
    requires Base(recipe, request).Some? && request.target == QuantityInput(Numeric(Base(recipe, request).value))
    ensures var s := ScaleCookbook(recipe, request);
            && s.error.None? && s.portions == SourceQuantity(recipe.portions) && |s.quantities| == |recipe.ingredients|
            && forall i :: 0 <= i < |recipe.ingredients| ==>
                 s.quantities[i] == SourceQuantity(recipe.ingredients[i].quantity)
  {
    var base := Base(recipe, request).value;
    BaseIsPositive(recipe, request);
    RoundTrip(base);
    OwnAmountFits(recipe.portions, base);
    forall i | 0 <= i < |recipe.ingredients|
      ensures Scalable(recipe.ingredients[i].quantity, base, base)
      ensures forall out :: InRatio(recipe.ingredients[i].quantity, out, base, base) ==>
                out == SourceQuantity(recipe.ingredients[i].quantity)
    {
      OwnAmountFits(recipe.ingredients[i].quantity, base);
    }
    ScalingIsAllOrNothing(recipe, request);
  }

  lemma BaseIsPositive(recipe: Recipe, request: Request)
    requires Base(recipe, request).Some?
    ensures 0 < Base(recipe, request).value <= MAX_SAFE
  {
  }
}
