/** time.ParseDuration: an optional sign and then one or more decimal numbers, each with
    a unit. The result counts nanoseconds. */
module GoDuration {
  import opened Prelude
  import opened Text

  const SECOND := 1_000_000_000

  function LeadingDigits(s: string): (d: string)
    ensures d <= s && AllDigits(d)
    ensures |d| < |s| ==> !IsDigit(s[|d|])
  {
    if s != "" && IsDigit(s[0]) then [s[0]] + LeadingDigits(s[1..]) else ""
  }

  /** The unit runs to the next dot or digit. */
  function LeadingUnit(s: string): (u: string)
    ensures u <= s
  {
    if s != "" && s[0] != '.' && !IsDigit(s[0]) then [s[0]] + LeadingUnit(s[1..]) else ""
  }

  function UnitSize(u: string): nat {
    if u == "ns" then 1
    else if u == "us" || u == "\U{C2}\U{B5}s" || u == "\U{CE}\U{BC}s" then 1_000
    else if u == "ms" then 1_000_000
    else if u == "s" then SECOND
    else if u == "m" then 60 * SECOND
    else if u == "h" then 3600 * SECOND
    else 0
  }

  /** whole.fraction units, rounded down to a whole nanosecond. */
  function Amount(whole: string, fraction: string, unit: nat): nat
    requires AllDigits(whole) && AllDigits(fraction)
  {
    Times(Value(whole), unit) + Quotient(Times(Value(fraction), unit), Pow10(|fraction|))
  }

  function Times(m: nat, n: nat): nat {
    m * n
  }

  function Quotient(m: nat, n: nat): nat
    requires n > 0
  {
    m / n
  }

  /** The digits before and behind the dot, the unit, and the text behind it all. Any of
      them may be empty. */
  datatype Component = Component(whole: string, fraction: string, unit: string, rest: string)

  function FirstComponent(s: string): (c: Component)
    ensures AllDigits(c.whole) && AllDigits(c.fraction)
    ensures c.unit != "" ==> |c.rest| < |s|
  {
    var d := LeadingDigits(s);
    AfterWhole(d, s[|d|..])
  }

  function AfterWhole(whole: string, s: string): (c: Component)
    requires AllDigits(whole)
    ensures AllDigits(c.whole) && AllDigits(c.fraction)
    ensures c.unit != "" ==> |c.rest| < |s|
  {
    if s != "" && s[0] == '.' then
      var d := LeadingDigits(s[1..]);
      AfterNumber(whole, d, s[1..][|d|..])
    else
      AfterNumber(whole, "", s)
  }

  function AfterNumber(whole: string, fraction: string, s: string): (c: Component)
    requires AllDigits(whole) && AllDigits(fraction)
    ensures AllDigits(c.whole) && AllDigits(c.fraction)
    ensures c.unit != "" ==> |c.rest| < |s|
  {
    var u := LeadingUnit(s);
    Component(whole, fraction, u, s[|u|..])
  }

  function Components(s: string): Option<nat>
    decreases |s|
  {
    if s == "" then Some(0)
    else
      var c := FirstComponent(s);
      if (c.whole == "" && c.fraction == "") || UnitSize(c.unit) == 0 then None
      else match Components(c.rest)
        case None => None
        case Some(n) => Some(Amount(c.whole, c.fraction, UnitSize(c.unit)) + n)
  }

  function ParseDuration(s: string): Option<int> {
    if s != "" && s[0] == '-' then Unsigned(true, s[1..])
    else if s != "" && s[0] == '+' then Unsigned(false, s[1..])
    else Unsigned(false, s)
  }

  function Unsigned(negative: bool, s: string): Option<int> {
    if s == "0" then Some(0)
    else if s == "" then None
    else match Components(s)
      case None => None
      case Some(d) =>
        var n: int := if negative then 0 - d else d;
        if IsInt(n) then Some(n) else None
  }

  lemma {:induction false} LeadingDigitsOf(d: string, rest: string)
    requires AllDigits(d) && (rest != "" ==> !IsDigit(rest[0]))
    ensures LeadingDigits(d + rest) == d
  {
    if d == "" {
      assert d + rest == rest;
    } else {
      assert (d + rest)[1..] == d[1..] + rest;
      LeadingDigitsOf(d[1..], rest);
    }
  }

  /** The units and how many nanoseconds each has; the micro sign comes in two encodings. */
  predicate IsUnit(u: string, size: nat) {
    || (u == "ns" && size == 1)
    || ((u == "us" || u == "\U{C2}\U{B5}s" || u == "\U{CE}\U{BC}s") && size == 1_000)
    || (u == "ms" && size == 1_000_000)
    || (u == "s" && size == 1_000_000_000)
    || (u == "m" && size == 60_000_000_000)
    || (u == "h" && size == 3_600_000_000_000)
  }

  lemma UnitSizeIff(u: string, size: nat)
    requires size > 0
    ensures UnitSize(u) == size <==> IsUnit(u, size)
  {
  }

  /** A unit holds neither digits nor dots, and ends where either begins. */
  lemma {:induction false} LeadingUnitOf(u: string, rest: string)
    requires (forall i :: 0 <= i < |u| ==> !IsDigit(u[i]) && u[i] != '.')
    requires rest != "" ==> IsDigit(rest[0]) || rest[0] == '.'
    ensures LeadingUnit(u + rest) == u
  {
    if u == "" {
      assert u + rest == rest;
    } else {
      assert (u + rest)[1..] == u[1..] + rest;
      LeadingUnitOf(u[1..], rest);
    }
  }

  lemma AmountOfWhole(d: string, size: nat)
    requires AllDigits(d)
    ensures Amount(d, "", size) == Times(Value(d), size)
  {
    assert Value("") == 0;
  }

  lemma UnitLetters(u: string, size: nat)
    requires IsUnit(u, size)
    ensures u != "" && forall i :: 0 <= i < |u| ==> !IsDigit(u[i]) && u[i] != '.'
  {
  }

  predicate EndsUnit(rest: string) {
    rest != "" ==> IsDigit(rest[0]) || rest[0] == '.'
  }

  lemma UnitSplit(d: string, f: string, u: string, size: nat, rest: string)
    requires AllDigits(d) && AllDigits(f) && IsUnit(u, size) && EndsUnit(rest)
    ensures AfterNumber(d, f, u + rest) == Component(d, f, u, rest)
  {
    UnitLetters(u, size);
    LeadingUnitOf(u, rest);
  }

  lemma StartsUnit(u: string, size: nat, rest: string)
    requires IsUnit(u, size)
    ensures u + rest != "" && !IsDigit((u + rest)[0]) && (u + rest)[0] != '.'
  {
    UnitLetters(u, size);
    assert (u + rest)[0] == u[0];
  }

  /** A whole number with a unit, and what follows it. */
  lemma WholeComponent(d: string, u: string, size: nat, rest: string)
    requires d != "" && AllDigits(d) && IsUnit(u, size) && EndsUnit(rest)
    ensures FirstComponent(d + (u + rest)) == Component(d, "", u, rest)
  {
    UnitSplit(d, "", u, size, rest);
    StartsUnit(u, size, rest);
    LeadingDigitsOf(d, u + rest);
  }

  lemma FractionSplit(d: string, f: string, y: string)
    requires AllDigits(d) && AllDigits(f) && y != "" && !IsDigit(y[0])
    ensures AfterWhole(d, "." + (f + y)) == AfterNumber(d, f, y)
  {
    LeadingDigitsOf(f, y);
    assert ("." + (f + y))[1..] == f + y;
  }

  /** A number with digits before or after the dot. */
  lemma DottedComponent(d: string, f: string, u: string, size: nat, rest: string)
    requires AllDigits(d) && AllDigits(f) && IsUnit(u, size) && EndsUnit(rest)
    ensures FirstComponent(d + ("." + (f + (u + rest)))) == Component(d, f, u, rest)
  {
    UnitSplit(d, f, u, size, rest);
    StartsUnit(u, size, rest);
    FractionSplit(d, f, u + rest);
    LeadingDigitsOf(d, "." + (f + (u + rest)));
  }

  /** The fraction is rounded down: digits d.f of a unit are d + f / 10^|f| of it. */
  lemma AmountRounded(d: string, f: string, size: nat)
    requires AllDigits(d) && AllDigits(f)
    ensures var below := Amount(d, f, size) - Value(d) * size;
            below * Pow10(|f|) <= Value(f) * size < (below + 1) * Pow10(|f|)
  {
    QuotientBounds(Value(f) * size, Pow10(|f|));
  }

  lemma QuotientBounds(m: nat, n: nat)
    requires n > 0
    ensures Quotient(m, n) * n <= m < (Quotient(m, n) + 1) * n
  {
    assert m == n * (m / n) + m % n;
  }

  lemma OneComponent(s: string, c: Component, size: nat)
    requires s != "" && c == FirstComponent(s) && c.rest == "" && IsUnit(c.unit, size)
    requires c.whole != "" || c.fraction != ""
    ensures Components(s) == Some(Amount(c.whole, c.fraction, size))
  {
    UnitSizeIff(c.unit, size);
    assert Components("") == Some(0);
  }

  /** The sum of the components decides, with or without a sign, within 64 bits. */
  lemma ParseSum(s: string, n: nat)
    requires s != "" && s != "0" && Components(s) == Some(n)
    ensures s[0] != '-' && s[0] != '+' ==>
              ParseDuration(s) == if n <= 0x7FFF_FFFF_FFFF_FFFF then Some(n) else None
    ensures ParseDuration("+" + s) == if n <= 0x7FFF_FFFF_FFFF_FFFF then Some(n) else None
    ensures ParseDuration("-" + s) == if n <= 0x8000_0000_0000_0000 then Some(0 - n) else None
  {
    Signed(s);
    UnsignedSum(s, n);
  }

  lemma UnsignedSum(s: string, n: nat)
    requires s != "" && s != "0" && Components(s) == Some(n)
    ensures Unsigned(false, s) == if n <= 0x7FFF_FFFF_FFFF_FFFF then Some(n) else None
    ensures Unsigned(true, s) == if n <= 0x8000_0000_0000_0000 then Some(0 - n) else None
  {
  }

  lemma Signed(s: string)
    ensures ParseDuration("+" + s) == Unsigned(false, s) && ParseDuration("-" + s) == Unsigned(true, s)
  {
    assert ("+" + s)[1..] == s && ("-" + s)[1..] == s;
  }

  /** A whole number with a unit parses to that many of it, up to the 64-bit range. */
  lemma ParseWhole(d: string, u: string, size: nat)
    requires d != "" && AllDigits(d) && IsUnit(u, size)
    ensures ParseDuration(d + u) ==
            if Value(d) * size <= 0x7FFF_FFFF_FFFF_FFFF then Some(Value(d) * size) else None
  {
    var s := d + u;
    WholeSum(d, u, size);
    UnitLetters(u, size);
    assert s[0] == d[0] && s[|d|] == u[0];
    ParseSum(s, Times(Value(d), size));
  }

  lemma WholeSum(d: string, u: string, size: nat)
    requires d != "" && AllDigits(d) && IsUnit(u, size)
    ensures Components(d + u) == Some(Times(Value(d), size))
  {
    assert u + "" == u;
    WholeComponent(d, u, size, "");
    OneComponent(d + u, Component(d, "", u, ""), size);
    AmountOfWhole(d, size);
  }

  /** Whole seconds printed as "%ds" parse back, up to the 64-bit range. */
  lemma ParseSeconds(n: nat)
    ensures ParseDuration(Itoa(n) + "s") ==
            if n * 1_000_000_000 <= 0x7FFF_FFFF_FFFF_FFFF then Some(n * 1_000_000_000) else None
  {
    DecimalValue(n);
    ParseWhole(Decimal(n), "s", 1_000_000_000);
  }

  /** A number without a unit is no duration, except zero. */
  lemma UnitRequired(d: string)
    requires d != "" && AllDigits(d)
    ensures ParseDuration(d) == if d == "0" then Some(0) else None
  {
    LeadingDigitsOf(d, "");
    assert d + "" == d && d[|d|..] == "" && LeadingUnit("") == "";
    assert IsDigit(d[0]);
  }

  /** A unit without a number is none either, with or without a dot. */
  lemma DigitsRequired(u: string, size: nat, rest: string)
    requires IsUnit(u, size) && EndsUnit(rest)
    ensures Components(u + rest) == None && Components("." + (u + rest)) == None
  {
    UnitSplit("", "", u, size, rest);
    StartsUnit(u, size, rest);
    LeadingDigitsOf("", u + rest);
    assert "" + (u + rest) == u + rest;
    DottedComponent("", "", u, size, rest);
    assert "" + ("." + ("" + (u + rest))) == "." + (u + rest);
  }
}
