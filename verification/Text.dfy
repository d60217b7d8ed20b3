/** Decimal printing and parsing: fmt's %d and %06d, strconv.Atoi, strings.TrimPrefix,
    and the '|' separator of the matching keys. A char stands for one byte. */
module Text {
  import opened Prelude

  const MAX_INT := 0x7FFF_FFFF_FFFF_FFFF
  const MIN_INT := -0x8000_0000_0000_0000

  predicate IsInt(n: int) {
    MIN_INT <= n <= MAX_INT
  }

  /** Go's int on a 64-bit board. */
  type Int64 = n: int | IsInt(n)

  predicate IsDigit(c: char) {
    '0' <= c <= '9'
  }

  predicate AllDigits(s: string) {
    forall i :: 0 <= i < |s| ==> IsDigit(s[i])
  }

  function Digit(d: nat): (c: char)
    requires d < 10
    ensures IsDigit(c) && DigitValue(c) == d && c == "0123456789"[d]
  {
    '0' + d as char
  }

  function DigitValue(c: char): (d: nat)
    requires IsDigit(c)
    ensures d < 10
  {
    (c - '0') as nat
  }

  function Decimal(n: nat): string {
    if n < 10 then [Digit(n)] else Decimal(n / 10) + [Digit(n % 10)]
  }

  function Itoa(n: int): string {
    if n < 0 then "-" + Decimal(-n) else Decimal(n)
  }

  function Value(s: string): nat
    requires AllDigits(s)
  {
    if s == "" then 0 else 10 * Value(s[..|s| - 1]) + DigitValue(s[|s| - 1])
  }

  /** strconv.Atoi: an optional sign, then at least one digit, within 64 bits. */
  function Atoi(s: string): Option<int> {
    var signed := s != "" && (s[0] == '-' || s[0] == '+');
    var body := if signed then s[1..] else s;
    if body == "" || !AllDigits(body) then None
    else
      var n: int := if s[0] == '-' then 0 - Value(body) else Value(body);
      if IsInt(n) then Some(n) else None
  }

  function TrimPrefix(s: string, prefix: string): string {
    if prefix <= s then s[|prefix|..] else s
  }

  /** What Atoi reads: decimal digits, with or without a sign, in the 64-bit range. */
  lemma AtoiReads(d: string)
    requires d != "" && AllDigits(d)
    ensures Atoi(d) == Atoi("+" + d) == if Value(d) < 0x8000_0000_0000_0000 then Some(Value(d)) else None
    ensures var n: int := Value(d);
            Atoi("-" + d) == if n <= 0x8000_0000_0000_0000 then Some(0 - n) else None
  {
    assert ("+" + d)[1..] == d && ("-" + d)[1..] == d;
    assert IsDigit(d[0]);
  }

  /** Nothing else is a number. */
  lemma AtoiReadsNoMore(s: string)
    requires Atoi(s).Some?
    ensures exists d: string :: d != "" && AllDigits(d) && (s == d || s == "+" + d || s == "-" + d)
  {
    var d := if s[0] == '-' || s[0] == '+' then s[1..] else s;
    assert d != "" && AllDigits(d);
    assert s == d || s == [s[0]] + d;
  }

  lemma TrimPrefixIs(prefix: string, s: string)
    ensures TrimPrefix(prefix + s, prefix) == s
    ensures !(prefix <= s) ==> TrimPrefix(s, prefix) == s
  {
    assert (prefix + s)[|prefix|..] == s;
  }

  // ----- Canonical decimals ---------------------------------------------------------

  /** Digits without a superfluous leading zero. */
  predicate IsCanonical(s: string) {
    s != "" && AllDigits(s) && (s[0] == '0' ==> |s| == 1)
  }

  lemma DigitOf(c: char)
    requires IsDigit(c)
    ensures Digit(DigitValue(c)) == c
  {
  }

  lemma PrintedNext(a: nat, c: char)
    requires a > 0 && IsDigit(c)
    ensures Decimal(10 * a + DigitValue(c)) == Decimal(a) + [c]
  {
    LastDigit(a, DigitValue(c));
    DigitOf(c);
  }

  /** A number has one canonical decimal, and it is the one printed. */
  lemma {:induction false} CanonicalIsPrinted(s: string)
    requires IsCanonical(s)
    ensures Decimal(Value(s)) == s
  {
    var n := |s| - 1;
    DigitOf(s[n]);
    if n == 0 {
      assert s[..n] == "" && s == [s[0]];
    } else {
      CanonicalFront(s);
      CanonicalIsPrinted(s[..n]);
      CanonicalPositive(s[..n]);
      PrintedNext(Value(s[..n]), s[n]);
      assert s == s[..n] + [s[n]];
    }
  }

  lemma CanonicalFront(s: string)
    requires IsCanonical(s) && |s| > 1
    ensures IsCanonical(s[..|s| - 1]) && s[..|s| - 1][0] != '0'
  {
    assert s[..|s| - 1][0] == s[0];
  }

  lemma LastDigit(a: nat, d: nat)
    requires d < 10
    ensures (10 * a + d) / 10 == a && (10 * a + d) % 10 == d
  {
  }

  lemma {:induction false} CanonicalPositive(s: string)
    requires IsCanonical(s) && s[0] != '0'
    ensures Value(s) > 0
  {
    var n := |s| - 1;
    if n == 0 {
      assert s[..n] == "";
    } else {
      CanonicalFront(s);
      CanonicalPositive(s[..n]);
    }
  }

  lemma {:induction false} PrintedIsCanonical(n: nat)
    ensures IsCanonical(Decimal(n)) && (Decimal(n)[0] == '0' ==> n == 0)
  {
    if n < 10 {
    } else {
      PrintedIsCanonical(n / 10);
    }
  }

  /** name spells the number in decimal: a canonical decimal, after a minus sign if it is
      negative. */
  predicate Names(name: string, n: int) {
    if n >= 0 then IsCanonical(name) && Value(name) == n
    else name != "" && name[0] == '-' && IsCanonical(name[1..]) && Value(name[1..]) == -n
  }

  lemma PrintedIff(d: string, n: nat)
    ensures IsCanonical(d) && Value(d) == n <==> d == Decimal(n)
  {
    PrintedIsCanonical(n);
    DecimalValue(n);
    if IsCanonical(d) && Value(d) == n {
      CanonicalIsPrinted(d);
    }
  }

  lemma NamesIff(name: string, n: int)
    ensures Names(name, n) <==> name == Itoa(n)
  {
    if n >= 0 {
      PrintedIff(name, n);
    } else if name != "" && name[0] == '-' {
      PrintedIff(name[1..], -n);
      assert name == "-" + name[1..];
    }
  }

  /** The text is the prefix, the number in decimal, and the suffix. */
  predicate Prints(text: string, prefix: string, n: int, suffix: string) {
    && |prefix| + |suffix| <= |text|
    && text[..|prefix|] == prefix && text[|text| - |suffix|..] == suffix
    && Names(text[|prefix|..|text| - |suffix|], n)
  }

  lemma PrintsIff(text: string, prefix: string, n: int, suffix: string)
    ensures Prints(text, prefix, n, suffix) <==> text == prefix + Itoa(n) + suffix
  {
    if |prefix| + |suffix| <= |text| {
      NamesIff(text[|prefix|..|text| - |suffix|], n);
    }
    if Prints(text, prefix, n, suffix) {
      assert text == text[..|prefix|] + text[|prefix|..|text| - |suffix|] + text[|text| - |suffix|..];
    }
  }

  lemma {:induction false} DecimalValue(n: nat)
    ensures Decimal(n) != "" && AllDigits(Decimal(n)) && Value(Decimal(n)) == n
  {
    if n < 10 {
      assert Decimal(n)[..0] == "";
    } else {
      DecimalValue(n / 10);
      assert Decimal(n)[..|Decimal(n)| - 1] == Decimal(n / 10);
    }
  }

  /** Printing then parsing gives the number back. */
  lemma AtoiItoa(n: int)
    requires IsInt(n)
    ensures Atoi(Itoa(n)) == Some(n)
  {
    var m: nat := if n < 0 then -n else n;
    DecimalValue(m);
    AtoiReads(Decimal(m));
  }

  lemma ItoaInjective(a: int, b: int)
    requires Itoa(a) == Itoa(b)
    ensures a == b
  {
    DecimalValue(if a < 0 then -a else a);
    DecimalValue(if b < 0 then -b else b);
    if a < 0 {
      assert Itoa(a)[0] == '-' && Itoa(a)[1..] == Decimal(-a);
    }
    if b < 0 {
      assert Itoa(b)[0] == '-' && Itoa(b)[1..] == Decimal(-b);
    }
    assert a >= 0 ==> IsDigit(Itoa(a)[0]);
    assert b >= 0 ==> IsDigit(Itoa(b)[0]);
  }

  lemma ItoaHasNoBar(n: int)
    ensures '|' !in Itoa(n)
  {
    DecimalValue(if n < 0 then -n else n);
  }

  /** When neither tail holds a bar, the last bar of the text decides the split. */
  lemma LastBarSplits(a: string, s: string, b: string, t: string)
    requires a + "|" + s == b + "|" + t
    requires '|' !in s && '|' !in t
    ensures a == b && s == t
  {
    var whole := a + "|" + s;
    assert whole[|a|] == '|' && whole[|b|] == '|';
    assert forall i :: |a| < i < |whole| ==> whole[i] == s[i - |a| - 1];
    assert forall i :: |b| < i < |whole| ==> whole[i] == t[i - |b| - 1];
    assert whole[..|a|] == a && whole[..|b|] == b;
    assert whole[|a| + 1..] == s && whole[|b| + 1..] == t;
  }

  // ----- Zero-padded decimals -----------------------------------------------------

  /** fmt's %0wd for a non-negative number that fits in w digits. */
  function Padded(n: nat, w: nat): string {
    if w == 0 then "" else Padded(n / 10, w - 1) + [Digit(n % 10)]
  }

  function Pow10(w: nat): (p: nat)
    ensures p > 0
  {
    if w == 0 then 1 else 10 * Pow10(w - 1)
  }

  lemma {:induction false} PaddedValue(n: nat, w: nat)
    requires n < Pow10(w)
    ensures |Padded(n, w)| == w && AllDigits(Padded(n, w)) && Value(Padded(n, w)) == n
  {
    if w == 0 {
    } else {
      assert n / 10 < Pow10(w - 1);
      PaddedValue(n / 10, w - 1);
      assert Padded(n, w)[..w - 1] == Padded(n / 10, w - 1);
    }
  }
}
