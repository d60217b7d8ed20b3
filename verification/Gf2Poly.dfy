/** Polynomials over GF(2), written as the set of exponents whose coefficient is 1.
    Addition is symmetric difference; GENERATOR is x^8 + x^5 + x^4 + 1, the polynomial
    of the SHT4x checksum. */
module Gf2Poly {

  datatype Poly = Poly(terms: set<nat>)

  const ZERO := Poly({})
  const ONE := Poly({0})
  const GENERATOR := Poly({8, 5, 4, 0})

  ghost function Add(p: Poly, q: Poly): (r: Poly)
    ensures IsSum(p, q, r)
  {
    SumExists(p, q);
    var r: Poly :| IsSum(p, q, r);
    r
  }

  ghost predicate IsSum(p: Poly, q: Poly, r: Poly) {
    forall e: nat {:trigger e in r.terms} :: e in r.terms <==> (e in p.terms) != (e in q.terms)
  }

  lemma SumExists(p: Poly, q: Poly)
    ensures exists r :: IsSum(p, q, r)
  {
    assert IsSum(p, q, Poly((p.terms - q.terms) + (q.terms - p.terms)));
  }

  /** p times x^k. */
  ghost function Shift(p: Poly, k: nat): (r: Poly)
    ensures IsShift(p, k, r)
  {
    ShiftExists(p, k);
    var r: Poly :| IsShift(p, k, r);
    r
  }

  ghost predicate IsShift(p: Poly, k: nat, r: Poly) {
    forall e: nat {:trigger e in r.terms} :: e in r.terms <==> e >= k && e - k in p.terms
  }

  lemma ShiftExists(p: Poly, k: nat)
    ensures exists r :: IsShift(p, k, r)
  {
    var r := Poly(set e | e in p.terms :: e + k);
    forall e: nat ensures e in r.terms <==> e >= k && e - k in p.terms {
      if e >= k && e - k in p.terms {
        var d := e - k;
        assert d + k in r.terms;
      }
    }
    assert IsShift(p, k, r);
  }

  /** q times GENERATOR, one shift for each of its four terms. */
  ghost function TimesGenerator(q: Poly): Poly {
    Add(Add(Shift(q, 8), Shift(q, 5)), Add(Shift(q, 4), q))
  }

  ghost predicate Divisible(p: Poly) {
    exists q: Poly :: p == TimesGenerator(q)
  }

  /** r is a remainder of p modulo GENERATOR: degree below 8, and p - r is a multiple. */
  ghost predicate IsRemainder(p: Poly, r: Poly) {
    (forall e :: e in r.terms ==> e < 8) && Divisible(Add(p, r))
  }

  // ----- Ring laws -------------------------------------------------------------

  lemma AddLaws(p: Poly, q: Poly, r: Poly)
    ensures Add(p, q) == Add(q, p)
    ensures Add(Add(p, q), r) == Add(p, Add(q, r))
    ensures Add(p, p) == ZERO
    ensures Add(p, ZERO) == p
  {
    assert Add(p, q).terms == Add(q, p).terms;
    assert Add(Add(p, q), r).terms == Add(p, Add(q, r)).terms;
    assert Add(p, p).terms == {};
    assert Add(p, ZERO).terms == p.terms;
  }

  lemma AddExchange(a: Poly, b: Poly, c: Poly, d: Poly)
    ensures Add(Add(a, b), Add(c, d)) == Add(Add(a, c), Add(b, d))
  {
    assert Add(Add(a, b), Add(c, d)).terms == Add(Add(a, c), Add(b, d)).terms;
  }

  lemma ShiftLaws(p: Poly, q: Poly, j: nat, k: nat)
    ensures Shift(Add(p, q), k) == Add(Shift(p, k), Shift(q, k))
    ensures Shift(Shift(p, j), k) == Shift(p, j + k)
    ensures Shift(p, 0) == p
    ensures Shift(ZERO, k) == ZERO
  {
    assert Shift(Add(p, q), k).terms == Add(Shift(p, k), Shift(q, k)).terms;
    assert Shift(Shift(p, j), k).terms == Shift(p, j + k).terms;
    assert Shift(p, 0).terms == p.terms;
    assert Shift(ZERO, k).terms == {};
  }

  lemma ShiftInjective(p: Poly, q: Poly, k: nat)
    requires Shift(p, k) == Shift(q, k)
    ensures p == q
  {
    forall e: nat ensures e in p.terms <==> e in q.terms {
      assert e in p.terms <==> e + k in Shift(p, k).terms;
      assert e in q.terms <==> e + k in Shift(q, k).terms;
    }
    assert p.terms == q.terms;
  }

  lemma TimesGeneratorAdd(a: Poly, b: Poly)
    ensures TimesGenerator(Add(a, b)) == Add(TimesGenerator(a), TimesGenerator(b))
  {
    ShiftLaws(a, b, 0, 8);
    ShiftLaws(a, b, 0, 5);
    ShiftLaws(a, b, 0, 4);
    AddExchange(Shift(a, 8), Shift(b, 8), Shift(a, 5), Shift(b, 5));
    AddExchange(Shift(a, 4), Shift(b, 4), a, b);
    AddExchange(Add(Shift(a, 8), Shift(a, 5)), Add(Shift(b, 8), Shift(b, 5)), Add(Shift(a, 4), a), Add(Shift(b, 4), b));
  }

  lemma TimesGeneratorShift(q: Poly, k: nat)
    ensures TimesGenerator(Shift(q, k)) == Shift(TimesGenerator(q), k)
  {
    ShiftLaws(Shift(q, 8), Shift(q, 5), 0, k);
    ShiftLaws(Shift(q, 4), q, 0, k);
    ShiftLaws(Add(Shift(q, 8), Shift(q, 5)), Add(Shift(q, 4), q), 0, k);
    ShiftsCommute(q, 8, k);
    ShiftsCommute(q, 5, k);
    ShiftsCommute(q, 4, k);
  }

  lemma ShiftsCommute(q: Poly, j: nat, k: nat)
    ensures Shift(Shift(q, j), k) == Shift(Shift(q, k), j)
  {
    ShiftLaws(q, q, j, k);
    ShiftLaws(q, q, k, j);
  }

  // ----- The shape of a multiple of the generator -------------------------------

  /** The lowest and highest exponents of a nonzero polynomial. */
  lemma Extremes(s: set<nat>) returns (lo: nat, hi: nat)
    requires s != {}
    ensures lo in s && hi in s
    ensures forall e :: e in s ==> lo <= e <= hi
  {
    var e :| e in s;
    lo, hi := e, e;
    var rest := s - {e};
    if rest != {} {
      var l, h := Extremes(rest);
      lo, hi := if l < e then l else e, if h > e then h else e;
    }
    assert s == rest + {e};
  }

  lemma LowestTerm(q: Poly, lo: nat)
    requires lo in q.terms && forall e :: e in q.terms ==> lo <= e
    ensures lo in TimesGenerator(q).terms
  {
  }

  lemma HighestTerm(q: Poly, hi: nat)
    requires hi in q.terms && forall e :: e in q.terms ==> e <= hi
    ensures hi + 8 in TimesGenerator(q).terms
  {
  }

  /** A nonzero multiple of the generator spans at least nine consecutive exponents. */
  lemma MultipleSpansNine(q: Poly)
    requires q != ZERO
    ensures exists lo, hi ::
              lo in TimesGenerator(q).terms && hi in TimesGenerator(q).terms && hi >= lo + 8
  {
    var lo, hi := Extremes(q.terms);
    LowestTerm(q, lo);
    HighestTerm(q, hi);
  }

  lemma ShiftSize(p: Poly, k: nat)
    ensures |Shift(p, k).terms| == |p.terms|
    decreases |p.terms|
  {
    if p.terms == {} {
      assert Shift(p, k).terms == {};
    } else {
      var e :| e in p.terms;
      var rest := Poly(p.terms - {e});
      ShiftSize(rest, k);
      assert Shift(p, k).terms == Shift(rest, k).terms + {e + k};
    }
  }

  lemma SplitSize(a: set<nat>, b: set<nat>)
    ensures |a| == |a - b| + |a * b|
  {
    assert a == (a - b) + a * b;
  }

  lemma SumParity(m: nat, n: nat, common: nat)
    requires (m + common) % 2 == (n + common) % 2
    ensures (m + n) % 2 == 0
  {
  }

  lemma AddSize(p: Poly, q: Poly)
    ensures |Add(p, q).terms| == |p.terms - q.terms| + |q.terms - p.terms|
  {
    assert Add(p, q).terms == (p.terms - q.terms) + (q.terms - p.terms);
  }

  lemma AddEven(p: Poly, q: Poly)
    requires |p.terms| % 2 == |q.terms| % 2
    ensures |Add(p, q).terms| % 2 == 0
  {
    AddSize(p, q);
    SplitSize(p.terms, q.terms);
    SplitSize(q.terms, p.terms);
    assert p.terms * q.terms == q.terms * p.terms;
    SumParity(|p.terms - q.terms|, |q.terms - p.terms|, |p.terms * q.terms|);
  }

  /** Every multiple of the generator has an even number of terms. */
  lemma MultipleHasEvenWeight(q: Poly)
    ensures |TimesGenerator(q).terms| % 2 == 0
  {
    ShiftSize(q, 8);
    ShiftSize(q, 5);
    ShiftSize(q, 4);
    AddEven(Shift(q, 8), Shift(q, 5));
    AddEven(Shift(q, 4), q);
    AddEven(Add(Shift(q, 8), Shift(q, 5)), Add(Shift(q, 4), q));
  }

  // ----- Divisibility ------------------------------------------------------------

  lemma ZeroIsDivisible()
    ensures Divisible(ZERO)
  {
    ZeroIsMultiple();
  }

  lemma GeneratorIsDivisible()
    ensures Divisible(GENERATOR)
  {
    assert TimesGenerator(ONE).terms == GENERATOR.terms;
    assert GENERATOR == TimesGenerator(ONE);
  }

  lemma DivisibleAdd(p: Poly, q: Poly)
    requires Divisible(p) && Divisible(q)
    ensures Divisible(Add(p, q))
  {
    var a: Poly :| p == TimesGenerator(a);
    var b: Poly :| q == TimesGenerator(b);
    TimesGeneratorAdd(a, b);
  }

  /** Adding a multiple does not change divisibility. */
  lemma DivisibleCancel(p: Poly, q: Poly)
    requires Divisible(p)
    ensures Divisible(Add(p, q)) <==> Divisible(q)
  {
    if Divisible(q) {
      DivisibleAdd(p, q);
    }
    if Divisible(Add(p, q)) {
      DivisibleAdd(p, Add(p, q));
      AddLaws(p, p, q);
      AddLaws(ZERO, q, q);
      AddLaws(q, q, q);
    }
  }

  lemma ShiftDown(q: Poly, k: nat) returns (q0: Poly)
    requires forall e :: e in q.terms ==> e >= k
    ensures q == Shift(q0, k)
  {
    q0 := Poly(set e | e in q.terms && e >= k :: e - k);
    forall e: nat ensures e in q.terms <==> e in Shift(q0, k).terms {
      if e in q.terms {
        assert e - k in q0.terms;
      }
    }
    assert q.terms == Shift(q0, k).terms;
  }

  /** A multiple of the generator has the same lowest exponent as its quotient. */
  lemma MultipleBoundedBelow(q: Poly, k: nat)
    requires forall e :: e in TimesGenerator(q).terms ==> e >= k
    ensures forall e :: e in q.terms ==> e >= k
  {
    if q.terms != {} {
      var lo, hi := Extremes(q.terms);
      LowestTerm(q, lo);
    }
  }

  /** The generator has a constant term, so powers of x never help divisibility. */
  lemma DivisibleShift(p: Poly, k: nat)
    ensures Divisible(Shift(p, k)) <==> Divisible(p)
  {
    if Divisible(p) {
      var q: Poly :| p == TimesGenerator(q);
      TimesGeneratorShift(q, k);
    }
    if Divisible(Shift(p, k)) {
      var q: Poly :| Shift(p, k) == TimesGenerator(q);
      MultipleBoundedBelow(q, k);
      var q0 := ShiftDown(q, k);
      TimesGeneratorShift(q0, k);
      ShiftInjective(p, TimesGenerator(q0), k);
    }
  }

  lemma RemainderIsUnique(p: Poly, r: Poly, r': Poly)
    requires IsRemainder(p, r) && IsRemainder(p, r')
    ensures r == r'
  {
    DivisibleAdd(Add(p, r), Add(p, r'));
    AddExchange(p, r, p, r');
    AddLaws(p, p, p);
    AddLaws(ZERO, Add(r, r'), ZERO);
    AddLaws(Add(r, r'), ZERO, ZERO);
    var q: Poly :| Add(r, r') == TimesGenerator(q);
    if q != ZERO {
      MultipleSpansNine(q);
    }
    ZeroIsMultiple();
    forall e: nat ensures e in r.terms <==> e in r'.terms {
      assert e !in Add(r, r').terms;
    }
    assert r.terms == r'.terms;
  }

  lemma ZeroIsMultiple()
    ensures TimesGenerator(ZERO) == ZERO
  {
    assert TimesGenerator(ZERO).terms == {};
  }

  lemma RemainderAdd(p: Poly, r: Poly, p': Poly, r': Poly)
    requires IsRemainder(p, r) && IsRemainder(p', r')
    ensures IsRemainder(Add(p, p'), Add(r, r'))
  {
    DivisibleAdd(Add(p, r), Add(p', r'));
    AddExchange(p, r, p', r');
  }
}
