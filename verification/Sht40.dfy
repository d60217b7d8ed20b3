/** The checksum of the SHT40 driver: the bit-serial loop, the polynomial remainder it
    computes, and the transmission errors the two frame checks reject. */
module Sht40 {
  import opened Gf2Poly

  const INIT: bv8 := 0xFF

  // ----- The register ---------------------------------------------------------

  /** One pass of the inner loop: multiply the register by x modulo GENERATOR. */
  function Step(crc: bv8): bv8 {
    if crc & 0x80 != 0 then (crc << 1) ^ 0x31 else crc << 1
  }

  function Iter(n: nat, crc: bv8): bv8 {
    if n == 0 then crc else Step(Iter(n - 1, crc))
  }

  /** The register after feeding `data`, starting from `crc`. */
  function Feed(crc: bv8, data: seq<bv8>): bv8 {
    if data == [] then crc
    else Iter(8, Feed(crc, data[..|data| - 1]) ^ data[|data| - 1])
  }

  method Crc8(data: seq<bv8>) returns (crc: bv8)
    ensures crc == Feed(INIT, data)
    ensures IsRemainder(Add(Shift(Poly({0, 1, 2, 3, 4, 5, 6, 7}), 8 * |data|), Shift(MessagePoly(data), 8)), BytePoly(crc))
  {
    crc := INIT;
    for k := 0 to |data|
      invariant crc == Feed(INIT, data[..k])
    {
      var b := data[k];
      ghost var before := crc ^ b;
      crc := crc ^ b;
      for i := 0 to 8
        invariant crc == Iter(i, before)
      {
        if crc & 0x80 != 0 {
          crc := (crc << 1) ^ 0x31;
        } else {
          crc := crc << 1;
        }
      }
      assert data[..k + 1][..k] == data[..k];
    }
    assert data[..|data|] == data;
    FeedIsRemainder(INIT, data);
    InitPoly();
  }

  /** The register starts with all eight bits set. */
  lemma InitPoly()
    ensures BytePoly(INIT) == Poly({0, 1, 2, 3, 4, 5, 6, 7})
  {
    forall i: nat | i < 8 ensures Bit(INIT, i) {
      InitBit(i);
    }
    assert BytePoly(INIT).terms == {0, 1, 2, 3, 4, 5, 6, 7};
  }

  lemma InitBit(i: nat)
    requires i < 8
    ensures Bit(INIT, i)
  {
    assert MASKS[i] != 0;
  }

  /** The data sheet's example: the checksum of BE EF is 92. */
  method ChecksumExample() returns (crc: bv8)
    ensures crc == 0x92
  {
    crc := Crc8([0xBE, 0xEF]);
    ExampleSteps();
  }

  lemma ExampleSteps()
    ensures Feed(INIT, [0xBE, 0xEF]) == 0x92
  {
    IterEight(INIT ^ 0xBE);
    IterEight(EightSteps(INIT ^ 0xBE) ^ 0xEF);
    assert [0xBE, 0xEF][..1] == [0xBE] && [0xBE][..0] == [];
    assert Feed(INIT, [0xBE]) == Iter(8, INIT ^ 0xBE);
    assert EightSteps(EightSteps(INIT ^ 0xBE) ^ 0xEF) == 0x92;
  }

  lemma {:induction false} FeedConcat(crc: bv8, a: seq<bv8>, b: seq<bv8>)
    ensures Feed(crc, a + b) == Feed(Feed(crc, a), b)
    decreases |b|
  {
    if b == [] {
      assert a + b == a;
    } else {
      var n := |b| - 1;
      assert (a + b)[..|a + b| - 1] == a + b[..n];
      FeedConcat(crc, a, b[..n]);
    }
  }

  // ----- Bytes and messages as polynomials ------------------------------------

  const MASKS: seq<bv8> := [0x01, 0x02, 0x04, 0x08, 0x10, 0x20, 0x40, 0x80]

  predicate Bit(b: bv8, i: nat) {
    i < 8 && b & MASKS[i] != 0
  }

  function BytePoly(b: bv8): (p: Poly)
    ensures forall e: nat {:trigger e in p.terms} :: e in p.terms <==> Bit(b, e)
  {
    Poly(set e: nat | e < 8 && Bit(b, e))
  }

  /** The first byte holds the highest exponents. */
  ghost function MessagePoly(data: seq<bv8>): Poly {
    if data == [] then ZERO
    else Add(Shift(MessagePoly(data[..|data| - 1]), 8), BytePoly(data[|data| - 1]))
  }

  /** Exponent 8 * (bytes after byte i) + j is present exactly when bit j of byte i is set. */
  lemma {:induction false} MessagePolyAt(data: seq<bv8>, i: nat, j: nat)
    requires i < |data| && j < 8
    ensures 8 * (|data| - 1 - i) + j in MessagePoly(data).terms <==> Bit(data[i], j)
  {
    if i == |data| - 1 {
    } else {
      MessagePolyAt(data[..|data| - 1], i, j);
    }
  }

  lemma MessagePolyZero(data: seq<bv8>)
    requires MessagePoly(data) == ZERO
    ensures forall i :: 0 <= i < |data| ==> data[i] == 0
  {
    forall i | 0 <= i < |data| ensures data[i] == 0 {
      forall j: nat | j < 8 ensures !Bit(data[i], j) {
        MessagePolyAt(data, i, j);
      }
      ByteZero(data[i]);
    }
  }

  lemma ByteZero(b: bv8)
    requires forall j: nat :: j < 8 ==> !Bit(b, j)
    ensures b == 0
  {
    assert !Bit(b, 0) && !Bit(b, 1) && !Bit(b, 2) && !Bit(b, 3);
    assert !Bit(b, 4) && !Bit(b, 5) && !Bit(b, 6) && !Bit(b, 7);
  }

  lemma BytePolyZero(b: bv8)
    ensures BytePoly(b) == ZERO <==> b == 0
  {
    if BytePoly(b) == ZERO {
      forall j: nat | j < 8 ensures !Bit(b, j) {
        assert j !in BytePoly(b).terms;
      }
      ByteZero(b);
    }
    if b == 0 {
      assert BytePoly(b).terms == {};
    }
  }

  lemma MaskXor(a: bv8, b: bv8, m: bv8)
    requires m & (m - 1) == 0
    ensures ((a ^ b) & m != 0) == ((a & m != 0) != (b & m != 0))
  {
  }

  lemma BitXor(a: bv8, b: bv8, i: nat)
    requires i < 8
    ensures Bit(a ^ b, i) == (Bit(a, i) != Bit(b, i))
  {
    MaskIsPower(i);
    MaskXor(a, b, MASKS[i]);
  }

  lemma MaskIsPower(i: nat)
    requires i < 8
    ensures MASKS[i] & (MASKS[i] - 1) == 0
  {
  }

  lemma BytePolyXor(a: bv8, b: bv8)
    ensures BytePoly(a ^ b) == Add(BytePoly(a), BytePoly(b))
  {
    forall e: nat ensures e in BytePoly(a ^ b).terms <==> e in Add(BytePoly(a), BytePoly(b)).terms {
      if e < 8 {
        BitXor(a, b, e);
      }
    }
    assert BytePoly(a ^ b).terms == Add(BytePoly(a), BytePoly(b)).terms;
  }

  lemma StepBit(r: bv8, i: nat)
    requires i < 8
    ensures Bit(Step(r), i) == ((i > 0 && Bit(r, i - 1)) != (Bit(r, 7) && (i == 0 || i == 4 || i == 5)))
  {
  }

  // ----- The loop computes the remainder --------------------------------------

  lemma StepTerm(r: bv8, e: nat)
    ensures e in Add(Shift(BytePoly(r), 1), BytePoly(Step(r))).terms
       <==> Bit(r, 7) && e in GENERATOR.terms
  {
    if e < 8 {
      StepBit(r, e);
    }
  }

  lemma StepIsTimesX(r: bv8)
    ensures Divisible(Add(Shift(BytePoly(r), 1), BytePoly(Step(r))))
  {
    var p := Add(Shift(BytePoly(r), 1), BytePoly(Step(r)));
    forall e: nat ensures e in p.terms <==> Bit(r, 7) && e in GENERATOR.terms {
      StepTerm(r, e);
    }
    if Bit(r, 7) {
      assert p.terms == GENERATOR.terms;
      GeneratorIsDivisible();
    } else {
      assert p.terms == {};
      ZeroIsDivisible();
    }
  }

  lemma StepRemainder(p: Poly, r: bv8)
    requires IsRemainder(p, BytePoly(r))
    ensures IsRemainder(Shift(p, 1), BytePoly(Step(r)))
  {
    var a, b, c := Shift(p, 1), Shift(BytePoly(r), 1), BytePoly(Step(r));
    StepIsTimesX(r);
    DivisibleShift(Add(p, BytePoly(r)), 1);
    ShiftLaws(p, BytePoly(r), 0, 1);
    DivisibleAdd(Add(a, b), Add(b, c));
    AddLaws(a, b, Add(b, c));
    AddLaws(b, b, c);
    AddLaws(ZERO, c, c);
    AddLaws(c, ZERO, c);
  }

  lemma {:induction false} IterIsTimesPower(p: Poly, r: bv8, n: nat)
    requires IsRemainder(p, BytePoly(r))
    ensures IsRemainder(Shift(p, n), BytePoly(Iter(n, r)))
  {
    if n == 0 {
      ShiftLaws(p, p, 0, 0);
    } else {
      IterIsTimesPower(p, r, n - 1);
      StepRemainder(Shift(p, n - 1), Iter(n - 1, r));
      ShiftLaws(p, p, n - 1, 1);
    }
  }

  lemma OwnRemainder(b: bv8)
    ensures IsRemainder(BytePoly(b), BytePoly(b))
  {
    ZeroIsDivisible();
    AddLaws(BytePoly(b), BytePoly(b), BytePoly(b));
  }

  /** k bits with polynomial m, fed to a register r: x^k r + x^8 m. The initial value is
      added to the first byte of the message. */
  ghost function FedPoly(r: Poly, m: Poly, k: nat): Poly {
    Add(Shift(r, k), Shift(m, 8))
  }

  lemma FedPolyNext(r: Poly, m: Poly, k: nat, b: Poly)
    ensures Shift(Add(FedPoly(r, m, k), b), 8) == FedPoly(r, Add(Shift(m, 8), b), k + 8)
  {
    AddLaws(Shift(r, k), Shift(m, 8), b);
    ShiftLaws(Shift(r, k), Add(Shift(m, 8), b), 0, 8);
    ShiftLaws(r, ZERO, k, 8);
  }

  lemma FedPolyEmpty(r: Poly)
    ensures FedPoly(r, ZERO, 0) == r
  {
    ShiftLaws(r, r, 0, 8);
    AddLaws(r, r, r);
  }

  lemma FeedByte(r: Poly, m: Poly, k: nat, k': nat, crc: bv8, b: bv8)
    requires IsRemainder(FedPoly(r, m, k), BytePoly(crc)) && k' == k + 8
    ensures IsRemainder(FedPoly(r, Add(Shift(m, 8), BytePoly(b)), k'), BytePoly(Iter(8, crc ^ b)))
  {
    OwnRemainder(b);
    RemainderAdd(FedPoly(r, m, k), BytePoly(crc), BytePoly(b), BytePoly(b));
    BytePolyXor(crc, b);
    IterIsTimesPower(Add(FedPoly(r, m, k), BytePoly(b)), crc ^ b, 8);
    FedPolyNext(r, m, k, BytePoly(b));
  }

  lemma {:induction false} FeedIsRemainder(r: bv8, data: seq<bv8>)
    ensures IsRemainder(FedPoly(BytePoly(r), MessagePoly(data), 8 * |data|), BytePoly(Feed(r, data)))
  {
    if data == [] {
      OwnRemainder(r);
      FedPolyEmpty(BytePoly(r));
    } else {
      var n := |data| - 1;
      var init, b := data[..n], data[n];
      FeedIsRemainder(r, init);
      FeedByte(BytePoly(r), MessagePoly(init), 8 * n, 8 * |data|, Feed(r, init), b);
    }
  }

  lemma RemainderZero(p: Poly, r: bv8)
    requires IsRemainder(p, BytePoly(r))
    ensures Divisible(p) <==> r == 0
  {
    BytePolyZero(r);
    AddLaws(p, p, p);
    if Divisible(p) {
      RemainderIsUnique(p, BytePoly(r), ZERO);
    }
  }

  // ----- The check on a received block ----------------------------------------

  /** The comparison Read makes: the last byte is the checksum of those before it. */
  predicate Accepts(w: seq<bv8>)
    requires |w| >= 1
  {
    Feed(INIT, w[..|w| - 1]) == w[|w| - 1]
  }

  lemma {:induction false} IterZero(n: nat, r: bv8)
    ensures Iter(n, r) == 0 <==> r == 0
  {
    if n == 0 {
    } else {
      IterZero(n - 1, r);
      assert Step(0) == 0;
    }
  }

  /** The check holds iff the register is 0 after the checksum byte is fed as well. */
  lemma AcceptsIffResidueZero(w: seq<bv8>)
    requires |w| >= 1
    ensures Accepts(w) <==> Feed(INIT, w) == 0
  {
    var r, c := Feed(INIT, w[..|w| - 1]), w[|w| - 1];
    IterZero(8, r ^ c);
    XorZero(r, c);
  }

  lemma XorZero(a: bv8, b: bv8)
    ensures a ^ b == 0 <==> a == b
  {
  }

  ghost function CodePoly(w: seq<bv8>): Poly
    requires |w| >= 1
  {
    Add(Shift(BytePoly(INIT), 8 * (|w| - 1)), MessagePoly(w))
  }

  lemma CodePolyShifted(m: Poly, k: nat)
    ensures Shift(Add(Shift(BytePoly(INIT), k), m), 8) == FedPoly(BytePoly(INIT), m, k + 8)
  {
    ShiftLaws(Shift(BytePoly(INIT), k), m, 0, 8);
    ShiftLaws(BytePoly(INIT), ZERO, k, 8);
  }

  lemma AcceptsIffDivisible(w: seq<bv8>)
    requires |w| >= 1
    ensures Accepts(w) <==> Divisible(CodePoly(w))
  {
    AcceptsIffResidueZero(w);
    var k := 8 * (|w| - 1);
    FeedIsRemainder(INIT, w);
    CodePolyShifted(MessagePoly(w), k);
    RemainderZero(Shift(CodePoly(w), 8), Feed(INIT, w));
    DivisibleShift(CodePoly(w), 8);
  }

  function XorBytes(a: seq<bv8>, b: seq<bv8>): seq<bv8>
    requires |a| == |b|
  {
    seq(|a|, i requires 0 <= i < |a| => a[i] ^ b[i])
  }

  lemma {:induction false} MessagePolyXor(a: seq<bv8>, b: seq<bv8>)
    requires |a| == |b|
    ensures MessagePoly(XorBytes(a, b)) == Add(MessagePoly(a), MessagePoly(b))
  {
    if a == [] {
    } else {
      var n := |a| - 1;
      MessagePolyXor(a[..n], b[..n]);
      assert XorBytes(a, b)[..n] == XorBytes(a[..n], b[..n]);
      BytePolyXor(a[n], b[n]);
      var p, q := MessagePoly(a[..n]), MessagePoly(b[..n]);
      ShiftLaws(p, q, 0, 8);
      AddExchange(Shift(p, 8), Shift(q, 8), BytePoly(a[n]), BytePoly(b[n]));
    }
  }

  lemma CodePolyXor(w: seq<bv8>, e: seq<bv8>)
    requires |w| == |e| >= 1
    ensures CodePoly(XorBytes(w, e)) == Add(CodePoly(w), MessagePoly(e))
  {
    MessagePolyXor(w, e);
    AddLaws(Shift(BytePoly(INIT), 8 * (|w| - 1)), MessagePoly(w), MessagePoly(e));
  }

  /** An accepted block is still accepted after the error e iff e is a multiple of the
      generator. */
  lemma ErrorUndetectedIff(w: seq<bv8>, e: seq<bv8>)
    requires |w| == |e| >= 1 && Accepts(w)
    ensures Accepts(XorBytes(w, e)) <==> Divisible(MessagePoly(e))
  {
    AcceptsIffDivisible(w);
    AcceptsIffDivisible(XorBytes(w, e));
    CodePolyXor(w, e);
    DivisibleCancel(CodePoly(w), MessagePoly(e));
  }

  /** Every nonzero error confined to eight consecutive bits is rejected. */
  lemma BurstRejected(w: seq<bv8>, e: seq<bv8>, lo: nat)
    requires |w| == |e| >= 1 && Accepts(w)
    requires exists i :: 0 <= i < |e| && e[i] != 0
    requires forall p :: p in MessagePoly(e).terms ==> lo <= p < lo + 8
    ensures !Accepts(XorBytes(w, e))
  {
    ErrorUndetectedIff(w, e);
    if Divisible(MessagePoly(e)) {
      var q: Poly :| MessagePoly(e) == TimesGenerator(q);
      if q == ZERO {
        ZeroIsMultiple();
        MessagePolyZero(e);
      } else {
        MultipleSpansNine(q);
      }
    }
  }

  /** Every error with an odd number of flipped bits is rejected. */
  lemma OddErrorRejected(w: seq<bv8>, e: seq<bv8>)
    requires |w| == |e| >= 1 && Accepts(w)
    requires |MessagePoly(e).terms| % 2 == 1
    ensures !Accepts(XorBytes(w, e))
  {
    ErrorUndetectedIff(w, e);
    if Divisible(MessagePoly(e)) {
      var q: Poly :| MessagePoly(e) == TimesGenerator(q);
      MultipleHasEvenWeight(q);
    }
  }

  lemma BytePolyInjective(a: bv8, b: bv8)
    requires BytePoly(a) == BytePoly(b)
    ensures a == b
  {
    BytePolyXor(a, b);
    AddLaws(BytePoly(a), BytePoly(a), BytePoly(a));
    BytePolyZero(a ^ b);
    XorZero(a, b);
  }

  lemma FedPolyAdd(r: Poly, s: Poly, m: Poly, n: Poly, k: nat)
    ensures FedPoly(Add(r, s), Add(m, n), k) == Add(FedPoly(r, m, k), FedPoly(s, n, k))
  {
    ShiftLaws(r, s, 0, k);
    ShiftLaws(m, n, 0, 8);
    AddExchange(Shift(r, k), Shift(s, k), Shift(m, 8), Shift(n, 8));
  }

  lemma SumOfRemainders(p: Poly, x: bv8, q: Poly, y: bv8, z: bv8)
    requires IsRemainder(p, BytePoly(x)) && IsRemainder(q, BytePoly(y))
    requires IsRemainder(Add(p, q), BytePoly(z))
    ensures z == x ^ y
  {
    RemainderAdd(p, BytePoly(x), q, BytePoly(y));
    BytePolyXor(x, y);
    RemainderIsUnique(Add(p, q), BytePoly(x ^ y), BytePoly(z));
    BytePolyInjective(x ^ y, z);
  }

  ghost predicate FedTo(crc: bv8, data: seq<bv8>, k: nat, out: bv8) {
    IsRemainder(FedPoly(BytePoly(crc), MessagePoly(data), k), BytePoly(out))
  }

  lemma FedToXor(r: bv8, s: bv8, a: seq<bv8>, b: seq<bv8>, k: nat, x: bv8, y: bv8, z: bv8)
    requires |a| == |b|
    requires FedTo(r, a, k, x) && FedTo(s, b, k, y) && FedTo(r ^ s, XorBytes(a, b), k, z)
    ensures z == x ^ y
  {
    BytePolyXor(r, s);
    MessagePolyXor(a, b);
    FedPolyAdd(BytePoly(r), BytePoly(s), MessagePoly(a), MessagePoly(b), k);
    SumOfRemainders(FedPoly(BytePoly(r), MessagePoly(a), k), x, FedPoly(BytePoly(s), MessagePoly(b), k), y, z);
  }

  /** For messages of equal length the checksum is affine over exclusive-or. */
  lemma FeedAffine(r: bv8, s: bv8, a: seq<bv8>, b: seq<bv8>)
    requires |a| == |b|
    ensures Feed(r ^ s, XorBytes(a, b)) == Feed(r, a) ^ Feed(s, b)
  {
    var t, c := r ^ s, XorBytes(a, b);
    FeedIsRemainder(r, a);
    FeedIsRemainder(s, b);
    FeedIsRemainder(t, c);
    FedToXor(r, s, a, b, 8 * |a|, Feed(r, a), Feed(s, b), Feed(t, c));
  }

  // ----- Two flipped bits: the order of x is 127 -------------------------------

  lemma {:induction false} IterAdd(a: nat, b: nat, r: bv8)
    ensures Iter(a + b, r) == Iter(a, Iter(b, r))
  {
    if a == 0 {
    } else {
      IterAdd(a - 1, b, r);
    }
  }

  function EightSteps(r: bv8): bv8 {
    Step(Step(Step(Step(Step(Step(Step(Step(r))))))))
  }

  lemma IterTwo(r: bv8)
    ensures Iter(2, r) == Step(Step(r))
  {
    assert Iter(1, r) == Step(Iter(0, r));
  }

  lemma IterEight(r: bv8)
    ensures Iter(8, r) == EightSteps(r)
  {
    IterTwo(r);
    IterTwo(Iter(2, r));
    IterTwo(Iter(4, r));
    IterTwo(Iter(6, r));
    IterAdd(2, 2, r);
    IterAdd(2, 4, r);
    IterAdd(2, 6, r);
  }

  /** x^0, x^8, x^16, ..., x^120 modulo the generator. */
  const POWERS: seq<bv8> := [0x1, 0x31, 0xf4, 0x46, 0x9b, 0xd3, 0x57, 0xe9, 0x49, 0xb5, 0x4a, 0xe6, 0x67, 0x2c, 0xfb, 0x68]

  lemma PowerTableStep(k: nat)
    requires 0 < k <= 15
    ensures EightSteps(POWERS[k - 1]) == POWERS[k]
  {
  }

  lemma {:induction false} PowerTable(k: nat)
    requires k <= 15
    ensures Iter(8 * k, 1) == POWERS[k]
  {
    if k == 0 {
    } else {
      PowerTable(k - 1);
      IterAdd(8, 8 * k - 8, 1);
      IterEight(POWERS[k - 1]);
      PowerTableStep(k);
    }
  }

  lemma Order127()
    ensures Iter(127, 1) == 1
  {
    PowerTable(15);
    IterAdd(7, 120, 1);
    IterEight(POWERS[15]);
    assert Iter(8, POWERS[15]) == Step(Iter(7, POWERS[15]));
    StepInjective(Iter(7, POWERS[15]), 1);
  }

  lemma StepInjective(a: bv8, b: bv8)
    requires Step(a) == Step(b)
    ensures a == b
  {
  }

  lemma {:induction false} WholePeriods(p: nat, q: nat, r: nat)
    requires Iter(p, 1) == 1
    ensures Iter(r + p * q, 1) == Iter(r, 1)
  {
    if q == 0 {
    } else {
      assert r + p * q == (r + p * (q - 1)) + p;
      IterAdd(r + p * (q - 1), p, 1);
      WholePeriods(p, q - 1, r);
    }
  }

  lemma PeriodReduces(p: nat, d: nat)
    requires p > 0 && Iter(p, 1) == 1
    ensures Iter(d, 1) == Iter(d % p, 1)
  {
    WholePeriods(p, d / p, d % p);
  }

  /** 127 is prime. */
  lemma NoDivisorOf127(r: nat)
    requires 1 < r < 127
    ensures 127 % r != 0
  {
    var q := 127 / r;
    assert q * r + 127 % r == 127;
    if r >= 12 {
      assert 1 <= q <= 10;
    }
  }

  lemma {:induction false} NoShorterPeriod(d: nat)
    requires 0 < d < 127
    ensures Iter(d, 1) != 1
  {
    if d == 1 {
      assert Iter(1, 1) == Step(Iter(0, 1));
    } else if Iter(d, 1) == 1 {
      Order127();
      PeriodReduces(d, 127);
      NoDivisorOf127(d);
      NoShorterPeriod(127 % d);
    }
  }

  lemma TwoTermsDivisible(i: nat, j: nat)
    requires i < j
    ensures Divisible(Poly({i, j})) <==> (j - i) % 127 == 0
  {
    TwoTermsAsShift(i, j - i);
    DivisibleShift(Add(ONE, Shift(ONE, j - i)), i);
    OnePlusPowerDivisible(j - i);
  }

  lemma OnePlusPowerDivisible(d: nat)
    ensures Divisible(Add(ONE, Shift(ONE, d))) <==> d % 127 == 0
  {
    BytePolyOne();
    OwnRemainder(1);
    IterIsTimesPower(ONE, 1, d);
    RemainderAdd(ONE, BytePoly(1), Shift(ONE, d), BytePoly(Iter(d, 1)));
    BytePolyXor(1, Iter(d, 1));
    RemainderZero(Add(ONE, Shift(ONE, d)), 1 ^ Iter(d, 1));
    XorZero(1, Iter(d, 1));
    PowerIsOneIff(d);
  }

  lemma TwoTermsAsShift(i: nat, d: nat)
    requires d > 0
    ensures Shift(Add(ONE, Shift(ONE, d)), i) == Poly({i, i + d})
  {
    assert Shift(Add(ONE, Shift(ONE, d)), i).terms == {i, i + d};
  }

  lemma BytePolyOne()
    ensures BytePoly(1) == ONE
  {
    assert BytePoly(1).terms == {0};
  }

  /** x has order 127 modulo the generator. */
  lemma PowerIsOneIff(d: nat)
    ensures Iter(d, 1) == 1 <==> d % 127 == 0
  {
    Order127();
    PeriodReduces(127, d);
    if d % 127 != 0 {
      NoShorterPeriod(d % 127);
    }
  }

  /** Two flipped bits pass exactly when their distance is a multiple of 127, so never in
      a block of up to 15 bytes and in particular never in a three-byte frame. */
  lemma TwoBitErrorUndetectedIff(w: seq<bv8>, e: seq<bv8>, i: nat, j: nat)
    requires |w| == |e| >= 1 && Accepts(w)
    requires i < j && MessagePoly(e).terms == {i, j}
    ensures Accepts(XorBytes(w, e)) <==> (j - i) % 127 == 0
  {
    ErrorUndetectedIff(w, e);
    TwoTermsDivisible(i, j);
  }

  /** Every error of one, two or three bits within 127 consecutive bits is rejected. */
  lemma ThreeBitsRejected(w: seq<bv8>, e: seq<bv8>, lo: nat)
    requires |w| == |e| >= 1 && Accepts(w)
    requires 1 <= |MessagePoly(e).terms| <= 3
    requires forall p :: p in MessagePoly(e).terms ==> lo <= p < lo + 127
    ensures !Accepts(XorBytes(w, e))
  {
    if |MessagePoly(e).terms| == 2 {
      TwoBitsRejected(w, e, lo);
    } else {
      OneOrThree(|MessagePoly(e).terms|);
      OddErrorRejected(w, e);
    }
  }

  lemma OneOrThree(n: nat)
    requires 1 <= n <= 3 && n != 2
    ensures n % 2 == 1
  {
  }

  lemma TwoBitsRejected(w: seq<bv8>, e: seq<bv8>, lo: nat)
    requires |w| == |e| >= 1 && Accepts(w)
    requires |MessagePoly(e).terms| == 2
    requires forall p :: p in MessagePoly(e).terms ==> lo <= p < lo + 127
    ensures !Accepts(XorBytes(w, e))
  {
    var terms := MessagePoly(e).terms;
    var i, j := TwoElements(terms);
    assert i in terms && j in terms;
    NotMultiple(j - i);
    TwoBitErrorUndetectedIff(w, e, i, j);
  }

  lemma NotMultiple(d: int)
    requires 0 < d < 127
    ensures d % 127 != 0
  {
  }

  lemma TwoElements(s: set<nat>) returns (i: nat, j: nat)
    requires |s| == 2
    ensures i < j && s == {i, j}
  {
    var a :| a in s;
    var rest := s - {a};
    assert |rest| == 1;
    var b :| b in rest;
    assert |rest - {b}| == 0;
    assert s == {a, b};
    i, j := if a < b then a else b, if a < b then b else a;
  }

  /** Four bits are too many: the generator itself, as an error, passes in every block. So
      the smallest number of flipped bits that can pass in up to 127 bits is four. */
  lemma FourBitsPass(w: seq<bv8>) returns (e: seq<bv8>)
    requires |w| >= 2 && Accepts(w)
    ensures |e| == |w| && |MessagePoly(e).terms| == 4
    ensures forall p :: p in MessagePoly(e).terms ==> p < 127
    ensures Accepts(XorBytes(w, e))
  {
    var zeros := Zeros(|w| - 2);
    ZerosPoly(|w| - 2);
    e := zeros + [0x01] + [0x31];
    assert e[..|e| - 1] == zeros + [0x01] && (zeros + [0x01])[..|zeros|] == zeros;
    assert MessagePoly(zeros + [0x01]) == Add(Shift(ZERO, 8), BytePoly(0x01));
    assert MessagePoly(e) == Add(Shift(Add(Shift(ZERO, 8), BytePoly(0x01)), 8), BytePoly(0x31));
    GeneratorBytes();
    assert |GENERATOR.terms| == 4;
    GeneratorIsDivisible();
    ErrorUndetectedIff(w, e);
  }

  function Zeros(n: nat): (z: seq<bv8>)
    ensures |z| == n
  {
    if n == 0 then [] else Zeros(n - 1) + [0]
  }

  lemma {:induction false} ZerosPoly(n: nat)
    ensures MessagePoly(Zeros(n)) == ZERO
  {
    if n == 0 {
    } else {
      ZerosPoly(n - 1);
      assert Zeros(n)[..n - 1] == Zeros(n - 1);
      BytePolyZero(0);
      ShiftLaws(ZERO, ZERO, 0, 8);
      AddLaws(ZERO, ZERO, ZERO);
    }
  }

  lemma GeneratorBytes()
    ensures Add(Shift(Add(Shift(ZERO, 8), BytePoly(0x01)), 8), BytePoly(0x31)) == GENERATOR
  {
    ShiftLaws(ZERO, ZERO, 0, 8);
    BytePolyOne();
    AddLaws(ONE, ZERO, ZERO);
    assert BytePoly(0x31).terms == {5, 4, 0};
    assert Shift(ONE, 8).terms == {8};
    assert Add(Shift(ONE, 8), BytePoly(0x31)).terms == GENERATOR.terms;
  }

  // ----- Reading a frame ---------------------------------------------------------

  datatype ReadResult =
    | RawReadings(temperature: bv16, humidity: bv16)
    | TemperatureCrcMismatch
    | HumidityCrcMismatch

  function Word(hi: bv8, lo: bv8): (w: bv16)
    ensures w & 0xFF == lo as bv16 && w >> 8 == hi as bv16
  {
    ((hi as bv16) << 8) | (lo as bv16)
  }

  /** A three-byte block, with all ones ahead of it, is a multiple of the generator. */
  ghost predicate GoodBlock(block: seq<bv8>)
    requires |block| == 3
  {
    Divisible(Add(Shift(Poly({0, 1, 2, 3, 4, 5, 6, 7}), 16), MessagePoly(block)))
  }

  lemma GoodBlockIff(block: seq<bv8>)
    requires |block| == 3
    ensures GoodBlock(block) <==> Accepts(block)
  {
    InitPoly();
    AcceptsIffDivisible(block);
    assert 8 * (|block| - 1) == 16;
  }

  /** The checks of Read on its six-byte buffer, up to the conversion to degrees and
      percent: two independent three-byte blocks, the temperature block first. */
  method ReadFrame(frame: seq<bv8>) returns (r: ReadResult)
    requires |frame| == 6
    ensures r.TemperatureCrcMismatch? <==> !GoodBlock(frame[..3])
    ensures r.HumidityCrcMismatch? <==> GoodBlock(frame[..3]) && !GoodBlock(frame[3..])
    ensures r.RawReadings? ==>
              && r.temperature >> 8 == frame[0] as bv16 && r.temperature & 0xFF == frame[1] as bv16
              && r.humidity >> 8 == frame[3] as bv16 && r.humidity & 0xFF == frame[4] as bv16
  {
    GoodBlockIff(frame[..3]);
    GoodBlockIff(frame[3..]);
    assert frame[..3][..2] == frame[..2] && frame[3..][..2] == frame[3..5];
    var crc := Crc8(frame[..2]);
    if crc != frame[2] {
      return TemperatureCrcMismatch;
    }
    crc := Crc8(frame[3..5]);
    if crc != frame[5] {
      return HumidityCrcMismatch;
    }
    r := RawReadings(Word(frame[0], frame[1]), Word(frame[3], frame[4]));
  }

  /** No error of one, two or three bits inside one three-byte block goes unnoticed. */
  lemma FrameBlockCatchesThreeBits(w: seq<bv8>, e: seq<bv8>)
    requires |w| == |e| == 3 && GoodBlock(w)
    requires 1 <= |MessagePoly(e).terms| <= 3
    ensures !GoodBlock(XorBytes(w, e))
  {
    GoodBlockIff(XorBytes(w, e));
    GoodBlockIff(w);
    forall p | p in MessagePoly(e).terms ensures p < 127 {
      MessagePolyBound(e, p);
    }
    ThreeBitsRejected(w, e, 0);
  }

  lemma {:induction false} MessagePolyBound(data: seq<bv8>, p: nat)
    requires p in MessagePoly(data).terms
    ensures p < 8 * |data|
  {
    if p < 8 {
    } else {
      MessagePolyBound(data[..|data| - 1], p - 8);
    }
  }
}
