/** The rotating claim PIN and the persistent device serial. Times are nanoseconds; the
    clock readings and the four random bytes of a mint are parameters. */
module Pin {
  import opened Prelude
  import opened Text
  import opened Mac

  const PIN_VALIDITY := 300_000_000_000 // five minutes
  const ZERO_TIME := -62_135_596_800 * 1_000_000_000
  const PIN_MODULUS := 1_000_000

  datatype Draw = Draw(b0: Byte, b1: Byte, b2: Byte, b3: Byte)

  /** The four bytes read as a big-endian word. */
  function Word(d: Draw): (n: nat)
    ensures n < 0x1_0000_0000
  {
    d.b0 * 0x100_0000 + d.b1 * 0x1_0000 + d.b2 * 0x100 + d.b3
  }

  /** Draws and words correspond one to one. */
  lemma WordInjective(d: Draw, d': Draw)
    requires Word(d) == Word(d')
    ensures d == d'
  {
    var h, h' := d.b0 * 0x100 + d.b1, d'.b0 * 0x100 + d'.b1;
    var l, l' := d.b2 * 0x100 + d.b3, d'.b2 * 0x100 + d'.b3;
    assert h == h' && l == l' by {
      assert Word(d) == h * 0x1_0000 + l && Word(d') == h' * 0x1_0000 + l';
      HalvesAgree(h, l, h', l');
    }
    BytesAgree(d.b0, d.b1, d'.b0, d'.b1);
    BytesAgree(d.b2, d.b3, d'.b2, d'.b3);
  }

  lemma HalvesAgree(h: nat, l: nat, h': nat, l': nat)
    requires l < 0x1_0000 && l' < 0x1_0000 && h * 0x1_0000 + l == h' * 0x1_0000 + l'
    ensures h == h' && l == l'
  {
  }

  lemma BytesAgree(a: Byte, b: Byte, a': Byte, b': Byte)
    requires a * 0x100 + b == a' * 0x100 + b'
    ensures a == a' && b == b'
  {
  }

  lemma WordSurjective(n: nat) returns (d: Draw)
    requires n < 0x1_0000_0000
    ensures Word(d) == n
  {
    var h, l := n / 0x1_0000, n % 0x1_0000;
    d := Draw(h / 0x100, h % 0x100, l / 0x100, l % 0x100);
  }

  function MintPin(d: Draw): string {
    Padded(Word(d) % PIN_MODULUS, 6)
  }

  /** A PIN is always six digits and reads as the word modulo one million. */
  lemma PinReads(d: Draw)
    ensures |MintPin(d)| == 6 && AllDigits(MintPin(d))
    ensures Value(MintPin(d)) == (d.b0 * 0x100_0000 + d.b1 * 0x1_0000 + d.b2 * 0x100 + d.b3) % 1_000_000
  {
    assert Pow10(6) == 1_000_000;
    PaddedValue(Word(d) % PIN_MODULUS, 6);
  }

  // ----- How often each PIN is drawn ------------------------------------------------------

  /** Numbers below n that leave remainder r. */
  function Preimages(n: nat, m: nat, r: nat): set<nat>
    requires m > 0
  {
    set k: nat | k < n && k % m == r
  }

  lemma PreimagesNext(n: nat, m: nat, r: nat)
    requires m > 0
    ensures Preimages(n + 1, m, r) == Preimages(n, m, r) + (if n % m == r then {n} else {})
  {
  }

  function Share(n: nat, m: nat, r: nat): nat
    requires m > 0
  {
    n / m + (if r < n % m then 1 else 0)
  }

  lemma ShareNext(n: nat, m: nat, r: nat)
    requires m > 0 && r < m
    ensures Share(n + 1, m, r) == Share(n, m, r) + (if n % m == r then 1 else 0)
  {
    var q, t := n / m, n % m;
    assert n == q * m + t;
    if t + 1 < m {
      DivModIs(n + 1, m, q, t + 1);
    } else {
      assert (q + 1) * m == q * m + m;
      DivModIs(n + 1, m, q + 1, 0);
    }
  }

  lemma DivModIs(n: nat, m: nat, q: nat, t: nat)
    requires m > 0 && t < m && n == q * m + t
    ensures n / m == q && n % m == t
  {
    QuotientIsUnique(m, q, t, n / m, n % m);
  }

  lemma QuotientIsUnique(m: nat, q: nat, t: nat, q': nat, t': nat)
    requires t < m && t' < m && q * m + t == q' * m + t'
    ensures q == q' && t == t'
  {
    Apart(m, q, q');
    Apart(m, q', q);
  }

  lemma Apart(m: nat, a: nat, b: nat)
    ensures a < b ==> b * m >= a * m + m
  {
    if a < b {
      Distribute(a, b - a, m);
      AtLeastOnce(b - a, m);
    }
  }

  lemma Distribute(a: nat, k: nat, m: nat)
    ensures (a + k) * m == a * m + k * m
  {
  }

  lemma AtLeastOnce(k: nat, m: nat)
    requires k > 0
    ensures k * m >= m
  {
  }

  /** For any range and modulus, residue classes differ in size by at most one: the classes
      below n % m have one member more. */
  lemma {:induction false} ResidueClassSize(n: nat, m: nat, r: nat)
    requires m > 0 && r < m
    ensures |Preimages(n, m, r)| == n / m + (if r < n % m then 1 else 0)
  {
    if n == 0 {
      assert Preimages(0, m, r) == {};
      DivModIs(0, m, 0, 0);
    } else {
      ResidueClassSize(n - 1, m, r);
      PreimagesNext(n - 1, m, r);
      ShareNext(n - 1, m, r);
      assert Share(n, m, r) == n / m + (if r < n % m then 1 else 0);
      assert n - 1 !in Preimages(n - 1, m, r);
    }
  }

  /** Of the 2^32 words, 4295 give each PIN below 967296 and 4294 each of the others. */
  lemma PinBias(pin: nat)
    requires pin < 1_000_000
    ensures |Preimages(0x1_0000_0000, 1_000_000, pin)| == if pin < 967_296 then 4295 else 4294
  {
    ResidueClassSize(0x1_0000_0000, 1_000_000, pin);
  }

  // ----- The PIN object ---------------------------------------------------------------------

  /** A clock reading: the monotonic clock, which only time moves, and the wall clock, which
      may also be set. */
  datatype Clock = Clock(mono: int, wall: int)

  /** A time.Time: the zero time has no monotonic reading. */
  datatype Time = Time(mono: Option<int>, wall: int)

  function Now(c: Clock): Time {
    Time(Some(c.mono), c.wall)
  }

  /** time.Add moves both readings. */
  function Later(t: Time, d: int): Time {
    Time(if t.mono.Some? then Some(t.mono.value + d) else None, t.wall + d)
  }

  /** time.Before compares the monotonic readings if both times have one. */
  predicate Before(t: Time, u: Time) {
    if t.mono.Some? && u.mono.Some? then t.mono.value < u.mono.value else t.wall < u.wall
  }

  /** time.UnixMilli is of the wall reading. */
  function UnixMilli(t: Time): int {
    Millis(t.wall)
  }

  function Millis(ns: int): (ms: int)
    ensures ms * 1_000_000 <= ns < (ms + 1) * 1_000_000
  {
    ns / 1_000_000
  }

  datatype Holder = Holder(pin: string, expireAt: Time)

  const FRESH := Holder("", Time(None, ZERO_TIME))

  predicate MustMint(h: Holder, now: Clock) {
    h.pin == "" || !Before(Now(now), h.expireAt)
  }

  function Rotated(now: Clock, d: Draw): Holder {
    Holder(MintPin(d), Later(Now(now), PIN_VALIDITY))
  }

  function AfterCurrent(h: Holder, now: Clock, d: Draw): Holder {
    if MustMint(h, now) then Rotated(now, d) else h
  }

  datatype PinState = PinState(pin: string, expiresAtMs: int)

  class Pin {
    var pin: string
    var expireAt: Time
    const serial: string

    function Held(): Holder
      reads this
    {
      Holder(pin, expireAt)
    }

    constructor (serial: string)
      ensures Held() == FRESH && this.serial == serial
    {
      this.pin, this.expireAt, this.serial := "", Time(None, ZERO_TIME), serial;
    }

    method RotateLocked(now: Clock, d: Draw)
      modifies this
      ensures Held() == Rotated(now, d)
    {
      pin := Padded(Word(d) % PIN_MODULUS, 6);
      expireAt := Later(Now(now), PIN_VALIDITY);
    }

    /** The PIN in force, minted only if there is none or its time is over by the monotonic
        clock; the expiry published is the wall reading. */
    method Current(now: Clock, d: Draw) returns (s: PinState)
      modifies this
      ensures Held() == AfterCurrent(old(Held()), now, d)
      ensures old(pin) != "" && old(expireAt).mono.Some? && now.mono < old(expireAt).mono.value ==>
                Held() == old(Held())
      ensures old(pin) == "" || (old(expireAt).mono.Some? && now.mono >= old(expireAt).mono.value) ==>
                && pin == MintPin(d)
                && expireAt == Time(Some(now.mono + 300_000_000_000), now.wall + 300_000_000_000)
      ensures s.pin == pin
      ensures s.expiresAtMs * 1_000_000 <= expireAt.wall < (s.expiresAtMs + 1) * 1_000_000
    {
      if pin == "" || !Before(Now(now), expireAt) {
        RotateLocked(now, d);
      }
      s := PinState(pin, UnixMilli(expireAt));
    }

    method Rotate(now: Clock, d: Draw) returns (s: PinState)
      modifies this
      ensures Held() == Rotated(now, d)
      ensures pin == MintPin(d)
      ensures expireAt == Time(Some(now.mono + 300_000_000_000), now.wall + 300_000_000_000)
      ensures s.pin == pin
      ensures s.expiresAtMs * 1_000_000 <= expireAt.wall < (s.expiresAtMs + 1) * 1_000_000
    {
      RotateLocked(now, d);
      s := PinState(pin, UnixMilli(expireAt));
    }

    method Invalidate()
      modifies this
      ensures Held() == FRESH && pin == "" && expireAt == Time(None, -62_135_596_800 * 1_000_000_000)
    {
      pin := "";
      expireAt := Time(None, ZERO_TIME);
    }
  }

  // ----- Histories ----------------------------------------------------------------------------

  datatype Call = CallCurrent(now: Clock, d: Draw) | CallRotate(now: Clock, d: Draw) | CallInvalidate(now: Clock)

  function After(h: Holder, c: Call): Holder {
    match c
    case CallCurrent(now, d) => AfterCurrent(h, now, d)
    case CallRotate(now, d) => Rotated(now, d)
    case CallInvalidate(_) => FRESH
  }

  /** The holder after a history, from a fresh one. */
  function HolderAfter(cs: seq<Call>): Holder {
    if cs == [] then FRESH else After(HolderAfter(cs[..|cs| - 1]), cs[|cs| - 1])
  }

  /** The monotonic clock never runs backwards; nothing is said about the wall clock. */
  predicate Ordered(cs: seq<Call>) {
    forall i, j :: 0 <= i <= j < |cs| ==> cs[i].now.mono <= cs[j].now.mono
  }

  /** The monotonic expiry of a PIN in force. */
  function Expiry(h: Holder): int {
    if h.expireAt.mono.Some? then h.expireAt.mono.value else 0
  }

  /** A PIN in force has a monotonic expiry, so the wall clock plays no part in its life. */
  predicate HasExpiry(h: Holder) {
    h.pin != "" ==> h.expireAt.mono.Some?
  }

  lemma {:induction false} HeldHasExpiry(cs: seq<Call>)
    ensures HasExpiry(HolderAfter(cs))
  {
    if cs == [] {
    } else {
      HeldHasExpiry(cs[..|cs| - 1]);
    }
  }

  /** A PIN in force was filled at some call of the history and not later. */
  lemma {:induction false} HeldBounds(cs: seq<Call>, now: int)
    requires Ordered(cs) && forall i :: 0 <= i < |cs| ==> cs[i].now.mono <= now
    ensures HolderAfter(cs).pin != "" ==> Expiry(HolderAfter(cs)) <= now + PIN_VALIDITY
  {
    if cs == [] {
    } else {
      HeldBounds(cs[..|cs| - 1], now);
    }
  }

  /** Whatever came before, and however the wall clock was set, an issued PIN is still valid
      when issued and for at most five minutes. */
  lemma IssuedIsValid(cs: seq<Call>, c: Call)
    requires Ordered(cs + [c]) && !c.CallInvalidate?
    ensures var h := HolderAfter(cs + [c]);
            && |h.pin| == 6 && AllDigits(h.pin) && h.expireAt.mono.Some?
            && c.now.mono < h.expireAt.mono.value <= c.now.mono + 300_000_000_000
  {
    assert (cs + [c])[..|cs|] == cs;
    assert forall i :: 0 <= i < |cs| ==> (cs + [c])[i] == cs[i];
    assert forall i :: 0 <= i < |cs| ==> cs[i].now.mono <= (cs + [c])[|cs|].now.mono;
    HeldBounds(cs, c.now.mono);
    HeldHasExpiry(cs);
    HeldIsPin(cs);
    PinReads(c.d);
  }

  lemma {:induction false} HeldIsPin(cs: seq<Call>)
    ensures HolderAfter(cs).pin == "" || (|HolderAfter(cs).pin| == 6 && AllDigits(HolderAfter(cs).pin))
  {
    if cs == [] {
    } else {
      HeldIsPin(cs[..|cs| - 1]);
      var c := cs[|cs| - 1];
      if !c.CallInvalidate? {
        PinReads(c.d);
      }
    }
  }

  /** Expiries never go back from one issue to a later one, whatever happens between. */
  lemma IssuedExpiriesGrow(cs: seq<Call>, i: nat, j: nat)
    requires Ordered(cs) && i < j < |cs| && !cs[i].CallInvalidate? && !cs[j].CallInvalidate?
    ensures Expiry(HolderAfter(cs[..i + 1])) <= Expiry(HolderAfter(cs[..j + 1]))
  {
    HeldOrMinted(cs, i, j);
    HeldBounds(cs[..i + 1], cs[i].now.mono);
    assert cs[..i + 1][..i] == cs[..i] && cs[..i + 1][i] == cs[i];
    assert cs[..j + 1][..j] == cs[..j] && cs[..j + 1][j] == cs[j];
    MintedIsPin(cs[i].d);
    MintedIsPin(cs[j].d);
    HeldOrMintedNext(cs, i, j);
  }

  lemma MintedIsPin(d: Draw)
    ensures MintPin(d) != ""
  {
    PinReads(d);
  }

  /** Between call i and call j the holder keeps what call i left, or was emptied, or was
      filled at a later time. */
  predicate KeptOrLater(h: Holder, h': Holder, now: int) {
    h' == h || h'.pin == "" || Expiry(h') >= now + PIN_VALIDITY
  }

  lemma {:induction false} HeldOrMinted(cs: seq<Call>, i: nat, j: nat)
    requires Ordered(cs) && i < j <= |cs|
    ensures KeptOrLater(HolderAfter(cs[..i + 1]), HolderAfter(cs[..j]), cs[i].now.mono)
  {
    if j == i + 1 {
    } else {
      HeldOrMinted(cs, i, j - 1);
      assert cs[..j][..j - 1] == cs[..j - 1];
    }
  }

  lemma HeldOrMintedNext(cs: seq<Call>, i: nat, j: nat)
    requires Ordered(cs) && i < j < |cs| && !cs[j].CallInvalidate?
    ensures HolderAfter(cs[..j + 1]) == HolderAfter(cs[..i + 1])
         || Expiry(HolderAfter(cs[..j + 1])) >= cs[i].now.mono + PIN_VALIDITY
  {
    HeldOrMinted(cs, i, j);
    assert cs[..j + 1][..j] == cs[..j];
    PinReads(cs[j].d);
  }

  /** Current keeps answering with the PIN in force until its time is over, as long as
      nothing but Current is called, however the wall clock is set. */
  lemma {:induction false} StableUntilExpiry(cs: seq<Call>, more: seq<Call>)
    requires HolderAfter(cs).pin != ""
    requires forall i :: 0 <= i < |more| ==> more[i].CallCurrent? && more[i].now.mono < Expiry(HolderAfter(cs))
    ensures HolderAfter(cs + more) == HolderAfter(cs)
    decreases |more|
  {
    HeldHasExpiry(cs);
    if more == [] {
      assert cs + more == cs;
    } else {
      var n := |more| - 1;
      assert (cs + more)[..|cs + more| - 1] == cs + more[..n];
      StableUntilExpiry(cs, more[..n]);
    }
  }

  /** An invalidated PIN does not stay away: the next Current mints another one. */
  lemma CurrentAfterInvalidateMints(cs: seq<Call>, t: Clock, now: Clock, d: Draw)
    ensures HolderAfter(cs + [CallInvalidate(t)] + [CallCurrent(now, d)]) == Rotated(now, d)
  {
    var mid := cs + [CallInvalidate(t)];
    assert mid[..|cs|] == cs;
    assert (mid + [CallCurrent(now, d)])[..|mid|] == mid;
  }

  // ----- The published expiry -----------------------------------------------------------------------

  /** The call mints when made on the holder. */
  predicate Mint(h: Holder, c: Call) {
    c.CallRotate? || (c.CallCurrent? && MustMint(h, c.now))
  }

  /** The call that minted the PIN in force. */
  function MintedAt(cs: seq<Call>): (i: nat)
    requires HolderAfter(cs).pin != ""
    ensures i < |cs|
  {
    var n := |cs| - 1;
    if Mint(HolderAfter(cs[..n]), cs[n]) then n else MintedAt(cs[..n])
  }

  /** It did mint, and the PIN in force is its PIN. */
  lemma {:induction false} MintedAtMints(cs: seq<Call>)
    requires HolderAfter(cs).pin != ""
    ensures var i := MintedAt(cs);
            Mint(HolderAfter(cs[..i]), cs[i]) && HolderAfter(cs) == Rotated(cs[i].now, cs[i].d)
  {
    var n := |cs| - 1;
    if Mint(HolderAfter(cs[..n]), cs[n]) {
    } else {
      MintedAtMints(cs[..n]);
      assert cs[..n][..MintedAt(cs[..n])] == cs[..MintedAt(cs[..n])];
    }
  }

  /** What the call publishes. */
  function Published(cs: seq<Call>): int {
    UnixMilli(HolderAfter(cs).expireAt)
  }

  /** The published expiry is the wall time of the mint plus five minutes. So it lies at or
      after the wall time of its publication exactly when the wall clock has advanced by at
      most five minutes since the mint, and at most five minutes after it exactly when the wall
      clock has not gone back, all to the millisecond. */
  lemma PublishedIff(cs: seq<Call>, c: Call)
    requires !c.CallInvalidate?
    ensures HolderAfter(cs + [c]).pin != ""
    ensures var all := cs + [c];
            var minted, now := Millis(all[MintedAt(all)].now.wall), Millis(c.now.wall);
            && Published(all) == minted + 300_000
            && (now <= Published(all) <==> now - minted <= 300_000)
            && (Published(all) <= now + 300_000 <==> minted <= now)
  {
    var all := cs + [c];
    assert all[..|cs|] == cs;
    MintedIsPin(c.d);
    MintedAtMints(all);
    FiveMinutesLater(all[MintedAt(all)].now.wall);
  }

  lemma FiveMinutesLater(ns: int)
    ensures Millis(ns + PIN_VALIDITY) == Millis(ns) + 300_000
  {
  }

  /** As long as the wall clock is not set, it advances with the monotonic one, and the
      published expiry is never before the present. */
  lemma UnsetWallClock(cs: seq<Call>, c: Call)
    requires Ordered(cs + [c]) && !c.CallInvalidate?
    requires forall i :: 0 <= i < |cs| ==> c.now.wall - cs[i].now.wall == c.now.mono - cs[i].now.mono
    ensures Millis(c.now.wall) <= Published(cs + [c]) <= Millis(c.now.wall) + 300_000
  {
    var all := cs + [c];
    IssuedIsValid(cs, c);
    PublishedIff(cs, c);
    MintedAtMints(all);
    var m := all[MintedAt(all)];
    assert m.now.mono <= all[|cs|].now.mono;
    FiveMinutesLater(m.now.wall);
    assert m.now.wall <= c.now.wall < m.now.wall + PIN_VALIDITY;
  }

  const SECOND := 1_000_000_000

  /** A board without a real-time clock: seven seconds after the first Current, within which
      the wall clock was set forward by an hour, Current still answers with the same PIN, and
      publishes an expiry that is fifty-five minutes and seven seconds in the past. */
  lemma WallClockSet(d: Draw, d': Draw, start: Clock)
    ensures var first := [CallCurrent(start, d)];
            var second := CallCurrent(Clock(start.mono + 7 * SECOND, start.wall + 3607 * SECOND), d');
            && Ordered(first + [second]) && HolderAfter(first + [second]) == HolderAfter(first)
            && Published(first + [second]) == Millis(second.now.wall) - 3_307_000
  {
    var first := [CallCurrent(start, d)];
    var second := CallCurrent(Clock(start.mono + 7 * SECOND, start.wall + 3607 * SECOND), d');
    assert first[..0] == [];
    MintedIsPin(d);
    assert HolderAfter(first) == Rotated(start, d);
    assert (first + [second])[..1] == first;
    assert Before(Now(second.now), HolderAfter(first).expireAt);
  }

  // ----- How many PINs a history mints -------------------------------------------------------------

  function Mints(cs: seq<Call>): nat {
    if cs == [] then 0
    else Mints(cs[..|cs| - 1]) + (if Mint(HolderAfter(cs[..|cs| - 1]), cs[|cs| - 1]) then 1 else 0)
  }

  /** Calls that end a PIN before its time. */
  function Resets(cs: seq<Call>): nat {
    if cs == [] then 0
    else Resets(cs[..|cs| - 1]) + (if cs[|cs| - 1].CallCurrent? then 0 else 1)
  }

  /** Mints the passage of time has to account for. */
  function Spare(cs: seq<Call>): int {
    Mints(cs) - Resets(cs)
  }

  /** k validity periods. */
  function Periods(k: int): int {
    300_000_000_000 * k
  }

  predicate WithinBudget(spare: int, h: Holder, start: int, now: int) {
    if h.pin == "" then Periods(spare) <= now - start else Periods(spare) <= Expiry(h) - start
  }

  lemma BudgetStep(spare: int, h: Holder, c: Call, start: int, before: int)
    requires WithinBudget(spare, h, start, before) && before <= c.now.mono && HasExpiry(h)
    requires h.pin != "" ==> Expiry(h) <= c.now.mono + PIN_VALIDITY
    requires !c.CallInvalidate? ==> MintPin(c.d) != ""
    ensures WithinBudget(spare + (if Mint(h, c) then 1 else 0) - (if c.CallCurrent? then 0 else 1),
                         After(h, c), start, c.now.mono)
  {
  }

  lemma {:induction false} MintBudget(cs: seq<Call>, start: int)
    requires Ordered(cs) && cs != [] && cs[0].now.mono == start
    ensures WithinBudget(Spare(cs), HolderAfter(cs), start, cs[|cs| - 1].now.mono)
  {
    var n := |cs| - 1;
    var c := cs[n];
    var before := if n == 0 then start else cs[n - 1].now.mono;
    if n == 0 {
      assert cs[..n] == [];
    } else {
      MintBudget(cs[..n], start);
    }
    HeldBounds(cs[..n], c.now.mono);
    HeldHasExpiry(cs[..n]);
    if !c.CallInvalidate? {
      MintedIsPin(c.d);
    }
    BudgetStep(Spare(cs[..n]), HolderAfter(cs[..n]), c, start, before);
  }

  /** A history spanning T on the monotonic clock mints at most T / 5 min + 1 PINs, plus one
      for each Rotate and each Invalidate in it. */
  lemma MintsAreBounded(cs: seq<Call>)
    requires cs != [] && Ordered(cs)
    ensures var span := cs[|cs| - 1].now.mono - cs[0].now.mono;
            span >= 0 && Mints(cs) <= span / 300_000_000_000 + 1 + Resets(cs)
  {
    var start, now := cs[0].now.mono, cs[|cs| - 1].now.mono;
    MintBudget(cs, start);
    HeldBounds(cs, now);
    WholePeriods(Spare(cs), now - start);
  }

  lemma WholePeriods(spare: int, span: nat)
    requires Periods(spare) <= span + PIN_VALIDITY
    ensures spare <= span / PIN_VALIDITY + 1
  {
  }

  // ----- The device serial ------------------------------------------------------------------------

  const SERIAL_PREFIX := "PIGROW-"
  const SERIAL_LENGTH := 13

  /** The six ASCII white-space characters: tab, line feed, vertical tab, form feed, carriage
      return and space. */
  predicate IsSpace(c: char) {
    c == ' ' || '\t' <= c <= '\r'
  }

  function TrimRight(s: string): string {
    if s != "" && IsSpace(s[|s| - 1]) then TrimRight(s[..|s| - 1]) else s
  }

  function TrimSpace(s: string): string {
    if s != "" && IsSpace(s[0]) then TrimSpace(s[1..]) else TrimRight(s)
  }

  predicate IsSerial(s: string) {
    SERIAL_PREFIX <= s && |s| == SERIAL_LENGTH
  }

  function MintSerial(b0: Byte, b1: Byte, b2: Byte): string {
    SERIAL_PREFIX + Hex2(b0) + Hex2(b1) + Hex2(b2)
  }

  predicate IsUpperHex(c: char) {
    '0' <= c <= '9' || 'A' <= c <= 'F'
  }

  lemma UpperHex2(b: Byte)
    ensures IsUpperHex(Hex2(b)[0]) && IsUpperHex(Hex2(b)[1]) && HexByte(Hex2(b)[0], Hex2(b)[1]) == Some(b)
  {
    HexIsUpper(b / 16);
    HexIsUpper(b % 16);
    Hex2Reads(b);
  }

  /** A serial is PIGROW- and six characters; a minted one spells its three random bytes in
      upper-case hexadecimal digits, and it reads back from the line it is stored in. */
  lemma MintedSerialReadsBack(b0: Byte, b1: Byte, b2: Byte)
    ensures IsSerial(MintSerial(b0, b1, b2))
    ensures var s := MintSerial(b0, b1, b2);
            && |s| == 13 && s[..7] == "PIGROW-"
            && (forall i :: 7 <= i < 13 ==> IsUpperHex(s[i]))
            && HexByte(s[7], s[8]) == Some(b0) && HexByte(s[9], s[10]) == Some(b1) && HexByte(s[11], s[12]) == Some(b2)
    ensures TrimSpace(MintSerial(b0, b1, b2) + "\n") == MintSerial(b0, b1, b2)
  {
    var s := MintSerial(b0, b1, b2);
    UpperHex2(b0);
    UpperHex2(b1);
    UpperHex2(b2);
    MintedLine(b0, b1, b2);
  }

  lemma MintedLine(b0: Byte, b1: Byte, b2: Byte)
    ensures TrimSpace(MintSerial(b0, b1, b2) + "\n") == MintSerial(b0, b1, b2)
  {
    var s := MintSerial(b0, b1, b2);
    UpperHex2(b2);
    assert s[0] == 'P' && s[|s| - 1] == Hex2(b2)[1];
    assert (s + "\n")[..|s|] == s;
    assert TrimRight(s + "\n") == TrimRight(s) == s;
  }

  lemma IsSerialIff(s: string)
    ensures IsSerial(s) <==> |s| == 13 && s[..7] == "PIGROW-"
  {
  }

  predicate AllSpace(s: string) {
    forall i :: 0 <= i < |s| ==> s[i] == ' ' || s[i] == '\t' || s[i] == '\n' || s[i] == '\U{0b}' || s[i] == '\U{0c}' || s[i] == '\r'
  }

  lemma SpaceIff(c: char)
    ensures IsSpace(c) <==> AllSpace([c])
  {
    assert [c][0] == c;
    assert '\t' as int == 9 && '\r' as int == 13;
  }

  predicate Trimmed(s: string) {
    s == "" || (!AllSpace([s[0]]) && !AllSpace([s[|s| - 1]]))
  }

  lemma {:induction false} TrimRightIs(s: string) returns (b: string)
    ensures s == TrimRight(s) + b && AllSpace(b)
    ensures TrimRight(s) == "" || !AllSpace([TrimRight(s)[|TrimRight(s)| - 1]])
  {
    b := "";
    if s != "" {
      SpaceIff(s[|s| - 1]);
      if IsSpace(s[|s| - 1]) {
        b := TrimRightIs(s[..|s| - 1]);
        b := b + [s[|s| - 1]];
      }
    }
  }

  /** What is trimmed is white space on both sides, and all of it. */
  lemma {:induction false} TrimSpaceIs(s: string) returns (a: string, b: string)
    ensures s == a + TrimSpace(s) + b && AllSpace(a) && AllSpace(b) && Trimmed(TrimSpace(s))
  {
    a := "";
    if s != "" {
      SpaceIff(s[0]);
    }
    if s != "" && IsSpace(s[0]) {
      a, b := TrimSpaceIs(s[1..]);
      a := [s[0]] + a;
    } else {
      b := TrimRightIs(s);
      assert TrimRight(s) != "" ==> TrimRight(s)[0] == s[0];
    }
  }

  class SerialFile {
    var content: Option<string>

    constructor (content: Option<string>)
      ensures this.content == content
    {
      this.content := content;
    }

    /** Loads the serial, or mints and stores one. `torn` is what a failed write leaves. A
        usable file is never rewritten, and a serial that was returned is what every later
        load finds. */
    method LoadOrMint(readOk: bool, b0: Byte, b1: Byte, b2: Byte, writeOk: bool, torn: Option<string>)
      returns (serial: Option<string>)
      modifies this
      ensures serial.Some? ==>
                && |serial.value| == 13 && serial.value[..7] == "PIGROW-"
                && content.Some? && TrimSpace(content.value) == serial.value
      ensures readOk && old(content).Some? && IsSerial(TrimSpace(old(content).value)) ==>
                serial == Some(TrimSpace(old(content).value)) && content == old(content)
      ensures !readOk && old(content).Some? ==> serial == None && content == old(content)
      ensures old(content).None? || (readOk && !IsSerial(TrimSpace(old(content).value))) ==>
                if writeOk then serial == Some(MintSerial(b0, b1, b2)) && content == Some(serial.value + "\n")
                else serial == None && content == torn
    {
      if content.Some? {
        if !readOk {
          return None;
        }
        var s := TrimSpace(content.value);
        if IsSerial(s) {
          return Some(s);
        }
      }
      var s := MintSerial(b0, b1, b2);
      MintedSerialReadsBack(b0, b1, b2);
      if !writeOk {
        content := torn;
        return None;
      }
      content := Some(s + "\n");
      return Some(s);
    }
  }
}
