/** Tenant fee schedules: basis points, rounding to 10^-8 and clamping (domain/tenant.go). */
module Fees {
  import opened Money

  datatype FeeSchedule = FeeSchedule(
    onRampBps: int, offRampBps: int, minFee: real, maxFee: real,
    cryptoBps: int, cryptoMaxFee: real,
    bankBps: int, bankMinFee: real, bankMaxFee: real)

  datatype FeeResult = Fee(value: real) | FeeError

  /** The rate and the two clamps that apply to one fee type; zero means "no clamp". */
  datatype Terms = Terms(bps: int, minFee: real, maxFee: real) | UnknownType

  /** FeeSchedule.Validate returns nil. */
  predicate Validate(f: FeeSchedule) {
    && 0 <= f.onRampBps <= 10000
    && 0 <= f.offRampBps <= 10000
    && 0 <= f.cryptoBps <= 10000
    && 0 <= f.bankBps <= 10000
    && !(f.minFee != 0.0 && f.maxFee != 0.0 && f.minFee > f.maxFee)
    && !(f.bankMinFee != 0.0 && f.bankMaxFee != 0.0 && f.bankMinFee > f.bankMaxFee)
  }

  function TermsFor(f: FeeSchedule, feeType: string): Terms {
    if feeType == "onramp" then Terms(f.onRampBps, f.minFee, f.maxFee)
    else if feeType == "offramp" then Terms(f.offRampBps, f.minFee, f.maxFee)
    else if feeType == "crypto_collection" then Terms(f.cryptoBps, f.minFee, f.cryptoMaxFee)
    else if feeType == "bank_collection" then
      Terms(f.bankBps, if f.bankMinFee != 0.0 then f.bankMinFee else f.minFee, f.bankMaxFee)
    else UnknownType
  }

  function Rounded(bpsAmount: real): real {
    Round8(Div(bpsAmount, 10000.0))
  }

  function BpsAmount(bps: int, amount: real): real {
    amount * bps as real
  }

  function Unclamped(bps: int, amount: real): real {
    Rounded(BpsAmount(bps, amount))
  }

  /** The fee before any rounding. */
  function ExactFee(bps: int, amount: real): real {
    amount * bps as real / 10000.0
  }

  function Clamped(fee: real, minFee: real, maxFee: real): real {
    var raised := if minFee != 0.0 && fee < minFee then Round8(minFee) else fee;
    if maxFee != 0.0 && raised > maxFee then Round8(maxFee) else raised
  }

  function CalculateFee(f: FeeSchedule, amount: real, feeType: string): FeeResult {
    match TermsFor(f, feeType)
    case UnknownType => FeeError
    case Terms(bps, minFee, maxFee) =>
      if bps < 0 then FeeError else Fee(Clamped(Unclamped(bps, amount), minFee, maxFee))
  }

  /** The clamps of one fee type are whole numbers of units. */
  predicate UnitClamps(f: FeeSchedule, feeType: string) {
    var t := TermsFor(f, feeType);
    t.Terms? ==> IsUnits(t.minFee) && IsUnits(t.maxFee)
  }

  predicate IsRamp(feeType: string) {
    feeType == "onramp" || feeType == "offramp"
  }

  predicate KnownType(feeType: string) {
    IsRamp(feeType) || feeType == "crypto_collection" || feeType == "bank_collection"
  }

  lemma TypesDiffer()
    ensures "onramp" != "offramp"
    ensures "crypto_collection" != "onramp" && "crypto_collection" != "offramp"
    ensures "bank_collection" != "onramp" && "bank_collection" != "offramp"
    ensures "bank_collection" != "crypto_collection"
  {
    assert |"onramp"| == 6 && |"offramp"| == 7;
    assert |"crypto_collection"| == 17 && |"bank_collection"| == 15;
  }

  // ---- What validation is for ----

  /** Unclamped, the rate charges between nothing and the whole amount. */
  ghost predicate Moderate(bps: int) {
    forall amount :: amount >= 0.0 && IsUnits(amount) ==> 0.0 <= Unclamped(bps, amount) <= amount
  }

  /** The fee on one unit of currency is the rate itself. */
  lemma FeeOnOne(bps: int)
    ensures Unclamped(bps, 1.0) == bps as real / 10000.0
  {
    var x := bps as real;
    RoundHalfAwayOfInt(bps * 1_000_000_000_000);
    assert x / 10000.0 * DIV_SCALE == (bps * 1_000_000_000_000) as real;
    assert Div(x, 10000.0) == x / 10000.0;
    RoundHalfAwayOfInt(bps * 10_000);
    assert x / 10000.0 * SCALE == (bps * 10_000) as real;
  }

  lemma WithinAmount(bps: int, amount: real)
    requires 0 <= bps <= 10000 && amount >= 0.0 && IsUnits(amount)
    ensures 0.0 <= Unclamped(bps, amount) <= amount
  {
    hide UnitFee, Unclamped;
    var n := (amount * SCALE).Floor;
    UnclampedInUnits(bps, amount, n);
    assert n * bps <= n * 10000;
    UnitFeeBelow(n * bps, n);
  }

  lemma UnitFeeBelow(m: int, n: int)
    requires 0 <= m <= n * 10000
    ensures 0 <= UnitFee(m) <= n
  {
  }

  lemma ModerateIff(bps: int)
    ensures Moderate(bps) <==> 0 <= bps <= 10000
  {
    hide Unclamped;
    FeeOnOne(bps);
    assert IsUnits(1.0) by { assert (1.0 * SCALE).Floor == 100_000_000; }
    if 0 <= bps <= 10000 {
      forall amount | amount >= 0.0 && IsUnits(amount)
        ensures 0.0 <= Unclamped(bps, amount) <= amount
      {
        WithinAmount(bps, amount);
      }
    } else {
      assert !(0.0 <= Unclamped(bps, 1.0) <= 1.0);
    }
  }

  /** A lower clamp that is set does not exceed an upper one that is set. */
  predicate Ordered(minFee: real, maxFee: real) {
    minFee == 0.0 || maxFee == 0.0 || minFee <= maxFee
  }

  /** A fee is refused exactly for an unknown type or a negative rate; so never for a known type under a schedule that
      was accepted. */
  lemma RefusedIff(f: FeeSchedule, amount: real, feeType: string)
    ensures CalculateFee(f, amount, feeType).FeeError? <==>
              !KnownType(feeType) || TermsFor(f, feeType).UnknownType? || TermsFor(f, feeType).bps < 0
    ensures TermsFor(f, feeType).UnknownType? <==> !KnownType(feeType)
    ensures Validate(f) ==> (CalculateFee(f, amount, feeType).FeeError? <==> !KnownType(feeType))
  {
    hide Unclamped, Clamped;
  }

  /** A schedule is accepted exactly when each of its four rates charges between nothing and the whole amount, whatever
      the amount, and both pairs of clamps are in order. */
  lemma ValidateIff(f: FeeSchedule)
    ensures Validate(f) <==>
              && Moderate(f.onRampBps) && Moderate(f.offRampBps) && Moderate(f.cryptoBps) && Moderate(f.bankBps)
              && Ordered(f.minFee, f.maxFee) && Ordered(f.bankMinFee, f.bankMaxFee)
  {
    hide Moderate;
    ModerateIff(f.onRampBps);
    ModerateIff(f.offRampBps);
    ModerateIff(f.cryptoBps);
    ModerateIff(f.bankBps);
  }

  // ---- Bounds ----

  /** The clamps as a lower and an upper bound, both rounded to whole units. */
  function Bounded(fee: real, minFee: real, maxFee: real): real {
    var raised := if minFee != 0.0 && fee < Round8(minFee) then Round8(minFee) else fee;
    if maxFee != 0.0 && Round8(maxFee) < raised then Round8(maxFee) else raised
  }

  /** Comparing whole units with a bound is comparing them with the rounded bound. */
  lemma ClampedIsBounded(fee: real, minFee: real, maxFee: real)
    requires IsUnits(fee)
    ensures Clamped(fee, minFee, maxFee) == Bounded(fee, minFee, maxFee)
  {
    hide Round8, IsUnits;
    UnitsAgainst(fee, minFee);
    UnitsAgainst(fee, maxFee);
    Round8IsNear(minFee);
    UnitsAgainst(Round8(minFee), maxFee);
  }

  lemma UnitsAgainst(units: real, bound: real)
    requires IsUnits(units)
    ensures units <= bound ==> units <= Round8(bound)
    ensures bound <= units ==> Round8(bound) <= units
  {
    hide Round8, IsUnits;
    Round8OfUnits(units);
    if units <= bound {
      Round8Monotone(units, bound);
    }
    if bound <= units {
      Round8Monotone(bound, units);
    }
  }

  lemma UnclampedIsUnits(bps: int, amount: real)
    ensures IsUnits(Unclamped(bps, amount))
  {
    hide Round8, IsUnits, Div, BpsAmount;
    Round8IsNear(Div(BpsAmount(bps, amount), 10000.0));
  }

  /** Every known fee is the unclamped one between the rounded bounds. */
  lemma FeeIsBounded(f: FeeSchedule, amount: real, feeType: string)
    requires Validate(f) && KnownType(feeType)
    ensures CalculateFee(f, amount, feeType).Fee?
    ensures var t := TermsFor(f, feeType);
            t.Terms? && CalculateFee(f, amount, feeType).value == Bounded(Unclamped(t.bps, amount), t.minFee, t.maxFee)
  {
    hide Clamped, Unclamped, Bounded;
    var t := TermsFor(f, feeType);
    UnclampedIsUnits(t.bps, amount);
    ClampedIsBounded(Unclamped(t.bps, amount), t.minFee, t.maxFee);
  }

  /** For every fee type and every amount: the fee never exceeds a configured maximum, rounded to a unit,
      and it respects a configured minimum, rounded to a unit, exactly when that minimum does not exceed
      the maximum. For bounds of whole units rounding changes nothing. */
  lemma ClampsHold(f: FeeSchedule, amount: real, feeType: string)
    requires Validate(f) && KnownType(feeType)
    ensures CalculateFee(f, amount, feeType).Fee?
    ensures var t, fee := TermsFor(f, feeType), CalculateFee(f, amount, feeType).value;
            && (t.maxFee != 0.0 ==> fee <= Round8(t.maxFee))
            && (t.minFee != 0.0 ==>
                  (fee >= Round8(t.minFee) <==> t.maxFee == 0.0 || Round8(t.minFee) <= Round8(t.maxFee)))
    ensures var t, fee := TermsFor(f, feeType), CalculateFee(f, amount, feeType).value;
            UnitClamps(f, feeType) ==>
              && (t.maxFee != 0.0 ==> fee <= t.maxFee)
              && (t.minFee != 0.0 ==> (fee >= t.minFee <==> t.maxFee == 0.0 || t.minFee <= t.maxFee))
  {
    hide Round8, CalculateFee, Unclamped, IsUnits, Validate, KnownType;
    FeeIsBounded(f, amount, feeType);
    var t := TermsFor(f, feeType);
    if UnitClamps(f, feeType) {
      Round8OfUnits(t.minFee);
      Round8OfUnits(t.maxFee);
    }
  }

  /** On- and off-ramp fees always lie between the configured bounds, to within half a unit, because
      Validate compares exactly the two clamps those types use. */
  lemma RampFeeWithinBounds(f: FeeSchedule, amount: real, feeType: string)
    requires Validate(f) && IsRamp(feeType)
    ensures CalculateFee(f, amount, feeType).Fee?
    ensures var fee := CalculateFee(f, amount, feeType).value;
            && (f.minFee != 0.0 ==> Round8(f.minFee) <= fee && -0.5 <= (fee - f.minFee) * SCALE)
            && (f.maxFee != 0.0 ==> fee <= Round8(f.maxFee) && (fee - f.maxFee) * SCALE <= 0.5)
    ensures var fee := CalculateFee(f, amount, feeType).value;
            UnitClamps(f, feeType) ==>
              (f.minFee != 0.0 ==> f.minFee <= fee) && (f.maxFee != 0.0 ==> fee <= f.maxFee)
  {
    hide Round8, CalculateFee, IsUnits;
    ClampsHold(f, amount, feeType);
    Round8IsNear(f.minFee);
    Round8IsNear(f.maxFee);
    if f.minFee <= f.maxFee {
      Round8Monotone(f.minFee, f.maxFee);
    }
  }

  /** Validate does not compare MinFeeUSD with the collection maximum, so an accepted schedule can
      charge a crypto collection less than its minimum. */
  lemma CollectionFeeCanFallBelowMinimum()
    ensures exists f: FeeSchedule, amount: real ::
              && Validate(f)
              && CalculateFee(f, amount, "crypto_collection").Fee?
              && 0.0 < CalculateFee(f, amount, "crypto_collection").value < f.minFee
  {
    hide Round8, Unclamped, IsUnits;
    var f := FeeSchedule(40, 40, 5.0, 0.0, 10, 1.0, 10, 0.0, 0.0);
    WholeAmounts();
    TypesDiffer();
    CrossedClamps(Unclamped(10, 100.0), 5.0, 1.0);
    assert TermsFor(f, "crypto_collection") == Terms(10, 5.0, 1.0);
    assert CalculateFee(f, 100.0, "crypto_collection").value == 1.0;
  }

  lemma WholeAmounts()
    ensures Round8(5.0) == 5.0 && Round8(1.0) == 1.0
  {
    hide Round8;
    Round8OfUnits(5.0);
    Round8OfUnits(1.0);
  }

  /** A minimum above the maximum charges the maximum, or less. */
  lemma CrossedClamps(fee: real, minFee: real, maxFee: real)
    requires 0.0 < maxFee < minFee && Round8(minFee) == minFee && Round8(maxFee) == maxFee
    ensures Clamped(fee, minFee, maxFee) == maxFee
  {
    hide Round8;
  }

  // ---- Monotonicity ----

  lemma RoundedMonotone(x: real, y: real)
    requires x <= y
    ensures Rounded(x) <= Rounded(y)
  {
    RoundHalfAwayMonotone(x / 10000.0 * DIV_SCALE, y / 10000.0 * DIV_SCALE);
    assert Div(x, 10000.0) <= Div(y, 10000.0);
    RoundHalfAwayMonotone(Div(x, 10000.0) * SCALE, Div(y, 10000.0) * SCALE);
  }

  lemma BpsAmountMonotone(bps: int, a: real, b: real)
    requires 0 <= bps && a <= b
    ensures BpsAmount(bps, a) <= BpsAmount(bps, b)
  {
    assert (b - a) * bps as real >= 0.0;
  }

  lemma UnclampedMonotone(bps: int, a: real, b: real)
    requires 0 <= bps && a <= b
    ensures Unclamped(bps, a) <= Unclamped(bps, b)
  {
    hide Rounded, BpsAmount;
    BpsAmountMonotone(bps, a, b);
    RoundedMonotone(BpsAmount(bps, a), BpsAmount(bps, b));
  }

  /** A larger amount never pays a smaller fee, whatever the fee type. */
  lemma FeeMonotone(f: FeeSchedule, a: real, b: real, feeType: string)
    requires Validate(f) && KnownType(feeType) && a <= b
    ensures CalculateFee(f, a, feeType).Fee? && CalculateFee(f, b, feeType).Fee?
    ensures CalculateFee(f, a, feeType).value <= CalculateFee(f, b, feeType).value
  {
    hide Round8, CalculateFee, Unclamped;
    FeeIsBounded(f, a, feeType);
    FeeIsBounded(f, b, feeType);
    UnclampedMonotone(TermsFor(f, feeType).bps, a, b);
  }

  // ---- Accuracy ----

  lemma DivExact(x: real, n: int)
    requires x / 10000.0 * DIV_SCALE == n as real
    ensures Div(x, 10000.0) == x / 10000.0
  {
    RoundHalfAwayOfInt(n);
  }

  lemma BpsOfUnits(amount: real, n: int, bps: int)
    requires amount * SCALE == n as real
    ensures amount * bps as real * SCALE == (n * bps) as real
  {
    var k := bps as real;
    calc {
      amount * k * SCALE;
      (amount * SCALE) * k;
      n as real * k;
    }
  }

  /** Dividing an eight-decimal amount of basis points by 10000 needs no more than twelve decimals,
      so decimal.Div is exact. */
  lemma DivExactOnUnits(bps: int, amount: real)
    requires IsUnits(amount)
    ensures Div(amount * bps as real, 10000.0) == amount * bps as real / 10000.0
  {
    var n := (amount * SCALE).Floor;
    var x := amount * bps as real;
    assert x * SCALE == (n * bps) as real by { BpsOfUnits(amount, n, bps); }
    DivExact(x, n * bps * 10000);
  }

  /** Before clamping, an eight-decimal amount is charged the exact fee to within half a unit. */
  lemma FeeWithinHalfUnit(bps: int, amount: real)
    requires IsUnits(amount)
    ensures -0.5 <= (Unclamped(bps, amount) - ExactFee(bps, amount)) * SCALE <= 0.5
  {
    DivExactOnUnits(bps, amount);
    RoundHalfAwayIsNearest(amount * bps as real / 10000.0 * SCALE);
  }

  /** What a fee of `fee` means for an exact charge of `exact`: it is the exact charge to within half
      a unit, or the rounded minimum because the charge rounds below it, or the rounded maximum because
      it rounds above it. */
  predicate Justified(fee: real, exact: real, minFee: real, maxFee: real) {
    var half := 0.5 / SCALE;
    || -half <= fee - exact <= half
    || (minFee != 0.0 && fee == Round8(minFee) && exact - half < minFee)
    || (maxFee != 0.0 && fee == Round8(maxFee) && maxFee < exact + half)
    || (maxFee != 0.0 && fee == Round8(maxFee) && minFee != 0.0 && maxFee < Round8(minFee))
  }

  lemma ClampJustified(raw: real, exact: real, minFee: real, maxFee: real)
    requires -0.5 <= (raw - exact) * SCALE <= 0.5
    ensures Justified(Clamped(raw, minFee, maxFee), exact, minFee, maxFee)
  {
    hide Round8;
  }

  lemma TermsJustified(bps: int, amount: real, minFee: real, maxFee: real)
    requires IsUnits(amount)
    ensures Justified(Clamped(Unclamped(bps, amount), minFee, maxFee),
                      ExactFee(bps, amount), minFee, maxFee)
  {
    hide *;
    var raw, exact := Unclamped(bps, amount), ExactFee(bps, amount);
    assert -0.5 <= (raw - exact) * SCALE <= 0.5 by { FeeWithinHalfUnit(bps, amount); }
    ClampJustified(raw, exact, minFee, maxFee);
  }

  /** Each ramp charges its own rate under the transfer clamps. */
  lemma RampFeesJustified(f: FeeSchedule, amount: real)
    requires Validate(f) && IsUnits(amount)
    ensures CalculateFee(f, amount, "onramp").Fee? && CalculateFee(f, amount, "offramp").Fee?
    ensures Justified(CalculateFee(f, amount, "onramp").value,
                      ExactFee(f.onRampBps, amount), f.minFee, f.maxFee)
    ensures Justified(CalculateFee(f, amount, "offramp").value,
                      ExactFee(f.offRampBps, amount), f.minFee, f.maxFee)
  {
    TypesDiffer();
    hide Clamped, Unclamped, ExactFee, Justified, Money.IsUnits;
    TermsJustified(f.onRampBps, amount, f.minFee, f.maxFee);
    TermsJustified(f.offRampBps, amount, f.minFee, f.maxFee);
  }

  /** Each collection charges its own rate under its own maximum; bank collections fall back to the
      general minimum when they have none of their own. */
  lemma CollectionFeesJustified(f: FeeSchedule, amount: real)
    requires Validate(f) && IsUnits(amount)
    ensures CalculateFee(f, amount, "crypto_collection").Fee? && CalculateFee(f, amount, "bank_collection").Fee?
    ensures Justified(CalculateFee(f, amount, "crypto_collection").value,
                      ExactFee(f.cryptoBps, amount), f.minFee, f.cryptoMaxFee)
    ensures Justified(CalculateFee(f, amount, "bank_collection").value, ExactFee(f.bankBps, amount),
                      if f.bankMinFee != 0.0 then f.bankMinFee else f.minFee, f.bankMaxFee)
  {
    TypesDiffer();
    hide Clamped, Unclamped, ExactFee, Justified, Money.IsUnits;
    TermsJustified(f.cryptoBps, amount, f.minFee, f.cryptoMaxFee);
    TermsJustified(f.bankBps, amount, if f.bankMinFee != 0.0 then f.bankMinFee else f.minFee, f.bankMaxFee);
  }

  /** For an arbitrary amount the division adds at most half of 10^-16. */
  lemma FeeNearlyExact(bps: int, amount: real)
    ensures var err := Unclamped(bps, amount) - amount * bps as real / 10000.0;
            var slack := 0.5 / SCALE + 0.5 / DIV_SCALE;
            -slack <= err <= slack
  {
    var x := amount * bps as real;
    RoundHalfAwayIsNearest(x / 10000.0 * DIV_SCALE);
    RoundHalfAwayIsNearest(Div(x, 10000.0) * SCALE);
  }

  // ---- Splitting ----

  /** The same fee in whole units: n basis-point units over 10000, ties rounded up. */
  function UnitFee(n: int): int {
    (n + 5000) / 10000
  }

  lemma RoundedInUnits(x: real, n: int)
    requires 0 <= n && x * SCALE == n as real
    ensures Rounded(x) == UnitFee(n) as real / SCALE
  {
    hide RoundHalfAway, Div, UnitFee;
    DivExact(x, n * 10000);
    assert Div(x, 10000.0) * SCALE == n as real / 10000.0;
    HalfUp(n);
  }

  lemma HalfUp(n: int)
    requires 0 <= n
    ensures RoundHalfAway(n as real / 10000.0) == UnitFee(n)
  {
    var k := UnitFee(n);
    assert k * 10000 <= n + 5000 < k * 10000 + 10000;
    var y := n as real / 10000.0 + 0.5;
    assert k as real <= y < k as real + 1.0;
    FloorIs(y, k);
  }

  lemma FloorIs(y: real, k: int)
    requires k as real <= y < k as real + 1.0
    ensures y.Floor == k
  {
  }

  lemma UnclampedInUnits(bps: int, amount: real, n: int)
    requires 0 <= bps && 0 <= n && amount * SCALE == n as real
    ensures 0 <= n * bps && Unclamped(bps, amount) == UnitFee(n * bps) as real / SCALE
  {
    BpsOfUnits(amount, n, bps);
    RoundedInUnits(amount * bps as real, n * bps);
  }

  lemma SumInUnits(x: real, y: real, z: real, m: int, n: int, k: int)
    requires 0 <= m && 0 <= n && k == m + n
    requires x * SCALE == UnitFee(m) as real && y * SCALE == UnitFee(n) as real && z * SCALE == UnitFee(k) as real
    ensures 0.0 <= x && 0.0 <= y && z <= x + y + 1.0 / SCALE
  {
    assert 0 <= UnitFee(m) && 0 <= UnitFee(n) && UnitFee(k) <= UnitFee(m) + UnitFee(n) + 1;
  }

  lemma UnclampedSplit(bps: int, a: real, b: real, m: int, n: int)
    requires 0 <= bps && 0 <= m && 0 <= n && a * SCALE == m as real && b * SCALE == n as real
    ensures Unclamped(bps, a) >= 0.0 && Unclamped(bps, b) >= 0.0
    ensures Unclamped(bps, a + b) <= Unclamped(bps, a) + Unclamped(bps, b) + 1.0 / SCALE
  {
    UnclampedInUnits(bps, a, m);
    UnclampedInUnits(bps, b, n);
    UnclampedInUnits(bps, a + b, m + n);
    SumInUnits(Unclamped(bps, a), Unclamped(bps, b), Unclamped(bps, a + b), m * bps, n * bps, (m + n) * bps);
  }

  lemma BoundedSplit(x: real, y: real, z: real, minFee: real, maxFee: real)
    requires 0.0 <= x && 0.0 <= y && 0.0 <= z <= x + y + 1.0 / SCALE
    requires minFee != 0.0 && maxFee != 0.0 ==> Round8(minFee) <= Round8(maxFee)
    ensures Bounded(z, minFee, maxFee) - 1.0 / SCALE <= Bounded(x, minFee, maxFee) + Bounded(y, minFee, maxFee)
            <==> maxFee == 0.0 || Round8(maxFee) >= -1.0 / SCALE
  {
    hide Round8;
  }

  /** Splitting an amount in two lowers the total fee by at most one unit, clamps included, exactly when a
      configured maximum is not negative by more than one unit; so whenever it is not negative. */
  lemma SplittingSavesAtMostOneUnit(f: FeeSchedule, a: real, b: real, feeType: string)
    requires Validate(f) && IsRamp(feeType)
    requires 0.0 <= a && 0.0 <= b && IsUnits(a) && IsUnits(b)
    ensures CalculateFee(f, a, feeType).Fee? && CalculateFee(f, b, feeType).Fee?
    ensures CalculateFee(f, a + b, feeType).Fee?
    ensures CalculateFee(f, a + b, feeType).value - 1.0 / SCALE
            <= CalculateFee(f, a, feeType).value + CalculateFee(f, b, feeType).value
            <==> f.maxFee == 0.0 || Round8(f.maxFee) >= -1.0 / SCALE
    ensures f.maxFee >= 0.0 ==> Round8(f.maxFee) >= 0.0
  {
    hide Round8, CalculateFee, Unclamped, Bounded;
    FeeIsBounded(f, a, feeType);
    FeeIsBounded(f, b, feeType);
    FeeIsBounded(f, a + b, feeType);
    var t := TermsFor(f, feeType);
    UnclampedSplit(t.bps, a, b, (a * SCALE).Floor, (b * SCALE).Floor);
    UnclampedMonotone(t.bps, a, a + b);
    if f.minFee <= f.maxFee {
      Round8Monotone(f.minFee, f.maxFee);
    }
    BoundedSplit(Unclamped(t.bps, a), Unclamped(t.bps, b), Unclamped(t.bps, a + b), f.minFee, f.maxFee);
    if f.maxFee >= 0.0 {
      Round8Monotone(0.0, f.maxFee);
      Round8OfUnits(0.0);
    }
  }
}
