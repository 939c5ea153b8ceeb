/** The two vesting curves of the multi-asset vesting ledger: how much of a
    grant has vested at a given block time. */
module TokenVestingSchedule {
  import opened Common
  import opened Arith

  datatype VestingSchedule =
      /** The whole `vestingAmount` vests linearly from start to end. */
    | LinearVesting(startTime: TimeField, endTime: TimeField, vestingAmount: u128)
      /** `amount` vests at the start and again at every `vestingInterval`
          boundary up to and including the end. */
    | PeriodicVesting(startTime: TimeField, endTime: TimeField, vestingInterval: TimeField, amount: u128)

  predicate AllParsed(s: VestingSchedule)
  {
    s.startTime.Parsed? && s.endTime.Parsed? && (s.PeriodicVesting? ==> s.vestingInterval.Parsed?)
  }

  /** The shape the vesting curve needs: readable times, a non-empty period
      and, for the periodic form, a non-zero interval. */
  predicate WellFormed(s: VestingSchedule)
  {
    AllParsed(s) && s.startTime.seconds < s.endTime.seconds &&
    (s.PeriodicVesting? ==> s.vestingInterval.seconds > 0)
  }

  function Start(s: VestingSchedule): nat requires AllParsed(s) { s.startTime.seconds }
  function End(s: VestingSchedule): nat requires AllParsed(s) { s.endTime.seconds }
  function Interval(s: VestingSchedule): nat requires AllParsed(s) && s.PeriodicVesting? { s.vestingInterval.seconds }

  /** Number of periodic ticks: the one at the start plus one per interval. */
  function NumIntervals(s: VestingSchedule): (n: nat)
    requires WellFormed(s) && s.PeriodicVesting?
    ensures n >= 1
  {
    1 + (End(s) - Start(s)) / Interval(s)
  }

  /** The grant's total: what must be deposited for it. */
  function Total(s: VestingSchedule): (total: nat)
    requires WellFormed(s)
    ensures s.PeriodicVesting? ==> total >= s.amount
  {
    match s
    case LinearVesting(_, _, amount) => amount
    case PeriodicVesting(_, _, _, amount) =>
      MulLeMono(1, NumIntervals(s), amount);
      amount * NumIntervals(s)
  }

  /** Reference curve, exact and unbounded: the time elapsed since the start,
      capped at the end, decides the vested share. */
  function VestedCurve(s: VestingSchedule, t: nat): nat
    requires WellFormed(s)
  {
    if s.LinearVesting? then LinearCurve(Start(s), End(s), s.vestingAmount, t)
    else PeriodicCurve(Start(s), End(s), Interval(s), s.amount, t)
  }

  function LinearCurve(start: nat, end: nat, amount: nat, t: nat): nat
    requires start < end
  {
    if t <= start then 0 else FloorDiv(amount * (Min(t, end) - start), end - start)
  }

  function PeriodicCurve(start: nat, end: nat, interval: nat, amount: nat, t: nat): nat
    requires start < end && interval > 0
  {
    if t < start then 0 else amount * (1 + FloorDiv(Min(t, end) - start, interval))
  }

  /** `VestingSchedule::vested_amount`, with its `unwrap`s, its raw `u64`
      arithmetic and its checked `Uint128` product. */
  function VestedAmount(s: VestingSchedule, t: u64): (r: Result<u128>)
    ensures !AllParsed(s) ==> r.Err?
    ensures s.LinearVesting? && r.Ok? ==> r.value <= s.vestingAmount
  {
    if !AllParsed(s) then Result<u128>.Err(Abort("called `Result::unwrap()` on an `Err` value"))
    else if s.LinearVesting? then LinearVested(Start(s), End(s), s.vestingAmount, t)
    else PeriodicVested(Start(s), End(s), Interval(s), s.amount, t)
  }

  /** The linear arm: nothing up to the start, everything from the end, the
      floored proportional share in between. */
  function LinearVested(start: nat, end: nat, amount: u128, t: nat): (r: Result<u128>)
    ensures r.Ok? ==> r.value <= amount
  {
    if t <= start then Ok(0)
    else if t >= end then Ok(amount)
    else
      var elapsed: nat := t - start;
      var period: nat := end - start;
      match CheckedMul(amount, elapsed)
      case Err(e) => Err(e)
      case Ok(p) =>
        FracLe(amount, elapsed, period);
        Ok(FloorDiv(p, period))
  }

  /** The periodic arm: nothing before the start, then one `amount` per tick
      reached, the tick at the start included. */
  function PeriodicVested(start: nat, end: nat, interval: nat, amount: u128, t: nat): (r: Result<u128>)
  {
    if t < start then Ok(0)
    else if end < start then Err(Abort("attempt to subtract with overflow"))
    else if interval == 0 then Err(Abort("attempt to divide by zero"))
    else
      var period: nat := end - start;
      var numInterval: nat := 1 + FloorDiv(period, interval);
      if numInterval >= U64_LIMIT then Err(Abort("attempt to add with overflow"))
      else if t >= end then CheckedMul(amount, numInterval)
      else
        var elapsed: nat := t - start;
        CheckedMul(amount, 1 + FloorDiv(elapsed, interval))
  }

  /** On a well-formed schedule a successful `vested_amount` is the reference
      curve. The linear arm fails exactly when the intermediate product
      `vesting_amount * (t - start)` does not fit in a `Uint128`, even where
      the quotient would; the periodic arm, once its tick count fits in a
      `u64`, fails exactly when the curve itself does not fit. */
  lemma {:induction false} VestedAmountMatchesCurve(s: VestingSchedule, t: u64)
    requires WellFormed(s)
    ensures VestedAmount(s, t).Ok? ==> VestedAmount(s, t).value == VestedCurve(s, t)
    ensures s.LinearVesting? ==>
      (VestedAmount(s, t).Err? <==> Start(s) < t < End(s) && s.vestingAmount * (t - Start(s)) >= U128_LIMIT)
    ensures s.PeriodicVesting? && NumIntervals(s) < U64_LIMIT ==>
      (VestedAmount(s, t).Ok? <==> VestedCurve(s, t) < U128_LIMIT)
    ensures s.PeriodicVesting? && NumIntervals(s) < U64_LIMIT && VestedAmount(s, t).Err? ==>
      VestedAmount(s, t).error == Overflow
  {
    if s.LinearVesting? {
      LinearMatches(Start(s), End(s), s.vestingAmount, t);
    } else if NumIntervals(s) < U64_LIMIT {
      PeriodicMatches(Start(s), End(s), Interval(s), s.amount, t);
    }
  }

  lemma {:induction false} LinearMatches(start: nat, end: nat, amount: u128, t: nat)
    requires start < end
    ensures LinearVested(start, end, amount, t).Ok? ==> LinearVested(start, end, amount, t).value == LinearCurve(start, end, amount, t)
    ensures LinearVested(start, end, amount, t).Err? <==> start < t < end && amount * (t - start) >= U128_LIMIT
  {
    if start < t && end <= t {
      MulDivCancel(amount, end - start);
    }
  }

  lemma {:induction false} PeriodicMatches(start: nat, end: nat, interval: nat, amount: u128, t: nat)
    requires start < end && interval > 0 && 1 + FloorDiv(end - start, interval) < U64_LIMIT
    ensures PeriodicVested(start, end, interval, amount, t).Ok? <==> PeriodicCurve(start, end, interval, amount, t) < U128_LIMIT
    ensures PeriodicVested(start, end, interval, amount, t).Ok? ==> PeriodicVested(start, end, interval, amount, t).value == PeriodicCurve(start, end, interval, amount, t)
    ensures PeriodicVested(start, end, interval, amount, t).Err? ==> PeriodicVested(start, end, interval, amount, t).error == Overflow
  {
    if start <= t && t >= end {
      assert Min(t, end) == end;
    }
  }

  /** The shape of the curve: nothing before the start, the periodic grant's
      first tick paid at the start itself, the whole total from the end on. */
  lemma {:induction false} CurveShape(s: VestingSchedule, t: nat)
    requires WellFormed(s)
    ensures s.LinearVesting? && t <= Start(s) ==> VestedCurve(s, t) == 0
    ensures s.PeriodicVesting? && t < Start(s) ==> VestedCurve(s, t) == 0
    ensures s.PeriodicVesting? && t == Start(s) ==> VestedCurve(s, t) == s.amount
    ensures End(s) <= t ==> VestedCurve(s, t) == Total(s)
  {
    if s.LinearVesting? && End(s) <= t {
      MulDivCancel(s.vestingAmount, End(s) - Start(s));
    }
  }

  /** Strictly inside the period the linear curve is the floor of the
      proportional share, and the periodic curve pays one `amount` per tick
      reached, the tick at the start included. */
  lemma {:induction false} CurveInside(s: VestingSchedule, t: nat)
    requires WellFormed(s) && Start(s) < t < End(s)
    ensures s.LinearVesting? ==>
      VestedCurve(s, t) * (End(s) - Start(s)) <= s.vestingAmount * (t - Start(s)) < (VestedCurve(s, t) + 1) * (End(s) - Start(s))
    ensures s.PeriodicVesting? ==> VestedCurve(s, t) == s.amount * (1 + (t - Start(s)) / Interval(s))
  {
    assert Min(t, End(s)) == t;
  }

  /** Vesting never goes backwards. */
  lemma {:induction false} CurveMonotone(s: VestingSchedule, t1: nat, t2: nat)
    requires WellFormed(s) && t1 <= t2
    ensures VestedCurve(s, t1) <= VestedCurve(s, t2)
  {
    if s.LinearVesting? {
      LinearCurveMonotone(Start(s), End(s), s.vestingAmount, t1, t2);
    } else {
      PeriodicCurveMonotone(Start(s), End(s), Interval(s), s.amount, t1, t2);
    }
  }

  lemma {:induction false} LinearCurveMonotone(start: nat, end: nat, amount: nat, t1: nat, t2: nat)
    requires start < end && t1 <= t2
    ensures LinearCurve(start, end, amount, t1) <= LinearCurve(start, end, amount, t2)
  {
    if start < t1 {
      var e1: nat, e2: nat := Min(t1, end) - start, Min(t2, end) - start;
      MulLeMono(e1, e2, amount);
      assert amount * e1 <= amount * e2;
      DivLeMono(amount * e1, amount * e2, end - start);
    }
  }

  lemma {:induction false} PeriodicCurveMonotone(start: nat, end: nat, interval: nat, amount: nat, t1: nat, t2: nat)
    requires start < end && interval > 0 && t1 <= t2
    ensures PeriodicCurve(start, end, interval, amount, t1) <= PeriodicCurve(start, end, interval, amount, t2)
  {
    if start <= t1 {
      var e1: nat, e2: nat := Min(t1, end) - start, Min(t2, end) - start;
      DivLeMono(e1, e2, interval);
      var k1: nat, k2: nat := 1 + FloorDiv(e1, interval), 1 + FloorDiv(e2, interval);
      MulLeMono(k1, k2, amount);
      assert amount * k1 <= amount * k2;
    }
  }

  /** At no time has more vested than the grant's total. */
  lemma {:induction false} CurveBounded(s: VestingSchedule, t: nat)
    requires WellFormed(s)
    ensures VestedCurve(s, t) <= Total(s)
  {
    CurveMonotone(s, t, t + End(s));
    CurveShape(s, t + End(s));
  }

  /** What registration establishes about a schedule, apart from its start
      not being in the past: a positive amount, a non-empty period, for the
      periodic form a non-zero interval dividing the period and a tick count
      that fits a `u64`, and a deposit equal to the total. */
  predicate Registrable(s: VestingSchedule, deposit: nat)
  {
    WellFormed(s) &&
    match s
    case LinearVesting(_, _, amount) => amount > 0 && deposit == amount
    case PeriodicVesting(_, _, _, amount) =>
      amount > 0 && (End(s) - Start(s)) % Interval(s) == 0 &&
      NumIntervals(s) < U64_LIMIT && deposit == Total(s)
  }

  /** For a registered schedule the contract's `vested_amount` never exceeds
      the deposit and never decreases over time; the periodic form never
      fails. */
  lemma {:induction false} RegisteredVested(s: VestingSchedule, deposit: u128, t1: u64, t2: u64)
    requires Registrable(s, deposit) && t1 <= t2
    ensures s.PeriodicVesting? ==> VestedAmount(s, t1).Ok?
    ensures VestedAmount(s, t1).Ok? ==> VestedAmount(s, t1).value <= deposit
    ensures VestedAmount(s, t1).Ok? && VestedAmount(s, t2).Ok? ==> VestedAmount(s, t1).value <= VestedAmount(s, t2).value
  {
    VestedAmountMatchesCurve(s, t1);
    VestedAmountMatchesCurve(s, t2);
    CurveBounded(s, t1);
    CurveMonotone(s, t1, t2);
  }

  /** The linear example: 1,000,000 over [100, 110]. */
  lemma LinearExample()
    ensures var s := LinearVesting(Parsed(100), Parsed(110), 1_000_000);
      VestedAmount(s, 100) == Ok(0) && VestedAmount(s, 105) == Ok(500_000) &&
      VestedAmount(s, 110) == Ok(1_000_000) && VestedAmount(s, 115) == Ok(1_000_000)
  {}

  /** The periodic example: 500,000 per 5 seconds over [105, 110], two ticks. */
  lemma PeriodicExample()
    ensures var s := PeriodicVesting(Parsed(105), Parsed(110), Parsed(5), 500_000);
      VestedAmount(s, 100) == Ok(0) && VestedAmount(s, 105) == Ok(500_000) &&
      VestedAmount(s, 110) == Ok(1_000_000) && VestedAmount(s, 115) == Ok(1_000_000)
  {}
}
