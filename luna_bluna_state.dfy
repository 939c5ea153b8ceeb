/** The single-account vesting contract's schedule: after each whole interval
    a fixed ratio of the deposit vests, and everything has vested at the end
    time. */
module LunaBlunaState {
  import opened Common
  import opened Arith
  import opened Decimal

  /** `vestingRatio` is the share of the deposit released per interval. */
  datatype RatioSchedule = RatioSchedule(
    startTime: TimeField,
    endTime: TimeField,
    vestingInterval: TimeField,
    vestingRatio: Decimal)

  predicate AllParsed(s: RatioSchedule)
  {
    s.startTime.Parsed? && s.endTime.Parsed? && s.vestingInterval.Parsed?
  }

  /** The guards `validate` applies to the times, in nat terms: a non-empty
      period starting no earlier than `now`, cut into whole intervals. */
  predicate PeriodOk(s: RatioSchedule, now: nat)
  {
    AllParsed(s) &&
    now <= s.startTime.seconds < s.endTime.seconds &&
    s.vestingInterval.seconds > 0 &&
    (s.endTime.seconds - s.startTime.seconds) % s.vestingInterval.seconds == 0
  }

  /** The number of whole intervals in the period. */
  function NumIntervals(s: RatioSchedule): (n: nat)
    requires AllParsed(s) && s.startTime.seconds < s.endTime.seconds && s.vestingInterval.seconds > 0
    ensures n * s.vestingInterval.seconds <= s.endTime.seconds - s.startTime.seconds
  {
    FloorDiv(s.endTime.seconds - s.startTime.seconds, s.vestingInterval.seconds)
  }

  /** `VestingSchedule::validate` as the code has it. Its last guard floors
      `ratio * num_interval` before comparing it with one, so it admits every
      ratio in `[1/n, 2/n)`; see `AsWrittenOvershoots`. */
  function ValidateAsWritten(s: RatioSchedule, now: u64, amount: u128): (r: Result<()>)
    ensures r.Ok? <==> (amount > 0 && PeriodOk(s, now) && s.vestingRatio <= ONE &&
                        FloorDiv(s.vestingRatio * NumIntervals(s), FRACTIONAL) == 1)
    ensures amount == 0 ==> r == Err(GenericErr("cannot make zero token vesting account"))
    ensures amount > 0 && AllParsed(s) && s.startTime.seconds < now ==> r == Err(GenericErr("invalid start_time"))
    ensures amount > 0 && AllParsed(s) && now <= s.startTime.seconds && s.endTime.seconds <= s.startTime.seconds ==>
              r == Err(GenericErr("end_time must be bigger than start_time"))
    ensures amount > 0 && PeriodOk(s, now) && s.vestingRatio > ONE ==> r == Err(GenericErr("vesting_ratio must be smaller than 1"))
  {
    if amount == 0 then Err(GenericErr("cannot make zero token vesting account"))
    else if s.startTime.Unparsable? then Err(GenericErr("invalid start_time"))
    else if s.endTime.Unparsable? then Err(GenericErr("invalid end_time"))
    else if s.vestingInterval.Unparsable? then Err(GenericErr("invalid vesting_interval"))
    else
      var start, end, interval := s.startTime.seconds, s.endTime.seconds, s.vestingInterval.seconds;
      if start < now then Err(GenericErr("invalid start_time"))
      else if end <= start then Err(GenericErr("end_time must be bigger than start_time"))
      else if interval == 0 then Err(GenericErr("vesting_interval must be non-zero"))
      else if (end - start) % interval != 0 then Err(GenericErr("(end_time - start_time) must be multiple of vesting_interval"))
      else if s.vestingRatio > ONE then Err(GenericErr("vesting_ratio must be smaller than 1"))
      else if MulFloor(s.vestingRatio, NumIntervals(s)) != Ok(1) then Err(GenericErr("vesting_ratio * num_interval must be 1"))
      else Ok(())
  }

  /** `validate` with the guard it evidently intends: besides the floored
      check, the exact share released before the end, `ratio * (n - 1)`,
      stays below one whole, so no instant before the end shows more than
      the deposit as vested (`ValidatedBounded`). */
  function Validate(s: RatioSchedule, now: u64, amount: u128): (r: Result<()>)
    ensures r.Ok? <==> ValidateAsWritten(s, now, amount).Ok? && s.vestingRatio * (NumIntervals(s) - 1) < FRACTIONAL
    ensures ValidateAsWritten(s, now, amount).Err? ==> r == ValidateAsWritten(s, now, amount)
  {
    var r := ValidateAsWritten(s, now, amount);
    if r.Err? then r
    else if s.vestingRatio * (NumIntervals(s) - 1) >= FRACTIONAL then
      Err(GenericErr("vesting_ratio * (num_interval - 1) must be smaller than 1"))
    else r
  }

  /** What `ValidateAsWritten` leaves of a schedule, independently of the
      amount and of the time it was checked at. */
  predicate AcceptedAsWritten(s: RatioSchedule)
  {
    PeriodOk(s, 0) && s.vestingRatio <= ONE &&
    FloorDiv(s.vestingRatio * NumIntervals(s), FRACTIONAL) == 1
  }

  lemma ValidateAsWrittenAccepts(s: RatioSchedule, now: u64, amount: u128)
    requires ValidateAsWritten(s, now, amount).Ok?
    ensures AcceptedAsWritten(s) && amount > 0 && now <= s.startTime.seconds
  {}

  /** What `Validate` leaves of a schedule: the as-written guards and the
      corrected one. */
  predicate Accepted(s: RatioSchedule)
  {
    AcceptedAsWritten(s) && s.vestingRatio * (NumIntervals(s) - 1) < FRACTIONAL
  }

  lemma ValidateAccepts(s: RatioSchedule, now: u64, amount: u128)
    requires Validate(s, now, amount).Ok?
    ensures Accepted(s) && amount > 0 && now <= s.startTime.seconds
  {}

  /** `VestingSchedule::vested_amount`. The time fields are unwrapped (a
      panic when one does not parse); from the end on the whole amount has
      vested; before it, `floor(ratio * amount)` per whole interval passed,
      where `block_time - start_time` is `u64` arithmetic that panics before
      the start. */
  function VestedAmount(s: RatioSchedule, t: u64, amount: u128): (r: Result<u128>)
    ensures !AllParsed(s) ==> r.Err?
    ensures AllParsed(s) && t >= s.endTime.seconds ==> r == Ok(amount)
    ensures AllParsed(s) && t < s.startTime.seconds && t < s.endTime.seconds ==> r.Err?
  {
    if !AllParsed(s) then Err(Abort("called `Result::unwrap()` on an `Err` value"))
    else
      var start, end, interval := s.startTime.seconds, s.endTime.seconds, s.vestingInterval.seconds;
      if t >= end then Ok(amount)
      else if t < start then Err(Abort("attempt to subtract with overflow"))
      else if interval == 0 then Err(Abort("attempt to divide by zero"))
      else
        match MulFloor(s.vestingRatio, amount)
        case Err(e) => Err(e)
        case Ok(perInterval) => CheckedMul(perInterval, FloorDiv(t - start, interval))
  }

  /** Inside the period, with a ratio of at most one whole: the per-interval
      release `floor(ratio * amount)` times the number of whole intervals
      passed. Nothing vests at the start itself. */
  lemma {:induction false} VestedInside(s: RatioSchedule, t: u64, amount: u128)
    requires AllParsed(s) && s.vestingInterval.seconds > 0 && s.vestingRatio <= ONE
    requires s.startTime.seconds <= t < s.endTime.seconds
    ensures var k := FloorDiv(t - s.startTime.seconds, s.vestingInterval.seconds);
            var per := FloorDiv(s.vestingRatio * amount, FRACTIONAL);
            per <= amount &&
            (per * k < U128_LIMIT ==> VestedAmount(s, t, amount) == Ok(per * k)) &&
            (per * k >= U128_LIMIT ==> VestedAmount(s, t, amount) == Err(Overflow))
    ensures t == s.startTime.seconds ==> VestedAmount(s, t, amount) == Ok(0)
  {
    var per := MulFloor(s.vestingRatio, amount).value;
    assert per * FRACTIONAL <= amount * s.vestingRatio < (per + 1) * FRACTIONAL;
    FloorDivUnique(s.vestingRatio * amount, FRACTIONAL, per);
  }

  /** The number of whole intervals passed before the end is below the
      number of intervals in the period. */
  lemma {:induction false} TicksBeforeEnd(s: RatioSchedule, t: nat)
    requires Accepted(s) && s.startTime.seconds <= t < s.endTime.seconds
    ensures FloorDiv(t - s.startTime.seconds, s.vestingInterval.seconds) + 1 <= NumIntervals(s)
  {
    var interval := s.vestingInterval.seconds;
    var k, n := FloorDiv(t - s.startTime.seconds, interval), NumIntervals(s);
    assert n * interval == s.endTime.seconds - s.startTime.seconds;
    assert k * interval < n * interval;
    MulLtCancel(k, n, interval);
  }

  /** `k` per-interval releases, `k` below the interval count, stay below
      the amount once `ratio * (n - 1) < 1`. */
  lemma {:induction false} ReleasesBelowAmount(ratio: nat, amount: nat, per: nat, k: nat, n: nat)
    requires per * FRACTIONAL <= ratio * amount
    requires k + 1 <= n && ratio * (n - 1) < FRACTIONAL && amount > 0
    ensures per * k < amount
  {
    MulLeMono(k, n - 1, ratio);
    MulLeMono(ratio * k, FRACTIONAL - 1, amount);
    calc {
      per * k * FRACTIONAL;
      == (per * FRACTIONAL) * k;
      <= { MulLeMono(per * FRACTIONAL, ratio * amount, k); }
      (ratio * amount) * k;
      == (ratio * k) * amount;
      <= (FRACTIONAL - 1) * amount;
      < FRACTIONAL * amount;
    }
    MulLtCancel(per * k, amount, FRACTIONAL);
  }

  /** For a schedule `Validate` accepts, asking at or after the start never
      fails and never shows more than the deposit as vested. */
  lemma {:induction false} ValidatedBounded(s: RatioSchedule, t: u64, amount: u128)
    requires Accepted(s) && s.startTime.seconds <= t
    ensures VestedAmount(s, t, amount).Ok?
    ensures VestedAmount(s, t, amount).value <= amount
    ensures t < s.endTime.seconds ==>
              VestedAmount(s, t, amount).value ==
              FloorDiv(s.vestingRatio * amount, FRACTIONAL) * FloorDiv(t - s.startTime.seconds, s.vestingInterval.seconds)
  {
    if t < s.endTime.seconds {
      VestedInside(s, t, amount);
      var k := FloorDiv(t - s.startTime.seconds, s.vestingInterval.seconds);
      var per := FloorDiv(s.vestingRatio * amount, FRACTIONAL);
      if amount == 0 {
        assert per == 0;
      } else {
        TicksBeforeEnd(s, t);
        ReleasesBelowAmount(s.vestingRatio, amount, per, k, NumIntervals(s));
      }
    }
  }

  /** For a schedule `Validate` accepts, the vested amount never decreases
      from the start on. */
  lemma {:induction false} ValidatedMonotone(s: RatioSchedule, t1: u64, t2: u64, amount: u128)
    requires Accepted(s) && s.startTime.seconds <= t1 <= t2
    ensures VestedAmount(s, t1, amount).Ok? && VestedAmount(s, t2, amount).Ok?
    ensures VestedAmount(s, t1, amount).value <= VestedAmount(s, t2, amount).value
  {
    ValidatedBounded(s, t1, amount);
    ValidatedBounded(s, t2, amount);
    if t2 < s.endTime.seconds {
      var start, interval := s.startTime.seconds, s.vestingInterval.seconds;
      DivLeMono(t1 - start, t2 - start, interval);
      MulMono(FloorDiv(s.vestingRatio * amount, FRACTIONAL), FloorDiv(t1 - start, interval), FloorDiv(t2 - start, interval));
    }
  }

  /** The code as written accepts a ratio of 0.6 over three intervals, and
      two intervals in it shows 1.2 times the deposit as vested, then falls
      back to the deposit at the end. The corrected check refuses it. */
  lemma AsWrittenOvershoots()
    ensures var s := RatioSchedule(Parsed(100), Parsed(115), Parsed(5), 600_000_000_000_000_000);
            ValidateAsWritten(s, 100, 1_000_000).Ok? &&
            VestedAmount(s, 110, 1_000_000) == Ok(1_200_000) &&
            VestedAmount(s, 115, 1_000_000) == Ok(1_000_000) &&
            Validate(s, 100, 1_000_000).Err?
  {
    var s := RatioSchedule(Parsed(100), Parsed(115), Parsed(5), 600_000_000_000_000_000);
    assert NumIntervals(s) == 3;
    VestedInside(s, 110, 1_000_000);
    assert FloorDiv(110 - 100, 5) == 2;
    assert FloorDiv(600_000_000_000_000_000 * 1_000_000, FRACTIONAL) == 600_000;
  }

  /** The unit test's schedule: half the deposit per five-second interval
      from 100 to 110. */
  lemma HalfRatioExample()
    ensures var s := RatioSchedule(Parsed(100), Parsed(110), Parsed(5), 500_000_000_000_000_000);
            FromRatio(5, 10) == Ok(500_000_000_000_000_000) &&
            Validate(s, 100, 1_000_000).Ok? &&
            VestedAmount(s, 100, 1_000_000) == Ok(0) &&
            VestedAmount(s, 105, 1_000_000) == Ok(500_000) &&
            VestedAmount(s, 110, 1_000_000) == Ok(1_000_000) &&
            VestedAmount(s, 115, 1_000_000) == Ok(1_000_000) &&
            VestedAmount(s, 105, 999_999) == Ok(499_999) &&
            VestedAmount(s, 110, 999_999) == Ok(999_999)
  {
    var s := RatioSchedule(Parsed(100), Parsed(110), Parsed(5), 500_000_000_000_000_000);
    assert NumIntervals(s) == 2;
    VestedInside(s, 100, 1_000_000);
    VestedInside(s, 105, 1_000_000);
    VestedInside(s, 105, 999_999);
    assert FloorDiv(105 - 100, 5) == 1;
    assert FloorDiv(500_000_000_000_000_000 * 1_000_000, FRACTIONAL) == 500_000;
    assert FloorDiv(500_000_000_000_000_000 * 999_999, FRACTIONAL) == 499_999;
  }
}
