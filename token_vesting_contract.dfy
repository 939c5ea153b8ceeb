/** The entry points of the multi-asset vesting ledger: registration by a
    native deposit or a cw20 `Receive` hook, multi-denomination claims,
    master-only deregistration and the paginated listing. */
module TokenVestingContract {
  import opened Common
  import opened Arith
  import opened TokenVestingSchedule
  import opened TokenVestingState

  const MAX_LIMIT: nat := 30
  const DEFAULT_LIMIT: nat := 10

  const NOT_FOUND: string := "vesting entry is not found for denom"

  /** The payload a cw20 token contract forwards with `Receive`. */
  datatype Cw20HookMsg = RegisterVestingAccount(masterAddress: Option<Addr>, address: Addr, vestingSchedule: VestingSchedule)

  /** The schedule checks of `register_vesting_account`, in the source's
      order and with its messages: a zero amount, an unreadable time, a start
      in the past, an empty period, then for the periodic form a zero or
      non-dividing interval, and finally a deposit that is not the total. */
  function CheckSchedule(schedule: VestingSchedule, deposit: u128, now: u64): (r: Result<()>)
    ensures r.Ok? <==> Registrable(schedule, deposit) && Start(schedule) >= now
    ensures schedule.LinearVesting? && schedule.vestingAmount == 0 ==> r == Err(GenericErr("assert(vesting_amount > 0)"))
    ensures schedule.PeriodicVesting? && schedule.amount == 0 ==> r == Err(GenericErr("cannot make zero token vesting account"))
    ensures AllParsed(schedule) && Start(schedule) < now ==> r.Err?
    ensures AllParsed(schedule) && End(schedule) <= Start(schedule) ==> r.Err?
  {
    match schedule
    case LinearVesting(st, et, amount) => CheckLinear(st, et, amount, deposit, now)
    case PeriodicVesting(st, et, it, amount) =>
      var r := CheckPeriodic(st, et, it, amount, deposit, now);
      if r.Ok? then
        assert FloorDiv(End(schedule) - Start(schedule), Interval(schedule)) == (End(schedule) - Start(schedule)) / Interval(schedule);
        r
      else r
  }

  function CheckLinear(st: TimeField, et: TimeField, amount: u128, deposit: u128, now: u64): (r: Result<()>)
    ensures r.Ok? <==> amount > 0 && st.Parsed? && et.Parsed? && now <= st.seconds < et.seconds && amount == deposit
    ensures amount == 0 ==> r == Err(GenericErr("assert(vesting_amount > 0)"))
  {
    if amount == 0 then Err(GenericErr("assert(vesting_amount > 0)"))
    else if st.Unparsable? then Err(GenericErr("invalid start_time"))
    else if et.Unparsable? then Err(GenericErr("invalid end_time"))
    else if st.seconds < now then Err(GenericErr("assert(start_time < block_time)"))
    else if et.seconds <= st.seconds then Err(GenericErr("assert(end_time <= start_time)"))
    else if amount != deposit then Err(GenericErr("assert(deposit_amount == vesting_amount)"))
    else Ok(())
  }

  function CheckPeriodic(st: TimeField, et: TimeField, it: TimeField, amount: u128, deposit: u128, now: u64): (r: Result<()>)
    ensures r.Ok? <==> (amount > 0 && st.Parsed? && et.Parsed? && it.Parsed? && now <= st.seconds < et.seconds &&
                        it.seconds > 0 && (et.seconds - st.seconds) % it.seconds == 0 &&
                        1 + FloorDiv(et.seconds - st.seconds, it.seconds) < U64_LIMIT &&
                        amount * (1 + FloorDiv(et.seconds - st.seconds, it.seconds)) == deposit)
    ensures amount == 0 ==> r == Err(GenericErr("cannot make zero token vesting account"))
  {
    if amount == 0 then Err(GenericErr("cannot make zero token vesting account"))
    else if st.Unparsable? then Err(GenericErr("invalid start_time"))
    else if et.Unparsable? then Err(GenericErr("invalid end_time"))
    else if it.Unparsable? then Err(GenericErr("invalid vesting_interval"))
    else if st.seconds < now then Err(GenericErr("invalid start_time"))
    else if et.seconds <= st.seconds then Err(GenericErr("assert(end_time > start_time)"))
    else if it.seconds == 0 then Err(GenericErr("assert(vesting_interval != 0)"))
    else
      var period: nat := et.seconds - st.seconds;
      var interval: nat := it.seconds;
      var quotient: nat := FloorDiv(period, interval);
      DividesIff(period, interval);
      if period != quotient * interval then
        Err(GenericErr("assert((end_time - start_time) % vesting_interval == 0)"))
      else
        var numInterval: nat := 1 + quotient;
        if numInterval >= U64_LIMIT then Err(Abort("attempt to add with overflow"))
        else
          match CheckedMul(amount, numInterval)
          case Err(e) => Err(e)
          case Ok(total) =>
            if total != deposit then
              Err(GenericErr("assert(deposit_amount = amount * ((end_time - start_time) / vesting_interval + 1))"))
            else Ok(())
  }

  /** The record registration stores: the deposit as the grant, nothing
      claimed yet. */
  function NewAccount(master: Option<Addr>, address: Addr, denom: Denom, deposit: u128, schedule: VestingSchedule): (acc: VestingAccount)
    ensures acc.claimedAmount == 0 && acc.vestingAmount == deposit
    ensures acc.address == address && acc.vestingDenom == denom
  {
    VestingAccount(master, address, denom, deposit, schedule, 0)
  }

  /** A freshly registered grant satisfies the ledger invariant. */
  lemma NewAccountValid(master: Option<Addr>, address: Addr, denom: Denom, deposit: u128, schedule: VestingSchedule, now: u64)
    requires CheckSchedule(schedule, deposit, now).Ok?
    ensures AccountValid(NewAccount(master, address, denom, deposit, schedule), now)
  {}

  /** One denomination of a claim. */
  datatype StepOutcome = StepOutcome(ledger: Ledger, message: Option<CosmosMsg>)

  function OptionToSeq(m: Option<CosmosMsg>): (ms: seq<CosmosMsg>)
    ensures |ms| <= 1
  {
    if m.Some? then [m.value] else []
  }

  /** One iteration of `claim`'s loop: a missing entry fails; nothing newly
      vested is skipped without a write; otherwise the claimed amount catches
      up with the vested amount, the entry is removed once fully claimed, and
      one transfer of the difference goes to the recipient. No other entry
      changes. */
  function ClaimStep(ledger: Ledger, sender: Addr, recipient: Addr, denom: Denom, now: u64): (r: Result<StepOutcome>)
    ensures (sender, DenomToKey(denom)) !in ledger ==> r == Err(GenericErr(NOT_FOUND))
    ensures r.Ok? ==> forall k :: k != (sender, DenomToKey(denom)) ==>
      (k in r.value.ledger <==> k in ledger) && (k in ledger ==> r.value.ledger[k] == ledger[k])
    ensures r.Ok? && r.value.message.None? ==> r.value.ledger == ledger
    ensures r.Ok? && r.value.message.Some? ==>
      var acc := ledger[(sender, DenomToKey(denom))];
      var vested := VestedAmount(acc.vestingSchedule, now);
      vested.Ok? && acc.claimedAmount < vested.value &&
      r.value.message.value == TransferMsg(acc.vestingDenom, recipient, vested.value - acc.claimedAmount) &&
      (vested.value == acc.vestingAmount ==> (sender, DenomToKey(denom)) !in r.value.ledger) &&
      (vested.value != acc.vestingAmount ==> (sender, DenomToKey(denom)) in r.value.ledger && r.value.ledger[(sender, DenomToKey(denom))] == acc.(claimedAmount := vested.value))
  {
    var key := (sender, DenomToKey(denom));
    if key !in ledger then Err(GenericErr(NOT_FOUND))
    else
      var acc := ledger[key];
      match VestedAmount(acc.vestingSchedule, now)
      case Err(e) => Err(e)
      case Ok(vested) =>
        match CheckedSub(vested, acc.claimedAmount)
        case Err(e) => Err(e)
        case Ok(claimable) =>
          if claimable == 0 then Ok(StepOutcome(ledger, None))
          else
            var updated := acc.(claimedAmount := vested);
            var ledger' := if updated.claimedAmount == updated.vestingAmount then ledger - {key} else ledger[key := updated];
            Ok(StepOutcome(ledger', Some(TransferMsg(acc.vestingDenom, recipient, claimable))))
  }

  /** `claim` over the requested denominations, in order: each iteration sees
      the previous ones' writes, and any failure fails the whole call. */
  function ClaimAll(ledger: Ledger, sender: Addr, recipient: Addr, denoms: seq<Denom>, now: u64): (r: Result<(Ledger, seq<CosmosMsg>)>)
    ensures r.Ok? ==> |r.value.1| <= |denoms|
    ensures r.Ok? ==> forall k :: k in r.value.0 ==> k in ledger
    decreases |denoms|
  {
    if denoms == [] then Ok((ledger, []))
    else
      match ClaimStep(ledger, sender, recipient, denoms[0], now)
      case Err(e) => Err(e)
      case Ok(step) =>
        match ClaimAll(step.ledger, sender, recipient, denoms[1..], now)
        case Err(e) => Err(e)
        case Ok(rest) => Ok((rest.0, OptionToSeq(step.message) + rest.1))
  }

  /** A requested denomination without an entry fails the whole claim, even
      after earlier denominations succeeded: a step never adds an entry, so
      the missing one is still missing when its turn comes. */
  lemma {:induction false} ClaimAllMissingFails(ledger: Ledger, sender: Addr, recipient: Addr, denoms: seq<Denom>, now: u64, i: nat)
    requires i < |denoms| && (sender, DenomToKey(denoms[i])) !in ledger
    ensures ClaimAll(ledger, sender, recipient, denoms, now).Err?
    decreases i
  {
    var step := ClaimStep(ledger, sender, recipient, denoms[0], now);
    if i > 0 && step.Ok? {
      assert (sender, DenomToKey(denoms[i])) !in step.value.ledger;
      assert denoms[1..][i - 1] == denoms[i];
      ClaimAllMissingFails(step.value.ledger, sender, recipient, denoms[1..], now, i - 1);
    }
  }

  /** Puts already emitted messages in front of the rest of a claim. */
  function Prepend(ms: seq<CosmosMsg>, r: Result<(Ledger, seq<CosmosMsg>)>): (res: Result<(Ledger, seq<CosmosMsg>)>)
    ensures ms == [] ==> res == r
  {
    if r.Ok? then
      assert [] + r.value.1 == r.value.1;
      Ok((r.value.0, ms + r.value.1))
    else r
  }

  /** Prepending twice is prepending the concatenation. */
  lemma PrependTwice(ms: seq<CosmosMsg>, first: seq<CosmosMsg>, r: Result<(Ledger, seq<CosmosMsg>)>)
    ensures Prepend(ms, Prepend(first, r)) == Prepend(ms + first, r)
  {
    if r.Ok? {
      assert ms + (first + r.value.1) == (ms + first) + r.value.1;
    }
  }

  /** `ClaimAll` after a successful first step. */
  lemma ClaimAllCons(ledger: Ledger, sender: Addr, recipient: Addr, denoms: seq<Denom>, now: u64)
    requires denoms != [] && ClaimStep(ledger, sender, recipient, denoms[0], now).Ok?
    ensures var step := ClaimStep(ledger, sender, recipient, denoms[0], now).value;
      ClaimAll(ledger, sender, recipient, denoms, now) ==
        Prepend(OptionToSeq(step.message), ClaimAll(step.ledger, sender, recipient, denoms[1..], now))
  {
  }

  /** One turn of the claim loop, seen from the specification. */
  lemma ClaimAllUnfold(ledger: Ledger, sender: Addr, recipient: Addr, denoms: seq<Denom>, now: u64, ms: seq<CosmosMsg>)
    requires denoms != [] && ClaimStep(ledger, sender, recipient, denoms[0], now).Ok?
    ensures var step := ClaimStep(ledger, sender, recipient, denoms[0], now).value;
      Prepend(ms, ClaimAll(ledger, sender, recipient, denoms, now)) ==
      Prepend(ms + OptionToSeq(step.message), ClaimAll(step.ledger, sender, recipient, denoms[1..], now))
  {
    var step := ClaimStep(ledger, sender, recipient, denoms[0], now).value;
    ClaimAllCons(ledger, sender, recipient, denoms, now);
    PrependTwice(ms, OptionToSeq(step.message), ClaimAll(step.ledger, sender, recipient, denoms[1..], now));
  }

  /** A claim keeps the ledger invariant: every amount it pays had vested, and
      an entry it leaves behind is still partly unclaimed. */
  lemma ClaimStepValid(ledger: Ledger, sender: Addr, recipient: Addr, denom: Denom, now: u64)
    requires LedgerValid(ledger, now)
    requires ClaimStep(ledger, sender, recipient, denom, now).Ok?
    ensures LedgerValid(ClaimStep(ledger, sender, recipient, denom, now).value.ledger, now)
  {
    var key := (sender, DenomToKey(denom));
    var acc := ledger[key];
    var s := acc.vestingSchedule;
    VestedAmountMatchesCurve(s, now);
    CurveBounded(s, now);
  }

  lemma {:induction false} ClaimAllValid(ledger: Ledger, sender: Addr, recipient: Addr, denoms: seq<Denom>, now: u64)
    requires LedgerValid(ledger, now)
    requires ClaimAll(ledger, sender, recipient, denoms, now).Ok?
    ensures LedgerValid(ClaimAll(ledger, sender, recipient, denoms, now).value.0, now)
    decreases |denoms|
  {
    if denoms != [] {
      ClaimStepValid(ledger, sender, recipient, denoms[0], now);
      var step := ClaimStep(ledger, sender, recipient, denoms[0], now).value;
      ClaimAllValid(step.ledger, sender, recipient, denoms[1..], now);
    }
  }

  /** The entries under `keys` that are present have nothing left to claim at
      `now`: their claimed amount is their vested amount. */
  ghost predicate Settled(ledger: Ledger, keys: set<Key>, now: u64)
  {
    forall k :: k in keys && k in ledger ==> VestedAmount(ledger[k].vestingSchedule, now) == Ok(ledger[k].claimedAmount)
  }

  function KeysOf(sender: Addr, denoms: seq<Denom>): set<Key>
  {
    set d | d in denoms :: (sender, DenomToKey(d))
  }

  /** After a successful claim, every requested entry that remains is
      settled, and entries that were settled stay settled. */
  lemma {:induction false} ClaimAllSettles(ledger: Ledger, sender: Addr, recipient: Addr, denoms: seq<Denom>, now: u64, done: set<Key>)
    requires Settled(ledger, done, now)
    requires ClaimAll(ledger, sender, recipient, denoms, now).Ok?
    ensures Settled(ClaimAll(ledger, sender, recipient, denoms, now).value.0, done + KeysOf(sender, denoms), now)
    decreases |denoms|
  {
    if denoms == [] {
      assert KeysOf(sender, denoms) == {};
    } else {
      var key := (sender, DenomToKey(denoms[0]));
      var step := ClaimStep(ledger, sender, recipient, denoms[0], now).value;
      assert Settled(step.ledger, done + {key}, now);
      ClaimAllSettles(step.ledger, sender, recipient, denoms[1..], now, done + {key});
      assert KeysOf(sender, denoms) == {key} + KeysOf(sender, denoms[1..]);
    }
  }

  /** On a ledger whose requested entries are settled, a claim either fails
      (an entry is missing) or changes nothing and pays nothing. */
  lemma {:induction false} SettledClaimIsQuiet(ledger: Ledger, sender: Addr, recipient: Addr, denoms: seq<Denom>, now: u64)
    requires Settled(ledger, KeysOf(sender, denoms), now)
    ensures ClaimAll(ledger, sender, recipient, denoms, now).Ok? ==> ClaimAll(ledger, sender, recipient, denoms, now).value == (ledger, [])
    ensures ClaimAll(ledger, sender, recipient, denoms, now).Ok? <==> forall d :: d in denoms ==> (sender, DenomToKey(d)) in ledger
    decreases |denoms|
  {
    if denoms != [] {
      assert KeysOf(sender, denoms) == {(sender, DenomToKey(denoms[0]))} + KeysOf(sender, denoms[1..]);
      SettledClaimIsQuiet(ledger, sender, recipient, denoms[1..], now);
      assert forall d :: d in denoms ==> d == denoms[0] || d in denoms[1..];
    }
  }

  /** Claiming twice at the same block time: the second claim either fails or
      changes nothing and pays nothing. */
  lemma ClaimIdempotent(ledger: Ledger, sender: Addr, recipient: Addr, denoms: seq<Denom>, now: u64)
    requires ClaimAll(ledger, sender, recipient, denoms, now).Ok?
    ensures var once := ClaimAll(ledger, sender, recipient, denoms, now).value.0;
      var twice := ClaimAll(once, sender, recipient, denoms, now);
      twice.Ok? ==> twice.value == (once, [])
  {
    ClaimAllSettles(ledger, sender, recipient, denoms, now, {});
    var once := ClaimAll(ledger, sender, recipient, denoms, now).value.0;
    assert {} + KeysOf(sender, denoms) == KeysOf(sender, denoms);
    SettledClaimIsQuiet(once, sender, recipient, denoms, now);
  }

  /** What deregistration pays out of a grant at `now`: the vested but
      unclaimed part and the part that has not vested. */
  datatype Settlement = Settlement(vested: u128, claimable: u128, left: u128)

  /** The three amounts `deregister_vesting_account` computes, each a checked
      operation. Whatever succeeds splits the unclaimed remainder of the
      grant exactly in two; on a ledger that keeps its invariant only a
      failing `vested_amount` can make it fail. */
  function Settle(acc: VestingAccount, now: u64): (r: Result<Settlement>)
    ensures r.Ok? ==> r.value.claimable + r.value.left + acc.claimedAmount == acc.vestingAmount
    ensures r.Ok? ==> VestedAmount(acc.vestingSchedule, now) == Ok(r.value.vested)
    ensures AccountValid(acc, now) && VestedAmount(acc.vestingSchedule, now).Ok? ==> r.Ok?
  {
    match VestedAmount(acc.vestingSchedule, now)
    case Err(e) => Err(e)
    case Ok(vested) =>
      match CheckedSub(vested, acc.claimedAmount)
      case Err(e) => Err(e)
      case Ok(claimable) =>
        match CheckedSub(acc.vestingAmount, vested)
        case Err(e) =>
          SettleValid(acc, now);
          Err(e)
        case Ok(left) => Ok(Settlement(vested, claimable, left))
  }

  lemma SettleValid(acc: VestingAccount, now: u64)
    ensures AccountValid(acc, now) && VestedAmount(acc.vestingSchedule, now).Ok? ==>
      acc.claimedAmount <= VestedAmount(acc.vestingSchedule, now).value <= acc.vestingAmount
  {
    if AccountValid(acc, now) {
      VestedAmountMatchesCurve(acc.vestingSchedule, now);
      CurveBounded(acc.vestingSchedule, now);
    }
  }

  /** A transfer instruction for a non-zero part; nothing for a zero one. */
  function PayIfNonZero(denom: Denom, recipient: Addr, amount: u128): (ms: seq<CosmosMsg>)
    ensures SumAmounts(ms) == amount
    ensures amount == 0 <==> ms == []
  {
    if amount == 0 then [] else [TransferMsg(denom, recipient, amount)]
  }

  /** One row of the listing: the stored record with its vested and
      claimable amounts at `now`. */
  datatype VestingData = VestingData(
    masterAddress: Option<Addr>,
    vestingDenom: Denom,
    vestingAmount: u128,
    vestedAmount: u128,
    vestingSchedule: VestingSchedule,
    claimableAmount: u128)

  function EntryView(acc: VestingAccount, now: u64): (r: Result<VestingData>)
    ensures r.Ok? ==> VestedAmount(acc.vestingSchedule, now) == Ok(r.value.vestedAmount)
    ensures r.Ok? ==> r.value.claimableAmount + acc.claimedAmount == r.value.vestedAmount
    ensures r.Ok? ==> r.value.vestingDenom == acc.vestingDenom && r.value.vestingAmount == acc.vestingAmount
    ensures AccountValid(acc, now) && VestedAmount(acc.vestingSchedule, now).Ok? ==> r.Ok?
  {
    match VestedAmount(acc.vestingSchedule, now)
    case Err(e) => Err(e)
    case Ok(vested) =>
      match CheckedSub(vested, acc.claimedAmount)
      case Err(e) =>
        SettleValid(acc, now);
        Err(e)
      case Ok(claimable) =>
        Ok(VestingData(acc.masterAddress, acc.vestingDenom, acc.vestingAmount, vested, acc.vestingSchedule, claimable))
  }

  /** The page size: ten by default, never more than thirty. */
  function QueryLimit(limit: Option<nat>): (n: nat)
    ensures n <= MAX_LIMIT
    ensures limit.None? ==> n == DEFAULT_LIMIT
    ensures limit.Some? ==> n == Min(limit.value, MAX_LIMIT)
  {
    Min(UnwrapOr(limit, DEFAULT_LIMIT), MAX_LIMIT)
  }

  /** `VESTING_ACCOUNTS.prefix(address)`: one beneficiary's records, by
      denomination key. */
  function Owned(ledger: Ledger, address: Addr): (owned: map<string, VestingAccount>)
    ensures forall k :: k in owned <==> (address, k) in ledger
    ensures forall k :: k in owned ==> owned[k] == ledger[(address, k)]
  {
    map k | k in ledger.Keys && k.0 == address :: k.1 := ledger[k]
  }

  /** The denomination keys a listing for `address` may show: those strictly
      after `startAfter`'s key. */
  function Candidates(ledger: Ledger, address: Addr, startAfter: Option<Denom>): (keys: set<string>)
    ensures forall k :: k in keys <==> (address, k) in ledger && (startAfter.Some? ==> KeyLess(DenomToKey(startAfter.value), k))
  {
    var owned := Owned(ledger, address);
    set k | k in owned.Keys && (startAfter.Some? ==> KeyLess(DenomToKey(startAfter.value), k))
  }

  /** The ledger keys of a listing's rows, in order. */
  function RowKeys(rows: seq<VestingData>): (keys: seq<string>)
    ensures |keys| == |rows|
    ensures forall i :: 0 <= i < |rows| ==> keys[i] == DenomToKey(rows[i].vestingDenom)
  {
    if rows == [] then [] else [DenomToKey(rows[0].vestingDenom)] + RowKeys(rows[1..])
  }

  /** The listing loop's invariant: `keys` are, in ascending order, the
      smallest candidates, `rows` their views, and `remaining` holds the rest
      of the candidates, all larger. */
  ghost predicate ListingSoFar(owned: map<string, VestingAccount>, cands: set<string>, remaining: set<string>,
                               keys: seq<string>, rows: seq<VestingData>, now: u64)
  {
    ListingCovers(owned, cands, remaining, keys) && ListingRows(owned, keys, rows, now) && ListingSorted(remaining, keys)
  }

  /** The picked keys and the remaining ones split the candidates. */
  ghost predicate ListingCovers(owned: map<string, VestingAccount>, cands: set<string>, remaining: set<string>, keys: seq<string>)
  {
    remaining <= cands && cands <= owned.Keys && |remaining| + |keys| == |cands| &&
    (forall i :: 0 <= i < |keys| ==> keys[i] in cands && keys[i] !in remaining) &&
    (forall k :: k in cands && k !in remaining ==> k in keys)
  }

  /** Each row is the view of its key's entry. */
  ghost predicate ListingRows(owned: map<string, VestingAccount>, keys: seq<string>, rows: seq<VestingData>, now: u64)
  {
    |keys| == |rows| &&
    forall i :: 0 <= i < |keys| ==> keys[i] in owned && EntryView(owned[keys[i]], now) == Ok(rows[i])
  }

  /** The picked keys ascend and precede every remaining one. */
  ghost predicate ListingSorted(remaining: set<string>, keys: seq<string>)
  {
    (forall i, j :: 0 <= i < j < |keys| ==> KeyLess(keys[i], keys[j])) &&
    (forall k, i :: k in remaining && 0 <= i < |keys| ==> KeyLess(keys[i], k))
  }

  lemma CoversStep(owned: map<string, VestingAccount>, cands: set<string>, remaining: set<string>, keys: seq<string>, key: string)
    requires ListingCovers(owned, cands, remaining, keys) && key in remaining
    ensures ListingCovers(owned, cands, remaining - {key}, keys + [key])
  {
    var keys', remaining' := keys + [key], remaining - {key};
    assert |remaining'| == |remaining| - 1;
    forall i | 0 <= i < |keys'|
      ensures keys'[i] in cands && keys'[i] !in remaining'
    {
      if i < |keys| {
        assert keys'[i] == keys[i];
      }
    }
    forall k | k in cands && k !in remaining'
      ensures k in keys'
    {
      if k != key { assert k in keys; }
    }
  }

  lemma RowsStep(owned: map<string, VestingAccount>, keys: seq<string>, rows: seq<VestingData>, now: u64, key: string)
    requires ListingRows(owned, keys, rows, now) && key in owned && EntryView(owned[key], now).Ok?
    ensures ListingRows(owned, keys + [key], rows + [EntryView(owned[key], now).value], now)
  {
    var keys', rows' := keys + [key], rows + [EntryView(owned[key], now).value];
    forall i | 0 <= i < |keys'|
      ensures keys'[i] in owned && EntryView(owned[keys'[i]], now) == Ok(rows'[i])
    {
      if i < |keys| {
        assert keys'[i] == keys[i] && rows'[i] == rows[i];
      }
    }
  }

  lemma SortedStep(remaining: set<string>, keys: seq<string>, key: string)
    requires ListingSorted(remaining, keys)
    requires key in remaining && forall k :: k in remaining && k != key ==> KeyLess(key, k)
    ensures ListingSorted(remaining - {key}, keys + [key])
  {
    var keys' := keys + [key];
    forall i, j | 0 <= i < j < |keys'|
      ensures KeyLess(keys'[i], keys'[j])
    {
      assert keys'[i] == keys[i];
      if j < |keys| {
        assert keys'[j] == keys[j];
      }
    }
    forall k, i | k in remaining - {key} && 0 <= i < |keys'|
      ensures KeyLess(keys'[i], k)
    {
      if i < |keys| {
        assert keys'[i] == keys[i];
      }
    }
  }

  lemma ListingStep(owned: map<string, VestingAccount>, cands: set<string>, remaining: set<string>,
                    keys: seq<string>, rows: seq<VestingData>, now: u64, key: string)
    requires ListingSoFar(owned, cands, remaining, keys, rows, now)
    requires key in remaining && forall k :: k in remaining && k != key ==> KeyLess(key, k)
    requires EntryView(owned[key], now).Ok?
    ensures ListingSoFar(owned, cands, remaining - {key}, keys + [key], rows + [EntryView(owned[key], now).value], now)
  {
    CoversStep(owned, cands, remaining, keys, key);
    RowsStep(owned, keys, rows, now, key);
    SortedStep(remaining, keys, key);
  }

  /** The rows' keys are the ones the listing picked. */
  lemma RowKeysOfListing(owned: map<string, VestingAccount>, keys: seq<string>, rows: seq<VestingData>, now: u64)
    requires |keys| == |rows|
    requires forall i :: 0 <= i < |keys| ==> keys[i] in owned && DenomToKey(owned[keys[i]].vestingDenom) == keys[i]
    requires forall i :: 0 <= i < |keys| ==> EntryView(owned[keys[i]], now) == Ok(rows[i])
    ensures RowKeys(rows) == keys
  {
    var rk := RowKeys(rows);
    forall i | 0 <= i < |keys|
      ensures rk[i] == keys[i]
    {
      assert rows[i].vestingDenom == owned[keys[i]].vestingDenom;
    }
  }

  /** The smallest key of a non-empty set, as the store's ascending range
      yields it first. */
  method SmallestKey(keys: set<string>) returns (m: string)
    requires keys != {}
    ensures m in keys
    ensures forall k :: k in keys && k != m ==> KeyLess(m, k)
  {
    m :| m in keys;
    var rest := keys - {m};
    while rest != {}
      invariant rest <= keys && m in keys && m !in rest
      invariant forall k :: k in keys && k !in rest && k != m ==> KeyLess(m, k)
      decreases |rest|
    {
      var k :| k in rest;
      KeyLessTotal(k, m);
      if KeyLess(k, m) {
        forall j | j in keys && j !in rest && j != k
          ensures KeyLess(k, j)
        {
          if j != m { KeyLessTransitive(k, m, j); }
        }
        m := k;
      }
      rest := rest - {k};
    }
  }

  /** The contract's storage: `VESTING_ACCOUNTS`. */
  class VestingContract {
    var accounts: Ledger

    /** `instantiate` stores nothing. */
    constructor ()
      ensures accounts == map[]
    {
      accounts := map[];
    }

    /** `register_vesting_account`: a grant is never merged into an existing
        one; a registration either fails and changes nothing, or adds exactly
        one record. */
    method Register(now: u64, master: Option<Addr>, address: Addr, denom: Denom, deposit: u128, schedule: VestingSchedule)
      returns (r: Result<seq<CosmosMsg>>)
      modifies this
      ensures (address, DenomToKey(denom)) in old(accounts) ==> r == Err(GenericErr("already exists"))
      ensures r.Ok? <==> (address, DenomToKey(denom)) !in old(accounts) && CheckSchedule(schedule, deposit, now).Ok?
      ensures r.Ok? ==> r.value == [] && accounts == old(accounts)[(address, DenomToKey(denom)) := NewAccount(master, address, denom, deposit, schedule)]
      ensures r.Err? ==> accounts == old(accounts)
      ensures old(LedgerValid(accounts, now)) ==> LedgerValid(accounts, now)
    {
      var key := (address, DenomToKey(denom));
      if key in accounts {
        return Err(GenericErr("already exists"));
      }
      var check := CheckSchedule(schedule, deposit, now);
      if check.Err? {
        return Err(check.error);
      }
      NewAccountValid(master, address, denom, deposit, schedule, now);
      accounts := accounts[key := NewAccount(master, address, denom, deposit, schedule)];
      r := Ok([]);
    }

    /** `execute`'s `RegisterVestingAccount` arm: exactly one native coin
        must be attached, and it is the deposit. */
    method RegisterVestingAccount(now: u64, funds: seq<Coin>, master: Option<Addr>, address: Addr, schedule: VestingSchedule)
      returns (r: Result<seq<CosmosMsg>>)
      modifies this
      ensures |funds| != 1 ==> r == Err(GenericErr("must deposit only one type of token"))
      ensures r.Ok? <==> |funds| == 1 && (address, DenomToKey(Native(funds[0].denom))) !in old(accounts) &&
                         CheckSchedule(schedule, funds[0].amount, now).Ok?
      ensures r.Ok? ==> accounts == old(accounts)[(address, DenomToKey(Native(funds[0].denom))) :=
                                   NewAccount(master, address, Native(funds[0].denom), funds[0].amount, schedule)]
      ensures r.Err? ==> accounts == old(accounts)
      ensures old(LedgerValid(accounts, now)) ==> LedgerValid(accounts, now)
    {
      if |funds| != 1 {
        return Err(GenericErr("must deposit only one type of token"));
      }
      r := Register(now, master, address, Native(funds[0].denom), funds[0].amount, schedule);
    }

    /** `receive_cw20`: the calling token contract is the denomination and
        the forwarded amount the deposit; `hook == None` stands for a payload
        that does not decode. */
    method ReceiveCw20(now: u64, tokenContract: Addr, amount: u128, hook: Option<Cw20HookMsg>)
      returns (r: Result<seq<CosmosMsg>>)
      modifies this
      ensures hook.None? ==> r == Err(GenericErr("invalid cw20 hook message"))
      ensures r.Ok? <==> hook.Some? && (hook.value.address, DenomToKey(Cw20(tokenContract))) !in old(accounts) &&
                         CheckSchedule(hook.value.vestingSchedule, amount, now).Ok?
      ensures r.Ok? ==> accounts == old(accounts)[(hook.value.address, DenomToKey(Cw20(tokenContract))) :=
                                   NewAccount(hook.value.masterAddress, hook.value.address, Cw20(tokenContract), amount, hook.value.vestingSchedule)]
      ensures r.Err? ==> accounts == old(accounts)
      ensures old(LedgerValid(accounts, now)) ==> LedgerValid(accounts, now)
    {
      if hook.None? {
        return Err(GenericErr("invalid cw20 hook message"));
      }
      var msg := hook.value;
      r := Register(now, msg.masterAddress, msg.address, Cw20(tokenContract), amount, msg.vestingSchedule);
    }

    /** `claim`: the loop over the requested denominations, proved to compute
        `ClaimAll`; on failure nothing is written. */
    method Claim(now: u64, sender: Addr, denoms: seq<Denom>, recipient: Option<Addr>)
      returns (r: Result<seq<CosmosMsg>>)
      modifies this
      ensures var spec := ClaimAll(old(accounts), sender, UnwrapOr(recipient, sender), denoms, now);
        (spec.Ok? ==> r == Ok(spec.value.1) && accounts == spec.value.0) &&
        (spec.Err? ==> r == Err(spec.error) && accounts == old(accounts))
      ensures old(LedgerValid(accounts, now)) ==> LedgerValid(accounts, now)
    {
      var to := UnwrapOr(recipient, sender);
      var ledger := accounts;
      var messages: seq<CosmosMsg> := [];
      var i := 0;
      assert denoms[0..] == denoms;
      while i < |denoms|
        invariant 0 <= i <= |denoms|
        invariant accounts == old(accounts)
        invariant ClaimAll(accounts, sender, to, denoms, now) == Prepend(messages, ClaimAll(ledger, sender, to, denoms[i..], now))
      {
        assert denoms[i..][1..] == denoms[i + 1..] && denoms[i..][0] == denoms[i];
        var step := ClaimStep(ledger, sender, to, denoms[i], now);
        if step.Err? {
          return Err(step.error);
        }
        ClaimAllUnfold(ledger, sender, to, denoms[i..], now, messages);
        ledger := step.value.ledger;
        messages := messages + OptionToSeq(step.value.message);
        i := i + 1;
      }
      assert denoms[i..] == [] && messages + [] == messages;
      assert ClaimAll(accounts, sender, to, denoms, now) == Ok((ledger, messages));
      if LedgerValid(accounts, now) {
        ClaimAllValid(accounts, sender, to, denoms, now);
      }
      accounts := ledger;
      r := Ok(messages);
    }

    /** `deregister_vesting_account`: only the grant's master may end it; the
        record is removed, the vested but unclaimed part goes to the vested
        recipient (default: the beneficiary) and the unvested part to the left
        recipient (default: the caller), each only when non-zero. Together
        they pay out exactly what was still unclaimed. */
    method Deregister(now: u64, sender: Addr, address: Addr, denom: Denom,
                      vestedRecipient: Option<Addr>, leftRecipient: Option<Addr>)
      returns (r: Result<seq<CosmosMsg>>)
      modifies this
      ensures (address, DenomToKey(denom)) !in old(accounts) ==> r == Err(GenericErr(NOT_FOUND))
      ensures var key := (address, DenomToKey(denom));
        key in old(accounts) && old(accounts)[key].masterAddress != Some(sender) ==> r == Err(GenericErr("unauthorized"))
      ensures var key := (address, DenomToKey(denom));
        r.Ok? <==> key in old(accounts) && old(accounts)[key].masterAddress == Some(sender) && Settle(old(accounts)[key], now).Ok?
      ensures var key := (address, DenomToKey(denom));
        r.Ok? ==>
          var acc := old(accounts)[key];
          var st := Settle(acc, now).value;
          accounts == old(accounts) - {key} &&
          r.value == PayIfNonZero(acc.vestingDenom, UnwrapOr(vestedRecipient, address), st.claimable) +
                     PayIfNonZero(acc.vestingDenom, UnwrapOr(leftRecipient, sender), st.left) &&
          SumAmounts(r.value) + acc.claimedAmount == acc.vestingAmount
      ensures r.Err? ==> accounts == old(accounts)
      ensures old(LedgerValid(accounts, now)) ==> LedgerValid(accounts, now)
    {
      var key := (address, DenomToKey(denom));
      if key !in accounts {
        return Err(GenericErr(NOT_FOUND));
      }
      var acc := accounts[key];
      if acc.masterAddress.None? || acc.masterAddress.value != sender {
        return Err(GenericErr("unauthorized"));
      }
      var settlement := Settle(acc, now);
      if settlement.Err? {
        return Err(settlement.error);
      }
      var st := settlement.value;
      var first := PayIfNonZero(acc.vestingDenom, UnwrapOr(vestedRecipient, address), st.claimable);
      var second := PayIfNonZero(acc.vestingDenom, UnwrapOr(leftRecipient, sender), st.left);
      SumAmountsAppend(first, second);
      accounts := accounts - {key};
      r := Ok(first + second);
    }

    /** `vesting_account` query: at most `QueryLimit(limit)` of the
        beneficiary's grants, those with the smallest keys after
        `startAfter`, in ascending key order, each with its vested and
        claimable amounts. It writes nothing. */
    method QueryVestingAccount(now: u64, address: Addr, startAfter: Option<Denom>, limit: Option<nat>)
      returns (r: Result<seq<VestingData>>)
      requires KeysConsistent(accounts)
      ensures r.Ok? ==> |r.value| == Min(QueryLimit(limit), |Candidates(accounts, address, startAfter)|)
      ensures r.Ok? ==> forall i :: 0 <= i < |r.value| ==>
        RowKeys(r.value)[i] in Candidates(accounts, address, startAfter) &&
        EntryView(accounts[(address, RowKeys(r.value)[i])], now) == Ok(r.value[i])
      ensures r.Ok? ==> forall i, j :: 0 <= i < j < |r.value| ==> KeyLess(RowKeys(r.value)[i], RowKeys(r.value)[j])
      ensures r.Ok? ==> forall k, i :: k in Candidates(accounts, address, startAfter) && k !in RowKeys(r.value) && 0 <= i < |r.value| ==>
        KeyLess(RowKeys(r.value)[i], k)
      ensures (forall k :: k in Candidates(accounts, address, startAfter) ==> EntryView(accounts[(address, k)], now).Ok?) ==> r.Ok?
      ensures r.Err? ==> exists k :: k in Candidates(accounts, address, startAfter) && EntryView(accounts[(address, k)], now).Err?
    {
      var lim := QueryLimit(limit);
      var owned := Owned(accounts, address);
      var cands := Candidates(accounts, address, startAfter);
      var remaining := cands;
      var rows: seq<VestingData> := [];
      ghost var keys: seq<string> := [];
      while |rows| < lim && remaining != {}
        invariant |rows| <= lim
        invariant ListingSoFar(owned, cands, remaining, keys, rows, now)
        decreases |remaining|
      {
        var key := SmallestKey(remaining);
        var view := EntryView(owned[key], now);
        if view.Err? {
          return Err(view.error);
        }
        ListingStep(owned, cands, remaining, keys, rows, now, key);
        keys := keys + [key];
        rows := rows + [view.value];
        remaining := remaining - {key};
      }
      RowKeysOfListing(owned, keys, rows, now);
      r := Ok(rows);
    }
  }
}
