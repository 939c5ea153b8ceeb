/** The single-account vesting contract: one owner, one grant of `uluna`
    (or, with staking on, of the bLuna its deposit is bonded into), claimed
    by the owner as it vests. */
module LunaBlunaContract {
  import opened Common
  import opened Decimal
  import opened LunaBlunaState

  const VESTING_DENOM: string := "uluna"
  const BOND_REPLY_ID: nat := 1

  datatype StakingInfo = StakingInfo(blunaToken: Addr, hubContract: Addr, rewardContract: Addr, validator: string)

  datatype Config = Config(ownerAddress: Addr, stakingEnabled: bool, stakingInfo: Option<StakingInfo>)

  datatype VestingInfo = VestingInfo(
    vestingDenom: Denom,
    vestingAmount: u128,
    vestingSchedule: RatioSchedule,
    claimedAmount: u128)

  datatype InstantiateMsg = InstantiateMsg(
    ownerAddress: Addr,
    enableStaking: bool,
    stakingInfo: Option<StakingInfo>,
    vestingSchedule: RatioSchedule)

  /** The hub's `Bond` call carrying the deposit, sent so that the host
      replies to it with `replyId`. */
  datatype BondSubMsg = BondSubMsg(hubContract: Addr, validator: string, funds: seq<Coin>, replyId: nat)

  datatype VestingInfoResponse = VestingInfoResponse(
    ownerAddress: Addr,
    vestingDenom: Denom,
    vestingAmount: u128,
    vestedAmount: u128,
    vestingSchedule: RatioSchedule,
    claimableAmount: u128,
    claimableStakingRewards: u128)

  /** What a stored grant satisfies at block time `now`: its schedule is one
      the corrected validation accepts, no more than the grant has been
      claimed, and a claim only ever happened once the schedule started and
      took no more than has vested by `now`. */
  ghost predicate InfoValid(v: VestingInfo, now: u64)
  {
    Accepted(v.vestingSchedule) && v.claimedAmount <= v.vestingAmount &&
    (v.claimedAmount > 0 ==>
       v.vestingSchedule.startTime.seconds <= now &&
       VestedAmount(v.vestingSchedule, now, v.vestingAmount).Ok? &&
       v.claimedAmount <= VestedAmount(v.vestingSchedule, now, v.vestingAmount).value)
  }

  /** The invariant survives the passage of time. */
  lemma InfoValidLater(v: VestingInfo, now: u64, later: u64)
    requires InfoValid(v, now) && now <= later
    ensures InfoValid(v, later)
  {
    if v.claimedAmount > 0 {
      ValidatedMonotone(v.vestingSchedule, now, later, v.vestingAmount);
    }
  }

  /** A claim takes the grant to exactly what has vested, which keeps it
      valid: a successful vesting query means the schedule has started, and
      an accepted schedule never shows more than the grant as vested. */
  lemma ClaimKeepsValid(v: VestingInfo, now: u64)
    requires InfoValid(v, now) && VestedAmount(v.vestingSchedule, now, v.vestingAmount).Ok?
    ensures v.vestingSchedule.startTime.seconds <= now
    ensures InfoValid(v.(claimedAmount := VestedAmount(v.vestingSchedule, now, v.vestingAmount).value), now)
  {
    ValidatedBounded(v.vestingSchedule, now, v.vestingAmount);
  }

  /** Once a valid grant's schedule has started, asking what has vested
      succeeds and shows at least what was claimed: a claim by the owner can
      then fail only with "nothing to claim". */
  lemma StartedGrantVests(v: VestingInfo, now: u64)
    requires InfoValid(v, now) && v.vestingSchedule.startTime.seconds <= now
    ensures VestedAmount(v.vestingSchedule, now, v.vestingAmount).Ok?
    ensures v.claimedAmount <= VestedAmount(v.vestingSchedule, now, v.vestingAmount).value <= v.vestingAmount
  {
    ValidatedBounded(v.vestingSchedule, now, v.vestingAmount);
  }

  /** The grant of the schedule that `AsWrittenOvershoots` shows overshooting,
      once claimed after two intervals: at the end less has vested than was
      claimed, so the `vested - claimed` of a claim or a query underflows.
      This is why the grant invariant is kept only for schedules the
      corrected check accepts. */
  lemma OverclaimedGrant()
    ensures var s := RatioSchedule(Parsed(100), Parsed(115), Parsed(5), 600_000_000_000_000_000);
            var v := VestingInfo(Native(VESTING_DENOM), 1_000_000, s, 1_200_000);
            AcceptedAsWritten(s) && !Accepted(s) &&
            VestedAmount(s, 110, 1_000_000) == Ok(v.claimedAmount) &&
            VestedAmount(s, 115, 1_000_000).Ok? && VestedAmount(s, 115, 1_000_000).value < v.claimedAmount
  {
    AsWrittenOvershoots();
    var s := RatioSchedule(Parsed(100), Parsed(115), Parsed(5), 600_000_000_000_000_000);
    ValidateAsWrittenAccepts(s, 100, 1_000_000);
    assert NumIntervals(s) == 3;
  }

  /** The contract's storage: the `CONFIG` and `VESTING_INFO` items, `None`
      until `instantiate` saves them. A stored schedule is one the code as
      written accepts; the grant invariant is kept for those the corrected
      check accepts. */
  class VestingContract {
    var config: Option<Config>
    var vesting: Option<VestingInfo>

    ghost predicate Valid(now: u64)
      reads this
    {
      (config.Some? <==> vesting.Some?) &&
      (config.Some? ==> (config.value.stakingEnabled ==> config.value.stakingInfo.Some?)) &&
      (vesting.Some? ==> AcceptedAsWritten(vesting.value.vestingSchedule)) &&
      (vesting.Some? && Accepted(vesting.value.vestingSchedule) ==> InfoValid(vesting.value, now))
    }

    /** Empty storage, before `instantiate`. */
    constructor ()
      ensures config.None? && vesting.None?
    {
      config := None;
      vesting := None;
    }

    /** `instantiate`: exactly one coin, of `uluna`, and a schedule that
        validates, as the code has it, against its amount. Without staking the grant is the
        deposit itself; with staking it is the bLuna the deposit is bonded
        into, recorded as zero until `Reply` fills it in. */
    method Instantiate(now: u64, funds: seq<Coin>, msg: InstantiateMsg) returns (r: Result<seq<BondSubMsg>>)
      modifies this
      ensures !(|funds| == 1 && funds[0].denom == VESTING_DENOM) ==> r == Err(GenericErr("only uluna is allowed to be deposited"))
      ensures |funds| == 1 && funds[0].denom == VESTING_DENOM && ValidateAsWritten(msg.vestingSchedule, now, funds[0].amount).Err? ==>
                r == Err(ValidateAsWritten(msg.vestingSchedule, now, funds[0].amount).error)
      ensures r.Ok? <==> (|funds| == 1 && funds[0].denom == VESTING_DENOM && ValidateAsWritten(msg.vestingSchedule, now, funds[0].amount).Ok? &&
                          (msg.enableStaking ==> msg.stakingInfo.Some?))
      ensures r.Ok? ==> config == Some(Config(msg.ownerAddress, msg.enableStaking, msg.stakingInfo))
      ensures r.Ok? && !msg.enableStaking ==>
                r.value == [] && vesting == Some(VestingInfo(Native(VESTING_DENOM), funds[0].amount, msg.vestingSchedule, 0))
      ensures r.Ok? && msg.enableStaking ==>
                var info := msg.stakingInfo.value;
                r.value == [BondSubMsg(info.hubContract, info.validator, funds, BOND_REPLY_ID)] &&
                vesting == Some(VestingInfo(Cw20(info.blunaToken), 0, msg.vestingSchedule, 0))
      ensures r.Ok? ==> Valid(now)
      ensures r.Ok? && Validate(msg.vestingSchedule, now, funds[0].amount).Ok? ==> InfoValid(vesting.value, now)
      ensures r.Err? ==> config == old(config) && vesting == old(vesting)
    {
      if |funds| != 1 || funds[0].denom != VESTING_DENOM {
        return Err(GenericErr("only uluna is allowed to be deposited"));
      }
      var deposit := funds[0];
      var check := ValidateAsWritten(msg.vestingSchedule, now, deposit.amount);
      if check.Err? {
        return Err(check.error);
      }
      ValidateAsWrittenAccepts(msg.vestingSchedule, now, deposit.amount);
      var messages: seq<BondSubMsg> := [];
      if msg.enableStaking {
        if msg.stakingInfo.None? {
          return Err(GenericErr("must provide staking_info to enable staking"));
        }
        var info := msg.stakingInfo.value;
        messages := messages + [BondSubMsg(info.hubContract, info.validator, funds, BOND_REPLY_ID)];
        vesting := Some(VestingInfo(Cw20(info.blunaToken), 0, msg.vestingSchedule, 0));
      } else {
        vesting := Some(VestingInfo(Native(VESTING_DENOM), deposit.amount, msg.vestingSchedule, 0));
      }
      config := Some(Config(msg.ownerAddress, msg.enableStaking, msg.stakingInfo));
      r := Ok(messages);
    }

    /** `reply` to the bond: only reply id 1 is accepted, and the grant's
        amount becomes the contract's bLuna balance (queried from the token
        contract; here a parameter). Nothing else changes. */
    method Reply(now: u64, id: nat, blunaBalance: u128) returns (r: Result<()>)
      modifies this
      ensures id != BOND_REPLY_ID ==> r == Err(GenericErr("unauthorized"))
      ensures r.Ok? <==> id == BOND_REPLY_ID && old(config).Some? && old(config).value.stakingInfo.Some? && old(vesting).Some?
      ensures r.Ok? ==> config == old(config) && vesting == Some(old(vesting).value.(vestingAmount := blunaBalance))
      ensures r.Err? ==> config == old(config) && vesting == old(vesting)
      ensures old(Valid(now)) && (old(vesting).Some? ==> old(vesting).value.claimedAmount == 0) ==> Valid(now)
    {
      if id != BOND_REPLY_ID {
        return Err(GenericErr("unauthorized"));
      }
      if config.None? {
        return Err(NotFound("Config"));
      }
      if config.value.stakingInfo.None? {
        return Err(Abort("called `Option::unwrap()` on a `None` value"));
      }
      if vesting.None? {
        return Err(NotFound("VestingInfo"));
      }
      vesting := Some(vesting.value.(vestingAmount := blunaBalance));
      r := Ok(());
    }

    /** `change_owner`: only the current owner may hand the grant over. */
    method ChangeOwner(now: u64, sender: Addr, newOwner: Addr) returns (r: Result<()>)
      modifies this
      ensures old(config).None? ==> r == Err(NotFound("Config"))
      ensures old(config).Some? && old(config).value.ownerAddress != sender ==> r == Err(GenericErr("unauthorized"))
      ensures r.Ok? <==> old(config).Some? && old(config).value.ownerAddress == sender
      ensures r.Ok? ==> config == Some(old(config).value.(ownerAddress := newOwner))
      ensures r.Err? ==> config == old(config)
      ensures vesting == old(vesting)
      ensures old(Valid(now)) ==> Valid(now)
    {
      if config.None? {
        return Err(NotFound("Config"));
      }
      if config.value.ownerAddress != sender {
        return Err(GenericErr("unauthorized"));
      }
      config := Some(config.value.(ownerAddress := newOwner));
      r := Ok(());
    }

    /** `claim`: owner only; everything vested and not yet claimed goes, in
        one transfer on the grant's rail, to `recipient` (default: the
        owner). Having nothing to claim is an error, not an empty success. */
    method Claim(now: u64, sender: Addr, recipient: Option<Addr>) returns (r: Result<seq<CosmosMsg>>)
      modifies this
      ensures old(config).Some? && old(config).value.ownerAddress != sender ==> r == Err(GenericErr("unauthorized"))
      ensures r.Ok? ==>
                old(config).Some? && old(config).value.ownerAddress == sender && old(vesting).Some? &&
                var v := old(vesting).value;
                var vested := VestedAmount(v.vestingSchedule, now, v.vestingAmount);
                vested.Ok? && v.claimedAmount < vested.value &&
                vesting == Some(v.(claimedAmount := vested.value)) &&
                r.value == [TransferMsg(v.vestingDenom, UnwrapOr(recipient, sender), vested.value - v.claimedAmount)]
      ensures (old(config).Some? && old(config).value.ownerAddress == sender && old(vesting).Some? &&
               VestedAmount(old(vesting).value.vestingSchedule, now, old(vesting).value.vestingAmount) == Ok(old(vesting).value.claimedAmount))
              ==> r == Err(GenericErr("nothing to claim"))
      ensures r.Ok? <==>
                old(config).Some? && old(config).value.ownerAddress == sender && old(vesting).Some? &&
                VestedAmount(old(vesting).value.vestingSchedule, now, old(vesting).value.vestingAmount).Ok? &&
                old(vesting).value.claimedAmount <
                  VestedAmount(old(vesting).value.vestingSchedule, now, old(vesting).value.vestingAmount).value
      ensures r.Err? ==> vesting == old(vesting)
      ensures config == old(config)
      ensures old(Valid(now)) ==> Valid(now)
    {
      var to := UnwrapOr(recipient, sender);
      if config.None? {
        return Err(NotFound("Config"));
      }
      if config.value.ownerAddress != sender {
        return Err(GenericErr("unauthorized"));
      }
      if vesting.None? {
        return Err(NotFound("VestingInfo"));
      }
      var v := vesting.value;
      var vested := VestedAmount(v.vestingSchedule, now, v.vestingAmount);
      if vested.Err? {
        return Err(vested.error);
      }
      var claimable := CheckedSub(vested.value, v.claimedAmount);
      if claimable.Err? {
        return Err(claimable.error);
      }
      if claimable.value == 0 {
        return Err(GenericErr("nothing to claim"));
      }
      if InfoValid(v, now) {
        ClaimKeepsValid(v, now);
      }
      vesting := Some(v.(claimedAmount := vested.value));
      r := Ok([TransferMsg(v.vestingDenom, to, claimable.value)]);
    }

    /** The `vesting_info` query. The uusd balance and the reward contract's
        accrued rewards are host queries, here parameters; they are summed
        only with staking on. It writes nothing. */
    method VestingAccount(now: u64, rewardsBalance: u128, accruedRewards: u128) returns (r: Result<VestingInfoResponse>)
      ensures r.Ok? ==>
                config.Some? && vesting.Some? &&
                var v := vesting.value;
                VestedAmount(v.vestingSchedule, now, v.vestingAmount) == Ok(r.value.vestedAmount) &&
                r.value.claimableAmount + v.claimedAmount == r.value.vestedAmount &&
                r.value.ownerAddress == config.value.ownerAddress &&
                r.value.vestingDenom == v.vestingDenom && r.value.vestingAmount == v.vestingAmount &&
                r.value.vestingSchedule == v.vestingSchedule &&
                r.value.claimableStakingRewards == (if config.value.stakingEnabled then rewardsBalance + accruedRewards else 0)
      ensures (Valid(now) && config.Some? && Accepted(vesting.value.vestingSchedule) &&
               vesting.value.vestingSchedule.startTime.seconds <= now &&
               rewardsBalance + accruedRewards < U128_LIMIT) ==> r.Ok?
    {
      if config.None? {
        return Err(NotFound("Config"));
      }
      if vesting.None? {
        return Err(NotFound("VestingInfo"));
      }
      var c, v := config.value, vesting.value;
      if Valid(now) && Accepted(v.vestingSchedule) && v.vestingSchedule.startTime.seconds <= now {
        ValidatedBounded(v.vestingSchedule, now, v.vestingAmount);
      }
      var vested := VestedAmount(v.vestingSchedule, now, v.vestingAmount);
      if vested.Err? {
        return Err(vested.error);
      }
      var claimable := CheckedSub(vested.value, v.claimedAmount);
      if claimable.Err? {
        return Err(claimable.error);
      }
      var rewards: u128 := 0;
      if c.stakingEnabled {
        if c.stakingInfo.None? {
          return Err(Abort("called `Option::unwrap()` on a `None` value"));
        }
        if rewardsBalance + accruedRewards >= U128_LIMIT {
          return Err(Abort("attempt to add with overflow"));
        }
        rewards := rewardsBalance + accruedRewards;
      }
      r := Ok(VestingInfoResponse(c.ownerAddress, v.vestingDenom, v.vestingAmount, vested.value,
                                  v.vestingSchedule, claimable.value, rewards));
    }
  }
}
