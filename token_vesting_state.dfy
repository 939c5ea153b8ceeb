/** The stored records of the multi-asset vesting ledger and the keys they are
    stored under. */
module TokenVestingState {
  import opened Common
  import opened TokenVestingSchedule

  /** One grant: a beneficiary's schedule for one denomination. */
  datatype VestingAccount = VestingAccount(
    masterAddress: Option<Addr>,
    address: Addr,
    vestingDenom: Denom,
    vestingAmount: u128,
    vestingSchedule: VestingSchedule,
    claimedAmount: u128)

  /** `VESTING_ACCOUNTS`: one record per (beneficiary, denomination key); a
      map holds at most one value per key, so grants for the same pair
      cannot coexist. */
  type Key = (Addr, string)
  type Ledger = map<Key, VestingAccount>

  const CW20_PREFIX: string := "cw20-"
  const NATIVE_PREFIX: string := "native-"

  /** `denom_to_key`: the rail's tag, a dash, then the token contract address
      or the bank denomination. */
  function DenomToKey(denom: Denom): (key: string)
    ensures KeyToDenom(key) == Some(denom)
  {
    match denom
    case Cw20(addr) =>
      assert (CW20_PREFIX + addr)[..|CW20_PREFIX|] == CW20_PREFIX;
      CW20_PREFIX + addr
    case Native(name) =>
      assert (NATIVE_PREFIX + name)[..|NATIVE_PREFIX|] == NATIVE_PREFIX;
      assert (NATIVE_PREFIX + name)[..|CW20_PREFIX|][0] != CW20_PREFIX[0];
      NATIVE_PREFIX + name
  }

  /** Reads a key back: the inverse of `DenomToKey`. */
  function KeyToDenom(key: string): Option<Denom>
  {
    if |key| >= |CW20_PREFIX| && key[..|CW20_PREFIX|] == CW20_PREFIX then Some(Cw20(key[|CW20_PREFIX|..]))
    else if |key| >= |NATIVE_PREFIX| && key[..|NATIVE_PREFIX|] == NATIVE_PREFIX then Some(Native(key[|NATIVE_PREFIX|..]))
    else None
  }

  /** Distinct denominations never share a ledger key. */
  lemma DenomToKeyInjective(a: Denom, b: Denom)
    ensures DenomToKey(a) == DenomToKey(b) ==> a == b
  {
    if DenomToKey(a) == DenomToKey(b) {
      assert Some(a) == KeyToDenom(DenomToKey(a)) == KeyToDenom(DenomToKey(b)) == Some(b);
    }
  }

  /** Every cw20 key sorts before every native key ('c' < 'n'), which is why
      a listing shows a beneficiary's cw20 grants first. */
  lemma Cw20KeysFirst(contract: Addr, name: string)
    ensures KeyLess(DenomToKey(Cw20(contract)), DenomToKey(Native(name)))
  {
    assert DenomToKey(Cw20(contract))[0] == 'c';
    assert DenomToKey(Native(name))[0] == 'n';
  }

  /** A record stored under `(address, key)` belongs to that beneficiary and
      that denomination. */
  ghost predicate KeysConsistent(ledger: Ledger)
  {
    forall k :: k in ledger ==> k.0 == ledger[k].address && k.1 == DenomToKey(ledger[k].vestingDenom)
  }

  /** What a stored grant satisfies at block time `now`: its schedule is one
      registration accepts for its deposit, some of it is still unclaimed
      (a fully claimed grant is removed), and no more than has vested by
      `now` has been claimed. */
  ghost predicate AccountValid(acc: VestingAccount, now: nat)
  {
    Registrable(acc.vestingSchedule, acc.vestingAmount) &&
    acc.claimedAmount < acc.vestingAmount &&
    acc.claimedAmount <= VestedCurve(acc.vestingSchedule, now)
  }

  ghost predicate LedgerValid(ledger: Ledger, now: nat)
  {
    KeysConsistent(ledger) && forall k :: k in ledger ==> AccountValid(ledger[k], now)
  }

  /** The invariant survives the passage of time: vesting only grows. */
  lemma LedgerValidLater(ledger: Ledger, now: nat, later: nat)
    requires LedgerValid(ledger, now) && now <= later
    ensures LedgerValid(ledger, later)
  {
    forall k | k in ledger
      ensures AccountValid(ledger[k], later)
    {
      CurveMonotone(ledger[k].vestingSchedule, now, later);
    }
  }
}
