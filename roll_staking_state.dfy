/** The stored records of the roll staking contract: one config, one record
    per staker, and one "roll" per whole `roll_unit` a staker holds, stored
    under the staker's address followed by the roll's index. */
module RollStakingState {
  import opened Common
  import opened Decimal
  import opened U128Codec

  const U32_LIMIT: nat := 0x1_0000_0000

  /** `ConfigState`. */
  datatype ConfigState = ConfigState(
    owner: Addr,
    stakingToken: Addr,
    rollUnit: u128,
    depositPeriod: u64,
    rewardsDenom: string)

  /** `RollState`: who holds the roll and when it was created. */
  datatype RollState = RollState(owner: Addr, creationTime: u64)

  /** `StakerState`. */
  datatype StakerState = StakerState(address: Addr, balance: u128, collectedRewards: Decimal)

  /** The storage key of a roll, `owner ++ be32(index)`, as a pair. */
  datatype RollKey = RollKey(owner: Addr, index: nat)

  type RollStore = map<RollKey, RollState>
  type StakerStore = map<Addr, StakerState>

  /** The key bytes a roll is stored under, for a canonical address given as
      bytes. */
  function RollKeyBytes(owner: seq<byte>, index: nat): (key: seq<byte>)
    requires index < U32_LIMIT
    ensures |key| == |owner| + 4 && key[..|owner|] == owner
    ensures FromBeBytes(key[|owner|..]) == index
  {
    assert Pow256(4) == U32_LIMIT;
    DecodeEncode(index, 4);
    var key := owner + ToBeBytes(index, 4);
    assert key[|owner|..] == ToBeBytes(index, 4);
    key
  }

  /** The store's ascending byte order. */
  predicate ByteLess(a: seq<byte>, b: seq<byte>)
  {
    |b| > 0 && (|a| == 0 || a[0] < b[0] || (a[0] == b[0] && ByteLess(a[1..], b[1..])))
  }

  /** A shared prefix does not change the order. */
  lemma {:induction false} SharedPrefixOrder(p: seq<byte>, a: seq<byte>, b: seq<byte>)
    ensures ByteLess(p + a, p + b) <==> ByteLess(a, b)
  {
    if p != [] {
      assert (p + a)[1..] == p[1..] + a && (p + b)[1..] == p[1..] + b;
      SharedPrefixOrder(p[1..], a, b);
    } else {
      assert p + a == a && p + b == b;
    }
  }

  /** Two strings of equal length compare by their prefixes first, then by
      their last bytes. */
  lemma {:induction false} AppendOrder(a: seq<byte>, b: seq<byte>, x: byte, y: byte)
    requires |a| == |b|
    ensures ByteLess(a + [x], b + [y]) <==> ByteLess(a, b) || (a == b && x < y)
  {
    if a != [] {
      assert (a + [x])[1..] == a[1..] + [x] && (b + [y])[1..] == b[1..] + [y];
      AppendOrder(a[1..], b[1..], x, y);
      if a[0] == b[0] && a[1..] == b[1..] {
        assert a == [a[0]] + a[1..] && b == [b[0]] + b[1..];
      }
    }
  }

  /** Big-endian encodings of one width compare as the numbers do. */
  lemma {:induction false} BeBytesOrder(v: nat, w: nat, n: nat)
    requires v < Pow256(n) && w < Pow256(n)
    ensures ByteLess(ToBeBytes(v, n), ToBeBytes(w, n)) <==> v < w
  {
    if n > 0 {
      BeBytesOrder(v / 256, w / 256, n - 1);
      AppendOrder(ToBeBytes(v / 256, n - 1), ToBeBytes(w / 256, n - 1), v % 256, w % 256);
      DecodeEncode(v / 256, n - 1);
      DecodeEncode(w / 256, n - 1);
    }
  }

  /** One staker's rolls are stored in the order of their indices. */
  lemma RollsOfOwnerByIndex(owner: seq<byte>, i: nat, j: nat)
    requires i < U32_LIMIT && j < U32_LIMIT
    ensures ByteLess(RollKeyBytes(owner, i), RollKeyBytes(owner, j)) <==> i < j
  {
    assert Pow256(4) == U32_LIMIT;
    SharedPrefixOrder(owner, ToBeBytes(i, 4), ToBeBytes(j, 4));
    BeBytesOrder(i, j, 4);
  }

  /** With addresses of one length (canonical addresses are), every roll of
      a smaller address precedes every roll of a larger one, so a staker's
      rolls are listed together. */
  lemma {:induction false} RollsGroupedByOwner(a: seq<byte>, b: seq<byte>, x: seq<byte>, y: seq<byte>)
    requires |a| == |b| && ByteLess(a, b)
    ensures ByteLess(a + x, b + y)
  {
    if a[0] == b[0] {
      assert (a + x)[1..] == a[1..] + x && (b + y)[1..] == b[1..] + y;
      RollsGroupedByOwner(a[1..], b[1..], x, y);
    }
  }

  /** The listing order on roll keys that the byte order induces. */
  predicate RollKeyLess(a: RollKey, b: RollKey)
  {
    KeyLess(a.owner, b.owner) || (a.owner == b.owner && a.index < b.index)
  }

  lemma RollKeyLessIrreflexive(a: RollKey)
    ensures !RollKeyLess(a, a)
  {
    KeyLessIrreflexive(a.owner);
  }

  lemma RollKeyLessTransitive(a: RollKey, b: RollKey, c: RollKey)
    requires RollKeyLess(a, b) && RollKeyLess(b, c)
    ensures RollKeyLess(a, c)
  {
    if KeyLess(a.owner, b.owner) && KeyLess(b.owner, c.owner) {
      KeyLessTransitive(a.owner, b.owner, c.owner);
    }
  }

  lemma RollKeyLessTotal(a: RollKey, b: RollKey)
    ensures a == b || RollKeyLess(a, b) || RollKeyLess(b, a)
  {
    KeyLessTotal(a.owner, b.owner);
  }

  /** `roll_read`: the stored roll, or an error for a missing one. */
  function RollRead(rolls: RollStore, owner: Addr, index: nat): (r: Result<RollState>)
    ensures r.Ok? <==> RollKey(owner, index) in rolls
    ensures r.Ok? ==> r.value == rolls[RollKey(owner, index)]
    ensures r.Err? ==> r.error == GenericErr("No roll data stored")
  {
    if RollKey(owner, index) in rolls then Ok(rolls[RollKey(owner, index)])
    else Err(GenericErr("No roll data stored"))
  }

  /** `staker_read`: the stored record, or an empty one for an unknown
      staker. */
  function StakerRead(stakers: StakerStore, address: Addr): (s: StakerState)
    ensures address !in stakers ==> s == StakerState(address, 0, 0)
    ensures address in stakers ==> s == stakers[address]
  {
    if address in stakers then stakers[address] else StakerState(address, 0, 0)
  }

  /** How many rolls a balance buys; with a zero unit no deposit succeeds,
      so there are none. */
  function RollCount(balance: nat, unit: nat): nat
  {
    if unit == 0 then 0 else balance / unit
  }

  /** The reward share `try_claim` pays out: the whole part of what was
      collected, less a tax of `min(tax_rate * whole, tax_cap)`; the
      fractional part stays collected. */
  datatype ClaimSplit = ClaimSplit(payout: u128, tax: u128, kept: Decimal)

  function SplitClaim(collected: Decimal, taxRate: Decimal, taxCap: u128): (r: Result<ClaimSplit>)
    ensures r.Ok? ==> r.value.payout + r.value.tax == IntegerPart(collected)
    ensures r.Ok? ==> r.value.kept == FractionalPart(collected) && r.value.tax <= taxCap
    ensures r.Ok? ==> (r.value.payout + r.value.tax) * FRACTIONAL + r.value.kept == collected
    ensures taxRate <= ONE ==> r.Ok?
  {
    var whole := IntegerPart(collected);
    var taxed := MulFloor(taxRate, whole);
    if taxed.Err? then Err(taxed.error)
    else
      var tax := if taxed.value < taxCap then taxed.value else taxCap;
      if tax > whole then Err(Underflow)
      else Ok(ClaimSplit(whole - tax, tax, FractionalPart(collected)))
  }

  /** The unit test's two claims at a 1% rate capped at 1000000: 1000000
      collected pays 990000, and 200000000 pays 199000000. */
  lemma SplitClaimExamples()
    ensures SplitClaim(1_000_000 * FRACTIONAL, Percent(1), 1_000_000) == Ok(ClaimSplit(990_000, 10_000, 0))
    ensures SplitClaim(200_000_000 * FRACTIONAL, Percent(1), 1_000_000) == Ok(ClaimSplit(199_000_000, 1_000_000, 0))
  {
    assert IntegerPart(1_000_000 * FRACTIONAL) == 1_000_000;
    assert FractionalPart(1_000_000 * FRACTIONAL) == 0;
    assert MulFloor(Percent(1), 1_000_000) == Ok(10_000);
    assert IntegerPart(200_000_000 * FRACTIONAL) == 200_000_000;
    assert FractionalPart(200_000_000 * FRACTIONAL) == 0;
    assert MulFloor(Percent(1), 200_000_000) == Ok(2_000_000);
  }

  /** The smallest key of a non-empty set of roll keys. */
  method SmallestRollKey(keys: set<RollKey>) returns (m: RollKey)
    requires keys != {}
    ensures m in keys
    ensures forall k :: k in keys && k != m ==> RollKeyLess(m, k)
  {
    m :| m in keys;
    var rest := keys - {m};
    while rest != {}
      invariant rest <= keys && m in keys && m !in rest
      invariant forall k :: k in keys && k !in rest && k != m ==> RollKeyLess(m, k)
      decreases |rest|
    {
      var k :| k in rest;
      RollKeyLessTotal(k, m);
      if RollKeyLess(k, m) {
        forall j | j in keys && j !in rest && j != k
          ensures RollKeyLess(k, j)
        {
          if j != m { RollKeyLessTransitive(k, m, j); }
        }
        m := k;
      }
      rest := rest - {k};
    }
  }

  /** `load_all_rolls`: every stored roll key once, in ascending order. */
  method LoadAllRolls(rolls: RollStore) returns (keys: seq<RollKey>)
    ensures forall k :: k in rolls <==> k in keys
    ensures forall i, j :: 0 <= i < j < |keys| ==> RollKeyLess(keys[i], keys[j])
    ensures forall i, j :: 0 <= i < j < |keys| ==> keys[i] != keys[j]
  {
    keys := [];
    var remaining := rolls.Keys;
    while remaining != {}
      invariant remaining <= rolls.Keys
      invariant forall k :: k in rolls <==> k in keys || k in remaining
      invariant forall k :: k in keys ==> k !in remaining
      invariant forall i, j :: 0 <= i < j < |keys| ==> RollKeyLess(keys[i], keys[j])
      invariant forall k, i :: k in remaining && 0 <= i < |keys| ==> RollKeyLess(keys[i], k)
      decreases |remaining|
    {
      var m := SmallestRollKey(remaining);
      keys := keys + [m];
      remaining := remaining - {m};
    }
    forall i, j | 0 <= i < j < |keys|
      ensures keys[i] != keys[j]
    {
      RollKeyLessIrreflexive(keys[i]);
    }
  }
}
