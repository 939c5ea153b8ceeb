/** The roll staking contract: stakers deposit a cw20 staking token, every
    whole `roll_unit` of a staker's balance is a "roll", and the owner
    distributes rewards evenly over the rolls that have waited longer than
    the deposit period. */
module RollStakingContract {
  import opened Common
  import opened Decimal
  import opened Arith
  import opened RollStakingState

  const OVERFLOW: string := "attempt to add with overflow"
  const U32_UNWRAP: string := "called `Result::unwrap()` on an `Err` value: TryFromIntError(())"

  /** A roll is paid once it is strictly older than the deposit period. */
  predicate Eligible(roll: RollState, period: u64, now: u64)
  {
    roll.creationTime + period < now
  }

  /** No roll's `creation_time + deposit_period` overflows `u64`. */
  ghost predicate PeriodsFit(rolls: RollStore, period: u64)
  {
    forall k :: k in rolls ==> rolls[k].creationTime + period < U64_LIMIT
  }

  ghost function EligibleKeys(rolls: RollStore, period: u64, now: u64): set<RollKey>
  {
    set k | k in rolls && Eligible(rolls[k], period, now)
  }

  ghost function OwnerEligible(rolls: RollStore, owner: Addr, period: u64, now: u64): set<RollKey>
  {
    set k | k in rolls && k.owner == owner && Eligible(rolls[k], period, now)
  }

  /** How many keys of a listing belong to `owner`. */
  function CountOwner(keys: seq<RollKey>, owner: Addr): nat
  {
    if keys == [] then 0
    else CountOwner(keys[..|keys| - 1], owner) + (if keys[|keys| - 1].owner == owner then 1 else 0)
  }

  lemma {:induction false} CountOwnerPrefix(keys: seq<RollKey>, owner: Addr, j: nat)
    requires j <= |keys|
    ensures CountOwner(keys[..j], owner) <= CountOwner(keys, owner)
    decreases |keys|
  {
    if j < |keys| {
      assert keys[..|keys| - 1][..j] == keys[..j];
      CountOwnerPrefix(keys[..|keys| - 1], owner, j);
    } else {
      assert keys[..j] == keys;
    }
  }

  /** In a listing without repeats, the count is the size of the set of the
      owner's keys. */
  lemma {:induction false} CountOwnerDistinct(keys: seq<RollKey>, owner: Addr)
    requires forall i, j :: 0 <= i < j < |keys| ==> keys[i] != keys[j]
    ensures CountOwner(keys, owner) == |set k | k in keys && k.owner == owner|
  {
    if keys != [] {
      var init := keys[..|keys| - 1];
      var last := keys[|keys| - 1];
      assert keys == init + [last];
      CountOwnerDistinct(init, owner);
      assert last !in init;
      OwnerKeysSnoc(init, last, owner);
    }
  }

  /** Appending a key adds it to the owner's keys exactly when it is theirs. */
  lemma OwnerKeysSnoc(init: seq<RollKey>, last: RollKey, owner: Addr)
    ensures (set k | k in init + [last] && k.owner == owner) ==
            (set k | k in init && k.owner == owner) + (if last.owner == owner then {last} else {})
  {
    assert forall k :: k in init + [last] <==> k in init || k == last;
  }

  /** A listing without repeats is as long as the set of its keys. */
  lemma {:induction false} DistinctLength(keys: seq<RollKey>)
    requires forall i, j :: 0 <= i < j < |keys| ==> keys[i] != keys[j]
    ensures |keys| == |set k | k in keys|
  {
    if keys != [] {
      var init := keys[..|keys| - 1];
      var last := keys[|keys| - 1];
      DistinctLength(init);
      assert last !in init;
      assert (set k | k in keys) == (set k | k in init) + {last} by {
        assert forall k :: k in keys <==> k in init || k == last;
      }
    }
  }

  /** Every roll belongs to the staker it is stored under, and a staker
      holds exactly the rolls `0 .. floor(balance / roll_unit)`. */
  ghost predicate RollsMatchBalances(rolls: RollStore, stakers: StakerStore, unit: nat)
  {
    (forall k :: k in rolls ==> k.index < RollCount(StakerRead(stakers, k.owner).balance, unit)) &&
    (forall o, i :: 0 <= i < RollCount(StakerRead(stakers, o).balance, unit) ==> RollKey(o, i) in rolls)
  }

  /** Creating the rolls between the old and the new roll count keeps the
      rolls in step with a raised balance. */
  lemma DepositKeepsMatch(oldRolls: RollStore, newRolls: RollStore, stakers: StakerStore, sender: Addr,
                          s: StakerState, amount: nat, unit: nat)
    requires RollsMatchBalances(oldRolls, stakers, unit) && unit > 0
    requires s == StakerRead(stakers, sender) && s.balance + amount < U128_LIMIT
    requires forall k :: k in newRolls <==>
               (k in oldRolls || (k.owner == sender && s.balance / unit <= k.index < (s.balance + amount) / unit))
    ensures RollsMatchBalances(newRolls, stakers[sender := s.(balance := s.balance + amount)], unit)
  {
    var after := stakers[sender := s.(balance := s.balance + amount)];
    DivLeMono(s.balance, s.balance + amount, unit);
    forall k | k in newRolls
      ensures k.index < RollCount(StakerRead(after, k.owner).balance, unit)
    {
      if k.owner != sender {
        assert StakerRead(after, k.owner) == StakerRead(stakers, k.owner);
      }
    }
    forall o, i | 0 <= i < RollCount(StakerRead(after, o).balance, unit)
      ensures RollKey(o, i) in newRolls
    {
      if o != sender {
        assert StakerRead(after, o) == StakerRead(stakers, o);
      } else if i < s.balance / unit {
        assert RollKey(o, i) in oldRolls;
      }
    }
  }

  /** Removing the rolls between the new and the old roll count keeps the
      rolls in step with a lowered balance. */
  lemma WithdrawKeepsMatch(oldRolls: RollStore, newRolls: RollStore, stakers: StakerStore, sender: Addr,
                           s: StakerState, amount: nat, unit: nat)
    requires RollsMatchBalances(oldRolls, stakers, unit) && unit > 0
    requires s == StakerRead(stakers, sender) && amount <= s.balance
    requires forall k :: k in newRolls <==>
               (k in oldRolls && !(k.owner == sender && (s.balance - amount) / unit <= k.index < s.balance / unit))
    ensures RollsMatchBalances(newRolls, stakers[sender := s.(balance := s.balance - amount)], unit)
  {
    var after := stakers[sender := s.(balance := s.balance - amount)];
    DivLeMono(s.balance - amount, s.balance, unit);
    forall k | k in newRolls
      ensures k.index < RollCount(StakerRead(after, k.owner).balance, unit)
    {
      if k.owner != sender {
        assert StakerRead(after, k.owner) == StakerRead(stakers, k.owner);
      }
    }
    forall o, i | 0 <= i < RollCount(StakerRead(after, o).balance, unit)
      ensures RollKey(o, i) in newRolls
    {
      if o != sender {
        assert StakerRead(after, o) == StakerRead(stakers, o);
      }
    }
  }

  /** The loop of `try_deposit` that stores one roll per index
      `from .. to` under `owner`. */
  method AddRolls(rolls: RollStore, owner: Addr, from: nat, to: nat, roll: RollState) returns (created: RollStore)
    ensures forall k :: k in created <==> (k in rolls || (k.owner == owner && from <= k.index < to))
    ensures forall k :: k in created ==>
              created[k] == if k.owner == owner && from <= k.index < to then roll else rolls[k]
  {
    created := rolls;
    var i := from;
    while i < to
      invariant from <= i && (i <= to || i == from)
      invariant forall k :: k in created <==> (k in rolls || (k.owner == owner && from <= k.index < i))
      invariant forall k :: k in created ==>
                  created[k] == if k.owner == owner && from <= k.index < i then roll else rolls[k]
    {
      created := created[RollKey(owner, i) := roll];
      i := i + 1;
    }
  }

  /** The loop of `try_withdraw` that removes the rolls `from .. to` of
      `owner`. */
  method RemoveRolls(rolls: RollStore, owner: Addr, from: nat, to: nat) returns (kept: RollStore)
    ensures forall k :: k in kept <==> (k in rolls && !(k.owner == owner && from <= k.index < to))
    ensures forall k :: k in kept ==> kept[k] == rolls[k]
  {
    kept := rolls;
    var i := from;
    while i < to
      invariant from <= i && (i <= to || i == from)
      invariant forall k :: k in kept <==> (k in rolls && !(k.owner == owner && from <= k.index < i))
      invariant forall k :: k in kept ==> kept[k] == rolls[k]
    {
      kept := kept - {RollKey(owner, i)};
      i := i + 1;
    }
  }

  /** Whether `try_deposit` gets past its arithmetic: a nonzero unit, roll
      counts that fit `u32`, and a new balance that fits `u128`. */
  predicate DepositFits(balance: u128, amount: u128, unit: u128)
  {
    unit > 0 && balance / unit < U32_LIMIT && balance + amount < U128_LIMIT &&
    (balance + amount) / unit < U32_LIMIT
  }

  /** Whether `try_withdraw` gets past its arithmetic. */
  predicate WithdrawFits(balance: u128, amount: u128, unit: u128)
  {
    unit > 0 && balance / unit < U32_LIMIT && amount <= balance
  }

  /** The reward per roll: `amount` over the number of eligible rolls,
      which `try_distribute` truncates to `u32`. */
  ghost function Share(rolls: RollStore, period: u64, amount: u128, now: u64): Result<Decimal>
  {
    FromRatio(amount, |EligibleKeys(rolls, period, now)| % U32_LIMIT)
  }

  /** Whether a distribution of `amount` succeeds: a nonzero amount, no
      overflowing deadline, a representable share of a nonzero (truncated)
      roll count, and no staker's collected rewards overflowing. */
  ghost predicate Distributable(stakers: StakerStore, rolls: RollStore, period: u64, amount: u128, now: u64)
  {
    amount > 0 && PeriodsFit(rolls, period) && Share(rolls, period, amount, now).Ok? &&
    forall o :: StakerRead(stakers, o).collectedRewards +
                |OwnerEligible(rolls, o, period, now)| * Share(rolls, period, amount, now).value < U128_LIMIT
  }

  /** Each staker's collected rewards grew by `per` for each of its eligible
      rolls; nothing else about any staker changed. */
  ghost predicate Credited(before: StakerStore, after: StakerStore, rolls: RollStore, period: u64, now: u64, per: nat)
  {
    (forall o :: o in after <==> o in before || |OwnerEligible(rolls, o, period, now)| > 0) &&
    (forall o :: StakerRead(after, o).address == StakerRead(before, o).address &&
                 StakerRead(after, o).balance == StakerRead(before, o).balance &&
                 StakerRead(after, o).collectedRewards ==
                   StakerRead(before, o).collectedRewards + |OwnerEligible(rolls, o, period, now)| * per)
  }

  /** The staker record `try_distribute` starts from: an empty address. */
  const NO_STAKER: StakerState := StakerState("", 0, 0)

  lemma CountOwnerStep(keys: seq<RollKey>, j: nat, owner: Addr)
    requires j < |keys|
    ensures CountOwner(keys[..j + 1], owner) == CountOwner(keys[..j], owner) + (if keys[j].owner == owner then 1 else 0)
  {
    assert keys[..j + 1][..j] == keys[..j];
  }

  /** The rolls `try_distribute` pays, with their count per owner and in
      total. */
  lemma EligibleCounts(eks: seq<RollKey>, rolls: RollStore, period: u64, now: u64)
    requires forall i, j :: 0 <= i < j < |eks| ==> eks[i] != eks[j]
    requires forall k :: k in eks <==> k in rolls && Eligible(rolls[k], period, now)
    ensures |eks| == |EligibleKeys(rolls, period, now)|
    ensures forall o :: CountOwner(eks, o) == |OwnerEligible(rolls, o, period, now)|
  {
    DistinctLength(eks);
    assert (set k | k in eks) == EligibleKeys(rolls, period, now);
    forall o
      ensures CountOwner(eks, o) == |OwnerEligible(rolls, o, period, now)|
    {
      CountOwnerDistinct(eks, o);
      assert (set k | k in eks && k.owner == o) == OwnerEligible(rolls, o, period, now);
    }
  }

  /** Rewards leave every balance alone, so the rolls still match. */
  lemma SameBalancesKeepMatch(rolls: RollStore, before: StakerStore, after: StakerStore, unit: nat)
    requires RollsMatchBalances(rolls, before, unit)
    requires forall o :: StakerRead(after, o).balance == StakerRead(before, o).balance
    ensures RollsMatchBalances(rolls, after, unit)
  {
    forall k | k in rolls
      ensures k.index < RollCount(StakerRead(after, k.owner).balance, unit)
    {
      assert StakerRead(after, k.owner).balance == StakerRead(before, k.owner).balance;
    }
    forall o, i | 0 <= i < RollCount(StakerRead(after, o).balance, unit)
      ensures RollKey(o, i) in rolls
    {
      assert StakerRead(after, o).balance == StakerRead(before, o).balance;
    }
  }

  /** The listed keys, in listing order, whose rolls are eligible. */
  function Older(rolls: RollStore, keys: seq<RollKey>, period: u64, now: u64): seq<RollKey>
    requires forall j :: 0 <= j < |keys| ==> keys[j] in rolls
  {
    if keys == [] then []
    else
      var last := keys[|keys| - 1];
      Older(rolls, keys[..|keys| - 1], period, now) + (if Eligible(rolls[last], period, now) then [last] else [])
  }

  /** A key is kept exactly when it is listed and its roll is eligible. */
  lemma {:induction false} OlderHas(rolls: RollStore, keys: seq<RollKey>, period: u64, now: u64, k: RollKey)
    requires forall j :: 0 <= j < |keys| ==> keys[j] in rolls
    ensures k in Older(rolls, keys, period, now) <==> k in keys && Eligible(rolls[k], period, now)
  {
    if keys != [] {
      var init := keys[..|keys| - 1];
      assert keys == init + [keys[|keys| - 1]];
      OlderHas(rolls, init, period, now, k);
    }
  }

  /** Filtering a listing without repeats leaves one without repeats. */
  lemma {:induction false} OlderDistinct(rolls: RollStore, keys: seq<RollKey>, period: u64, now: u64)
    requires forall j :: 0 <= j < |keys| ==> keys[j] in rolls
    requires forall i, j :: 0 <= i < j < |keys| ==> keys[i] != keys[j]
    ensures var eks := Older(rolls, keys, period, now);
            forall i, j :: 0 <= i < j < |eks| ==> eks[i] != eks[j]
  {
    if keys != [] {
      var init := keys[..|keys| - 1];
      var last := keys[|keys| - 1];
      OlderDistinct(rolls, init, period, now);
      OlderHas(rolls, init, period, now, last);
      assert last !in init;
    }
  }

  /** The first loop of `try_distribute`: the listed rolls strictly older
      than the deposit period, in listing order; `creation_time +
      deposit_period` panics on `u64` overflow. */
  method SelectEligible(rolls: RollStore, keys: seq<RollKey>, period: u64, now: u64)
    returns (r: Result<seq<RollState>>, ghost eks: seq<RollKey>)
    requires forall k :: k in rolls <==> k in keys
    requires forall i, j :: 0 <= i < j < |keys| ==> keys[i] != keys[j]
    ensures r.Ok? <==> PeriodsFit(rolls, period)
    ensures r.Err? ==> r.error == Abort(OVERFLOW)
    ensures r.Ok? ==> |r.value| == |eks| && forall j :: 0 <= j < |eks| ==> eks[j] in rolls && r.value[j] == rolls[eks[j]]
    ensures r.Ok? ==> forall i, j :: 0 <= i < j < |eks| ==> eks[i] != eks[j]
    ensures r.Ok? ==> forall k :: k in eks <==> k in rolls && Eligible(rolls[k], period, now)
  {
    assert forall j :: 0 <= j < |keys| ==> keys[j] in rolls;
    var eligible: seq<RollState> := [];
    eks := [];
    var i := 0;
    assert keys[..0] == [];
    while i < |keys|
      invariant 0 <= i <= |keys|
      invariant eks == Older(rolls, keys[..i], period, now)
      invariant |eligible| == |eks| && forall j :: 0 <= j < |eks| ==> eks[j] in rolls && eligible[j] == rolls[eks[j]]
      invariant forall j :: 0 <= j < i ==> rolls[keys[j]].creationTime + period < U64_LIMIT
    {
      var roll := rolls[keys[i]];
      if roll.creationTime + period >= U64_LIMIT {
        return Err(Abort(OVERFLOW)), eks;
      }
      assert keys[..i + 1][..i] == keys[..i];
      if roll.creationTime + period < now {
        eligible := eligible + [roll];
        eks := eks + [keys[i]];
      }
      i := i + 1;
    }
    assert keys[..i] == keys;
    OlderDistinct(rolls, keys, period, now);
    forall k
      ensures k in eks <==> k in rolls && Eligible(rolls[k], period, now)
    {
      OlderHas(rolls, keys, period, now, k);
    }
    r := Ok(eligible);
  }

  /** What crediting `per` for each of `o`'s rolls among `keys` adds to
      `o`'s rewards: `per` times its count, summed roll by roll. */
  function Credits(keys: seq<RollKey>, o: Addr, per: nat): nat
  {
    if keys == [] then 0
    else Credits(keys[..|keys| - 1], o, per) + (if keys[|keys| - 1].owner == o then per else 0)
  }

  lemma CreditsStep(keys: seq<RollKey>, j: nat, o: Addr, per: nat)
    requires j < |keys|
    ensures Credits(keys[..j + 1], o, per) == Credits(keys[..j], o, per) + (if keys[j].owner == o then per else 0)
  {
    assert keys[..j + 1][..j] == keys[..j];
  }

  lemma {:induction false} CreditsPrefix(keys: seq<RollKey>, o: Addr, per: nat, j: nat)
    requires j <= |keys|
    ensures Credits(keys[..j], o, per) <= Credits(keys, o, per)
    decreases |keys|
  {
    if j < |keys| {
      assert keys[..|keys| - 1][..j] == keys[..j];
      CreditsPrefix(keys[..|keys| - 1], o, per, j);
    } else {
      assert keys[..j] == keys;
    }
  }

  /** The credits are `per` for each of the owner's rolls. */
  lemma {:induction false} CreditsCount(keys: seq<RollKey>, o: Addr, per: nat)
    ensures Credits(keys, o, per) == CountOwner(keys, o) * per
  {
    if keys != [] {
      CreditsCount(keys[..|keys| - 1], o, per);
      MulSucc(CountOwner(keys[..|keys| - 1], o), per);
    }
  }

  /** After crediting the rolls `keys`, staker `o`'s view shows its
      collected rewards grown by `per` per roll it owns among them, and
      nothing else about it changed. */
  ghost predicate CreditedFor(stakers: StakerStore, view: StakerStore, keys: seq<RollKey>, per: nat, o: Addr)
  {
    (o in view <==> o in stakers || CountOwner(keys, o) > 0) &&
    StakerRead(view, o).address == StakerRead(stakers, o).address &&
    StakerRead(view, o).balance == StakerRead(stakers, o).balance &&
    StakerRead(view, o).collectedRewards == StakerRead(stakers, o).collectedRewards + Credits(keys, o, per)
  }

  /** `CreditedFor` every staker. */
  ghost predicate CreditedSoFar(stakers: StakerStore, view: StakerStore, keys: seq<RollKey>, per: nat)
  {
    forall o :: CreditedFor(stakers, view, keys, per, o)
  }

  /** Every staker's collected rewards, grown by `per` for each of its
      rolls among `keys`, still fit in a `u128`. */
  ghost predicate CreditFits(stakers: StakerStore, keys: seq<RollKey>, per: nat)
  {
    forall o :: StakerRead(stakers, o).collectedRewards + Credits(keys, o, per) < U128_LIMIT
  }

  /** The loop state of `try_distribute`'s second loop: the running staker
      record, when it holds an address, is that staker's current record, so
      the store with it written back is the current view of every staker. */
  ghost predicate Running(store: StakerStore, staker: StakerState, view: StakerStore)
  {
    view == (if staker.address != "" then store[staker.address := staker] else store) &&
    (forall a :: a in store ==> store[a].address == a) && "" !in store
  }

  /** Moving the running record to `owner`: a record held for another
      staker is written back first, then `owner`'s record is read from the
      store, its address filled in. */
  method SwitchTo(store: StakerStore, staker: StakerState, owner: Addr, ghost view: StakerStore)
    returns (store': StakerStore, staker': StakerState)
    requires Running(store, staker, view) && owner != ""
    ensures staker' == StakerRead(view, owner) && staker'.address == owner
    ensures store'[owner := staker'] == view[owner := staker']
    ensures (forall a :: a in store' ==> store'[a].address == a) && "" !in store'
  {
    store', staker' := store, staker;
    if staker'.address != "" && staker'.address != owner {
      store' := store'[staker'.address := staker'];
      staker' := NO_STAKER;
    }
    if staker'.address == "" {
      staker' := StakerRead(store', owner);
      staker' := staker'.(address := owner);
    }
  }

  /** Two stores that agree once `k` is overwritten agree whatever `k` is
      overwritten with. */
  lemma Overwrite(m1: StakerStore, m2: StakerStore, k: Addr, a: StakerState, b: StakerState)
    requires m1[k := a] == m2[k := a]
    ensures m1[k := b] == m2[k := b]
  {
    assert m1[k := b] == m1[k := a][k := b];
    assert m2[k := b] == m2[k := a][k := b];
  }

  /** The second loop of `try_distribute` as a function: the rolls `keys`
      are credited in order, `per` each to its owner's record, failing at
      the first total that passes `u128`. */
  function CreditAll(stakers: StakerStore, keys: seq<RollKey>, per: Decimal): Result<StakerStore>
  {
    if keys == [] then Ok(stakers)
    else
      var prefix := CreditAll(stakers, keys[..|keys| - 1], per);
      if prefix.Err? then prefix
      else
        var s := StakerRead(prefix.value, keys[|keys| - 1].owner);
        if s.collectedRewards + per >= U128_LIMIT then Err(Abort(OVERFLOW))
        else Ok(prefix.value[keys[|keys| - 1].owner := s.(collectedRewards := s.collectedRewards + per)])
  }

  /** Once crediting a prefix has failed, crediting the whole listing fails
      the same way. */
  lemma {:induction false} CreditAllErrSticks(stakers: StakerStore, keys: seq<RollKey>, j: nat, per: Decimal)
    requires j <= |keys| && CreditAll(stakers, keys[..j], per).Err?
    ensures CreditAll(stakers, keys, per) == CreditAll(stakers, keys[..j], per)
    decreases |keys|
  {
    if j < |keys| {
      var init := keys[..|keys| - 1];
      assert init[..j] == keys[..j];
      CreditAllErrSticks(stakers, init, j, per);
    } else {
      assert keys[..j] == keys;
    }
  }

  /** A budget that fits the whole listing fits each prefix of it. */
  lemma FitsPrefix(stakers: StakerStore, keys: seq<RollKey>, j: nat, per: nat)
    requires j <= |keys| && CreditFits(stakers, keys, per)
    ensures CreditFits(stakers, keys[..j], per)
  {
    forall o
      ensures StakerRead(stakers, o).collectedRewards + Credits(keys[..j], o, per) < U128_LIMIT
    {
      CreditsPrefix(keys, o, per, j);
    }
  }

  /** Crediting a listing leaves staker `o` credited for its rolls in it. */
  lemma {:induction false} CreditAllRead(stakers: StakerStore, keys: seq<RollKey>, per: Decimal, o: Addr)
    requires CreditAll(stakers, keys, per).Ok?
    ensures CreditedFor(stakers, CreditAll(stakers, keys, per).value, keys, per, o)
  {
    if keys != [] {
      var n := |keys| - 1;
      assert keys[..n + 1] == keys;
      CreditAllRead(stakers, keys[..n], per, o);
      CountOwnerStep(keys, n, o);
      CreditsStep(keys, n, o, per);
    }
  }

  /** When every final total fits, crediting the listing succeeds. */
  lemma {:induction false} FitsCredited(stakers: StakerStore, keys: seq<RollKey>, per: Decimal)
    requires CreditFits(stakers, keys, per)
    ensures CreditAll(stakers, keys, per).Ok?
  {
    if keys != [] {
      var n := |keys| - 1;
      var owner := keys[n].owner;
      assert keys[..n + 1] == keys;
      FitsPrefix(stakers, keys, n, per);
      FitsCredited(stakers, keys[..n], per);
      CreditAllRead(stakers, keys[..n], per, owner);
      CreditsStep(keys, n, owner, per);
      assert StakerRead(stakers, owner).collectedRewards + Credits(keys, owner, per) < U128_LIMIT;
    }
  }

  /** Crediting succeeds exactly when every staker's final total fits, and
      then grows each staker's rewards by `per` per roll it owns in the
      listing, changing nothing else. */
  lemma CreditAllMeets(stakers: StakerStore, keys: seq<RollKey>, per: Decimal)
    ensures CreditAll(stakers, keys, per).Ok? <==> CreditFits(stakers, keys, per)
    ensures CreditAll(stakers, keys, per).Ok? ==> CreditedSoFar(stakers, CreditAll(stakers, keys, per).value, keys, per)
  {
    if CreditAll(stakers, keys, per).Ok? {
      forall o
        ensures CreditedFor(stakers, CreditAll(stakers, keys, per).value, keys, per, o)
      {
        CreditAllRead(stakers, keys, per, o);
      }
      forall o
        ensures StakerRead(stakers, o).collectedRewards + Credits(keys, o, per) < U128_LIMIT
      {
        CreditAllRead(stakers, keys, per, o);
      }
    } else if CreditFits(stakers, keys, per) {
      FitsCredited(stakers, keys, per);
    }
  }

  /** The second loop of `try_distribute`: one running staker record is
      credited `per` for each roll and written back whenever the owner
      changes (and once at the end), re-reading the store for each new
      owner; a `Decimal` addition past `u128` panics. */
  method CreditRolls(stakers: StakerStore, eligible: seq<RollState>, per: Decimal, ghost eks: seq<RollKey>)
    returns (r: Result<StakerStore>)
    requires forall a :: a in stakers ==> stakers[a].address == a
    requires "" !in stakers
    requires |eligible| == |eks|
    requires forall j :: 0 <= j < |eks| ==> eligible[j].owner == eks[j].owner && eks[j].owner != ""
    ensures r == CreditAll(stakers, eks, per)
    ensures r.Ok? ==> (forall a :: a in r.value ==> r.value[a].address == a) && "" !in r.value
  {
    var store := stakers;
    var staker := NO_STAKER;
    ghost var view := stakers;
    var j := 0;
    assert eks[..0] == [];
    while j < |eligible|
      invariant 0 <= j <= |eligible|
      invariant Running(store, staker, view)
      invariant CreditAll(stakers, eks[..j], per) == Ok(view)
    {
      var roll := eligible[j];
      assert eks[..j + 1][..j] == eks[..j];
      store, staker := SwitchTo(store, staker, roll.owner, view);
      if staker.collectedRewards + per >= U128_LIMIT {
        CreditAllErrSticks(stakers, eks, j + 1, per);
        return Err(Abort(OVERFLOW));
      }
      ghost var loaded := staker;
      staker := staker.(collectedRewards := staker.collectedRewards + per);
      Overwrite(view, store, roll.owner, loaded, staker);
      view := view[roll.owner := staker];
      j := j + 1;
    }
    assert eks[..j] == eks;
    if staker.address != "" {
      store := store[staker.address := staker];
    }
    r := Ok(store);
  }

  /** Crediting the listed eligible rolls is crediting every staker for
      its eligible rolls. */
  lemma CreditedEligible(stakers: StakerStore, after: StakerStore, eks: seq<RollKey>,
                         rolls: RollStore, period: u64, now: u64, per: nat)
    requires forall o :: CountOwner(eks, o) == |OwnerEligible(rolls, o, period, now)|
    ensures CreditedSoFar(stakers, after, eks, per) ==> Credited(stakers, after, rolls, period, now, per)
    ensures CreditFits(stakers, eks, per) <==>
            (forall o :: StakerRead(stakers, o).collectedRewards + |OwnerEligible(rolls, o, period, now)| * per < U128_LIMIT)
  {
    if CreditedSoFar(stakers, after, eks, per) {
      forall o
        ensures o in after <==> o in stakers || |OwnerEligible(rolls, o, period, now)| > 0
        ensures StakerRead(after, o).address == StakerRead(stakers, o).address &&
                StakerRead(after, o).balance == StakerRead(stakers, o).balance &&
                StakerRead(after, o).collectedRewards ==
                  StakerRead(stakers, o).collectedRewards + |OwnerEligible(rolls, o, period, now)| * per
      {
        assert CreditedFor(stakers, after, eks, per, o);
        CreditsCount(eks, o, per);
      }
    }
    forall o
      ensures Credits(eks, o, per) == |OwnerEligible(rolls, o, period, now)| * per
    {
      CreditsCount(eks, o, per);
    }
  }

  /** The part of `try_distribute` after its authorisation checks: the
      eligible rolls are listed, `amount` is split evenly among them, and
      each owner is credited its share per roll. */
  method PayRolls(stakers: StakerStore, rolls: RollStore, period: u64, amount: u128, now: u64)
    returns (r: Result<StakerStore>)
    requires forall k :: k in rolls ==> rolls[k].owner == k.owner && k.owner != ""
    requires forall a :: a in stakers ==> stakers[a].address == a
    requires "" !in stakers
    requires amount > 0
    ensures !PeriodsFit(rolls, period) ==> r == Err(Abort(OVERFLOW))
    ensures PeriodsFit(rolls, period) && |EligibleKeys(rolls, period, now)| % U32_LIMIT == 0 ==>
              r == Err(GenericErr("No rolls registered"))
    ensures r.Ok? <==> Distributable(stakers, rolls, period, amount, now)
    ensures r.Ok? ==> Credited(stakers, r.value, rolls, period, now, Share(rolls, period, amount, now).value)
    ensures r.Ok? ==> (forall a :: a in r.value ==> r.value[a].address == a) && "" !in r.value
  {
    var keys := LoadAllRolls(rolls);
    var selected, eks := SelectEligible(rolls, keys, period, now);
    if selected.Err? {
      return Err(selected.error);
    }
    var eligible := selected.value;
    EligibleCounts(eks, rolls, period, now);
    var number := |eligible| % U32_LIMIT;
    if number == 0 {
      return Err(GenericErr("No rolls registered"));
    }
    var per := FromRatio(amount, number);
    if per.Err? {
      return Err(per.error);
    }
    CreditedEligible(stakers, stakers, eks, rolls, period, now, per.value);
    r := CreditRolls(stakers, eligible, per.value, eks);
    CreditAllMeets(stakers, eks, per.value);
    if r.Ok? {
      CreditedEligible(stakers, r.value, eks, rolls, period, now, per.value);
    }
  }

  /** The contract's storage. */
  class RollStaking {
    var config: Option<ConfigState>
    var rolls: RollStore
    var stakers: StakerStore

    /** Rolls are stored under their owner, owners and stakers are keyed by
        a non-empty canonical address, and the rolls match the balances. */
    ghost predicate Valid()
      reads this
    {
      (config.None? ==> rolls == map[] && stakers == map[]) &&
      (forall k :: k in rolls ==> rolls[k].owner == k.owner && k.owner != "") &&
      (forall a :: a in stakers ==> stakers[a].address == a) &&
      "" !in stakers &&
      (config.Some? ==> RollsMatchBalances(rolls, stakers, config.value.rollUnit))
    }

    constructor ()
      ensures config.None? && rolls == map[] && stakers == map[]
      ensures Valid()
    {
      config := None;
      rolls := map[];
      stakers := map[];
    }

    /** `init`: the sender becomes the owner; the deposit period must fit
        `u64`. */
    method Instantiate(sender: Addr, stakingToken: Addr, rollUnit: u128, depositPeriod: u128, rewardsDenom: string)
      returns (r: Result<()>)
      requires config.None? && Valid()
      modifies this
      ensures depositPeriod >= U64_LIMIT ==> r == Err(Abort(U32_UNWRAP)) && config.None?
      ensures depositPeriod < U64_LIMIT ==>
                r == Ok(()) && config == Some(ConfigState(sender, stakingToken, rollUnit, depositPeriod, rewardsDenom))
      ensures rolls == old(rolls) && stakers == old(stakers)
      ensures Valid()
    {
      if depositPeriod >= U64_LIMIT {
        return Err(Abort(U32_UNWRAP));
      }
      config := Some(ConfigState(sender, stakingToken, rollUnit, depositPeriod, rewardsDenom));
      r := Ok(());
    }

    /** `try_update_config`: owner only; replaces the owner and the deposit
        period only where given. */
    method UpdateConfig(sender: Addr, owner: Option<Addr>, depositPeriod: Option<u128>) returns (r: Result<()>)
      requires Valid()
      modifies this
      ensures old(config).None? ==> r == Err(NotFound("ConfigState"))
      ensures old(config).Some? && old(config).value.owner != sender ==> r == Err(Unauthorized)
      ensures r.Ok? <==> old(config).Some? && old(config).value.owner == sender &&
                         (depositPeriod.Some? ==> depositPeriod.value < U64_LIMIT)
      ensures r.Ok? ==>
                config == Some(old(config).value.(owner := UnwrapOr(owner, old(config).value.owner),
                                                 depositPeriod := if depositPeriod.Some? then depositPeriod.value
                                                                  else old(config).value.depositPeriod))
      ensures r.Err? ==> config == old(config)
      ensures rolls == old(rolls) && stakers == old(stakers)
      ensures Valid()
    {
      if config.None? {
        return Err(NotFound("ConfigState"));
      }
      var state := config.value;
      if sender != state.owner {
        return Err(Unauthorized);
      }
      if owner.Some? {
        state := state.(owner := owner.value);
      }
      if depositPeriod.Some? {
        if depositPeriod.value >= U64_LIMIT {
          return Err(Abort(U32_UNWRAP));
        }
        state := state.(depositPeriod := depositPeriod.value);
      }
      config := Some(state);
      r := Ok(());
    }

    /** `try_deposit`: adds `amount` to the sender's balance, creates the
        rolls `floor(old / unit) .. floor(new / unit)` stamped with the
        block time, and asks the staking token to pull the amount. */
    method Deposit(sender: Addr, contract: Addr, amount: u128, now: u64) returns (r: Result<seq<CosmosMsg>>)
      requires Valid() && sender != ""
      modifies this
      ensures amount == 0 ==> r == Err(GenericErr("invalid amount"))
      ensures amount > 0 && old(config).None? ==> r == Err(NotFound("ConfigState"))
      ensures r.Ok? <==> amount > 0 && old(config).Some? &&
                         DepositFits(old(StakerRead(stakers, sender)).balance, amount, old(config).value.rollUnit)
      ensures r.Ok? ==>
                r.value == [Cw20TransferFrom(old(config).value.stakingToken, sender, contract, amount)] &&
                stakers == old(stakers)[sender := old(StakerRead(stakers, sender)).(balance := old(StakerRead(stakers, sender)).balance + amount)]
      ensures r.Ok? ==>
                (forall k :: k in rolls <==>
                   (k in old(rolls) ||
                    (k.owner == sender &&
                     old(StakerRead(stakers, sender)).balance / old(config).value.rollUnit <= k.index <
                     (old(StakerRead(stakers, sender)).balance + amount) / old(config).value.rollUnit))) &&
                (forall k :: k in rolls ==> rolls[k] == if k in old(rolls) then old(rolls)[k] else RollState(sender, now))
      ensures r.Err? ==> rolls == old(rolls) && stakers == old(stakers)
      ensures config == old(config)
      ensures Valid()
    {
      if amount == 0 {
        return Err(GenericErr("invalid amount"));
      }
      if config.None? {
        return Err(NotFound("ConfigState"));
      }
      var cfg := config.value;
      var staker := StakerRead(stakers, sender);
      if cfg.rollUnit == 0 {
        return Err(Abort("attempt to divide by zero"));
      }
      var before := FloorDiv(staker.balance, cfg.rollUnit);
      if before >= U32_LIMIT {
        return Err(Abort(U32_UNWRAP));
      }
      if staker.balance + amount >= U128_LIMIT {
        return Err(Abort(OVERFLOW));
      }
      var after := FloorDiv(staker.balance + amount, cfg.rollUnit);
      if after >= U32_LIMIT {
        return Err(Abort(U32_UNWRAP));
      }
      var created := AddRolls(rolls, sender, before, after, RollState(sender, now));
      DepositKeepsMatch(rolls, created, stakers, sender, staker, amount, cfg.rollUnit);
      rolls := created;
      stakers := stakers[sender := staker.(balance := staker.balance + amount)];
      r := Ok([Cw20TransferFrom(cfg.stakingToken, sender, contract, amount)]);
    }
  

    /** `try_withdraw`: lowers the sender's balance by `amount`, removes the
        rolls `floor(new / unit) .. floor(old / unit)`, and sends the amount
        back; withdrawing more than the balance panics. */
    method Withdraw(sender: Addr, amount: u128) returns (r: Result<seq<CosmosMsg>>)
      requires Valid()
      modifies this
      ensures amount == 0 ==> r == Err(GenericErr("invalid amount"))
      ensures amount > 0 && old(config).None? ==> r == Err(NotFound("ConfigState"))
      ensures amount > 0 && old(config).Some? && old(config).value.rollUnit > 0 &&
              old(StakerRead(stakers, sender)).balance / old(config).value.rollUnit < U32_LIMIT &&
              amount > old(StakerRead(stakers, sender)).balance ==>
                r == Err(Abort("attempt to subtract with overflow"))
      ensures r.Ok? <==> amount > 0 && old(config).Some? &&
                         WithdrawFits(old(StakerRead(stakers, sender)).balance, amount, old(config).value.rollUnit)
      ensures r.Ok? ==>
                r.value == [Cw20Transfer(old(config).value.stakingToken, sender, amount)] &&
                stakers == old(stakers)[sender := old(StakerRead(stakers, sender)).(balance := old(StakerRead(stakers, sender)).balance - amount)]
      ensures r.Ok? ==>
                (forall k :: k in rolls <==>
                   (k in old(rolls) &&
                    !(k.owner == sender &&
                      (old(StakerRead(stakers, sender)).balance - amount) / old(config).value.rollUnit <= k.index <
                      old(StakerRead(stakers, sender)).balance / old(config).value.rollUnit))) &&
                (forall k :: k in rolls ==> rolls[k] == old(rolls)[k])
      ensures r.Err? ==> rolls == old(rolls) && stakers == old(stakers)
      ensures config == old(config)
      ensures Valid()
    {
      if amount == 0 {
        return Err(GenericErr("invalid amount"));
      }
      if config.None? {
        return Err(NotFound("ConfigState"));
      }
      var cfg := config.value;
      var staker := StakerRead(stakers, sender);
      if cfg.rollUnit == 0 {
        return Err(Abort("attempt to divide by zero"));
      }
      var before := FloorDiv(staker.balance, cfg.rollUnit);
      if before >= U32_LIMIT {
        return Err(Abort(U32_UNWRAP));
      }
      if amount > staker.balance {
        return Err(Abort("attempt to subtract with overflow"));
      }
      var after := FloorDiv(staker.balance - amount, cfg.rollUnit);
      var kept := RemoveRolls(rolls, sender, after, before);
      WithdrawKeepsMatch(rolls, kept, stakers, sender, staker, amount, cfg.rollUnit);
      rolls := kept;
      stakers := stakers[sender := staker.(balance := staker.balance - amount)];
      r := Ok([Cw20Transfer(cfg.stakingToken, sender, amount)]);
    }

    /** `try_claim`: pays out the whole part of the sender's collected
        rewards, less the capped tax, and keeps the fractional part; with
        nothing collected it sends nothing and writes nothing. The tax rate
        and the cap for the rewards denomination come from the chain's
        treasury and are inputs here. */
    method Claim(sender: Addr, taxRate: Decimal, taxCap: u128) returns (r: Result<seq<CosmosMsg>>)
      requires Valid()
      modifies this
      ensures old(config).None? ==> r == Err(NotFound("ConfigState"))
      ensures old(config).Some? && old(StakerRead(stakers, sender)).collectedRewards == 0 ==>
                r == Ok([]) && stakers == old(stakers)
      ensures old(config).Some? && old(StakerRead(stakers, sender)).collectedRewards > 0 ==>
                var split := SplitClaim(old(StakerRead(stakers, sender)).collectedRewards, taxRate, taxCap);
                (split.Err? ==> r == Err(split.error)) &&
                (split.Ok? ==>
                   r == Ok([BankSend(sender, [Coin(old(config).value.rewardsDenom, split.value.payout)])]) &&
                   stakers == old(stakers)[sender := old(StakerRead(stakers, sender)).(collectedRewards := split.value.kept)])
      ensures r.Err? ==> stakers == old(stakers)
      ensures rolls == old(rolls) && config == old(config)
      ensures Valid()
    {
      if config.None? {
        return Err(NotFound("ConfigState"));
      }
      var cfg := config.value;
      var staker := StakerRead(stakers, sender);
      if staker.collectedRewards == 0 {
        return Ok([]);
      }
      var split := SplitClaim(staker.collectedRewards, taxRate, taxCap);
      if split.Err? {
        return Err(split.error);
      }
      stakers := stakers[sender := staker.(collectedRewards := split.value.kept)];
      r := Ok([BankSend(sender, [Coin(cfg.rewardsDenom, split.value.payout)])]);
    }

    /** `try_distribute`: owner only; shares `amount` equally among the
        rolls strictly older than the deposit period and credits each
        roll's share to its owner's collected rewards. Rolls and balances
        are untouched; nothing is sent. */
    method Distribute(sender: Addr, amount: u128, now: u64) returns (r: Result<seq<CosmosMsg>>)
      requires Valid()
      modifies this
      ensures amount == 0 ==> r == Err(GenericErr("Invalid amount"))
      ensures amount > 0 && old(config).None? ==> r == Err(NotFound("ConfigState"))
      ensures amount > 0 && old(config).Some? && old(config).value.owner != sender ==> r == Err(Unauthorized)
      ensures (amount > 0 && old(config).Some? && old(config).value.owner == sender &&
               !PeriodsFit(old(rolls), old(config).value.depositPeriod)) ==>
                r == Err(Abort(OVERFLOW))
      ensures (amount > 0 && old(config).Some? && old(config).value.owner == sender &&
               PeriodsFit(old(rolls), old(config).value.depositPeriod) &&
               |EligibleKeys(old(rolls), old(config).value.depositPeriod, now)| % U32_LIMIT == 0) ==>
                r == Err(GenericErr("No rolls registered"))
      ensures r.Ok? <==> old(config).Some? && old(config).value.owner == sender &&
                         Distributable(old(stakers), old(rolls), old(config).value.depositPeriod, amount, now)
      ensures r.Ok? ==>
                r.value == [] &&
                Credited(old(stakers), stakers, old(rolls), old(config).value.depositPeriod, now,
                         Share(old(rolls), old(config).value.depositPeriod, amount, now).value)
      ensures r.Err? ==> stakers == old(stakers)
      ensures rolls == old(rolls) && config == old(config)
      ensures Valid()
    {
      if amount == 0 {
        return Err(GenericErr("Invalid amount"));
      }
      if config.None? {
        return Err(NotFound("ConfigState"));
      }
      var cfg := config.value;
      if cfg.owner != sender {
        return Err(Unauthorized);
      }
      var credited := PayRolls(stakers, rolls, cfg.depositPeriod, amount, now);
      if credited.Err? {
        return Err(credited.error);
      }
      SameBalancesKeepMatch(rolls, stakers, credited.value, cfg.rollUnit);
      stakers := credited.value;
      r := Ok([]);
    }
  }
}
