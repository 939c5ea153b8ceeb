# Terra CosmWasm contracts, modelled in Dafny

This project models the contracts of the terra-money `cosmwasm-contracts`
repository whose logic is bookkeeping:

- the multi-asset vesting ledger (`token-vesting`);
- the single-account ratio vesting contract (`luna-bluna-vesting`);
- the mintable token in its two versions (`mintable_erc20`, the older host
  interface, and `contracts-v4/mintable_erc20`), with its 16-byte `u128`
  store encoding;
- roll staking (`roll_staking`);
- four small contracts: `token_swap`, `maker`, `send-to-burn-address` and
  the `mask` reflect contract.

Every entry point is one run-to-completion step over the contract's
storage. It returns the messages the chain is to execute. When an entry
point fails, the chain rolls back all of its writes. The model follows that
setup:

- Each contract is a `class`. Its stored items and maps are fields.
- Each state-changing entry point is a method. Its postcondition gives the
  new storage, and says that the storage is unchanged on error.
- Pure parts are functions: schedule arithmetic, guards, key encodings,
  message construction and queries.
- Amounts are `nat`s below 2^128 (`u128`) or 2^64 (`u64`).
- A Rust panic (raw overflow, `unwrap`, underflow) is an error value
  `Abort(message)`, because the chain reverts it like any other error.
- cosmwasm's `Decimal` is a count of 10^-18 units. Both multiplying it into
  an integer and `from_ratio` round down.

Lemmas whose names end in `Example` or `Examples` each check one input
taken from the repository's unit tests. They illustrate the definitions; the
general properties are the other lemmas and the contracts.

Shared modules:

- `Common` holds addresses, coins, denominations, messages, errors and
  results.
- `Arith` holds floor division and small monotonicity facts.
- `Decimal` holds the fixed-point helpers.

## Model

| member | source | states |
|---|---|---|
| TokenVestingSchedule.VestedAmount | contracts/token-vesting/src/msg.rs:100-147 | an unparsable time is an error; a successful linear result never exceeds the grant |
| TokenVestingSchedule.LinearVested | contracts/token-vesting/src/msg.rs:110-122 | the linear arm never reports more than the grant |
| TokenVestingSchedule.NumIntervals | contracts/token-vesting/src/msg.rs:138 | a periodic schedule has at least one tick, the one at the start |
| TokenVestingSchedule.Total | contracts/token-vesting/src/msg.rs:86-90 | a periodic grant's total is at least one tick's amount (the `+1` in `amount * (1 + period / interval)`) |
| TokenVestingSchedule.VestedAmountMatchesCurve | contracts/token-vesting/src/msg.rs:100-147 | a successful `vested_amount` equals the exact reference curve; it fails exactly when the checked `u128` product overflows, and then with an overflow error |
| TokenVestingSchedule.LinearMatches | contracts/token-vesting/src/msg.rs:110-122 | the linear arm is the reference curve, and fails exactly when `amount * (t - start)` does not fit a `u128` strictly inside the period |
| TokenVestingSchedule.PeriodicMatches | contracts/token-vesting/src/msg.rs:134-144 | the periodic arm succeeds exactly when the reference curve fits a `u128`, and then equals it |
| TokenVestingSchedule.CurveShape | contracts/token-vesting/src/msg.rs:110-116 | linear: nothing up to and including the start; periodic: nothing before the start and exactly one tick's amount at the start; both: the whole total from the end on |
| TokenVestingSchedule.CurveInside | contracts/token-vesting/src/msg.rs:118-122 | strictly inside the period, linear vests `floor(amount * (t - start) / (end - start))` and periodic vests `amount * (1 + (t - start) / interval)` |
| TokenVestingSchedule.CurveMonotone | contracts/token-vesting/src/msg.rs:100-147 | vesting never decreases with time |
| TokenVestingSchedule.CurveBounded | contracts/token-vesting/src/msg.rs:100-147 | nothing beyond the grant's total ever vests |
| TokenVestingSchedule.RegisteredVested | contracts/token-vesting/src/msg.rs:100-147 | for a schedule registration accepted: the periodic query never fails, a result never exceeds the deposit, and results do not decrease over time |
| TokenVestingSchedule.LinearExample | contracts/token-vesting/src/msg.rs:150-171 | 1,000,000 over [100, 110] vests 0, 500000, 1000000 and 1000000 at 100, 105, 110 and 115 |
| TokenVestingSchedule.PeriodicExample | contracts/token-vesting/src/msg.rs:173-195 | 500,000 per 5 s over [105, 110] vests 0, 500000, 1000000 and 1000000 at 100, 105, 110 and 115 |
| TokenVestingState.DenomToKey | contracts/token-vesting/src/state.rs:21-26 | a key reads back as the denomination it was made from (`KeyToDenom` is its inverse) |
| TokenVestingState.DenomToKeyInjective | contracts/token-vesting/src/state.rs:21-26 | distinct denominations never share a ledger key |
| TokenVestingState.Cw20KeysFirst | contracts/token-vesting/src/state.rs:21-26 | every `cw20-` key sorts before every `native-` key |
| TokenVestingState.LedgerValidLater | contracts/token-vesting/src/state.rs:9-19 | the ledger invariant (claimed ≤ vested ≤ grant, one record per key) survives the passage of time |
| TokenVestingContract.CheckSchedule | contracts/token-vesting/src/contract.rs:89-172 | the schedule guards pass exactly for a registrable schedule starting no earlier than now (a start equal to now passes); each failing guard gives its own message |
| TokenVestingContract.CheckLinear | contracts/token-vesting/src/contract.rs:90-122 | linear registration passes exactly for a non-zero amount, parsed times, `now <= start < end` and a deposit equal to the amount |
| TokenVestingContract.CheckPeriodic | contracts/token-vesting/src/contract.rs:123-171 | periodic registration passes exactly for a non-zero amount, parsed fields, `now <= start < end`, a non-zero interval dividing the period, and a deposit equal to `amount * (1 + period / interval)` |
| TokenVestingContract.NewAccount | contracts/token-vesting/src/contract.rs:174-185 | a stored grant has `claimed = 0`, the deposit as its amount, and the given beneficiary and denomination |
| TokenVestingContract.NewAccountValid | contracts/token-vesting/src/contract.rs:174-185 | a freshly registered grant satisfies the ledger invariant |
| TokenVestingContract.ClaimStep | contracts/token-vesting/src/contract.rs:313-373 | one claimed denomination: a missing entry fails; nothing claimable changes nothing; otherwise one transfer of `vested - claimed`, and the entry is removed exactly when fully vested; no other entry changes |
| TokenVestingContract.ClaimAll | contracts/token-vesting/src/contract.rs:301-379 | a claim emits at most one message per requested denomination and never adds an entry |
| TokenVestingContract.ClaimStepValid | contracts/token-vesting/src/contract.rs:325-341 | one claim step keeps the ledger invariant |
| TokenVestingContract.ClaimAllValid | contracts/token-vesting/src/contract.rs:301-379 | a whole claim keeps the ledger invariant |
| TokenVestingContract.ClaimAllSettles | contracts/token-vesting/src/contract.rs:301-379 | after a claim, every requested entry that remains has nothing left to claim at that time |
| TokenVestingContract.ClaimAllMissingFails | contracts/token-vesting/src/contract.rs:313-324 | a requested denomination with no entry fails the whole claim, wherever it stands in the list |
| TokenVestingContract.SettledClaimIsQuiet | contracts/token-vesting/src/contract.rs:313-334 | on settled entries a claim succeeds exactly when every requested entry exists, and then sends nothing and writes nothing |
| TokenVestingContract.ClaimIdempotent | contracts/token-vesting/src/contract.rs:301-379 | claiming twice in the same block: the second claim leaves the ledger as the first left it and sends nothing |
| TokenVestingContract.Settle | contracts/token-vesting/src/contract.rs:230-265 | deregistration's split: claimable plus left plus already claimed is the grant; it succeeds on every valid grant whose query succeeds |
| TokenVestingContract.SettleValid | contracts/token-vesting/src/contract.rs:230-265 | on a valid grant both checked subtractions succeed |
| TokenVestingContract.PayIfNonZero | contracts/token-vesting/src/contract.rs:238-289 | the message list carries exactly the amount, and is empty exactly for zero |
| TokenVestingContract.EntryView | contracts/token-vesting/src/contract.rs:445-457 | a listing row reports the vested amount and `claimable = vested - claimed` |
| TokenVestingContract.QueryLimit | contracts/token-vesting/src/contract.rs:430 | the page size is `min(limit, 30)`, and 10 by default |
| TokenVestingContract.Owned | contracts/token-vesting/src/contract.rs:432-437 | the records listed under one beneficiary's prefix are exactly that beneficiary's ledger records |
| TokenVestingContract.Candidates | contracts/token-vesting/src/contract.rs:432-442 | the keys a listing may show are the beneficiary's keys strictly after `start_after` |
| TokenVestingContract.RowKeysOfListing | contracts/token-vesting/src/contract.rs:445-457 | the rows of a listing carry the keys it picked, in order |
| TokenVestingContract.SmallestKey | contracts/token-vesting/src/contract.rs:432-443 | the ascending range yields the smallest remaining key next |
| TokenVestingContract.VestingContract.Register | contracts/token-vesting/src/contract.rs:72-197 | registration never merges into an existing entry; it succeeds exactly when the key is free and the schedule checks pass, and then adds only the new record; it keeps the ledger invariant |
| TokenVestingContract.VestingContract.RegisterVestingAccount | contracts/token-vesting/src/contract.rs:33-53 | a native registration needs exactly one coin, whose denomination and amount become the grant's |
| TokenVestingContract.VestingContract.ReceiveCw20 | contracts/token-vesting/src/contract.rs:381-407 | a cw20 registration takes its denomination from the calling token contract; an undecodable hook is an error |
| TokenVestingContract.VestingContract.Claim | contracts/token-vesting/src/contract.rs:301-379 | the claim loop computes exactly `ClaimAll`, and writes nothing when any denomination fails |
| TokenVestingContract.VestingContract.Deregister | contracts/token-vesting/src/contract.rs:199-299 | only the grant's master may deregister; the record is removed; the vested part goes to the beneficiary (by default) and the rest to the caller (by default), with zero parts omitted; the two payouts plus what was claimed make up the grant |
| TokenVestingContract.VestingContract.QueryVestingAccount | contracts/token-vesting/src/contract.rs:422-461 | at most `QueryLimit(limit)` rows; strictly ascending keys after `start_after`; no skipped key smaller than a listed one; it fails only when some row's query fails |
| LunaBlunaState.NumIntervals | contracts/luna-bluna-vesting/src/state.rs:86-88 | the whole intervals fit in the period |
| LunaBlunaState.ValidateAsWritten | contracts/luna-bluna-vesting/src/state.rs:50-107 | `validate` as written: zero amount, start before now, end not after start, zero interval, period not a multiple of the interval and `ratio > 1` are each rejected with its message; it also requires `floor(ratio * n) == 1` |
| LunaBlunaState.Validate | contracts/luna-bluna-vesting/src/state.rs:94-104 | the corrected check also requires `ratio * (n - 1) < 1`; otherwise it agrees with the code, including its errors |
| LunaBlunaState.ValidateAccepts | contracts/luna-bluna-vesting/src/state.rs:50-107 | a validated schedule has a positive amount, starts no earlier than now, and satisfies every guard |
| LunaBlunaState.VestedAmount | contracts/luna-bluna-vesting/src/state.rs:109-119 | the whole amount from the end on; before the start the `u64` subtraction fails; an unparsable time fails |
| LunaBlunaState.VestedInside | contracts/luna-bluna-vesting/src/state.rs:117-118 | inside the period, `floor(ratio * amount)` per whole interval passed, with nothing at the start itself; a `u128` overflow is an error |
| LunaBlunaState.ValidatedBounded | contracts/luna-bluna-vesting/src/state.rs:109-119 | for a corrected-valid schedule, from the start on the query succeeds and never exceeds the deposit |
| LunaBlunaState.ValidatedMonotone | contracts/luna-bluna-vesting/src/state.rs:109-119 | for a corrected-valid schedule, vesting never decreases from the start on |
| LunaBlunaState.AsWrittenOvershoots | contracts/luna-bluna-vesting/src/state.rs:94-104 | ratio 0.6 over three intervals passes as written, shows 1.2 times the deposit vested after two intervals, and is refused by the corrected check |
| LunaBlunaState.HalfRatioExample | contracts/luna-bluna-vesting/src/state.rs:122-148 | ratio 0.5 over [100, 110] by 5 vests 0, 500000, 1000000 and 1000000 of 1,000,000; of 999,999 it vests 499,999 at 105 and the remainder at the end |
| LunaBlunaState.ValidateAsWrittenAccepts | contracts/luna-bluna-vesting/src/state.rs:50-107 | a schedule validated as written has a positive amount, starts no earlier than now, and satisfies every guard the code applies |
| LunaBlunaContract.InfoValidLater | contracts/luna-bluna-vesting/src/contract.rs:187-225 | for a schedule the corrected check accepts, the grant invariant survives the passage of time |
| LunaBlunaContract.ClaimKeepsValid | contracts/luna-bluna-vesting/src/contract.rs:203-225 | for a schedule the corrected check accepts, setting claimed to vested keeps the grant invariant |
| LunaBlunaContract.StartedGrantVests | contracts/luna-bluna-vesting/src/contract.rs:187-201 | once started, a grant on a schedule the corrected check accepts has a successful query, and claimed ≤ vested ≤ grant |
| LunaBlunaContract.OverclaimedGrant | contracts/luna-bluna-vesting/src/contract.rs:203-213 | a schedule only the code as written accepts can be claimed at 1.2 times its grant, after which less has vested than was claimed |
| LunaBlunaContract.VestingContract.Instantiate | contracts/luna-bluna-vesting/src/contract.rs:22-117 | exactly one `uluna` coin and a schedule that validates as written against it, with the code's error for each failed guard; without staking the grant is the native deposit; with staking it is a bLuna grant of 0, with one bond submessage with reply id 1; staking without staking info is an error; the grant invariant holds when the corrected check also accepts the schedule |
| LunaBlunaContract.VestingContract.Reply | contracts/luna-bluna-vesting/src/contract.rs:122-151 | only reply id 1 is accepted; it sets only the grant amount, to the queried bLuna balance |
| LunaBlunaContract.VestingContract.ChangeOwner | contracts/luna-bluna-vesting/src/contract.rs:162-175 | owner only; replaces the owner and nothing else |
| LunaBlunaContract.VestingContract.Claim | contracts/luna-bluna-vesting/src/contract.rs:177-239 | owner only; with nothing claimable it fails with "nothing to claim"; otherwise claimed becomes vested and exactly one transfer of the difference goes to the recipient (default: the sender) |
| LunaBlunaContract.VestingContract.VestingAccount | contracts/luna-bluna-vesting/src/contract.rs:309-345 | reports the grant, its vested amount and `claimable = vested - claimed`, and includes staking rewards only with staking on; it succeeds on a valid started grant |
| U128Codec.DecodeEncode | contracts/mintable_erc20/src/contract.rs:385-392 | big-endian decoding inverts encoding for every value that fits |
| U128Codec.EncodeDecode | contracts/mintable_erc20/src/contract.rs:385-392 | encoding inverts decoding for every byte string |
| U128Codec.BytesToU128 | contracts/mintable_erc20/src/contract.rs:385-392 | succeeds exactly on 16 or more bytes, and the value re-encodes to the first 16 |
| U128Codec.RoundTrip | contracts/mintable_erc20/src/contract.rs:385-392 | `bytes_to_u128(to_be_bytes(v)) == v` |
| U128Codec.ReadU128 | contracts/mintable_erc20/src/contract.rs:404-410 | an absent key reads as 0, a present one is decoded |
| U128Codec.ReadAfterWrite | contracts-v4/mintable_erc20/src/contract.rs:407-429 | a written value reads back, and other keys are unaffected (also for the prefixed reads of the v4 port) |
| MintableErc20.IsValidName | contracts/mintable_erc20/src/contract.rs:439-445 | a name is valid exactly when it has 3 to 30 bytes |
| MintableErc20.AllLetters | contracts/mintable_erc20/src/contract.rs:447-458 | the byte loop accepts exactly the all-ASCII-letter strings |
| MintableErc20.IsValidSymbol | contracts/mintable_erc20/src/contract.rs:447-458 | a symbol is valid exactly when it is 3 to 6 ASCII letters |
| MintableErc20.CheckConstants | contracts/mintable_erc20/src/contract.rs:48-60 | the metadata passes exactly when name, symbol and decimals (≤ 18) are all valid, and fails with the first failing check |
| MintableErc20.CreditedSum | contracts/mintable_erc20/src/contract.rs:35-45 | crediting the listed rows yields balances that sum to the listed total |
| MintableErc20.DuplicateRowsBreakSupply | contracts/mintable_erc20/src/contract.rs:35-45 | as written, a repeated address keeps only its last amount while the supply counts both |
| MintableErc20.DistinctRowsAgree | contracts/mintable_erc20/src/contract.rs:35-45 | with distinct addresses, writing and crediting agree, and exactly the listed addresses hold balances |
| MintableErc20.TransferMoves | contracts/mintable_erc20/src/contract.rs:358-381 | a transfer fails exactly on a shortfall; otherwise it moves exactly `amount` from the sender to the recipient; a self-transfer changes nothing; other balances are unchanged and the total is conserved |
| MintableErc20.TransferExample | contracts-v4/mintable_erc20/tests/integration.rs:180-231 | 1 from the holder of 11 to the holder of 22 leaves 10 and 23 |
| MintableErc20.InitExample | contracts-v4/mintable_erc20/tests/integration.rs:135-178 | the listed 11, 22 and 33 make a supply of 66 |
| MintableErc20.StdErrorOf | contracts/mintable_erc20/src/contract.rs:139-300 | only the minter check reports `Unauthorized`, and only panics are aborts |
| MintableErc20.Token.InitAsWritten | contracts/mintable_erc20/src/contract.rs:30-75 | `init` as written: each row overwrites its address's balance, and the supply is the listed total; an overflowing total panics; bad metadata fails and writes nothing |
| MintableErc20.Token.Init | contracts/mintable_erc20/src/contract.rs:30-75 | corrected `init`: rows credit their address, so the supply equals the sum of the balances |
| MintableErc20.Token.PerformTransfer | contracts/mintable_erc20/src/contract.rs:358-381 | the store transfer computes exactly `Transferred` and touches nothing else |
| MintableErc20.Token.Transfer | contracts/mintable_erc20/src/contract.rs:139-166 | the sender's transfer, with supply = sum of balances preserved |
| MintableErc20.Token.TransferFrom | contracts/mintable_erc20/src/contract.rs:168-212 | fails when the allowance is short; otherwise the allowance drops by exactly `amount` and the owner's transfer applies; a failure writes nothing |
| MintableErc20.Token.Approve | contracts/mintable_erc20/src/contract.rs:214-238 | the allowance is overwritten with `amount`, not added to |
| MintableErc20.Token.Mint | contracts/mintable_erc20/src/contract.rs:308-356 | minter only; the recipient's balance and the supply both grow by `amount`; it succeeds exactly when the supply does not overflow |
| MintableErc20.Token.Burn | contracts/mintable_erc20/src/contract.rs:246-300 | minter only; fails on a short balance; otherwise the burner's balance and the supply both drop by `amount` |
| MintableErc20V4.ContractErrorOf | contracts-v4/mintable_erc20/src/contract.rs:185-188 | the port's errors: `Unauthorized` exactly for the minter check, `InsufficientAllowance` exactly for a short allowance, `InsufficientFunds` for a short burn, host errors otherwise |
| MintableErc20V4.NameMessageCarriedOver | contracts-v4/mintable_erc20/src/contract.rs:53-61 | the name error reads as in the older version |
| MintableErc20V4.DecimalsMessageCarriedOver | contracts-v4/mintable_erc20/src/contract.rs:53-61 | the decimals error reads as in the older version |
| MintableErc20V4.SymbolMessageLostPattern | contracts-v4/mintable_erc20/src/contract.rs:53-61 | the symbol error is the older message without its `[A-Za-z]{3,6}` pattern suffix |
| MintableErc20V4.TransferFromExample | contracts-v4/mintable_erc20/tests/integration.rs:284-363 | spending 2 of an allowance of 42 moves balances 11→9 and 33→35 |
| RollStakingState.RollKeyBytes | contracts/roll_staking/src/state.rs:44-55 | a roll key is the owner followed by four big-endian bytes that decode to the index |
| RollStakingState.SharedPrefixOrder | contracts/roll_staking/src/state.rs:57-61 | a shared prefix does not change byte order |
| RollStakingState.BeBytesOrder | contracts/roll_staking/src/state.rs:57-61 | fixed-width big-endian encodings sort as their numbers do |
| RollStakingState.RollsOfOwnerByIndex | contracts/roll_staking/src/state.rs:57-61 | one owner's rolls are listed in index order |
| RollStakingState.RollsGroupedByOwner | contracts/roll_staking/src/state.rs:57-61 | with same-length addresses, all rolls of a smaller owner come first |
| RollStakingState.RollRead | contracts/roll_staking/src/state.rs:44-55 | returns the stored roll, or "No roll data stored" exactly when it is missing |
| RollStakingState.StakerRead | contracts/roll_staking/src/state.rs:74-85 | returns the stored staker, or a zero record carrying the address for an unknown one |
| RollStakingState.SplitClaim | contracts/roll_staking/src/contract.rs:211-245 | payout plus tax is the whole part of the collected rewards; the fraction is kept; the tax is at most the cap; nothing is lost |
| RollStakingState.SplitClaimExamples | contracts/roll_staking/src/testing.rs:419-513 | at 1% with cap 1000000, claiming 1000000 pays 990000 with tax 10000, and claiming 200000000 pays 199000000 with tax 1000000 |
| RollStakingState.LoadAllRolls | contracts/roll_staking/src/state.rs:57-61 | every stored roll exactly once, in ascending key order |
| RollStakingContract.AddRolls | contracts/roll_staking/src/contract.rs:109-123 | creates exactly the owner's rolls `from <= i < to`, stamped with the given roll, and keeps all others |
| RollStakingContract.RemoveRolls | contracts/roll_staking/src/contract.rs:165-179 | removes exactly the owner's rolls `from <= i < to`, and keeps all others unchanged |
| RollStakingContract.DepositKeepsMatch | contracts/roll_staking/src/contract.rs:99-123 | after a deposit, every staker still has exactly `floor(balance / unit)` rolls |
| RollStakingContract.WithdrawKeepsMatch | contracts/roll_staking/src/contract.rs:159-179 | after a withdrawal, every staker still has exactly `floor(balance / unit)` rolls |
| RollStakingContract.SelectEligible | contracts/roll_staking/src/contract.rs:278-285 | keeps exactly the rolls strictly older than the deposit period; fails exactly when some deadline overflows `u64` |
| RollStakingContract.OlderHas | contracts/roll_staking/src/contract.rs:278-285 | a listed roll is kept by the first loop exactly when it is strictly older than the deposit period |
| RollStakingContract.OlderDistinct | contracts/roll_staking/src/contract.rs:278-285 | the kept rolls hold no repeats when the listing holds none |
| RollStakingContract.SwitchTo | contracts/roll_staking/src/contract.rs:296-311 | the running record becomes the next owner's current record, after the record held for another owner is written back |
| RollStakingContract.CreditRolls | contracts/roll_staking/src/contract.rs:294-326 | the running-staker loop, with its write-backs, computes exactly the roll-by-roll crediting `CreditAll`, and keeps every stored record under its own non-empty address |
| RollStakingContract.CreditAllErrSticks | contracts/roll_staking/src/contract.rs:313 | once an owner's running total overflows, the whole distribution fails with that panic |
| RollStakingContract.CreditsCount | contracts/roll_staking/src/contract.rs:313 | crediting an owner roll by roll adds `per` times its number of listed rolls |
| RollStakingContract.CreditAllRead | contracts/roll_staking/src/contract.rs:294-326 | after crediting, each staker's rewards grew by `per` for each listed roll it owns; its address and balance are unchanged, and it is stored exactly when it was before or owns a listed roll |
| RollStakingContract.FitsCredited | contracts/roll_staking/src/contract.rs:313 | when every staker's final total fits in `u128`, crediting succeeds |
| RollStakingContract.CreditAllMeets | contracts/roll_staking/src/contract.rs:294-326 | crediting succeeds exactly when every final total fits, and then credits every staker as above |
| RollStakingContract.PayRolls | contracts/roll_staking/src/contract.rs:278-325 | an overflowing deadline panics; no eligible roll gives "No rolls registered"; it succeeds exactly when the distribution is possible, and then each staker gains the share once per eligible roll it owns |
| RollStakingContract.CreditedEligible | contracts/roll_staking/src/contract.rs:292-325 | crediting the listed eligible rolls is crediting each staker `per` times its number of eligible rolls |
| RollStakingContract.RollStaking.Instantiate | contracts/roll_staking/src/contract.rs:21-38 | the sender becomes the owner; a deposit period beyond `u64` panics |
| RollStakingContract.RollStaking.UpdateConfig | contracts/roll_staking/src/contract.rs:57-81 | owner only; replaces the owner and the deposit period only when given |
| RollStakingContract.RollStaking.Deposit | contracts/roll_staking/src/contract.rs:84-142 | a zero amount is rejected; the balance grows by `amount`; rolls `floor(old / unit) <= i < floor(new / unit)` are created with the block time; one transfer-from of the staking token; the roll/balance invariant is kept |
| RollStakingContract.RollStaking.Withdraw | contracts/roll_staking/src/contract.rs:144-197 | a zero amount is rejected and withdrawing more than the balance panics; otherwise the balance drops, rolls `floor(new / unit) <= i < floor(old / unit)` are removed, and the tokens are sent back |
| RollStakingContract.RollStaking.Claim | contracts/roll_staking/src/contract.rs:199-262 | with nothing collected, no message and no write; otherwise one bank send of the whole part less capped tax, and only the fraction stays collected |
| RollStakingContract.RollStaking.Distribute | contracts/roll_staking/src/contract.rs:264-339 | owner only with a non-zero amount; no eligible roll gives "No rolls registered"; each staker gains `from_ratio(amount, n)` per eligible roll and nothing else changes; each error case leaves the stakers unchanged |
| TokenSwap.TokenSwap.Instantiate | contracts/token_swap/src/contract.rs:14-31 | stores the given owner and tokens with swapping disabled |
| TokenSwap.TokenSwap.Swap | contracts/token_swap/src/handler.rs:8-34 | fails with "swap is not enabled" while disabled; otherwise exactly one target-token transfer of the same amount to the recipient (default: the sender) |
| TokenSwap.TokenSwap.Receive | contracts/token_swap/src/contract.rs:43-62 | only the legacy token may call; an undecodable hook is an error; a swap hook is passed on with sender and amount unchanged |
| TokenSwap.TokenSwap.ReceiveIsOneForOne | contracts/token_swap/src/contract.rs:43-62 | a successful receive came from the legacy token while enabled, and pays out exactly the amount taken in, in the target token |
| TokenSwap.TokenSwap.Enable | contracts/token_swap/src/handler.rs:49-60 | owner only; sets the flag, after which every swap succeeds; nothing else changes |
| TokenSwap.TokenSwap.Disable | contracts/token_swap/src/handler.rs:36-47 | owner only; clears the flag, after which every swap fails as not enabled; nothing else changes |
| TokenSwap.TokenSwap.Withdraw | contracts/token_swap/src/handler.rs:62-117 | owner only; one transfer per non-zero balance to the recipient (default: the owner): the whole target balance on the target token first, the whole legacy balance on the legacy token last |
| Maker.Tax | contracts/maker/src/contract.rs:54-60 | the tax is `min(floor(rate * amount), cap)`; with a rate of at most one it never exceeds the amount |
| Maker.Transfer | contracts/maker/src/contract.rs:46-74 | one bank send of the coin less its tax, with no owner check; sent plus tax is the amount |
| Maker.TransferExamples | contracts/maker/src/contract.rs:452-530 | at 2% with cap 10, 10000 sends 9990 and 50 sends 49 |
| Maker.Traded | contracts/maker/src/contract.rs:94-96 | the traded amount is `min(balance, limit)`, or the whole balance without a limit |
| Maker.MarketOrder | contracts/maker/src/contract.rs:98-103 | a named recipient selects swap-and-send to that recipient |
| Maker.Maker.Instantiate | contracts/maker/src/contract.rs:16-31 | stores ask and offer, and the sender as owner |
| Maker.Maker.Buy | contracts/maker/src/contract.rs:76-106 | owner only; a zero offer balance gives an empty response; otherwise one swap of the clamped offer amount into ask |
| Maker.Maker.Sell | contracts/maker/src/contract.rs:108-138 | owner only; a zero ask balance gives an empty response; otherwise one swap of the clamped ask amount into offer |
| Maker.Maker.BuySellMirror | contracts/maker/src/contract.rs:76-138 | a sell swaps in the opposite direction of a buy, for the same amount |
| Maker.Maker.SimulateAsk | contracts/maker/src/contract.rs:158-169 | the quote is asked in the other configured denomination; any other denomination is an error naming it |
| Maker.Maker.SimulateAskInvolution | contracts/maker/src/contract.rs:158-169 | with distinct denominations, the direction flips back on itself |
| Maker.Maker.QuerySwap | contracts/maker/src/contract.rs:158-178 | returns the offered coin and the market's quote, or the direction error |
| SendToBurn.ChargedTax | contracts/send-to-burn-address/src/contract.rs:44-69 | the tax the chain charges is at most the cap and at most `rate * x` |
| SendToBurn.Sendable | contracts/send-to-burn-address/src/contract.rs:58-61 | the largest `q` with `q * (1 + rate) <= amount`; it fails exactly when a `u128` product overflows |
| SendToBurn.SendAmountAsWritten | contracts/send-to-burn-address/src/contract.rs:57-64 | as written, the sent amount is capped by the tax cap |
| SendToBurn.SendAmount | contracts/send-to-burn-address/src/contract.rs:44-69 | corrected: the deduction is at most the cap, the tax on what is sent fits in the balance, and with no tax everything is sent |
| SendToBurn.TaxFits | contracts/send-to-burn-address/src/contract.rs:58-61 | the tax on the sendable quotient fits in the remainder |
| SendToBurn.AsWrittenCapsTheSend | contracts/send-to-burn-address/src/contract.rs:57-64 | with rate 0 and cap 1000, a balance of 1000000 sends 1000 as written and 1000000 corrected |
| SendToBurn.AsWrittenTaxFits | contracts/send-to-burn-address/src/contract.rs:57-64 | what is sent as written is at most the balance, and the chain's tax on it fits in the balance |
| SendToBurn.DeductTax | contracts/send-to-burn-address/src/contract.rs:44-69 | as written: a one-to-one map over the coins, keeping denominations and order, each the sendable quotient capped at the tax cap; it fails exactly when some coin's `u128` product overflows |
| SendToBurn.SendToBurnAccount | contracts/send-to-burn-address/src/contract.rs:27-42 | as written: exactly one bank send to the burn address, with the coins in order, each at most its tax cap and leaving room in its balance for the chain's tax |
| SendToBurn.DeductTaxCorrected | contracts/send-to-burn-address/src/contract.rs:44-69 | corrected: the same map with the intended per-coin deduction |
| SendToBurn.SendToBurnAccountCorrected | contracts/send-to-burn-address/src/contract.rs:27-42 | corrected: fails exactly when the code as written does; each coin is reduced by at most its cap and leaves room for its tax, and with no tax the whole balance is sent |
| Mask.Mask.Init | contracts-v4/mask/src/contract.rs:14-27 | the sender becomes the owner, who can then reflect any non-empty list |
| Mask.Mask.Reflect | contracts-v4/mask/src/contract.rs:41-60 | a non-owner gets `Unauthorized` and an empty list gets `MessagesEmpty`; otherwise exactly the given messages, in order, with no write |
| Mask.Mask.ChangeOwner | contracts-v4/mask/src/contract.rs:62-80 | owner only; afterwards exactly the new owner can reflect; a failure changes nothing |

## Left out

- Host queries are not modelled. Their results are parameters:
  - bank and cw20 balances;
  - the treasury's tax rate and caps;
  - the market's swap quote;
  - the bLuna balance in `reply`;
  - the reward contract's accrued rewards.
- Calls into other contracts are not modelled: the luna-bluna `claim_rewards`, maker's `query_reflect` and mask's `query_custom`. They only forward to foreign contracts.
- Serialisation is not modelled: JSON message encoding, `to_binary`, event attributes and log strings. Messages are plain datatypes in the returned list.
- Address canonicalisation and validation are not modelled. Addresses are opaque strings, and the empty string stands for no address.
- Time-string parsing is not modelled. A time field is either a parsed `u64` or unparsable.
- Partial writes before a failure are not modelled, for example the early allowance write in `transfer_from` or the earlier iterations of a failing multi-denomination claim. The chain rolls them back, so each method states the unchanged state instead.
- `contracts/assert_limit_order` and the queries of mintable, roll staking and token swap are not modelled. They only read stored fields.
- `init` and `query` of send-to-burn-address are not modelled. They do nothing.
- RollStakingContract.RollStaking.Claim: `Decimal * Uint128` is modelled with a wide intermediate product (`MulFloor`). The older host library multiplies in `u128`, so a tax product of 2^128 or more panics there and succeeds here.
- RollStakingContract.RollStaking.Distribute: `from_ratio` is modelled with a wide intermediate (`FromRatio`). The older host library panics when `amount * 10^18` overflows `u128`; this model instead fails only when the share itself does not fit.
- RollStakingContract.RollStaking.Deposit: requires a non-empty sender. The empty address is the model's "no address" marker in the staker records, and canonical addresses are never empty.
- MintableErc20.Token.Init: requires empty storage, as `init` runs once, on a fresh contract.
- MintableErc20.Token.InitAsWritten: requires empty storage, as `init` runs once, on a fresh contract.
- TokenVestingContract.VestingContract.QueryVestingAccount: requires every record to be stored under its own beneficiary and key. Every write path establishes this.
- LunaBlunaContract.VestingContract.VestingAccount: promises a successful query on a started grant only when the corrected check accepts its schedule. A schedule that only the code as written accepts can be claimed beyond its grant (`OverclaimedGrant`), and its query then underflows.
- LunaBlunaContract.VestingContract.Valid: keeps the grant invariant (`InfoValid`) only for schedules the corrected check accepts. For the others it keeps only the as-written guards, for the same reason.
- Overflow of raw `u128` additions (mint, deposit, initial supply) is modelled as an abort, never as wrap-around, because the contracts build with overflow checks on.

Where the code and its documentation disagree, the model follows the code.
The entry points of the findings below run the code as written; the
corrected definitions stand beside them, with the intended properties proved
about those. The older mintable `init` is modelled both ways
(`InitAsWritten` and `Init`). Other disagreements:

- Vesting registration accepts `start_time == now` (contract.rs:107).
- A periodic grant's total is `amount * (1 + period / interval)`, ticking once at the start.
- A claim with one missing denomination fails as a whole.

## Findings

| source | as written | input that shows it | evidently intended | confidence | as-written member | corrected member |
|---|---|---|---|---|---|---|
| contracts/luna-bluna-vesting/src/state.rs:94-104 | `validate` only requires `floor(ratio * n) == 1`, so it accepts every ratio in `[1/n, 2/n)` | ratio 0.6, period [100, 115], interval 5, deposit 1,000,000: after two intervals 1,200,000 shows as vested | `n` releases of `floor(ratio * amount)` never exceed the deposit, so vesting stays within the deposit and never decreases | not executed | LunaBlunaState.AsWrittenOvershoots | LunaBlunaState.Validate |
| contracts/send-to-burn-address/src/contract.rs:57-64 | the tax cap is applied to the amount sent, not to the tax | rate 0, cap 1000, balance 1,000,000: only 1000 is sent although no tax is due | send `amount - min(amount - sendable, cap)`, so the deduction is at most the cap and the chain's tax still fits | not executed | SendToBurn.AsWrittenCapsTheSend | SendToBurn.SendAmount |
| contracts/mintable_erc20/src/contract.rs:35-45 | each initial row overwrites its address's balance, while the supply adds every row | rows (a, 1) and (a, 2): balance 2, supply 3 | the total supply equals the sum of the balances | not executed | MintableErc20.DuplicateRowsBreakSupply | MintableErc20.Token.Init |
