/** The mintable token ledger: balances, allowances and a total supply,
    with the transfer / transferFrom / approve methods of EIP-20 and a single
    minter who may mint and burn. Both copies of the contract (the original
    and the one ported to the newer host interface) share this ledger; they
    differ only in how an error is reported (`StdErrorOf` here,
    `MintableErc20V4.ContractErrorOf` for the port). */
module MintableErc20 {
  import opened Common
  import opened U128Codec

  /** Why an operation failed, before it is rendered as an error value. */
  datatype TokenError =
    | NotMinter
    | BadName
    | BadSymbol
    | BadDecimals
    | AllowanceShortfall(allowance: u128, required: u128)
    | FundsShortfall(balance: u128, required: u128)
    | BurnShortfall(balance: u128, required: u128)
    | Panic(reason: string)

  datatype Outcome<T> = Done(value: T) | Failed(error: TokenError)

  /** Name and symbol are kept as their UTF-8 bytes; `decimals` is a `u8`. */
  datatype Constants = Constants(name: seq<byte>, symbol: seq<byte>, decimals: nat)

  datatype InitialBalance = InitialBalance(address: Addr, amount: u128)

  const OVERFLOW: string := "attempt to add with overflow"

  /** A stored amount; an absent key reads as zero (`read_u128`). */
  function Get<K>(m: map<K, nat>, k: K): nat
  {
    if k in m then m[k] else 0
  }

  /** The total of all balances. */
  ghost function Sum(m: map<Addr, nat>): nat
    decreases |m|
  {
    if m == map[] then 0
    else
      var k :| k in m;
      m[k] + Sum(m - {k})
  }

  lemma {:induction false} SumRemove(m: map<Addr, nat>, k: Addr)
    requires k in m
    ensures Sum(m) == m[k] + Sum(m - {k})
    decreases |m|
  {
    var j :| j in m && Sum(m) == m[j] + Sum(m - {j});
    if j != k {
      SumRemove(m - {j}, k);
      SumRemove(m - {k}, j);
      assert m - {j} - {k} == m - {k} - {j};
    }
  }

  /** Overwriting one balance changes the total by the difference. */
  lemma SumUpdate(m: map<Addr, nat>, k: Addr, v: nat)
    ensures Sum(m[k := v]) + Get(m, k) == Sum(m) + v
  {
    SumRemove(m[k := v], k);
    assert m[k := v] - {k} == m - {k};
    if k in m {
      SumRemove(m, k);
    } else {
      assert m - {k} == m;
    }
  }

  /** No single balance exceeds the total. */
  lemma GetLeSum(m: map<Addr, nat>, k: Addr)
    ensures Get(m, k) <= Sum(m)
  {
    if k in m { SumRemove(m, k); }
  }

  /** `is_valid_name`: three to thirty bytes. */
  function IsValidName(name: seq<byte>): (ok: bool)
    ensures ok <==> 3 <= |name| <= 30
  {
    !(|name| < 3 || |name| > 30)
  }

  predicate IsAsciiLetter(b: byte)
  {
    (65 <= b <= 90) || (97 <= b <= 122)
  }

  /** The byte loop of `is_valid_symbol`, which stops at the first byte
      that is not an ASCII letter. */
  function AllLetters(s: seq<byte>): (ok: bool)
    ensures ok <==> forall i :: 0 <= i < |s| ==> IsAsciiLetter(s[i])
  {
    if s == [] then true
    else if !IsAsciiLetter(s[0]) then false
    else
      var rest := AllLetters(s[1..]);
      assert forall i :: 1 <= i < |s| ==> s[i] == s[1..][i - 1];
      rest
  }

  /** `is_valid_symbol`: three to six ASCII letters. */
  function IsValidSymbol(symbol: seq<byte>): (ok: bool)
    ensures ok <==> 3 <= |symbol| <= 6 && forall i :: 0 <= i < |symbol| ==> IsAsciiLetter(symbol[i])
  {
    if |symbol| < 3 || |symbol| > 6 then false else AllLetters(symbol)
  }

  /** `init`'s metadata checks, in their order. */
  function CheckConstants(c: Constants): (r: Outcome<()>)
    ensures r.Done? <==> IsValidName(c.name) && IsValidSymbol(c.symbol) && c.decimals <= 18
    ensures !IsValidName(c.name) ==> r == Failed(BadName)
    ensures IsValidName(c.name) && !IsValidSymbol(c.symbol) ==> r == Failed(BadSymbol)
    ensures IsValidName(c.name) && IsValidSymbol(c.symbol) && c.decimals > 18 ==> r == Failed(BadDecimals)
  {
    if !IsValidName(c.name) then Failed(BadName)
    else if !IsValidSymbol(c.symbol) then Failed(BadSymbol)
    else if c.decimals > 18 then Failed(BadDecimals)
    else Done(())
  }

  /** The sum of the listed initial amounts. */
  function ListedTotal(rows: seq<InitialBalance>): nat
  {
    if rows == [] then 0 else ListedTotal(rows[..|rows| - 1]) + rows[|rows| - 1].amount
  }

  /** A prefix of the list never lists more than the whole. */
  lemma {:induction false} ListedTotalPrefix(rows: seq<InitialBalance>, i: nat)
    requires i <= |rows|
    ensures ListedTotal(rows[..i]) <= ListedTotal(rows)
    decreases |rows|
  {
    if i < |rows| {
      assert rows[..|rows| - 1][..i] == rows[..i];
      ListedTotalPrefix(rows[..|rows| - 1], i);
    } else {
      assert rows[..i] == rows;
    }
  }

  /** The balances `init` leaves as written: each row overwrites its
      address's balance. */
  function WrittenBalances(rows: seq<InitialBalance>): map<Addr, nat>
  {
    if rows == [] then map[]
    else WrittenBalances(rows[..|rows| - 1])[rows[|rows| - 1].address := rows[|rows| - 1].amount]
  }

  /** The balances once each row credits its address: a repeated address
      gets the sum of its rows. */
  function CreditedBalances(rows: seq<InitialBalance>): map<Addr, nat>
  {
    if rows == [] then map[]
    else
      var m := CreditedBalances(rows[..|rows| - 1]);
      var row := rows[|rows| - 1];
      m[row.address := Get(m, row.address) + row.amount]
  }

  /** Crediting conserves value: the balances add up to the listed total. */
  lemma {:induction false} CreditedSum(rows: seq<InitialBalance>)
    ensures Sum(CreditedBalances(rows)) == ListedTotal(rows)
  {
    if rows != [] {
      var init := rows[..|rows| - 1];
      var row := rows[|rows| - 1];
      CreditedSum(init);
      SumUpdate(CreditedBalances(init), row.address, Get(CreditedBalances(init), row.address) + row.amount);
    }
  }

  /** Overwriting loses the earlier amount of a repeated address, while the
      supply still counts it: listing one address twice, with 1 and then 2,
      leaves a balance of 2 against a supply of 3. */
  lemma DuplicateRowsBreakSupply()
    ensures var rows := [InitialBalance("a", 1), InitialBalance("a", 2)];
            ListedTotal(rows) == 3 && WrittenBalances(rows) == map["a" := 2] &&
            Sum(WrittenBalances(rows)) == 2 && Sum(CreditedBalances(rows)) == 3
  {
    var rows := [InitialBalance("a", 1), InitialBalance("a", 2)];
    assert rows[..1] == [InitialBalance("a", 1)] && rows[..1][..0] == [];
    var m: map<Addr, nat> := map["a" := 2];
    SumRemove(m, "a");
    assert m - {"a"} == map[];
    CreditedSum(rows);
  }

  /** When no address repeats, overwriting and crediting agree. */
  lemma {:induction false} DistinctRowsAgree(rows: seq<InitialBalance>)
    requires forall i, j :: 0 <= i < j < |rows| ==> rows[i].address != rows[j].address
    ensures WrittenBalances(rows) == CreditedBalances(rows)
    ensures forall a :: a in CreditedBalances(rows) <==> exists i :: 0 <= i < |rows| && rows[i].address == a
  {
    if rows != [] {
      var init := rows[..|rows| - 1];
      DistinctRowsAgree(init);
      var last := rows[|rows| - 1];
      assert forall i :: 0 <= i < |init| ==> init[i].address != last.address by {
        forall i | 0 <= i < |init|
          ensures init[i].address != last.address
        {
          assert init[i] == rows[i];
        }
      }
      forall a
        ensures a in CreditedBalances(rows) <==> exists i :: 0 <= i < |rows| && rows[i].address == a
      {
        if a in CreditedBalances(init) {
          var i :| 0 <= i < |init| && init[i].address == a;
          assert rows[i].address == a;
        }
        if exists i :: 0 <= i < |rows| && rows[i].address == a {
          var i :| 0 <= i < |rows| && rows[i].address == a;
          if i < |init| { assert init[i].address == a; }
        }
      }
    }
  }

  /** `perform_transfer`: read the sender's balance and refuse a shortfall,
      write it lowered, then read the recipient's balance (after that
      write, so a self-transfer sees its own debit) and write it raised;
      raw `u128` addition panics on overflow. */
  function Transferred(balances: map<Addr, u128>, from: Addr, to: Addr, amount: u128): (r: Outcome<map<Addr, u128>>)
  {
    var fromBalance := Get(balances, from);
    if fromBalance < amount then Failed(FundsShortfall(fromBalance, amount))
    else
      var debited := balances[from := fromBalance - amount];
      var toBalance := Get(debited, to);
      if toBalance + amount >= U128_LIMIT then Failed(Panic(OVERFLOW))
      else Done(debited[to := toBalance + amount])
  }

  /** A transfer fails exactly on a shortfall when the balances add up to a
      `u128`; it moves exactly `amount` from `from` to `to`, a self-transfer
      changes no balance, no other balance changes, and the total is
      conserved. */
  lemma TransferMoves(balances: map<Addr, u128>, from: Addr, to: Addr, amount: u128)
    requires Sum(balances) < U128_LIMIT
    ensures var r := Transferred(balances, from, to, amount);
            (r.Failed? <==> Get(balances, from) < amount) &&
            (r.Failed? ==> r.error == FundsShortfall(Get(balances, from), amount)) &&
            (r.Done? ==>
               Sum(r.value) == Sum(balances) &&
               (from != to ==> Get(r.value, from) + amount == Get(balances, from) &&
                               Get(r.value, to) == Get(balances, to) + amount) &&
               (from == to ==> Get(r.value, from) == Get(balances, from)) &&
               forall a :: a != from && a != to ==> Get(r.value, a) == Get(balances, a))
  {
    var fromBalance := Get(balances, from);
    if fromBalance >= amount {
      var debited := balances[from := fromBalance - amount];
      SumUpdate(balances, from, fromBalance - amount);
      GetLeSum(debited, to);
      var toBalance := Get(debited, to);
      SumUpdate(debited, to, toBalance + amount);
    }
  }

  /** The unit test's transfer: 1 from the holder of 11 to the holder of 22. */
  lemma TransferExample()
    ensures var balances := map["addr0000" := 11, "addr1111" := 22, "addrQQQQ" := 33];
            Transferred(balances, "addr0000", "addr1111", 1) ==
              Done(map["addr0000" := 10, "addr1111" := 23, "addrQQQQ" := 33])
  {
    var balances: map<Addr, u128> := map["addr0000" := 11, "addr1111" := 22, "addrQQQQ" := 33];
    assert "addr0000" != "addr1111" by { assert "addr0000"[4] != "addr1111"[4]; }
    var expected: map<Addr, u128> := map["addr0000" := 10, "addr1111" := 23, "addrQQQQ" := 33];
    assert balances["addr0000" := 10]["addr1111" := 23] == expected;
  }

  /** The unit test's initial list sums to a supply of 66. */
  lemma InitExample()
    ensures ListedTotal([InitialBalance("addr0000", 11), InitialBalance("addr1111", 22), InitialBalance("addrQQQQ", 33)]) == 66
  {
    var rows := [InitialBalance("addr0000", 11), InitialBalance("addr1111", 22), InitialBalance("addrQQQQ", 33)];
    assert rows[..2] == [InitialBalance("addr0000", 11), InitialBalance("addr1111", 22)];
    assert rows[..2][..1] == [InitialBalance("addr0000", 11)];
    assert rows[..2][..1][..0] == [];
    assert ListedTotal(rows[..2][..1]) == 11;
    assert ListedTotal(rows[..2]) == 33;
  }

  /** Decimal digits of a number, as `format!` prints it. */
  function DecimalString(n: nat): (s: string)
    ensures |s| > 0
    decreases n
  {
    var digit := ['0' + (n % 10) as char];
    if n < 10 then digit else DecimalString(n / 10) + digit
  }

  /** How the original contract reports each failure. */
  function StdErrorOf(e: TokenError): (r: StdError)
    ensures e.NotMinter? <==> r == Unauthorized
    ensures e.Panic? <==> r.Abort?
  {
    match e
    case NotMinter => Unauthorized
    case BadName => GenericErr("Name is not in the expected format (3-30 UTF-8 bytes)")
    case BadSymbol => GenericErr("Ticker symbol is not in expected format [A-Za-z]{3,6}")
    case BadDecimals => GenericErr("Decimals must not exceed 18")
    case AllowanceShortfall(allowance, required) =>
      GenericErr("Insufficient allowance: allowance=" + DecimalString(allowance) + ", required=" + DecimalString(required))
    case FundsShortfall(balance, required) =>
      GenericErr("Insufficient funds: balance=" + DecimalString(balance) + ", required=" + DecimalString(required))
    case BurnShortfall(balance, required) =>
      GenericErr("insufficient funds to burn: balance=" + DecimalString(balance) + ", required=" + DecimalString(required))
    case Panic(reason) => Abort(reason)
  }

  /** The ledger's storage: the `balances` and `allowances` prefixes, and
      the minter, the metadata and the total supply under `config`. Every
      amount is stored with `to_be_bytes` and read with `read_u128`, so by
      `U128Codec.ReadAfterWrite` the store behaves as these maps with
      absent keys reading as zero. */
  class Token {
    var balances: map<Addr, u128>
    var allowances: map<(Addr, Addr), u128>
    var minter: Option<Addr>
    var constants: Option<Constants>
    var totalSupply: Option<u128>

    /** The supply is the sum of the balances. */
    ghost predicate Valid()
      reads this
    {
      totalSupply.Some? ==> totalSupply.value == Sum(balances)
    }

    /** Nothing stored yet: `init` runs once, on an empty store. */
    predicate Empty()
      reads this
    {
      balances == map[] && allowances == map[] && minter.None? && constants.None? && totalSupply.None?
    }

    constructor ()
      ensures Empty()
    {
      balances := map[];
      allowances := map[];
      minter := None;
      constants := None;
      totalSupply := None;
    }

    /** `init` as written: each listed row overwrites its address's
        balance, while the supply adds every listed amount, so a repeated
        address makes the supply exceed the balances
        (`DuplicateRowsBreakSupply`). */
    method InitAsWritten(rows: seq<InitialBalance>, c: Constants, minterAddress: Addr) returns (r: Outcome<()>)
      requires Empty()
      modifies this
      ensures ListedTotal(rows) >= U128_LIMIT ==> r == Failed(Panic(OVERFLOW))
      ensures ListedTotal(rows) < U128_LIMIT ==> r == CheckConstants(c)
      ensures r.Done? ==>
                balances == WrittenBalances(rows) && totalSupply == Some(ListedTotal(rows)) &&
                constants == Some(c) && minter == Some(minterAddress) && allowances == map[]
      ensures r.Failed? ==> Empty()
    {
      var written: map<Addr, u128> := map[];
      var total: u128 := 0;
      var i := 0;
      while i < |rows|
        invariant 0 <= i <= |rows|
        invariant written == WrittenBalances(rows[..i]) && total == ListedTotal(rows[..i])
      {
        assert rows[..i + 1][..i] == rows[..i];
        var row := rows[i];
        written := written[row.address := row.amount];
        if total + row.amount >= U128_LIMIT {
          ListedTotalPrefix(rows, i + 1);
          return Failed(Panic(OVERFLOW));
        }
        total := total + row.amount;
        i := i + 1;
      }
      assert rows[..i] == rows;
      r := CheckConstants(c);
      if r.Failed? {
        return;
      }
      balances := written;
      minter := Some(minterAddress);
      constants := Some(c);
      totalSupply := Some(total);
    }

    /** `init` with the evident intent, supply equal to the sum of the
        balances: each row credits its address. */
    method Init(rows: seq<InitialBalance>, c: Constants, minterAddress: Addr) returns (r: Outcome<()>)
      requires Empty()
      modifies this
      ensures ListedTotal(rows) >= U128_LIMIT ==> r == Failed(Panic(OVERFLOW))
      ensures ListedTotal(rows) < U128_LIMIT ==> r == CheckConstants(c)
      ensures r.Done? ==>
                balances == CreditedBalances(rows) && totalSupply == Some(ListedTotal(rows)) &&
                constants == Some(c) && minter == Some(minterAddress) && allowances == map[]
      ensures r.Failed? ==> Empty()
      ensures Valid()
    {
      var credited: map<Addr, u128> := map[];
      var total: u128 := 0;
      var i := 0;
      while i < |rows|
        invariant 0 <= i <= |rows|
        invariant credited == CreditedBalances(rows[..i]) && total == ListedTotal(rows[..i])
        invariant Sum(credited) == total
        invariant Empty()
      {
        assert rows[..i + 1][..i] == rows[..i];
        var row := rows[i];
        if total + row.amount >= U128_LIMIT {
          ListedTotalPrefix(rows, i + 1);
          return Failed(Panic(OVERFLOW));
        }
        GetLeSum(credited, row.address);
        var balance := Get(credited, row.address);
        SumUpdate(credited, row.address, balance + row.amount);
        credited := credited[row.address := balance + row.amount];
        total := total + row.amount;
        i := i + 1;
      }
      assert rows[..i] == rows;
      r := CheckConstants(c);
      if r.Failed? {
        return;
      }
      balances := credited;
      minter := Some(minterAddress);
      constants := Some(c);
      totalSupply := Some(total);
    }

    /** `perform_transfer` on the store, step by step. */
    method PerformTransfer(from: Addr, to: Addr, amount: u128) returns (r: Outcome<()>)
      modifies this
      ensures var spec := Transferred(old(balances), from, to, amount);
              (spec.Done? ==> r == Done(()) && balances == spec.value) &&
              (spec.Failed? ==> r == Failed(spec.error) && balances == old(balances))
      ensures allowances == old(allowances) && minter == old(minter) &&
              constants == old(constants) && totalSupply == old(totalSupply)
    {
      var fromBalance := Get(balances, from);
      if fromBalance < amount {
        return Failed(FundsShortfall(fromBalance, amount));
      }
      var saved := balances;
      balances := balances[from := fromBalance - amount];
      var toBalance := Get(balances, to);
      if toBalance + amount >= U128_LIMIT {
        balances := saved;
        return Failed(Panic(OVERFLOW));
      }
      balances := balances[to := toBalance + amount];
      r := Done(());
    }

    /** `try_transfer`: the sender sends `amount` to `recipient`. */
    method Transfer(sender: Addr, recipient: Addr, amount: u128) returns (r: Outcome<()>)
      modifies this
      ensures var spec := Transferred(old(balances), sender, recipient, amount);
              (spec.Done? ==> r == Done(()) && balances == spec.value) &&
              (spec.Failed? ==> r == Failed(spec.error) && balances == old(balances))
      ensures allowances == old(allowances) && minter == old(minter) &&
              constants == old(constants) && totalSupply == old(totalSupply)
      ensures old(Valid()) ==> Valid()
    {
      if Valid() && totalSupply.Some? {
        TransferMoves(balances, sender, recipient, amount);
      }
      ghost var before := balances;
      r := PerformTransfer(sender, recipient, amount);
      if r.Done? && totalSupply.Some? && old(Valid()) {
        TransferMoves(before, sender, recipient, amount);
      }
    }

    /** `try_transfer_from`: the sender spends `amount` of the allowance
        `owner` gave it, moving it from `owner` to `recipient`. The
        allowance drops by exactly `amount`; a failed transfer rolls the
        allowance write back. */
    method TransferFrom(sender: Addr, owner: Addr, recipient: Addr, amount: u128) returns (r: Outcome<()>)
      modifies this
      ensures Get(old(allowances), (owner, sender)) < amount ==>
                r == Failed(AllowanceShortfall(Get(old(allowances), (owner, sender)), amount))
      ensures var spec := Transferred(old(balances), owner, recipient, amount);
              Get(old(allowances), (owner, sender)) >= amount ==>
                (spec.Done? ==> r == Done(()) && balances == spec.value &&
                                allowances == old(allowances)[(owner, sender) := Get(old(allowances), (owner, sender)) - amount]) &&
                (spec.Failed? ==> r == Failed(spec.error))
      ensures r.Failed? ==> balances == old(balances) && allowances == old(allowances)
      ensures minter == old(minter) && constants == old(constants) && totalSupply == old(totalSupply)
      ensures old(Valid()) ==> Valid()
    {
      var allowance := Get(allowances, (owner, sender));
      if allowance < amount {
        return Failed(AllowanceShortfall(allowance, amount));
      }
      var savedAllowances := allowances;
      allowances := allowances[(owner, sender) := allowance - amount];
      ghost var before := balances;
      r := PerformTransfer(owner, recipient, amount);
      if r.Failed? {
        allowances := savedAllowances;
        return;
      }
      if old(Valid()) && totalSupply.Some? {
        TransferMoves(before, owner, recipient, amount);
      }
    }

    /** `try_approve`: overwrites the allowance, it does not add to it. */
    method Approve(sender: Addr, spender: Addr, amount: u128) returns (r: Outcome<()>)
      modifies this
      ensures r == Done(())
      ensures allowances == old(allowances)[(sender, spender) := amount]
      ensures balances == old(balances) && minter == old(minter) &&
              constants == old(constants) && totalSupply == old(totalSupply)
    {
      allowances := allowances[(sender, spender) := amount];
      r := Done(());
    }

    /** `try_mint`: minter only; the recipient's balance and the supply both
        grow by `amount`. */
    method Mint(sender: Addr, recipient: Addr, amount: u128) returns (r: Outcome<()>)
      modifies this
      ensures old(minter).None? ==> r == Failed(Panic("no minter data stored"))
      ensures old(minter).Some? && old(minter).value != sender ==> r == Failed(NotMinter)
      ensures old(Valid()) && old(minter) == Some(sender) && old(totalSupply).Some? ==>
                (r.Done? <==> old(totalSupply).value + amount < U128_LIMIT)
      ensures r.Done? ==>
                old(minter) == Some(sender) && old(totalSupply).Some? &&
                Get(old(balances), recipient) + amount < U128_LIMIT &&
                balances == old(balances)[recipient := Get(old(balances), recipient) + amount] &&
                totalSupply == Some(old(totalSupply).value + amount)
      ensures r.Failed? ==> balances == old(balances) && totalSupply == old(totalSupply)
      ensures allowances == old(allowances) && minter == old(minter) && constants == old(constants)
      ensures old(Valid()) ==> Valid()
    {
      if minter.None? {
        return Failed(Panic("no minter data stored"));
      }
      if minter.value != sender {
        return Failed(NotMinter);
      }
      var balance := Get(balances, recipient);
      if balance + amount >= U128_LIMIT {
        if Valid() && totalSupply.Some? { GetLeSum(balances, recipient); }
        return Failed(Panic(OVERFLOW));
      }
      var saved := balances;
      balances := balances[recipient := balance + amount];
      if totalSupply.None? {
        balances := saved;
        return Failed(Panic("no total supply data stored"));
      }
      var supply := totalSupply.value;
      if supply + amount >= U128_LIMIT {
        balances := saved;
        return Failed(Panic(OVERFLOW));
      }
      SumUpdate(saved, recipient, balance + amount);
      totalSupply := Some(supply + amount);
      r := Done(());
    }

    /** `try_burn`: minter only; `burner`'s balance and the supply both
        shrink by `amount`, which must not exceed that balance. */
    method Burn(sender: Addr, burner: Addr, amount: u128) returns (r: Outcome<()>)
      modifies this
      ensures old(minter).None? ==> r == Failed(Panic("no owner data stored"))
      ensures old(minter).Some? && old(minter).value != sender ==> r == Failed(NotMinter)
      ensures old(minter) == Some(sender) && Get(old(balances), burner) < amount ==>
                r == Failed(BurnShortfall(Get(old(balances), burner), amount))
      ensures old(Valid()) && old(minter) == Some(sender) && old(totalSupply).Some? ==>
                (r.Done? <==> amount <= Get(old(balances), burner))
      ensures r.Done? ==>
                old(minter) == Some(sender) && old(totalSupply).Some? && amount <= Get(old(balances), burner) &&
                balances == old(balances)[burner := Get(old(balances), burner) - amount] &&
                totalSupply == Some(old(totalSupply).value - amount)
      ensures r.Failed? ==> balances == old(balances) && totalSupply == old(totalSupply)
      ensures allowances == old(allowances) && minter == old(minter) && constants == old(constants)
      ensures old(Valid()) ==> Valid()
    {
      if minter.None? {
        return Failed(Panic("no owner data stored"));
      }
      if minter.value != sender {
        return Failed(NotMinter);
      }
      var balance := Get(balances, burner);
      if balance < amount {
        return Failed(BurnShortfall(balance, amount));
      }
      var saved := balances;
      balances := balances[burner := balance - amount];
      if totalSupply.None? {
        balances := saved;
        return Failed(Panic("no total supply data stored"));
      }
      var supply := totalSupply.value;
      if supply < amount {
        if old(Valid()) { GetLeSum(saved, burner); }
        balances := saved;
        return Failed(Panic("attempt to subtract with overflow"));
      }
      SumUpdate(saved, burner, balance - amount);
      totalSupply := Some(supply - amount);
      r := Done(());
    }
  }
}
