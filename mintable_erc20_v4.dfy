/** The mintable token ported to the newer host interface: the same ledger
    (`MintableErc20.Token`), with the contract's own error type in place of
    generic errors. */
module MintableErc20V4 {
  import opened Common
  import opened MintableErc20

  /** `ContractError`: a wrapped host error or one of the contract's own. */
  datatype ContractError =
    | Std(inner: StdError)
    | ContractUnauthorized
    | InvalidName
    | InvalidSymbol
    | InvalidDecimals
    | InsufficientAllowance
    | InsufficientFunds

  /** How the port reports each failure. `perform_transfer` still returns a
      generic host error for a shortfall, so a transfer's shortfall keeps
      the original's wording while the allowance and burn shortfalls lose
      their amounts. */
  function ContractErrorOf(e: TokenError): (r: ContractError)
    ensures r.Std? <==> e.FundsShortfall? || e.Panic?
    ensures r.Std? ==> r.inner == StdErrorOf(e)
    ensures e.NotMinter? <==> r == ContractUnauthorized
    ensures e.BurnShortfall? ==> r == InsufficientFunds
    ensures e.AllowanceShortfall? <==> r == InsufficientAllowance
  {
    match e
    case NotMinter => ContractUnauthorized
    case BadName => InvalidName
    case BadSymbol => InvalidSymbol
    case BadDecimals => InvalidDecimals
    case AllowanceShortfall(_, _) => InsufficientAllowance
    case FundsShortfall(_, _) => Std(StdErrorOf(e))
    case BurnShortfall(_, _) => InsufficientFunds
    case Panic(_) => Std(StdErrorOf(e))
  }

  /** The display text of the contract's own errors. */
  function Display(e: ContractError): (s: string)
    requires !e.Std?
  {
    match e
    case ContractUnauthorized => "Unauthorized"
    case InvalidName => "Name is not in the expected format (3-30 UTF-8 bytes)"
    case InvalidSymbol => "Ticker symbol is not in expected format"
    case InvalidDecimals => "Decimals must not exceed 18"
    case InsufficientAllowance => "Insufficient allowance"
    case InsufficientFunds => "Insufficient funds"
  }

  /** The name and decimals errors read as they did before the port; the
      symbol error dropped its `[A-Za-z]{3,6}` pattern. */
  lemma NameMessageCarriedOver()
    ensures Display(ContractErrorOf(BadName)) == StdErrorOf(BadName).msg
  {
  }

  lemma DecimalsMessageCarriedOver()
    ensures Display(ContractErrorOf(BadDecimals)) == StdErrorOf(BadDecimals).msg
  {
  }

  lemma SymbolMessageLostPattern()
    ensures Display(ContractErrorOf(BadSymbol)) + " [A-Za-z]{3,6}" == StdErrorOf(BadSymbol).msg
  {
    var ported := Display(ContractErrorOf(BadSymbol));
    assert ported == "Ticker symbol is not in expected format";
    assert StdErrorOf(BadSymbol).msg == "Ticker symbol is not in expected format [A-Za-z]{3,6}";
  }

  /** The integration test of `transfer_from`: with balances 11 and 33 and
      an allowance of 42, spending 2 leaves 9, 35 and an allowance of 40. */
  lemma TransferFromExample()
    ensures var balances := map["addr0000" := 11, "addr1111" := 22, "addr2222" := 33];
            Transferred(balances, "addr0000", "addr2222", 2) ==
              Done(map["addr0000" := 9, "addr1111" := 22, "addr2222" := 35])
  {
    var balances: map<Addr, u128> := map["addr0000" := 11, "addr1111" := 22, "addr2222" := 33];
    assert "addr0000" != "addr2222" by { assert "addr0000"[4] != "addr2222"[4]; }
    var expected: map<Addr, u128> := map["addr0000" := 9, "addr1111" := 22, "addr2222" := 35];
    assert balances["addr0000" := 9]["addr2222" := 35] == expected;
  }
}
