/** The send-to-burn contract: on request it sends every coin it holds to a
    fixed burn address, each coin reduced so that the chain's transfer tax,
    charged on top of the sent amount, can still be paid from the balance. */
module SendToBurn {
  import opened Common
  import opened Arith
  import opened Decimal

  const BURN_ADDRESS: Addr := "terra1sk06e3dyexuq4shw77y3dsv480xv42mq73anxu"
  const MUL_OVERFLOW: string := "attempt to multiply with overflow"

  /** The tax the chain charges on a send of `x`: `rate * x`, floored,
      capped at the denomination's cap. */
  function ChargedTax(x: nat, rate: Decimal, cap: u128): (t: nat)
    ensures t <= cap && t * FRACTIONAL <= x * rate
  {
    Min(FloorDiv(x * rate, FRACTIONAL), cap)
  }

  /** `amount.multiply_ratio(DECIMAL_FRACTION, DECIMAL_FRACTION * tax_rate +
      DECIMAL_FRACTION)`: the largest `q` with `q * (1 + rate) <= amount`.
      This host version multiplies in `u128`, so both `DECIMAL_FRACTION *
      tax_rate` and `amount * DECIMAL_FRACTION` panic
      when they overflow. */
  function Sendable(amount: u128, rate: Decimal): (r: Result<u128>)
    ensures r.Ok? <==> FRACTIONAL * rate < U128_LIMIT && amount * FRACTIONAL < U128_LIMIT
    ensures r.Ok? ==> r.value * (FRACTIONAL + rate) <= amount * FRACTIONAL < (r.value + 1) * (FRACTIONAL + rate)
    ensures r.Ok? ==> r.value <= amount
  {
    if FRACTIONAL * rate >= U128_LIMIT then Err(Abort(MUL_OVERFLOW))
    else
      var scaled := FloorDiv(FRACTIONAL * rate, FRACTIONAL);
      assert scaled == rate by { MulDivCancel(rate, FRACTIONAL); }
      if amount * FRACTIONAL >= U128_LIMIT then Err(Abort(MUL_OVERFLOW))
      else
        var q := FloorDiv(amount * FRACTIONAL, FRACTIONAL + scaled);
        QuotientBelow(amount, q, FRACTIONAL + scaled);
        Ok(q)
  }

  /** Dividing `amount * FRACTIONAL` by at least `FRACTIONAL` gives at most
      `amount`. */
  lemma QuotientBelow(amount: nat, q: nat, d: nat)
    requires d >= FRACTIONAL && q * d <= amount * FRACTIONAL
    ensures q <= amount
  {
    if q > amount {
      MulLeMono(amount + 1, q, d);
      MulLeMono(FRACTIONAL, d, amount + 1);
      MulSucc(amount, FRACTIONAL);
      assert false;
    }
  }

  /** `deduct_tax` for one coin as written: the sendable amount capped at
      the tax cap, so the cap bounds what is sent rather than the tax. */
  function SendAmountAsWritten(amount: u128, rate: Decimal, cap: u128): (r: Result<u128>)
    ensures r.Ok? <==> Sendable(amount, rate).Ok?
    ensures r.Ok? ==> r.value <= cap && r.value <= Sendable(amount, rate).value
  {
    var q := Sendable(amount, rate);
    if q.Err? then q else Ok(Min(q.value, cap))
  }

  /** `deduct_tax` for one coin as evidently intended (the common
      `compute_tax` / `deduct_tax` pair): the tax is the difference between
      the amount and what is sendable, capped, and the coin keeps the rest. */
  function SendAmount(amount: u128, rate: Decimal, cap: u128): (r: Result<u128>)
    ensures r.Ok? <==> Sendable(amount, rate).Ok?
    ensures r.Ok? ==> r.value <= amount && amount - r.value <= cap
    ensures r.Ok? ==> r.value + ChargedTax(r.value, rate, cap) <= amount
    ensures r.Ok? && rate == 0 ==> r.value == amount
  {
    var q := Sendable(amount, rate);
    if q.Err? then q
    else
      var tax := Min(amount - q.value, cap);
      var sent := amount - tax;
      assert sent + ChargedTax(sent, rate, cap) <= amount by {
        if tax < cap {
          TaxFits(amount, q.value, rate);
        }
      }
      assert rate == 0 ==> q.value == amount by {
        if rate == 0 {
          MulLtCancel(amount, q.value + 1, FRACTIONAL);
        }
      }
      Ok(sent)
  }

  /** When the sendable quotient is sent, the tax charged on it fits in the
      remainder. */
  lemma TaxFits(amount: nat, q: nat, rate: nat)
    requires q <= amount && q * (FRACTIONAL + rate) <= amount * FRACTIONAL
    ensures FloorDiv(q * rate, FRACTIONAL) <= amount - q
  {
    var t := FloorDiv(q * rate, FRACTIONAL);
    assert q * FRACTIONAL + q * rate <= amount * FRACTIONAL;
    assert t * FRACTIONAL <= q * rate;
    assert (q + t) * FRACTIONAL <= amount * FRACTIONAL;
  }

  /** The discrepancy: with no tax at all (rate 0, cap 1000), a balance of
      1000000 has 1000 sent as written; the intended deduction sends it
      all. */
  lemma AsWrittenCapsTheSend()
    ensures SendAmountAsWritten(1_000_000, 0, 1000) == Ok(1000)
    ensures SendAmount(1_000_000, 0, 1000) == Ok(1_000_000)
    ensures ChargedTax(1_000_000, 0, 1000) == 0
  {
    assert FloorDiv(1_000_000 * FRACTIONAL, FRACTIONAL) == 1_000_000 by {
      FloorDivUnique(1_000_000 * FRACTIONAL, FRACTIONAL, 1_000_000);
    }
  }

  /** What is sent as written still leaves room for the chain's tax: it is
      at most the sendable quotient, and the tax on anything that small fits
      in the remainder. */
  lemma AsWrittenTaxFits(amount: u128, rate: Decimal, cap: u128)
    requires SendAmountAsWritten(amount, rate, cap).Ok?
    ensures var sent := SendAmountAsWritten(amount, rate, cap).value;
            sent <= amount && sent + ChargedTax(sent, rate, cap) <= amount
  {
    var q := Sendable(amount, rate).value;
    var sent := SendAmountAsWritten(amount, rate, cap).value;
    MulLeMono(sent, q, FRACTIONAL + rate);
    TaxFits(amount, sent, rate);
  }

  /** `deduct_tax` as written: every coin in order, same denomination, its
      amount the sendable quotient capped at the denomination's tax cap;
      the first coin whose arithmetic panics aborts the call. The cap of
      each denomination comes from the chain's treasury. */
  function DeductTax(coins: seq<Coin>, rate: Decimal, capOf: string -> u128): (r: Result<seq<Coin>>)
    ensures r.Ok? <==> forall i :: 0 <= i < |coins| ==> Sendable(coins[i].amount, rate).Ok?
    ensures r.Ok? ==> |r.value| == |coins| &&
                      forall i :: 0 <= i < |coins| ==>
                        r.value[i].denom == coins[i].denom &&
                        r.value[i].amount == SendAmountAsWritten(coins[i].amount, rate, capOf(coins[i].denom)).value
  {
    if coins == [] then Ok([])
    else
      var head := SendAmountAsWritten(coins[0].amount, rate, capOf(coins[0].denom));
      if head.Err? then Err(head.error)
      else
        var rest := DeductTax(coins[1..], rate, capOf);
        if rest.Err? then
          Err(rest.error)
        else
          Ok([Coin(coins[0].denom, head.value)] + rest.value)
  }

  /** `send_to_burn_account` as written: one bank send of the deducted coins
      to the burn address; `balances` is what the bank reports for the
      contract. Each coin sent is at most its balance and its tax cap, and
      the chain's tax on it still fits in the balance. */
  function SendToBurnAccount(balances: seq<Coin>, rate: Decimal, capOf: string -> u128): (r: Result<seq<CosmosMsg>>)
    ensures r.Ok? <==> forall i :: 0 <= i < |balances| ==> Sendable(balances[i].amount, rate).Ok?
    ensures r.Ok? ==> |r.value| == 1 && r.value[0].BankSend? && r.value[0].toAddress == BURN_ADDRESS
    ensures r.Ok? ==> |r.value[0].coins| == |balances|
    ensures r.Ok? ==>
              forall i :: 0 <= i < |balances| ==>
                r.value[0].coins[i].denom == balances[i].denom &&
                r.value[0].coins[i].amount <= capOf(balances[i].denom) &&
                r.value[0].coins[i].amount + ChargedTax(r.value[0].coins[i].amount, rate, capOf(balances[i].denom))
                  <= balances[i].amount
  {
    var amount := DeductTax(balances, rate, capOf);
    if amount.Err? then Err(amount.error)
    else
      forall i | 0 <= i < |balances|
        ensures amount.value[i].amount + ChargedTax(amount.value[i].amount, rate, capOf(balances[i].denom))
                  <= balances[i].amount
      {
        AsWrittenTaxFits(balances[i].amount, rate, capOf(balances[i].denom));
      }
      Ok([BankSend(BURN_ADDRESS, amount.value)])
  }

  /** `deduct_tax` as evidently intended: each coin keeps all but its
      capped tax. */
  function DeductTaxCorrected(coins: seq<Coin>, rate: Decimal, capOf: string -> u128): (r: Result<seq<Coin>>)
    ensures r.Ok? <==> forall i :: 0 <= i < |coins| ==> SendAmount(coins[i].amount, rate, capOf(coins[i].denom)).Ok?
    ensures r.Ok? ==> |r.value| == |coins| &&
                      forall i :: 0 <= i < |coins| ==>
                        r.value[i].denom == coins[i].denom &&
                        r.value[i].amount == SendAmount(coins[i].amount, rate, capOf(coins[i].denom)).value
  {
    if coins == [] then Ok([])
    else
      var head := SendAmount(coins[0].amount, rate, capOf(coins[0].denom));
      if head.Err? then Err(head.error)
      else
        var rest := DeductTaxCorrected(coins[1..], rate, capOf);
        if rest.Err? then
          Err(rest.error)
        else
          Ok([Coin(coins[0].denom, head.value)] + rest.value)
  }

  /** `send_to_burn_account` with the intended deduction: each coin is
      reduced by at most its cap, the tax on what is sent still fits, and
      with no tax the whole balance is sent. */
  function SendToBurnAccountCorrected(balances: seq<Coin>, rate: Decimal, capOf: string -> u128): (r: Result<seq<CosmosMsg>>)
    ensures r.Ok? <==> SendToBurnAccount(balances, rate, capOf).Ok?
    ensures r.Ok? ==> |r.value| == 1 && r.value[0].BankSend? && r.value[0].toAddress == BURN_ADDRESS
    ensures r.Ok? ==> |r.value[0].coins| == |balances|
    ensures r.Ok? ==>
              forall i :: 0 <= i < |balances| ==>
                r.value[0].coins[i].denom == balances[i].denom &&
                r.value[0].coins[i].amount <= balances[i].amount &&
                balances[i].amount - r.value[0].coins[i].amount <= capOf(balances[i].denom) &&
                r.value[0].coins[i].amount + ChargedTax(r.value[0].coins[i].amount, rate, capOf(balances[i].denom))
                  <= balances[i].amount
    ensures r.Ok? && rate == 0 ==>
              forall i :: 0 <= i < |balances| ==> r.value[0].coins[i].amount == balances[i].amount
  {
    var amount := DeductTaxCorrected(balances, rate, capOf);
    if amount.Err? then Err(amount.error) else Ok([BankSend(BURN_ADDRESS, amount.value)])
  }
}
