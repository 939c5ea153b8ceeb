/** The market maker contract: it holds two native denominations, an `offer`
    and an `ask`, and lets its owner swap one for the other on the chain's
    market; anyone may have it send a coin on, net of the transfer tax. */
module Maker {
  import opened Common
  import opened Decimal

  /** `State`. */
  datatype State = State(ask: string, offer: string, owner: Addr)

  /** The two market messages: swap `offerCoin` into `askDenom` for the
      contract itself, or swap and send the proceeds to `toAddress`. */
  datatype MarketMsg =
    | Swap(offerCoin: Coin, askDenom: string)
    | SwapSend(toAddress: Addr, offerCoin: Coin, askDenom: string)

  /** `MakerError`. */
  datatype MakerError = Std(original: StdError) | MakerUnauthorized

  datatype Outcome<T> = Done(value: T) | Failed(error: MakerError)

  /** `SimulateResponse`. */
  datatype SimulateResponse = SimulateResponse(sell: Coin, buy: Coin)

  /** The transfer tax on `amount`: `tax_rate * amount`, floored, capped at
      `tax_cap`. */
  function Tax(amount: u128, taxRate: Decimal, taxCap: u128): (r: Result<u128>)
    ensures r.Ok? <==> MulFloor(taxRate, amount).Ok?
    ensures r.Ok? ==> r.value <= taxCap && r.value * FRACTIONAL <= amount * taxRate
    ensures r.Ok? && r.value < taxCap ==> amount * taxRate < (r.value + 1) * FRACTIONAL
    ensures taxRate <= ONE ==> r.Ok? && r.value <= amount
  {
    var taxed := MulFloor(taxRate, amount);
    if taxed.Err? then Err(taxed.error)
    else if taxed.value > taxCap then Ok(taxCap)
    else Ok(taxed.value)
  }

  /** `transfer` (the `Send` message): one bank send of the coin, less the
      tax, to `to`; there is no owner check. The tax rate and the cap for
      the coin's denomination come from the chain's treasury and are inputs
      here. A tax above the amount (only possible with a rate above one)
      makes the raw subtraction panic. */
  function Transfer(coin: Coin, to: Addr, taxRate: Decimal, taxCap: u128): (r: Result<CosmosMsg>)
    ensures r.Ok? <==> Tax(coin.amount, taxRate, taxCap).Ok? && Tax(coin.amount, taxRate, taxCap).value <= coin.amount
    ensures r.Ok? ==> r.value.BankSend? && r.value.toAddress == to && |r.value.coins| == 1 &&
                      r.value.coins[0].denom == coin.denom &&
                      r.value.coins[0].amount + Tax(coin.amount, taxRate, taxCap).value == coin.amount
    ensures taxRate <= ONE ==> r.Ok?
  {
    var tax := Tax(coin.amount, taxRate, taxCap);
    if tax.Err? then Err(tax.error)
    else if tax.value > coin.amount then Err(Abort("attempt to subtract with overflow"))
    else Ok(BankSend(to, [Coin(coin.denom, coin.amount - tax.value)]))
  }

  /** The unit tests' two sends at a 2% rate with a cap of 10: 10000 sends
      9990 (the cap applies), 50 sends 49. */
  lemma TransferExamples()
    ensures Transfer(Coin("SDT", 10000), "receiver", Percent(2), 10) == Ok(BankSend("receiver", [Coin("SDT", 9990)]))
    ensures Transfer(Coin("SDT", 50), "receiver", Percent(2), 10) == Ok(BankSend("receiver", [Coin("SDT", 49)]))
  {
    assert MulFloor(Percent(2), 10000) == Ok(200);
    assert MulFloor(Percent(2), 50) == Ok(1);
  }

  /** How much a buy or sell trades: the whole balance, or at most `limit`
      when one is given. */
  function Traded(balance: u128, limit: Option<u128>): (amount: u128)
    ensures amount <= balance
    ensures limit.None? ==> amount == balance
    ensures limit.Some? ==> amount <= limit.value && (amount == balance || amount == limit.value)
  {
    if limit.Some? && limit.value < balance then limit.value else balance
  }

  /** The market message for trading `amount` of `sell` into `buy`: the
      swap-and-send form when a recipient is named. */
  function MarketOrder(amount: u128, sell: string, buy: string, recipient: Option<Addr>): (m: MarketMsg)
    ensures m.offerCoin == Coin(sell, amount) && m.askDenom == buy
    ensures m.SwapSend? <==> recipient.Some?
    ensures m.SwapSend? ==> m.toAddress == recipient.value
  {
    if recipient.Some? then SwapSend(recipient.value, Coin(sell, amount), buy)
    else Swap(Coin(sell, amount), buy)
  }

  /** The contract's single stored item. */
  class Maker {
    var state: Option<State>

    constructor ()
      ensures state.None?
    {
      state := None;
    }

    /** `instantiate`: the sender becomes the owner. */
    method Instantiate(sender: Addr, ask: string, offer: string)
      modifies this
      ensures state == Some(State(ask, offer, sender))
      ensures Buy(sender, 0, None, None) == Done([])
    {
      state := Some(State(ask, offer, sender));
    }

    /** `buy`: owner only; nothing happens when the contract holds no
        `offer`, otherwise up to `limit` of its `offer` balance is swapped
        into `ask`. The balance is what the bank reports. */
    function Buy(sender: Addr, offerBalance: u128, limit: Option<u128>, recipient: Option<Addr>): (r: Outcome<seq<MarketMsg>>)
      reads this
      ensures state.None? ==> r == Failed(Std(NotFound("State")))
      ensures state.Some? && sender != state.value.owner ==> r == Failed(MakerUnauthorized)
      ensures r.Done? <==> state.Some? && sender == state.value.owner
      ensures r.Done? && offerBalance == 0 ==> r.value == []
      ensures r.Done? && offerBalance > 0 ==>
                |r.value| == 1 && r.value[0].offerCoin.denom == state.value.offer &&
                r.value[0].askDenom == state.value.ask &&
                r.value[0].offerCoin.amount == Traded(offerBalance, limit) &&
                (r.value[0].SwapSend? <==> recipient.Some?)
    {
      if state.None? then Failed(Std(NotFound("State")))
      else if sender != state.value.owner then Failed(MakerUnauthorized)
      else if offerBalance == 0 then Done([])
      else Done([MarketOrder(Traded(offerBalance, limit), state.value.offer, state.value.ask, recipient)])
    }

    /** `sell`: the mirror image of `buy`, trading `ask` into `offer`. */
    function Sell(sender: Addr, askBalance: u128, limit: Option<u128>, recipient: Option<Addr>): (r: Outcome<seq<MarketMsg>>)
      reads this
      ensures state.None? ==> r == Failed(Std(NotFound("State")))
      ensures state.Some? && sender != state.value.owner ==> r == Failed(MakerUnauthorized)
      ensures r.Done? <==> state.Some? && sender == state.value.owner
      ensures r.Done? && askBalance == 0 ==> r.value == []
      ensures r.Done? && askBalance > 0 ==>
                |r.value| == 1 && r.value[0].offerCoin.denom == state.value.ask &&
                r.value[0].askDenom == state.value.offer &&
                r.value[0].offerCoin.amount == Traded(askBalance, limit) &&
                (r.value[0].SwapSend? <==> recipient.Some?)
    {
      if state.None? then Failed(Std(NotFound("State")))
      else if sender != state.value.owner then Failed(MakerUnauthorized)
      else if askBalance == 0 then Done([])
      else Done([MarketOrder(Traded(askBalance, limit), state.value.ask, state.value.offer, recipient)])
    }

    /** A sell undoes the direction of a buy: what one offers the other
        asks for. */
    lemma BuySellMirror(sender: Addr, balance: u128, limit: Option<u128>, recipient: Option<Addr>)
      requires Buy(sender, balance, limit, recipient).Done? && balance > 0
      ensures var b := Buy(sender, balance, limit, recipient).value[0];
              var s := Sell(sender, balance, limit, recipient).value[0];
              b.offerCoin.denom == s.askDenom && b.askDenom == s.offerCoin.denom && b.offerCoin.amount == s.offerCoin.amount
    {
    }

    /** The denomination `query_swap` asks a quote for: the other configured
        one; any other denomination is an error. */
    function SimulateAsk(offerDenom: string): (r: Result<string>)
      reads this
      ensures state.None? ==> r == Err(NotFound("State"))
      ensures r.Ok? <==> state.Some? && (offerDenom == state.value.ask || offerDenom == state.value.offer)
      ensures r.Ok? ==> (offerDenom == state.value.ask ==> r.value == state.value.offer) &&
                        (offerDenom != state.value.ask ==> r.value == state.value.ask)
      ensures state.Some? && r.Err? ==>
                r.error == GenericErr("Cannot simulate '" + offerDenom + "' swap, neither contract's ask nor offer")
    {
      if state.None? then Err(NotFound("State"))
      else if offerDenom == state.value.ask then Ok(state.value.offer)
      else if offerDenom == state.value.offer then Ok(state.value.ask)
      else Err(GenericErr("Cannot simulate '" + offerDenom + "' swap, neither contract's ask nor offer"))
    }

    /** With two distinct denominations the direction is an involution:
        asking for the quote's denomination leads back. */
    lemma SimulateAskInvolution(offerDenom: string)
      requires SimulateAsk(offerDenom).Ok? && state.value.ask != state.value.offer
      ensures SimulateAsk(SimulateAsk(offerDenom).value) == Ok(offerDenom)
      ensures SimulateAsk(offerDenom).value != offerDenom
    {
    }

    /** `query_swap`: the offered coin and the market's quote for it in the
        other denomination; `receive` is the market's answer. */
    function QuerySwap(offer: Coin, receive: Coin): (r: Result<SimulateResponse>)
      reads this
      ensures r.Ok? <==> SimulateAsk(offer.denom).Ok?
      ensures r.Err? ==> r.error == SimulateAsk(offer.denom).error
      ensures r.Ok? ==> r.value.sell == offer && r.value.buy == receive
    {
      var ask := SimulateAsk(offer.denom);
      if ask.Err? then Err(ask.error) else Ok(SimulateResponse(offer, receive))
    }
  }
}
