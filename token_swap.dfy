/** The token swap contract: holders of a legacy cw20 token send it to the
    contract and receive the same amount of a target cw20 token, while the
    owner can switch swapping on and off and sweep both balances. */
module TokenSwap {
  import opened Common

  const UNAUTHORIZED: string := "unauthorized"

  /** `Config`. */
  datatype Config = Config(owner: Addr, legacyToken: Addr, targetToken: Addr, swapEnabled: bool)

  /** `Cw20HookMsg`, the message a legacy-token transfer carries. */
  datatype HookMsg = SwapHook(recipient: Option<Addr>)

  /** The contract's single stored item. */
  class TokenSwap {
    var config: Option<Config>

    constructor ()
      ensures config.None?
    {
      config := None;
    }

    /** `instantiate`: the owner and tokens come from the message, not the
        sender, and swapping starts disabled. */
    method Instantiate(owner: Addr, legacyToken: Addr, targetToken: Addr)
      modifies this
      ensures config == Some(Config(owner, legacyToken, targetToken, false))
      ensures Swap(owner, 1, None) == Err(GenericErr("swap is not enabled"))
    {
      config := Some(Config(owner, legacyToken, targetToken, false));
    }

    /** `swap`: while enabled, one transfer of the same amount of the target
        token to the recipient (the cw20 sender when none is named). */
    function Swap(sender: Addr, amount: u128, recipient: Option<Addr>): (r: Result<seq<CosmosMsg>>)
      reads this
      ensures config.None? ==> r == Err(NotFound("Config"))
      ensures config.Some? && !config.value.swapEnabled ==> r == Err(GenericErr("swap is not enabled"))
      ensures r.Ok? <==> config.Some? && config.value.swapEnabled
      ensures r.Ok? ==> |r.value| == 1 && r.value[0].Cw20Transfer? &&
                        r.value[0].contract == config.value.targetToken &&
                        r.value[0].recipient == UnwrapOr(recipient, sender)
      ensures r.Ok? ==> SumAmounts(r.value) == amount
    {
      if config.None? then Err(NotFound("Config"))
      else if !config.value.swapEnabled then Err(GenericErr("swap is not enabled"))
      else Ok([Cw20Transfer(config.value.targetToken, UnwrapOr(recipient, sender), amount)])
    }

    /** `receive_cw20`: only the legacy token contract may call; an
        undecodable hook (`None`) is rejected, a swap hook is passed on with
        the cw20 sender and amount unchanged. */
    function Receive(contract: Addr, sender: Addr, amount: u128, hook: Option<HookMsg>): (r: Result<seq<CosmosMsg>>)
      reads this
      ensures config.None? ==> r == Err(NotFound("Config"))
      ensures config.Some? && config.value.legacyToken != contract ==> r == Err(GenericErr(UNAUTHORIZED))
      ensures config.Some? && config.value.legacyToken == contract && hook.None? ==>
                r == Err(GenericErr("invalid cw20 hook message"))
      ensures config.Some? && config.value.legacyToken == contract && hook.Some? ==>
                r == Swap(sender, amount, hook.value.recipient)
    {
      if config.None? then Err(NotFound("Config"))
      else if config.value.legacyToken != contract then Err(GenericErr(UNAUTHORIZED))
      else if hook.None? then Err(GenericErr("invalid cw20 hook message"))
      else Swap(sender, amount, hook.value.recipient)
    }

    /** A successful receive came from the legacy token and pays out exactly
        what it took in, in the target token. */
    lemma ReceiveIsOneForOne(contract: Addr, sender: Addr, amount: u128, hook: Option<HookMsg>)
      requires Receive(contract, sender, amount, hook).Ok?
      ensures config.Some? && contract == config.value.legacyToken && config.value.swapEnabled
      ensures var ms := Receive(contract, sender, amount, hook).value;
              SumAmounts(ms) == amount && forall m :: m in ms ==> m.Cw20Transfer? && m.contract == config.value.targetToken
    {
      var ms := Receive(contract, sender, amount, hook).value;
      assert ms == Swap(sender, amount, hook.value.recipient).value;
      assert |ms| == 1;
    }

    /** `enable`: owner only; turns swapping on and changes nothing else. */
    method Enable(sender: Addr) returns (r: Result<()>)
      modifies this
      ensures old(config).None? ==> r == Err(NotFound("Config"))
      ensures old(config).Some? && old(config).value.owner != sender ==> r == Err(GenericErr(UNAUTHORIZED))
      ensures r.Ok? <==> old(config).Some? && old(config).value.owner == sender
      ensures r.Ok? ==> config == Some(old(config).value.(swapEnabled := true))
      ensures r.Ok? ==> forall s, a, rcp :: Swap(s, a, rcp).Ok?
      ensures r.Err? ==> config == old(config)
    {
      if config.None? {
        return Err(NotFound("Config"));
      }
      if config.value.owner != sender {
        return Err(GenericErr(UNAUTHORIZED));
      }
      config := Some(config.value.(swapEnabled := true));
      r := Ok(());
    }

    /** `disable`: owner only; turns swapping off and changes nothing else. */
    method Disable(sender: Addr) returns (r: Result<()>)
      modifies this
      ensures old(config).None? ==> r == Err(NotFound("Config"))
      ensures old(config).Some? && old(config).value.owner != sender ==> r == Err(GenericErr(UNAUTHORIZED))
      ensures r.Ok? <==> old(config).Some? && old(config).value.owner == sender
      ensures r.Ok? ==> config == Some(old(config).value.(swapEnabled := false))
      ensures r.Ok? ==> forall s, a, rcp :: Swap(s, a, rcp) == Err(GenericErr("swap is not enabled"))
      ensures r.Err? ==> config == old(config)
    {
      if config.None? {
        return Err(NotFound("Config"));
      }
      if config.value.owner != sender {
        return Err(GenericErr(UNAUTHORIZED));
      }
      config := Some(config.value.(swapEnabled := false));
      r := Ok(());
    }

    /** `withdraw`: owner only; sends the contract's whole target-token
        balance and then its whole legacy-token balance to the recipient
        (the owner when none is named), skipping a zero balance. The two
        balances are what the token contracts report. */
    method Withdraw(sender: Addr, targetBalance: u128, legacyBalance: u128, recipient: Option<Addr>)
      returns (r: Result<seq<CosmosMsg>>)
      ensures config.None? ==> r == Err(NotFound("Config"))
      ensures config.Some? && config.value.owner != sender ==> r == Err(GenericErr(UNAUTHORIZED))
      ensures r.Ok? <==> config.Some? && config.value.owner == sender
      ensures r.Ok? ==> SumAmounts(r.value) == targetBalance + legacyBalance
      ensures r.Ok? ==> |r.value| == (if targetBalance > 0 then 1 else 0) + (if legacyBalance > 0 then 1 else 0)
      ensures r.Ok? ==> forall m :: m in r.value ==>
                m.Cw20Transfer? && m.amount > 0 && m.recipient == UnwrapOr(recipient, config.value.owner)
      ensures r.Ok? && targetBalance > 0 ==>
                r.value[0] == Cw20Transfer(config.value.targetToken, UnwrapOr(recipient, config.value.owner), targetBalance)
      ensures r.Ok? && legacyBalance > 0 ==>
                r.value[|r.value| - 1] == Cw20Transfer(config.value.legacyToken, UnwrapOr(recipient, config.value.owner), legacyBalance)
    {
      if config.None? {
        return Err(NotFound("Config"));
      }
      var cfg := config.value;
      if cfg.owner != sender {
        return Err(GenericErr(UNAUTHORIZED));
      }
      var to := UnwrapOr(recipient, cfg.owner);
      var messages: seq<CosmosMsg> := [];
      if targetBalance > 0 {
        messages := messages + [Cw20Transfer(cfg.targetToken, to, targetBalance)];
      }
      ghost var first := messages;
      if legacyBalance > 0 {
        messages := messages + [Cw20Transfer(cfg.legacyToken, to, legacyBalance)];
        SumAmountsAppend(first, [Cw20Transfer(cfg.legacyToken, to, legacyBalance)]);
      }
      r := Ok(messages);
    }
  }
}
