/** The mask (reflect) contract: its owner hands it a list of messages and
    the contract issues them as its own; ownership can be passed on. */
module Mask {
  import opened Common

  /** `MaskError`. */
  datatype MaskError = Std(original: StdError) | MaskUnauthorized | MessagesEmpty

  datatype Outcome<T> = Done(value: T) | Failed(error: MaskError)

  /** The contract's single stored item, `State { owner }`. */
  class Mask {
    var owner: Option<Addr>

    constructor ()
      ensures owner.None?
    {
      owner := None;
    }

    /** `init`: the sender becomes the owner. */
    method Init(sender: Addr)
      modifies this
      ensures owner == Some(sender)
      ensures forall msgs: seq<CosmosMsg> :: |msgs| > 0 ==> Reflect(sender, msgs) == Done(msgs)
    {
      owner := Some(sender);
    }

    /** `try_reflect`: owner only and at least one message; the messages are
        handed back unchanged, in order, and the state is not touched. */
    function Reflect<M>(sender: Addr, msgs: seq<M>): (r: Outcome<seq<M>>)
      reads this
      ensures owner.None? ==> r == Failed(Std(NotFound("State")))
      ensures owner.Some? && sender != owner.value ==> r == Failed(MaskUnauthorized)
      ensures owner.Some? && sender == owner.value && msgs == [] ==> r == Failed(MessagesEmpty)
      ensures r.Done? <==> owner == Some(sender) && msgs != []
      ensures r.Done? ==> r.value == msgs
    {
      if owner.None? then Failed(Std(NotFound("State")))
      else if sender != owner.value then Failed(MaskUnauthorized)
      else if msgs == [] then Failed(MessagesEmpty)
      else Done(msgs)
    }

    /** `try_change_owner`: owner only; replaces the owner. Afterwards only
        the new owner can reflect. */
    method ChangeOwner(sender: Addr, newOwner: Addr) returns (r: Outcome<()>)
      modifies this
      ensures old(owner).None? ==> r == Failed(Std(NotFound("State")))
      ensures old(owner).Some? && sender != old(owner).value ==> r == Failed(MaskUnauthorized)
      ensures r.Done? <==> old(owner) == Some(sender)
      ensures r.Done? ==> owner == Some(newOwner)
      ensures r.Done? ==> forall a: Addr, msgs: seq<CosmosMsg> ::
                Reflect(a, msgs).Done? <==> a == newOwner && msgs != []
      ensures r.Failed? ==> owner == old(owner)
    {
      if owner.None? {
        return Failed(Std(NotFound("State")));
      }
      if sender != owner.value {
        return Failed(MaskUnauthorized);
      }
      owner := Some(newOwner);
      r := Done(());
    }
  }
}
