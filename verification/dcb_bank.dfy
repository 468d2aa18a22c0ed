/** The piggy bank ("dcb bank") shared by every contract variant: its
    two-valued lifecycle state, the names of the receive entry points the
    variants expose, the guard every insert handler repeats, and the
    owner-only smash that empties the bank. */
module DcbBank {
  import opened Concordium

  /** The whole persisted state of an instance. */
  datatype State =
    | Intact   // alive and well, accepts inserts
    | Smashed  // emptied; no further insert is accepted

  /** The receive entry points found across the variants. */
  datatype Entry =
    | InsertAmount | InsertAmount1 | InsertAmount2 | InsertAmount3
    | InsertAmount4 | InsertAmount5 | InsertAmount6 | InsertAmount7
    | ReturnStruct
    | SmashAmount
    | BalanceOf
  {
    /** The entry points whose handler is the insert guard. */
    predicate IsInsert()
    {
      !SmashAmount? && !BalanceOf?
    }
  }

  /** What a receive handler leaves behind: the state it wrote back through
      its `&mut` reference and the result it returned. */
  datatype Transition = Transition(state: State, result: ReceiveResult)

  /** The body every insert handler shares: anyone may call it, with any
      amount; it accepts exactly while the bank is intact and never returns
      a transfer. It only reads the state. */
  function Insert(ctx: ReceiveContext, amount: nat, state: State): (r: ReceiveResult)
    ensures r.Ok? <==> state == Intact
    ensures r.Ok? ==> r.action == Accept
  {
    if state == Intact then Ok(Accept) else Reject
  }

  /** Smash, as a state transformer: the sender must be the owner's account
      and the bank must be intact (checked in that order); only then is the
      state set to Smashed and the whole balance sent to the owner. Both
      guards come before the write, so a rejected smash leaves the state as
      it was. */
  function SmashStep(ctx: ReceiveContext, state: State): (t: Transition)
    ensures t.result.Ok? <==> MatchesAccount(ctx.sender, ctx.owner) && state == Intact
    ensures t.result.Ok? ==> t.state == Smashed && t.result.action == SimpleTransfer(ctx.owner, ctx.selfBalance)
    ensures t.result.Reject? ==> t.state == state
  {
    if !MatchesAccount(ctx.sender, ctx.owner) then Transition(state, Reject)
    else if state != Intact then Transition(state, Reject)
    else Transition(Smashed, Ok(SimpleTransfer(ctx.owner, ctx.selfBalance)))
  }

  /** A deployed instance: the host keeps its state and hands the handlers
      a mutable reference to it. */
  class Instance {
    var state: State

    constructor (initial: State)
      ensures state == initial
    {
      state := initial;
    }

    /** The smash handler, writing the state in place after both guards. */
    method Smash(ctx: ReceiveContext) returns (r: ReceiveResult)
      modifies this
      ensures r.Ok? <==> MatchesAccount(ctx.sender, ctx.owner) && old(state) == Intact
      ensures r.Ok? ==> state == Smashed && r.action == SimpleTransfer(ctx.owner, ctx.selfBalance)
      ensures r.Reject? ==> state == old(state)
      ensures Transition(state, r) == SmashStep(ctx, old(state))
    {
      var owner := ctx.owner;
      var sender := ctx.sender;
      if !MatchesAccount(sender, owner) {
        return Reject;
      }
      if state != Intact {
        return Reject;
      }
      state := Smashed;
      var balance := ctx.selfBalance;
      r := Ok(SimpleTransfer(owner, balance));
    }
  }
}
