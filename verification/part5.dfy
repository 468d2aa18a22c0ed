/** The DCBBank variant: init needs no parameter; insert, smash, and a
    balanceOf entry that, like smash, sends the whole balance to the owner
    but never writes the state. */
module Part5 {
  import opened Concordium
  import opened DcbBank

  /** The receive entry points this variant registers. */
  const Entries: set<Entry> := {InsertAmount, SmashAmount, BalanceOf}

  /** Init always succeeds, with an intact bank, whatever its context. */
  function Init<P>(ctx: InitContext<P>): (r: InitResult<State>)
    ensures r == InitOk(Intact)
  {
    InitOk(Intact)
  }

  /** balanceOf: owner-only, and with no state guard: the owner's account
      gets the whole balance transferred to it, intact bank or smashed. */
  function BalanceQuery(ctx: ReceiveContext, state: State): (r: ReceiveResult)
    ensures r.Ok? <==> MatchesAccount(ctx.sender, ctx.owner)
    ensures r.Ok? ==> r.action == SimpleTransfer(ctx.owner, ctx.selfBalance)
  {
    if MatchesAccount(ctx.sender, ctx.owner) then Ok(SimpleTransfer(ctx.owner, ctx.selfBalance))
    else Reject
  }

  /** The entry-point table: `None` for a name this variant does not
      register, otherwise what the handler leaves behind. Only smash ever
      writes the state, and it never writes it back to Intact. */
  function Receive(entry: Entry, ctx: ReceiveContext, amount: nat, state: State): (o: Option<Transition>)
    ensures o.Some? <==> entry in Entries
    ensures o.Some? && entry.IsInsert() ==> o.value.state == state && o.value.result == Insert(ctx, amount, state)
    ensures o.Some? && entry == SmashAmount ==> o.value == SmashStep(ctx, state)
    ensures o.Some? && entry == BalanceOf ==> o.value.state == state && o.value.result == BalanceQuery(ctx, state)
    ensures o.Some? && o.value.state != state ==> entry == SmashAmount && o.value.state == Smashed
  {
    match entry
    case InsertAmount => Some(Transition(state, Insert(ctx, amount, state)))
    case SmashAmount => Some(SmashStep(ctx, state))
    case BalanceOf => Some(Transition(state, BalanceQuery(ctx, state)))
    case _ => None
  }
}
