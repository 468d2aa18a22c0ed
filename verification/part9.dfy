/** The INDBankStruct variant: init is gated on a decoded bool; eight insert
    entry points, differing only in the parameter type their registration
    declares, share one body; smash as in every owner-withdrawing variant. */
module Part9 {
  import opened Concordium
  import opened DcbBank

  /** The receive entry points this variant registers. */
  const Entries: set<Entry> :=
    {InsertAmount, InsertAmount1, InsertAmount2, InsertAmount3,
     InsertAmount4, InsertAmount5, InsertAmount6, InsertAmount7, SmashAmount}

  /** Init decodes its parameter as a bool (not as the struct its
      registration names): it fails when that decoding fails, and otherwise
      gives an intact bank exactly when the bool is true. */
  function Init(ctx: InitContext<bool>): (r: InitResult<State>)
    ensures r.InitOk? <==> ctx.parameter.Some?
    ensures r.InitOk? ==> (r.state == Intact <==> ctx.parameter.value)
  {
    match ctx.parameter
    case None => InitReject
    case Some(tokens) => if tokens then InitOk(Intact) else InitOk(Smashed)
  }

  /** The entry-point table. No insert entry writes the state; smash is the
      only way to reach Smashed, and nothing leaves it. */
  function Receive(entry: Entry, ctx: ReceiveContext, amount: nat, state: State): (o: Option<Transition>)
    ensures o.Some? <==> entry in Entries
    ensures o.Some? && entry.IsInsert() ==> o.value.state == state && o.value.result == Insert(ctx, amount, state)
    ensures o.Some? && entry == SmashAmount ==> o.value == SmashStep(ctx, state)
    ensures o.Some? && o.value.state != state ==> entry == SmashAmount && o.value.state == Smashed
  {
    match entry
    case InsertAmount | InsertAmount1 | InsertAmount2 | InsertAmount3
       | InsertAmount4 | InsertAmount5 | InsertAmount6 | InsertAmount7 =>
      Some(Transition(state, Insert(ctx, amount, state)))
    case SmashAmount => Some(SmashStep(ctx, state))
    case _ => None
  }
}
