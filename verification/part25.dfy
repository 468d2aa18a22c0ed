/** The Struct2U8 variant: init is gated on a decoded bool; one insert
    entry, no smash. */
module Part25 {
  import opened Concordium
  import opened DcbBank

  /** The receive entry points this variant registers. */
  const Entries: set<Entry> := {InsertAmount}

  /** Init decodes its parameter as a bool: it fails when that decoding
      fails, gives an intact bank when the bool is true and a smashed one
      when it is false. */
  function Init(ctx: InitContext<bool>): (r: InitResult<State>)
    ensures ctx.parameter == None ==> r == InitReject
    ensures ctx.parameter == Some(true) ==> r == InitOk(Intact)
    ensures ctx.parameter == Some(false) ==> r == InitOk(Smashed)
  {
    match ctx.parameter
    case None => InitReject
    case Some(tokens) => if tokens then InitOk(Intact) else InitOk(Smashed)
  }

  /** The entry-point table: the one insert only reads the state. */
  function Receive(entry: Entry, ctx: ReceiveContext, amount: nat, state: State): (o: Option<Transition>)
    ensures o.Some? <==> entry in Entries
    ensures o.Some? ==> o.value.state == state && o.value.result == Insert(ctx, amount, state)
  {
    if entry == InsertAmount then Some(Transition(state, Insert(ctx, amount, state))) else None
  }
}
