/** The UserMixed variant: init is gated on the middle byte of a decoded
    three-byte array; two entries (insertAmount and returnStruct) that both
    run the insert guard; no smash. */
module Part23 {
  import opened Concordium
  import opened DcbBank

  /** `[u8; 3]`. */
  type U8Array = s: seq<u8> | |s| == 3 witness [0, 0, 0]

  /** The receive entry points this variant registers. */
  const Entries: set<Entry> := {InsertAmount, ReturnStruct}

  /** Init decodes a three-byte array: it fails when that decoding fails,
      and otherwise gives an intact bank exactly when the middle byte is
      non-zero. */
  function Init(ctx: InitContext<U8Array>): (r: InitResult<State>)
    ensures r.InitOk? <==> ctx.parameter.Some?
    ensures r.InitOk? ==> (r.state == Intact <==> ctx.parameter.value[1] > 0)
  {
    match ctx.parameter
    case None => InitReject
    case Some(tokens) => if tokens[1] > 0 then InitOk(Intact) else InitOk(Smashed)
  }

  /** The first and the third byte never affect the initial state, and
      neither does the initialising account. */
  lemma InitReadsMiddleByteOnly(ctx: InitContext<U8Array>, ctx': InitContext<U8Array>)
    requires ctx.parameter.Some? && ctx'.parameter.Some?
    requires ctx.parameter.value[1] == ctx'.parameter.value[1]
    ensures Init(ctx) == Init(ctx')
    ensures Init(ctx) == InitOk(if ctx.parameter.value[1] == 0 then Smashed else Intact)
  {
  }

  /** The entry-point table: insertAmount and returnStruct run the same
      guard, give the same result, and only read the state. */
  function Receive(entry: Entry, ctx: ReceiveContext, amount: nat, state: State): (o: Option<Transition>)
    ensures o.Some? <==> entry in Entries
    ensures o.Some? ==> o.value.state == state && o.value.result == Insert(ctx, amount, state)
  {
    match entry
    case InsertAmount => Some(Transition(state, Insert(ctx, amount, state)))
    case ReturnStruct => Some(Transition(state, Insert(ctx, amount, state)))
    case _ => None
  }
}
