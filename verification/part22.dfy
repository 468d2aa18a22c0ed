/** The UserFullDetails variant: init is gated on the middle string of a
    decoded three-string array; one insert entry, no smash. */
module Part22 {
  import opened Concordium
  import opened DcbBank

  /** `[String; 3]`. */
  type StringArray = s: seq<string> | |s| == 3 witness ["", "", ""]

  /** The string the middle element is compared with. */
  const Key: string := "UserFullDetails"

  /** The receive entry points this variant registers. */
  const Entries: set<Entry> := {InsertAmount}

  /** Init decodes a three-string array: it fails when that decoding
      fails, and otherwise gives an intact bank exactly when the middle
      string is Key, character for character; the other two strings never
      matter. */
  function Init(ctx: InitContext<StringArray>): (r: InitResult<State>)
    ensures r.InitOk? <==> ctx.parameter.Some?
    ensures r.InitOk? ==> (r.state == Intact <==> ctx.parameter.value[1] == Key)
  {
    match ctx.parameter
    case None => InitReject
    case Some(tokens) => if tokens[1] == Key then InitOk(Intact) else InitOk(Smashed)
  }

  /** The entry-point table: the one insert only reads the state. */
  function Receive(entry: Entry, ctx: ReceiveContext, amount: nat, state: State): (o: Option<Transition>)
    ensures o.Some? <==> entry in Entries
    ensures o.Some? ==> o.value.state == state && o.value.result == Insert(ctx, amount, state)
  {
    if entry == InsertAmount then Some(Transition(state, Insert(ctx, amount, state))) else None
  }
}
