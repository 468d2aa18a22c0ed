/** The chain's side of a call, as the handlers rely on it (it is not the
    contract's logic): the runtime looks up the entry point, hands the
    handler a context whose balance already includes the amount sent with
    the call, keeps that amount and the written state when the call is
    accepted, carries out a returned transfer, and rolls the whole call back
    when the handler rejects or the entry point does not exist. On top of
    it, the lifecycle properties of the piggy bank over whole call
    sequences. */
module Chain {
  import opened Concordium
  import opened DcbBank
  import Part5
  import Part9
  import Part22
  import Part23
  import Part25

  /** The deployed contracts, by the name each variant registers. */
  datatype Variant =
    | DCBBank        // part5
    | INDBankStruct  // part9
    | UserFullDetails  // part22
    | UserMixed      // part23
    | Struct2U8      // part25

  function Entries(v: Variant): set<Entry>
  {
    match v
    case DCBBank => Part5.Entries
    case INDBankStruct => Part9.Entries
    case UserFullDetails => Part22.Entries
    case UserMixed => Part23.Entries
    case Struct2U8 => Part25.Entries
  }

  /** Entry-point lookup across the variants. Every registered insert runs
      the insert guard without writing the state, every registered smash is
      SmashStep, and balanceOf writes nothing. */
  function Handle(v: Variant, entry: Entry, ctx: ReceiveContext, amount: nat, state: State): (o: Option<Transition>)
    ensures o.Some? <==> entry in Entries(v)
    ensures o.Some? && entry.IsInsert() ==> o.value == Transition(state, Insert(ctx, amount, state))
    ensures o.Some? && entry == SmashAmount ==> o.value == SmashStep(ctx, state)
    ensures o.Some? && entry == BalanceOf ==> v == DCBBank && o.value == Transition(state, Part5.BalanceQuery(ctx, state))
  {
    match v
    case DCBBank => Part5.Receive(entry, ctx, amount, state)
    case INDBankStruct => Part9.Receive(entry, ctx, amount, state)
    case UserFullDetails => Part22.Receive(entry, ctx, amount, state)
    case UserMixed => Part23.Receive(entry, ctx, amount, state)
    case Struct2U8 => Part25.Receive(entry, ctx, amount, state)
  }

  /** One call: which entry point, who sends it, and the amount it carries. */
  datatype Call = Call(entry: Entry, sender: Address, amount: nat)

  /** What the chain keeps for an instance: its state and its balance. */
  datatype Ledger = Ledger(state: State, balance: nat)

  /** The ledger after a call and the reply the call got. */
  datatype Receipt = Receipt(ledger: Ledger, reply: ReceiveResult)

  /** One call executed by the runtime for the instance owned by `owner`. */
  function Exec(v: Variant, owner: AccountAddress, l: Ledger, c: Call): (r: Receipt)
    // a rejected call changes nothing
    ensures r.reply.Reject? ==> r.ledger == l
    ensures r.reply.Ok? ==> c.entry in Entries(v)
    // a registered insert is accepted exactly while the bank is intact, and keeps the amount
    ensures c.entry.IsInsert() && c.entry in Entries(v) ==> (r.reply.Ok? <==> l.state == Intact)
    ensures c.entry.IsInsert() && r.reply.Ok? ==> r == Receipt(Ledger(l.state, l.balance + c.amount), Ok(Accept))
    // every transfer pays the owner's own account, at its request, the whole balance
    ensures r.reply.Ok? && r.reply.action.SimpleTransfer? ==>
      c.sender == Account(owner) && r.reply.action == SimpleTransfer(owner, l.balance + c.amount) && r.ledger.balance == 0
    // a smash succeeds exactly for the owner's account on an intact bank, and smashes it
    ensures c.entry == SmashAmount && c.entry in Entries(v) ==>
      (r.reply.Ok? <==> c.sender == Account(owner) && l.state == Intact)
    ensures c.entry == SmashAmount && r.reply.Ok? ==> r.ledger == Ledger(Smashed, 0)
    // only a successful smash changes the state, and only to Smashed
    ensures r.ledger.state != l.state ==> c.entry == SmashAmount && r.reply.Ok? && l.state == Intact && r.ledger.state == Smashed
  {
    var ctx := ReceiveContext(owner, c.sender, l.balance + c.amount);
    match Handle(v, c.entry, ctx, c.amount, l.state)
    case None => Receipt(l, Reject)
    case Some(Transition(s, Reject)) => Receipt(l, Reject)
    case Some(Transition(s, Ok(Accept))) => Receipt(Ledger(s, ctx.selfBalance), Ok(Accept))
    case Some(Transition(s, Ok(SimpleTransfer(to, a)))) =>
      if a <= ctx.selfBalance then Receipt(Ledger(s, ctx.selfBalance - a), Ok(SimpleTransfer(to, a)))
      else Receipt(l, Reject)
  }

  /** The ledger after a sequence of calls. */
  function Run(v: Variant, owner: AccountAddress, l: Ledger, calls: seq<Call>): Ledger
    decreases |calls|
  {
    if calls == [] then l else Run(v, owner, Exec(v, owner, l, calls[0]).ledger, calls[1..])
  }

  /** The reply to each call of a sequence, one per call. */
  function Replies(v: Variant, owner: AccountAddress, l: Ledger, calls: seq<Call>): (rs: seq<ReceiveResult>)
    ensures |rs| == |calls|
    decreases |calls|
  {
    if calls == [] then []
    else
      var r := Exec(v, owner, l, calls[0]);
      [r.reply] + Replies(v, owner, r.ledger, calls[1..])
  }

  /** The reply to a later call is the reply it gets from the ledger the
      first call leaves behind. */
  lemma RepliesTail(v: Variant, owner: AccountAddress, l: Ledger, calls: seq<Call>, i: nat)
    requires 0 < i < |calls|
    ensures Replies(v, owner, l, calls)[i] == Replies(v, owner, Exec(v, owner, l, calls[0]).ledger, calls[1..])[i - 1]
    ensures calls[i] == calls[1..][i - 1]
  {
  }

  /** The amounts a sequence of calls carries. */
  function TotalAmount(calls: seq<Call>): nat
    decreases |calls|
  {
    if calls == [] then 0 else calls[0].amount + TotalAmount(calls[1..])
  }

  /** Smashed is terminal: from a smashed bank no sequence of calls brings
      it back, and every insert and every smash in it is rejected, whoever
      sends it. */
  lemma {:induction false} SmashedIsTerminal(v: Variant, owner: AccountAddress, l: Ledger, calls: seq<Call>)
    requires l.state == Smashed
    ensures Run(v, owner, l, calls).state == Smashed
    ensures forall i :: 0 <= i < |calls| && (calls[i].entry.IsInsert() || calls[i].entry == SmashAmount) ==>
      Replies(v, owner, l, calls)[i] == Reject
    decreases |calls|
  {
    if calls != [] {
      var next := Exec(v, owner, l, calls[0]).ledger;
      SmashedIsTerminal(v, owner, next, calls[1..]);
      forall i | 1 <= i < |calls|
        ensures Replies(v, owner, l, calls)[i] == Replies(v, owner, next, calls[1..])[i - 1]
        ensures calls[i] == calls[1..][i - 1]
      {
        RepliesTail(v, owner, l, calls, i);
      }
    }
  }

  /** After a successful smash the bank is smashed and empty, and every
      later insert and smash is rejected, whoever sends it; in particular a
      second smash always fails. */
  lemma SmashThenEverythingRejects(v: Variant, owner: AccountAddress, l: Ledger, smash: Call, later: seq<Call>)
    requires smash.entry == SmashAmount
    requires Exec(v, owner, l, smash).reply.Ok?
    ensures smash.sender == Account(owner) && l.state == Intact
    ensures Exec(v, owner, l, smash).ledger == Ledger(Smashed, 0)
    ensures Run(v, owner, Exec(v, owner, l, smash).ledger, later).state == Smashed
    ensures forall i :: 0 <= i < |later| && (later[i].entry.IsInsert() || later[i].entry == SmashAmount) ==>
      Replies(v, owner, Exec(v, owner, l, smash).ledger, later)[i] == Reject
  {
    SmashedIsTerminal(v, owner, Exec(v, owner, l, smash).ledger, later);
  }

  /** Deposits into an intact bank are all accepted, the bank stays intact,
      and its balance grows by exactly the amounts deposited. */
  lemma {:induction false} DepositsAccumulate(v: Variant, owner: AccountAddress, l: Ledger, calls: seq<Call>)
    requires l.state == Intact
    requires forall i :: 0 <= i < |calls| ==> calls[i].entry.IsInsert() && calls[i].entry in Entries(v)
    ensures Run(v, owner, l, calls) == Ledger(Intact, l.balance + TotalAmount(calls))
    ensures forall i :: 0 <= i < |calls| ==> Replies(v, owner, l, calls)[i] == Ok(Accept)
    decreases |calls|
  {
    if calls != [] {
      var next := Exec(v, owner, l, calls[0]).ledger;
      assert calls[0].entry.IsInsert() && calls[0].entry in Entries(v);
      assert next == Ledger(Intact, l.balance + calls[0].amount);
      forall i | 0 <= i < |calls[1..]|
        ensures calls[1..][i].entry.IsInsert() && calls[1..][i].entry in Entries(v)
      {
        assert calls[1..][i] == calls[i + 1];
      }
      DepositsAccumulate(v, owner, next, calls[1..]);
      forall i | 1 <= i < |calls|
        ensures Replies(v, owner, l, calls)[i] == Replies(v, owner, next, calls[1..])[i - 1]
      {
        RepliesTail(v, owner, l, calls, i);
      }
    }
  }

  /** In a variant without a smash entry the state chosen at init is the
      state for the instance's whole lifetime: an intact bank accepts every
      call to a registered entry, a smashed one rejects every such call. */
  lemma {:induction false} InitialStateIsFinal(v: Variant, owner: AccountAddress, l: Ledger, calls: seq<Call>)
    requires SmashAmount !in Entries(v)
    ensures Run(v, owner, l, calls).state == l.state
    ensures forall i :: 0 <= i < |calls| && calls[i].entry in Entries(v) ==>
      Replies(v, owner, l, calls)[i] == if l.state == Intact then Ok(Accept) else Reject
    decreases |calls|
  {
    if calls != [] {
      var next := Exec(v, owner, l, calls[0]).ledger;
      assert next.state == l.state;
      InitialStateIsFinal(v, owner, next, calls[1..]);
      forall i | 1 <= i < |calls|
        ensures Replies(v, owner, l, calls)[i] == Replies(v, owner, next, calls[1..])[i - 1]
        ensures calls[i] == calls[1..][i - 1]
      {
        RepliesTail(v, owner, l, calls, i);
      }
    }
  }

  /** Only the owner's own account is ever paid, and only when it sent the
      call itself. */
  lemma {:induction false} TransfersGoToOwner(v: Variant, owner: AccountAddress, l: Ledger, calls: seq<Call>)
    ensures forall i :: 0 <= i < |calls| && Replies(v, owner, l, calls)[i].Ok? && Replies(v, owner, l, calls)[i].action.SimpleTransfer? ==>
      calls[i].sender == Account(owner) && Replies(v, owner, l, calls)[i].action.to == owner
    decreases |calls|
  {
    if calls != [] {
      var next := Exec(v, owner, l, calls[0]).ledger;
      TransfersGoToOwner(v, owner, next, calls[1..]);
      forall i | 1 <= i < |calls|
        ensures Replies(v, owner, l, calls)[i] == Replies(v, owner, next, calls[1..])[i - 1]
        ensures calls[i] == calls[1..][i - 1]
      {
        RepliesTail(v, owner, l, calls, i);
      }
    }
  }

  /** balanceOf, called by the owner's account, empties the bank without
      smashing it, in either state; from anyone else it changes nothing.
      An intact bank drained this way still accepts the next deposit, which
      becomes its whole balance. */
  lemma BalanceOfDrainsWithoutSmashing(owner: AccountAddress, l: Ledger, c: Call, deposit: Call)
    requires c.entry == BalanceOf
    requires deposit.entry == InsertAmount
    ensures c.sender == Account(owner) ==>
      Exec(DCBBank, owner, l, c) == Receipt(Ledger(l.state, 0), Ok(SimpleTransfer(owner, l.balance + c.amount)))
    ensures c.sender != Account(owner) ==> Exec(DCBBank, owner, l, c) == Receipt(l, Reject)
    ensures c.sender == Account(owner) && l.state == Intact ==>
      Exec(DCBBank, owner, Exec(DCBBank, owner, l, c).ledger, deposit) == Receipt(Ledger(Intact, deposit.amount), Ok(Accept))
  {
  }

  /** An instance of the parameterless variant, from its init on: a deposit
      of 100, a smash by the owner that pays out those 100, then a deposit
      of 1 that is rejected. */
  lemma DepositSmashScenario(owner: AccountAddress, depositor: Address)
    ensures Part5.Init<bool>(InitContext(owner, None)).InitOk?
    ensures var start := Ledger(Part5.Init<bool>(InitContext(owner, None)).state, 0);
      var calls := [Call(InsertAmount, depositor, 100), Call(SmashAmount, Account(owner), 0), Call(InsertAmount, depositor, 1)];
      Replies(DCBBank, owner, start, calls) == [Ok(Accept), Ok(SimpleTransfer(owner, 100)), Reject]
      && Run(DCBBank, owner, start, calls) == Ledger(Smashed, 0)
  {
    var calls := [Call(InsertAmount, depositor, 100), Call(SmashAmount, Account(owner), 0), Call(InsertAmount, depositor, 1)];
    var l0 := Ledger(Part5.Init<bool>(InitContext(owner, None)).state, 0);
    var l1, l2 := Ledger(Intact, 100), Ledger(Smashed, 0);
    assert l0 == Ledger(Intact, 0);
    assert Exec(DCBBank, owner, l0, calls[0]) == Receipt(l1, Ok(Accept));
    assert Exec(DCBBank, owner, l1, calls[1]) == Receipt(l2, Ok(SimpleTransfer(owner, 100)));
    assert Exec(DCBBank, owner, l2, calls[2]) == Receipt(l2, Reject);
    assert calls[1..][1..] == [calls[2]];
    assert Replies(DCBBank, owner, l2, [calls[2]]) == [Reject];
    assert Replies(DCBBank, owner, l1, calls[1..]) == [Ok(SimpleTransfer(owner, 100)), Reject];
    assert Run(DCBBank, owner, l2, [calls[2]]) == l2;
  }

  /** An instance of the bool-gated variant initialised with false, from
      its init on: it is smashed from the start, and its very first deposit
      is rejected with nothing changed. */
  lemma FalseFlagScenario(owner: AccountAddress, depositor: Address)
    ensures Part9.Init(InitContext(owner, Some(false))).InitOk?
    ensures var start := Ledger(Part9.Init(InitContext(owner, Some(false))).state, 0);
      start.state == Smashed
      && Exec(INDBankStruct, owner, start, Call(InsertAmount, depositor, 1)) == Receipt(start, Reject)
  {
  }
}
