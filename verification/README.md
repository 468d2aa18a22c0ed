# Piggy bank ("dcb bank") smart contract — a Dafny model

This project models the smart-contract variants of the Concordium piggy bank:
anyone may insert GTU while the bank is intact, only the owner may smash it and
take everything out, and once smashed it accepts nothing more. Each variant's
persisted state is the two-valued `DCBBankState` (`Intact` or `Smashed`). Each
receive handler is a guarded step on that state and the call's context: owner,
sender and the instance's balance.

Modules, one per source file, plus the shared vocabulary:

- `Concordium` (concordium.dfy) holds what the handlers consume from the host
  library. This covers account and contract addresses, the init and receive
  contexts, the two actions (`Accept` and `SimpleTransfer`) and the
  init/receive results. Parameter decoding is an `Option` inside the init
  context: `Some` when the bytes decode as the expected type, `None` when they
  do not.
- `DcbBank` (dcb_bank.dfy) holds the state, the entry-point names and the
  logic that every variant repeats word for word. `Insert` is the guard shared
  by all insert handlers. `SmashStep` specifies smash. The class `Instance`
  keeps the state that handlers reach through `&mut`, and its method `Smash`
  writes that state in place after both guards, as the source does.
- `Part5`, `Part9`, `Part22`, `Part23` and `Part25` hold each variant's init
  handler and its entry-point table (`Receive`). `None` means the variant does
  not register that entry. Part9's eight `insertAmount*` handlers have
  identical bodies and differ only in the parameter type their registration
  declares, so all eight map to `DcbBank.Insert`. Part5's `dcb_smash` and
  Part9's are textually identical, and both are `DcbBank.Instance.Smash` /
  `DcbBank.SmashStep`.
- `Chain` (chain.dfy) models the runtime's behaviour around a call. This is
  the chain's part, not the contract's (the handlers leave balance bookkeeping
  to the chain). The receive context's balance already includes the amount
  sent with the call. An accepted call keeps that amount and the written
  state. A returned transfer is paid out. A rejected call, or a call to an
  entry that is not registered, changes nothing. Over whole call sequences the
  module proves:
  - `Smashed` is terminal.
  - A successful smash is followed only by rejected inserts and smashes.
  - Deposits into an intact bank add up exactly.
  - Variants without smash keep their initial state forever.
  - Every transfer goes to the owner's own account, at its own request.

Points where the code says less, or something else, than its own names and
comments suggest; the model follows the code:

- Every guard uses `ensure!` without an error argument, so an unauthorised
  sender and a smashed bank give the same undifferentiated `Reject`.
- Every variant's init carries the doc comment "Setup a new Intact dcb bank"
  (piggy-bank/part9/src/lib.rs:34, piggy-bank/part22/src/lib.rs:40,
  piggy-bank/part23/src/lib.rs:40, piggy-bank/part25/src/lib.rs:34), but only
  part5's init always returns `Intact`; the others start `Smashed` when the
  decoded parameter says so.
- In part9, part22, part23 and part25 the init registration names a struct
  as its parameter schema (`InitParameter` or `UserDetails`), but the type
  actually decoded is a `bool` (part9, part25), a `[String; 3]` (part22) or
  a `[u8; 3]` (part23). The model decodes what the code decodes.
- `balanceOf` (part5) does not report the balance. For the owner it transfers
  the whole balance, just as smash does, but it leaves the state alone and has
  no state guard. The model keeps this behaviour as written.
  `Chain.BalanceOfDrainsWithoutSmashing` shows what follows: the owner can
  empty an intact bank without smashing it, and the next deposit is still
  accepted and becomes the whole balance.

## Model

| member | source | states |
|---|---|---|
| `DcbBank.Insert` | piggy-bank/part5/src/lib.rs:36-45 | Any caller, any amount: accepted exactly when the state is `Intact`, and the result is then `Accept`, never a transfer. |
| `DcbBank.SmashStep` | piggy-bank/part9/src/lib.rs:150-171 | Succeeds exactly when the sender is the owner's account (a contract sender never matches) and the state is `Intact`. On success the new state is `Smashed` and the result is one transfer of the whole `self_balance` to the owner. On rejection the state is left as it was. |
| `DcbBank.Instance.Smash` | piggy-bank/part5/src/lib.rs:49-70 | The in-place smash: same acceptance condition. On success the field becomes `Smashed` and the whole balance is sent to the owner. On rejection the field is unchanged. The new field and the result agree with `SmashStep`. |
| `Part5.Init` | piggy-bank/part5/src/lib.rs:28-32 | Init always succeeds with `Intact`, whatever the context and parameter. |
| `Part5.BalanceQuery` | piggy-bank/part5/src/lib.rs:73-91 | Accepted exactly when the sender is the owner's account, whatever the state. The result is then the transfer of the whole balance to the owner. |
| `Part5.Receive` | piggy-bank/part5/src/lib.rs:34-91 | Registers exactly insertAmount, smashAmount and balanceOf. The insert runs the insert guard without writing the state, smash is `SmashStep`, and balanceOf is `BalanceQuery` with the state unchanged. A state change only happens through smash, and only to `Smashed`. |
| `Part9.Init` | piggy-bank/part9/src/lib.rs:35-43 | Fails exactly when the parameter does not decode as a bool. Otherwise the state is `Intact` if and only if the bool is true. |
| `Part9.Receive` | piggy-bank/part9/src/lib.rs:45-171 | Registers exactly insertAmount…insertAmount7 and smashAmount. Each of the eight inserts runs the insert guard and none writes the state. Smash is `SmashStep`. Only smash changes the state, and only to `Smashed`. |
| `Part22.Init` | piggy-bank/part22/src/lib.rs:40-50 | Fails exactly when the parameter does not decode as three strings. Otherwise the state is `Intact` if and only if the second string equals `"UserFullDetails"` exactly. Elements 0 and 2 are never read. |
| `Part22.Receive` | piggy-bank/part22/src/lib.rs:52-63 | Registers only insertAmount, which runs the insert guard and leaves the state unchanged. |
| `Part23.Init` | piggy-bank/part23/src/lib.rs:40-49 | Fails exactly when the parameter does not decode as three bytes. Otherwise the state is `Intact` if and only if the second byte is greater than 0. |
| `Part23.InitReadsMiddleByteOnly` | piggy-bank/part23/src/lib.rs:43-48 | Two decoded arrays with the same middle byte give the same initial state, whatever the outer bytes and the initialising account. A middle byte of 0 gives `Smashed`. |
| `Part23.Receive` | piggy-bank/part23/src/lib.rs:51-75 | Registers exactly insertAmount and returnStruct. Both run the same insert guard with the same result, and neither writes the state. |
| `Part25.Init` | piggy-bank/part25/src/lib.rs:34-43 | A parameter that does not decode as a bool makes init fail. `true` gives `Intact` and `false` gives `Smashed`. |
| `Part25.Receive` | piggy-bank/part25/src/lib.rs:45-56 | Registers only insertAmount, which rejects on `Smashed`, accepts on `Intact` and leaves the state unchanged. |
| `Chain.Handle` | piggy-bank/part9/src/lib.rs:46-171 | Covers the entry tables of all five variants (part5, part9, part22, part23 and part25, each cited at its own `Receive` row); the part9 lines are the largest of them. For every variant: a registered insert is the insert guard with the state unchanged, a registered smash is `SmashStep`, and balanceOf exists only in part5 and writes nothing. |
| `Chain.Exec` | piggy-bank/part5/src/lib.rs:41-69 | A rejected call leaves state and balance unchanged. A registered insert is accepted exactly while `Intact` and adds its amount to the balance. Every transfer pays the owner's own account the whole balance (which becomes 0), and only at that account's request. Smash succeeds exactly for the owner's account on an intact bank and leaves it `Smashed` and empty. Only a successful smash changes the state. |
| `Chain.SmashedIsTerminal` | piggy-bank/part5/src/lib.rs:42-64 | From `Smashed`, any call sequence ends `Smashed`, and every insert and every smash in it is rejected, whoever the sender. |
| `Chain.SmashThenEverythingRejects` | piggy-bank/part9/src/lib.rs:160-165 | A successful smash came from the owner's account on an intact bank and leaves it `Smashed` and empty. Every later insert and smash is rejected, so a second smash always fails, whoever sends it. |
| `Chain.DepositsAccumulate` | piggy-bank/part5/src/lib.rs:41-44 | A sequence of registered inserts into an intact bank is all accepted. The bank stays `Intact`, and its balance grows by exactly the sum of the amounts. |
| `Chain.InitialStateIsFinal` | piggy-bank/part22/src/lib.rs:41-63 | In a variant with no smash entry, the state chosen at init never changes. An `Intact` bank accepts every call to a registered entry, and a `Smashed` one rejects every such call. |
| `Chain.TransfersGoToOwner` | piggy-bank/part5/src/lib.rs:59-90 | In any call sequence, every accepted transfer goes to the owner, and the call that produced it was sent by the owner's own account. |
| `Chain.BalanceOfDrainsWithoutSmashing` | piggy-bank/part5/src/lib.rs:74-91 | balanceOf from the owner's account, in either state, sends the whole balance to the owner and leaves the state as it was with a balance of 0. From any other sender it changes nothing. An intact bank drained by the owner still accepts the next deposit, which becomes its whole balance. |
| `Chain.DepositSmashScenario` | piggy-bank/part5/src/lib.rs:27-70 | One run from init: init gives `Intact`, then a deposit of 100 is accepted, the owner's smash pays out exactly 100, and a later deposit of 1 is rejected, leaving the bank `Smashed` and empty. |
| `Chain.FalseFlagScenario` | piggy-bank/part9/src/lib.rs:36-56 | One run from init: init with the flag `false` gives `Smashed`, and the very first deposit is rejected with nothing changed. |

## Left out

- Entry-point registration metadata is not modelled. This covers the contract and entry names as strings, the `payable` flags and the declared parameter schemas. The `Chain` module therefore does not refuse amounts sent to the non-payable entries (smashAmount, balanceOf, returnStruct).
- The `Serialize`/`SchemaType` derives and the structs `InitParameter` and `UserDetails` are never read by the code, so they are not modelled.
- Byte-level parameter decoding is library code. It is abstracted to an `Option` of the decoded value.
- The runtime itself is external: executing actions against other accounts, gas, and atomic rollback beyond "a rejected call changes nothing". `Chain` does not track the owner's receiving account.
- `Amount` is a `u64` in the library. The model uses unbounded `nat` because the contract does no arithmetic on amounts. In `Chain`, `balance + amount` therefore never overflows.
- Account addresses (32 bytes) are abstracted to numbers, since only equality matters.
- Signature quirks are not modelled: `get_struct` taking an `_amount` without being payable, and part23's init taking an extra `_state` argument. Neither carries logic.
- `Debug` derives are not modelled. Strings matter only through exact equality.
