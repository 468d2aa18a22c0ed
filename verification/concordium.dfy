/** The part of the host smart-contract library that the piggy-bank handlers
    consume: identities, the per-call receive context, the actions a receive
    handler hands back to the chain, and the result shapes of init and
    receive handlers. Nothing here is the contract's own logic. */
module Concordium {

  datatype Option<+T> = None | Some(value: T)

  /** An unsigned byte, as the deserialiser hands it out. */
  newtype u8 = x: int | 0 <= x < 0x100

  /** An account identity; the 32 bytes of the real address are abstracted to a number. */
  datatype AccountAddress = AccountAddress(id: nat)

  /** A contract instance identity (index, subindex). */
  datatype ContractAddress = ContractAddress(index: nat, subindex: nat)

  /** The sender of a call is either an account or another contract. */
  datatype Address = Account(account: AccountAddress) | Contract(contract: ContractAddress)

  /** What an init handler may read: the account that initialises the
      instance (its future owner) and its parameter, already run through the
      library deserialiser: `Some(p)` when the bytes decode as a `P`, `None`
      when they do not. */
  datatype InitContext<P> = InitContext(origin: AccountAddress, parameter: Option<P>)

  /** What a receive handler may read from its context: the owner (the
      account that initialised the instance), the sender of this call and
      the instance's current balance, as a non-negative amount. */
  datatype ReceiveContext = ReceiveContext(owner: AccountAddress, sender: Address, selfBalance: nat)

  /** The actions a receive handler returns: accept the call (keeping any
      amount sent with it), or transfer an amount to an account. */
  datatype Action = Accept | SimpleTransfer(to: AccountAddress, amount: nat)

  /** The result of a receive handler. `ensure!` without an error argument
      gives one undifferentiated rejection. */
  datatype ReceiveResult = Ok(action: Action) | Reject

  /** The result of an init handler: the initial state, or a rejection
      (which is what a failed parameter decoding turns into). */
  datatype InitResult<+S> = InitOk(state: S) | InitReject

  /** `sender.matches_account(&owner)`: true only for an account sender with
      exactly that address; a contract sender never matches. */
  predicate MatchesAccount(sender: Address, owner: AccountAddress)
  {
    sender.Account? && sender.account == owner
  }
}
