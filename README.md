# Handshake escrow: the operator's reject instruction

This project models the `reject_transfer` instruction of the Handshake escrow
program. A pool holds the tokens of every Active transfer made against it. Its
operator may reject an Active transfer. The pool then keeps the fee its fee
schedule gives for the transfer's amount. The rest of the amount goes back to the
sender's token account. The pool's counters are updated, and the transfer is marked
Rejected. The instruction is all-or-nothing: any error leaves every account as it was.

Modules:

- `Wrappers` (`wrappers.dfy`): `Option`, `Result` and `Outcome`.
- `Numerics` (`numerics.dfy`): the 64-bit unsigned type and Rust's `saturating_sub` and
  `checked_add` on it.
- `State` (`state.dfy`): the pool, transfer and token accounts. Each is a class,
  because the instruction changes them in place. Each has a value view
  (`PoolData`, `TransferData`). The view's member functions specify the state
  helpers the instruction calls. The token program's checked transfer is also
  here.
- `RejectTransferInstruction` (`reject_transfer.dfy`): the instruction on values
  (`Reject`) and in place on the accounts (`RejectTransfer`). The in-place method
  is proved to end in the state `Reject` gives. On any error it ends in the state
  it started from.
- `RejectTransferProperties` (`reject_transfer_properties.dfy`): what the
  instruction guarantees, as lemmas about `Reject`.

The steps run in the source's order:

1. The framework checks the account constraints first: the mint must be the
   pool's mint, and the transfer must belong to the pool.
2. The signer must be the operator.
3. The transfer must be Active.
4. The reason message may be at most 200 bytes.
5. The fee is computed, and the refund is the amount minus the fee, saturating at zero.
6. The refund moves from the pool's token account to the sender's.
7. Withdrawals grow by the full amount. Collected fees grow by the fee, when it is
   non-zero. The resolved count grows by one.
8. The transfer is marked Rejected.

The state module, which defines the fee schedule, the counter helpers and
`validate_active`, is not part of this model. Those helpers get abstract
contracts:

- The fee is an arbitrary function of the amount, stored with the pool. It may
  exceed the amount, and then the refund is zero.
- The counter updates are checked 64-bit additions. On overflow they fail with
  `MathOverflow` and change nothing.
- `validate_active` and `mark_as_rejected` refuse a transfer that is not Active,
  with `InvalidState`.

The errors module is not part of this model either. `Unauthorized` and
`InvalidMemoLength` are the program's own errors (reject_transfer.rs:17, 24).
`InvalidState` and `MathOverflow` are assumed names for the errors of the state
helpers. `ConstraintRaw` is the framework's error for a failed account
constraint. `InsufficientFunds` and `TokenOverflow` are the token program's.

The instruction deducts the pool's fee. The doc comment says so
(reject_transfer.rs:5), and the code computes the fee and credits the sender
with the rest (reject_transfer.rs:26-28). It then posts the full amount as a
withdrawal and the fee as collected fees (reject_transfer.rs:48-51). So the pool
conservation law `ConservationLaw` (deposits − withdrawals − fees = amounts
locked in Active transfers) survives a reject exactly when the fee is zero
(`RejectKeepsConservationLawIffNoFee`). What the code does keep is pool tokens +
withdrawals − fees, whenever the fee does not exceed the amount
(`RejectKeepsPoolBookkeeping`). The framework checks the account constraints at
reject_transfer.rs:90 and 116 before the handler body runs, so in the model they
come before the operator check.

## Model

| member | source | states |
|---|---|---|
| `Numerics.SaturatingSub` | programs/handshake/src/instructions/reject_transfer.rs:28 | the result never exceeds the minuend; it plus the subtrahend gives the minuend back when the subtrahend fits, and it is zero otherwise |
| `Numerics.CheckedAdd` | programs/handshake/src/instructions/reject_transfer.rs:48-52 | the sum is returned exactly when it fits in 64 bits |
| `State.PoolData.AddWithdrawal` | programs/handshake/src/instructions/reject_transfer.rs:48 | withdrawals grow by the amount and nothing else changes; MathOverflow exactly when the new total would exceed 64 bits |
| `State.PoolData.AddCollectedFees` | programs/handshake/src/instructions/reject_transfer.rs:50 | collected fees grow by the fee and nothing else changes; MathOverflow exactly on 64-bit overflow |
| `State.PoolData.IncrementTransfersResolved` | programs/handshake/src/instructions/reject_transfer.rs:52 | the resolved count grows by one and nothing else changes; MathOverflow exactly at the 64-bit maximum |
| `State.TransferData.ValidateActive` | programs/handshake/src/instructions/reject_transfer.rs:21 | passes exactly for an Active transfer, otherwise InvalidState |
| `State.TransferData.MarkAsRejected` | programs/handshake/src/instructions/reject_transfer.rs:55 | an Active transfer becomes Rejected with every other field kept; any other status is refused with InvalidState |
| `State.TokenTransfer` | programs/handshake/src/instructions/reject_transfer.rs:34-45 | the move succeeds exactly when the source holds enough and the destination does not overflow; then the destination gains exactly the amount and the sum of the two balances is kept; otherwise InsufficientFunds or TokenOverflow |
| `State.TransferChecked` | programs/handshake/src/instructions/reject_transfer.rs:45 | the two token accounts end as TokenTransfer says, or unchanged on failure |
| `State.Pool.AddWithdrawal` | programs/handshake/src/instructions/reject_transfer.rs:48 | the pool account ends as PoolData.AddWithdrawal says, or unchanged on failure |
| `State.Pool.AddCollectedFees` | programs/handshake/src/instructions/reject_transfer.rs:50 | the pool account ends as PoolData.AddCollectedFees says, or unchanged on failure |
| `State.Pool.IncrementTransfersResolved` | programs/handshake/src/instructions/reject_transfer.rs:52 | the pool account ends as PoolData.IncrementTransfersResolved says, or unchanged on failure |
| `State.SecureTransfer.MarkAsRejected` | programs/handshake/src/instructions/reject_transfer.rs:55 | the transfer account ends as TransferData.MarkAsRejected says, or unchanged on failure |
| `State.Pool.CalculateTransferFee` | programs/handshake/src/instructions/reject_transfer.rs:27 | the fee read from the pool account is the pool's fee rule applied to the amount, the same as the value-level TransferFee; nothing bounds it by the amount |
| `State.SecureTransfer.ValidateActive` | programs/handshake/src/instructions/reject_transfer.rs:21 | the in-place check on the transfer account gives exactly what TransferData.ValidateActive gives: pass for Active, InvalidState otherwise |
| `RejectTransferInstruction.Reject` | programs/handshake/src/instructions/reject_transfer.rs:6-118 | the instruction on values, in the source's order (constraints at lines 90 and 116, then lines 15-55); a success has passed both account links, the operator check, the Active check and the 200-byte bound, and leaves the transfer Rejected with its other fields kept |
| `RejectTransferInstruction.RefundAmount` | programs/handshake/src/instructions/reject_transfer.rs:27-28 | the refund never exceeds the amount; refund plus fee is the amount when the fee fits in it; the refund is zero when the fee exceeds the amount |
| `RejectTransferInstruction.RejectTransfer` | programs/handshake/src/instructions/reject_transfer.rs:6-70 | run in place on the four accounts, the instruction succeeds or fails exactly as Reject does, with the same error; on success the accounts and the event are Reject's; on any error every account is as it was |
| `RejectTransferProperties.RejectSucceedsIff` | programs/handshake/src/instructions/reject_transfer.rs:15-52 | success exactly when the mint and pool links hold, the operator signs, the transfer is Active, the message is at most 200 bytes, the pool holds the refund, and neither the sender's balance nor any counter overflows |
| `RejectTransferProperties.NonOperatorRefused` | programs/handshake/src/instructions/reject_transfer.rs:15-18 | a signer other than the operator never succeeds, and is refused with Unauthorized before any other handler check |
| `RejectTransferProperties.UnlinkedAccountsRefused` | programs/handshake/src/instructions/reject_transfer.rs:88-118 | a mint other than the pool's, or a transfer of another pool, is refused by the account constraints |
| `RejectTransferProperties.InactiveTransferRefused` | programs/handshake/src/instructions/reject_transfer.rs:21 | an operator-signed reject of a transfer that is not Active fails with InvalidState whatever the message |
| `RejectTransferProperties.ReasonMessageBound` | programs/handshake/src/instructions/reject_transfer.rs:24 | after the operator and status checks, more than 200 bytes gives InvalidMemoLength, and 200 bytes or fewer never does |
| `RejectTransferProperties.RejectEffects` | programs/handshake/src/instructions/reject_transfer.rs:27-67 | on success the sender gains and the pool's token account loses exactly the refund; withdrawals grow by the full amount, fees by the fee (unchanged for a zero fee), the resolved count by one, nothing else in the pool changes; the transfer is Rejected with its other fields kept; the event carries the amount, fee and refund |
| `RejectTransferProperties.RejectConservesTokens` | programs/handshake/src/instructions/reject_transfer.rs:34-45 | the pool's and the sender's token balances keep their sum |
| `RejectTransferProperties.SecondRejectFails` | programs/handshake/src/instructions/reject_transfer.rs:21-55 | after a successful reject, rejecting the same transfer again fails whoever signs it; when the operator signs, the model's error is InvalidState, which stands in for the program's failure to load the closed transfer account |
| `RejectTransferProperties.RejectIgnoresPause` | programs/handshake/src/instructions/reject_transfer.rs:11-28 | the pool's pause flag changes neither whether a reject succeeds nor which error it gives |
| `RejectTransferProperties.RejectKeepsPoolBookkeeping` | programs/handshake/src/instructions/reject_transfer.rs:27-52 | when the fee does not exceed the amount, pool tokens + withdrawals − collected fees is the same before and after |
| `RejectTransferProperties.LockedInAfterResolve` | programs/handshake/src/instructions/reject_transfer.rs:55 | resolving one Active transfer of a pool lowers the sum its Active transfers lock by exactly that transfer's amount |
| `RejectTransferProperties.RejectKeepsConservationLawIffNoFee` | programs/handshake/src/instructions/reject_transfer.rs:26-55 | if deposits − withdrawals − fees equalled the locked sum before, it still does after a reject exactly when the fee is zero |

## Left out

- The token program's own checks inside `transfer_checked` are left out: mint and decimals agreement, frozen accounts, and the authority signing through the pool's seeds. The call is a foreign program. It is modelled only as a balance move between two accounts, which fails on insufficient funds or overflow.
- RejectTransfer: requires the pool's and the sender's token accounts to be different accounts. The associated-token derivation (reject_transfer.rs:95-110) makes them so, because their owners differ. That derivation is not modelled, and neither is the case where the two accounts are the same.
- PDA derivation of the pool account (seeds and bump, reject_transfer.rs:78-85) is left out. It is address derivation done by the runtime.
- Closing the transfer account and refunding its rent to the sender (`close = sender`, reject_transfer.rs:115) is left out. It is runtime lamport bookkeeping. The model keeps the Rejected transfer record, so that a second reject can be stated. In the program the account is closed on success, so a second attempt fails while the framework loads the transfer account, before `validate_active` runs. `InvalidState` is the model's stand-in for that error.
- The event is not serialised. `Reject` returns it as a value, and `RejectTransfer` returns it as its result.
- `reason_code` is not checked by the code. It only travels into the event.
- The real fee schedule lives in the state module, which is not part of this model. The fee is an arbitrary function of the amount.
- The framework's account deserialisation, signer and interface wrappers, and lifetimes are left out. The signer is its key, and the mint account is its key.
- Off-chain orchestration, the faucet and reconciliation are not part of this instruction.
