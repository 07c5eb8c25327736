/**
 * The operator-initiated reject instruction of the escrow program: the
 * operator resolves an Active transfer, the pool keeps the fee and the rest
 * of the locked amount goes back to the sender.
 *
 * `Reject` states the instruction on values, one step after another in the
 * order the program runs them; `RejectTransfer` runs the same steps in place
 * on the accounts and is proved to end in the state `Reject` describes, or,
 * on any error, in the state it started from.
 */
module RejectTransferInstruction {
  import opened Wrappers
  import opened Numerics
  import opened State

  /** Longest reason message accepted, in bytes. */
  const MAX_REASON_MESSAGE_LEN: nat := 200

  /** The accounts the instruction writes: the pool, the transfer and the two token balances. */
  datatype Ledger = Ledger(
    pool: PoolData,
    transfer: TransferData,
    poolBalance: U64,
    senderBalance: U64)

  /** The event emitted on success. */
  datatype TransferRejected = TransferRejected(
    transfer: Pubkey,
    pool: Pubkey,
    sender: Pubkey,
    recipient: Pubkey,
    amount: U64,
    fee: U64,
    netAmount: U64,
    reasonCode: U8,
    reasonMessage: seq<U8>)

  /** The fee the pool keeps when `l`'s transfer is rejected. */
  function RejectFee(l: Ledger): U64 {
    l.pool.TransferFee(l.transfer.amount)
  }

  /** What goes back to the sender: the amount less the fee, never below zero. */
  function RefundAmount(l: Ledger): (net: U64)
    ensures net <= l.transfer.amount
    ensures RejectFee(l) <= l.transfer.amount ==> net + RejectFee(l) == l.transfer.amount
    ensures RejectFee(l) > l.transfer.amount ==> net == 0
  {
    SaturatingSub(l.transfer.amount, RejectFee(l))
  }

  /**
   * The instruction on values. `mintKey` is the mint account passed in,
   * `signer` the operator account's key, `reasonMessage` the UTF-8 bytes of
   * the reason. The two account constraints are checked by the framework
   * before the handler body runs, so they come first. A success has passed
   * every check and leaves the transfer Rejected with its other fields kept.
   */
  function Reject(l: Ledger, mintKey: Pubkey, signer: Pubkey, reasonCode: U8, reasonMessage: seq<U8>)
    : (r: Result<(Ledger, TransferRejected), Error>)
    ensures r.Ok? ==> mintKey == l.pool.mint && l.transfer.pool == l.pool.key
    ensures r.Ok? ==> signer == l.pool.operator
    ensures r.Ok? ==> l.transfer.status == Active && |reasonMessage| <= MAX_REASON_MESSAGE_LEN
    ensures r.Ok? ==> r.value.0.transfer == l.transfer.(status := Rejected)
  {
    if mintKey != l.pool.mint then Err(ConstraintRaw(MintAccount))
    else if l.transfer.pool != l.pool.key then Err(ConstraintRaw(TransferAccount))
    else if signer != l.pool.operator then Err(Unauthorized)
    else if l.transfer.ValidateActive().Fail? then Err(l.transfer.ValidateActive().error)
    else if |reasonMessage| > MAX_REASON_MESSAGE_LEN then Err(InvalidMemoLength)
    else
      var fee := RejectFee(l);
      var netAmount := RefundAmount(l);
      var (poolBalance, senderBalance) :- TokenTransfer(l.poolBalance, l.senderBalance, netAmount);
      var p1 :- l.pool.AddWithdrawal(l.transfer.amount);
      var p2 :- if fee > 0 then p1.AddCollectedFees(fee) else Ok(p1);
      var p3 :- p2.IncrementTransfersResolved();
      var t :- l.transfer.MarkAsRejected();
      var event := TransferRejected(t.key, p3.key, t.sender, t.recipient, t.amount,
                                    fee, netAmount, reasonCode, reasonMessage);
      Ok((Ledger(p3, t, poolBalance, senderBalance), event))
  }

  /** The ledger as the four accounts hold it now. */
  function LedgerOf(pool: Pool, transfer: SecureTransfer, poolTokens: TokenAccount, senderTokens: TokenAccount): Ledger
    reads pool, transfer, poolTokens, senderTokens
  {
    Ledger(pool.Data(), transfer.Data(), poolTokens.balance, senderTokens.balance)
  }

  /** Puts every account back as `saved` holds it: the runtime discards all writes of a failed instruction. */
  method Revert(pool: Pool, transfer: SecureTransfer, poolTokens: TokenAccount, senderTokens: TokenAccount, saved: Ledger)
    requires poolTokens != senderTokens
    requires saved.pool.key == pool.key && saved.transfer.key == transfer.key
    modifies pool, transfer, poolTokens, senderTokens
    ensures LedgerOf(pool, transfer, poolTokens, senderTokens) == saved
  {
    pool.Restore(saved.pool);
    transfer.Restore(saved.transfer);
    poolTokens.balance := saved.poolBalance;
    senderTokens.balance := saved.senderBalance;
  }

  /**
   * The handler run in place. `poolTokens` and `senderTokens` are the
   * associated token accounts of the pool and of the transfer's sender,
   * which the framework derives for two different owners.
   */
  method RejectTransfer(
    signer: Pubkey,
    pool: Pool,
    mintKey: Pubkey,
    poolTokens: TokenAccount,
    senderTokens: TokenAccount,
    transfer: SecureTransfer,
    reasonCode: U8,
    reasonMessage: seq<U8>)
    returns (r: Result<TransferRejected, Error>)
    requires poolTokens != senderTokens
    modifies pool, transfer, poolTokens, senderTokens
    ensures var spec := Reject(old(LedgerOf(pool, transfer, poolTokens, senderTokens)),
                               mintKey, signer, reasonCode, reasonMessage);
      (r.Ok? <==> spec.Ok?)
      && (r.Ok? ==> spec.value == (LedgerOf(pool, transfer, poolTokens, senderTokens), r.value))
      && (r.Err? ==> r.error == spec.error)
    ensures r.Err? ==> LedgerOf(pool, transfer, poolTokens, senderTokens) == old(LedgerOf(pool, transfer, poolTokens, senderTokens))
  {
    ghost var l := LedgerOf(pool, transfer, poolTokens, senderTokens);
    // account constraints
    if mintKey != pool.mint {
      return Err(ConstraintRaw(MintAccount));
    }
    if transfer.pool != pool.key {
      return Err(ConstraintRaw(TransferAccount));
    }
    // handler body
    if signer != pool.operator {
      return Err(Unauthorized);
    }
    var o := transfer.ValidateActive();
    if o.Fail? {
      return Err(o.error);
    }
    if |reasonMessage| > MAX_REASON_MESSAGE_LEN {
      return Err(InvalidMemoLength);
    }

    var fee := pool.CalculateTransferFee(transfer.amount);
    var netAmount := SaturatingSub(transfer.amount, fee);
    assert fee == RejectFee(l) && netAmount == RefundAmount(l);

    var saved := LedgerOf(pool, transfer, poolTokens, senderTokens);
    o := TransferChecked(poolTokens, senderTokens, netAmount);
    if o.Fail? {
      return Err(o.error);
    }

    // pool accounting: each failing step aborts the instruction
    o := pool.AddWithdrawal(transfer.amount);
    if o.Fail? {
      Revert(pool, transfer, poolTokens, senderTokens, saved);
      return Err(o.error);
    }
    if fee > 0 {
      o := pool.AddCollectedFees(fee);
      if o.Fail? {
        Revert(pool, transfer, poolTokens, senderTokens, saved);
        return Err(o.error);
      }
    }
    o := pool.IncrementTransfersResolved();
    if o.Fail? {
      Revert(pool, transfer, poolTokens, senderTokens, saved);
      return Err(o.error);
    }

    // the transfer was found Active above and its status has not changed since, so this step cannot fail
    o := transfer.MarkAsRejected();
    assert o.Pass?;

    r := Ok(TransferRejected(transfer.key, pool.key, transfer.sender, transfer.recipient, transfer.amount,
                             fee, netAmount, reasonCode, reasonMessage));
  }
}
