/**
 * What the reject instruction guarantees, stated over its value-level
 * definition `Reject` (which `RejectTransfer` is proved to implement).
 */
module RejectTransferProperties {
  import opened Wrappers
  import opened Numerics
  import opened State
  import opened RejectTransferInstruction

  /** The checks that come before the fee is computed all pass. */
  predicate Admitted(l: Ledger, mintKey: Pubkey, signer: Pubkey, reasonMessage: seq<U8>) {
    mintKey == l.pool.mint
    && l.transfer.pool == l.pool.key
    && signer == l.pool.operator
    && l.transfer.status == Active
    && |reasonMessage| <= MAX_REASON_MESSAGE_LEN
  }

  /** No balance or counter the instruction adds to would exceed 64 bits. */
  predicate Fits(l: Ledger) {
    RefundAmount(l) <= l.poolBalance
    && l.senderBalance + RefundAmount(l) <= U64_MAX
    && l.pool.totalWithdrawals + l.transfer.amount <= U64_MAX
    && l.pool.totalFeesCollected + RejectFee(l) <= U64_MAX
    && l.pool.transfersResolved < U64_MAX
  }

  /** The instruction succeeds exactly when every check passes and nothing overflows. */
  lemma RejectSucceedsIff(l: Ledger, mintKey: Pubkey, signer: Pubkey, reasonCode: U8, reasonMessage: seq<U8>)
    ensures Reject(l, mintKey, signer, reasonCode, reasonMessage).Ok?
        <==> Admitted(l, mintKey, signer, reasonMessage) && Fits(l)
  {
  }

  /** A signer other than the pool's operator is refused with Unauthorized before any handler check; it never succeeds. */
  lemma NonOperatorRefused(l: Ledger, mintKey: Pubkey, signer: Pubkey, reasonCode: U8, reasonMessage: seq<U8>)
    requires signer != l.pool.operator
    ensures Reject(l, mintKey, signer, reasonCode, reasonMessage).Err?
    ensures mintKey == l.pool.mint && l.transfer.pool == l.pool.key
        ==> Reject(l, mintKey, signer, reasonCode, reasonMessage) == Err(Unauthorized)
  {
  }

  /** The instruction is refused unless the mint is the pool's and the transfer belongs to the pool. */
  lemma UnlinkedAccountsRefused(l: Ledger, mintKey: Pubkey, signer: Pubkey, reasonCode: U8, reasonMessage: seq<U8>)
    ensures mintKey != l.pool.mint
        ==> Reject(l, mintKey, signer, reasonCode, reasonMessage) == Err(ConstraintRaw(MintAccount))
    ensures mintKey == l.pool.mint && l.transfer.pool != l.pool.key
        ==> Reject(l, mintKey, signer, reasonCode, reasonMessage) == Err(ConstraintRaw(TransferAccount))
  {
  }

  /** A transfer that is no longer Active is refused with InvalidState, whatever the reason message. */
  lemma InactiveTransferRefused(l: Ledger, signer: Pubkey, reasonCode: U8, reasonMessage: seq<U8>)
    requires l.transfer.pool == l.pool.key && signer == l.pool.operator
    requires l.transfer.status != Active
    ensures Reject(l, l.pool.mint, signer, reasonCode, reasonMessage) == Err(InvalidState)
  {
  }

  /**
   * Once the operator and status checks pass, a reason message longer than
   * 200 bytes is refused with InvalidMemoLength, and one of at most 200 bytes
   * (200 included) is never refused for its length.
   */
  lemma ReasonMessageBound(l: Ledger, reasonCode: U8, reasonMessage: seq<U8>)
    requires l.transfer.pool == l.pool.key && l.transfer.status == Active
    ensures |reasonMessage| > 200
        ==> Reject(l, l.pool.mint, l.pool.operator, reasonCode, reasonMessage) == Err(InvalidMemoLength)
    ensures |reasonMessage| <= 200
        ==> Reject(l, l.pool.mint, l.pool.operator, reasonCode, reasonMessage) != Err(InvalidMemoLength)
  {
  }

  /**
   * On success: the sender gains exactly the refund and the pool's token
   * account loses exactly that; withdrawals grow by the full amount, the
   * collected fees by the fee (so not at all for a zero fee), the resolved
   * count by one; nothing else in the pool changes; the transfer ends
   * Rejected; and the event reports the amount, fee and refund.
   */
  lemma RejectEffects(l: Ledger, mintKey: Pubkey, signer: Pubkey, reasonCode: U8, reasonMessage: seq<U8>)
    requires Reject(l, mintKey, signer, reasonCode, reasonMessage).Ok?
    ensures var (l', event) := Reject(l, mintKey, signer, reasonCode, reasonMessage).value;
      var amount, fee, net := l.transfer.amount, RejectFee(l), RefundAmount(l);
      && l'.senderBalance == l.senderBalance + net
      && l'.poolBalance == l.poolBalance - net
      && l'.pool == l.pool.(totalWithdrawals := l.pool.totalWithdrawals + amount,
                            totalFeesCollected := l.pool.totalFeesCollected + fee,
                            transfersResolved := l.pool.transfersResolved + 1)
      && (fee == 0 ==> l'.pool.totalFeesCollected == l.pool.totalFeesCollected)
      && l'.transfer == l.transfer.(status := Rejected)
      && event == TransferRejected(l.transfer.key, l.pool.key, l.transfer.sender, l.transfer.recipient,
                                   amount, fee, net, reasonCode, reasonMessage)
  {
  }

  /** Tokens are only moved, never created or destroyed: the two balances keep their sum. */
  lemma RejectConservesTokens(l: Ledger, mintKey: Pubkey, signer: Pubkey, reasonCode: U8, reasonMessage: seq<U8>)
    requires Reject(l, mintKey, signer, reasonCode, reasonMessage).Ok?
    ensures var l' := Reject(l, mintKey, signer, reasonCode, reasonMessage).value.0;
      l'.poolBalance + l'.senderBalance == l.poolBalance + l.senderBalance
  {
  }

  /**
   * A rejected transfer cannot be rejected again: the second attempt fails
   * whoever signs it. When the operator signs it, the model's error is
   * InvalidState; the program itself has closed the transfer account by then,
   * so its second attempt fails earlier, while the framework loads that account.
   */
  lemma SecondRejectFails(l: Ledger, mintKey: Pubkey, signer: Pubkey, reasonCode: U8, reasonMessage: seq<U8>,
                          signer2: Pubkey, reasonCode2: U8, reasonMessage2: seq<U8>)
    requires Reject(l, mintKey, signer, reasonCode, reasonMessage).Ok?
    ensures var l' := Reject(l, mintKey, signer, reasonCode, reasonMessage).value.0;
      && Reject(l', mintKey, signer2, reasonCode2, reasonMessage2).Err?
      && (signer2 == l.pool.operator ==> Reject(l', mintKey, signer2, reasonCode2, reasonMessage2) == Err(InvalidState))
  {
  }

  /** The pause flag plays no part: a paused pool resolves its Active transfers exactly as an unpaused one. */
  lemma RejectIgnoresPause(l: Ledger, mintKey: Pubkey, signer: Pubkey, reasonCode: U8, reasonMessage: seq<U8>, paused: bool)
    ensures var l2 := l.(pool := l.pool.(isPaused := paused));
      var r, r2 := Reject(l, mintKey, signer, reasonCode, reasonMessage), Reject(l2, mintKey, signer, reasonCode, reasonMessage);
      (r.Ok? <==> r2.Ok?) && (r.Err? ==> r2 == r)
  {
  }

  /**
   * The pool's own bookkeeping as the code keeps it: when the fee does not
   * exceed the amount, `pool tokens + withdrawals - fees collected` is the
   * same before and after (the fee stays in the pool's token account and is
   * counted once as a withdrawal and once as a fee).
   */
  lemma RejectKeepsPoolBookkeeping(l: Ledger, mintKey: Pubkey, signer: Pubkey, reasonCode: U8, reasonMessage: seq<U8>)
    requires Reject(l, mintKey, signer, reasonCode, reasonMessage).Ok?
    requires RejectFee(l) <= l.transfer.amount
    ensures var l' := Reject(l, mintKey, signer, reasonCode, reasonMessage).value.0;
      l'.poolBalance + l'.pool.totalWithdrawals - l'.pool.totalFeesCollected
        == l.poolBalance + l.pool.totalWithdrawals - l.pool.totalFeesCollected
  {
  }

  /** The sum of the amounts still locked in Active transfers of `pool`. */
  function LockedIn(ts: seq<TransferData>, pool: Pubkey): nat
  {
    if ts == [] then 0
    else (if ts[0].pool == pool && ts[0].status == Active then ts[0].amount else 0) + LockedIn(ts[1..], pool)
  }

  /** The pool's conservation law: deposits less withdrawals less fees is what its Active transfers still lock. */
  predicate ConservationLaw(p: PoolData, ts: seq<TransferData>) {
    p.totalDeposits - p.totalWithdrawals - p.totalFeesCollected == LockedIn(ts, p.key)
  }

  /** Resolving one Active transfer of the pool releases exactly its amount from the locked sum. */
  lemma {:induction false} LockedInAfterResolve(ts: seq<TransferData>, i: nat, t: TransferData, pool: Pubkey)
    requires i < |ts|
    requires ts[i].pool == pool && ts[i].status == Active
    requires t.status != Active
    ensures LockedIn(ts[i := t], pool) + ts[i].amount == LockedIn(ts, pool)
  {
    if i > 0 {
      assert ts[i := t][1..] == ts[1..][i - 1 := t];
      LockedInAfterResolve(ts[1..], i - 1, t, pool);
    } else {
      assert ts[i := t][1..] == ts[1..];
    }
  }

  /**
   * A reject keeps the pool's conservation law exactly when the fee is zero:
   * withdrawals grow by the full amount and the fees by the fee, while the
   * locked sum drops by the amount alone.
   */
  lemma RejectKeepsConservationLawIffNoFee(
    l: Ledger, mintKey: Pubkey, signer: Pubkey, reasonCode: U8, reasonMessage: seq<U8>,
    ts: seq<TransferData>, i: nat)
    requires Reject(l, mintKey, signer, reasonCode, reasonMessage).Ok?
    requires i < |ts| && ts[i] == l.transfer
    requires ConservationLaw(l.pool, ts)
    ensures var l' := Reject(l, mintKey, signer, reasonCode, reasonMessage).value.0;
      ConservationLaw(l'.pool, ts[i := l'.transfer]) <==> RejectFee(l) == 0
  {
    var l' := Reject(l, mintKey, signer, reasonCode, reasonMessage).value.0;
    LockedInAfterResolve(ts, i, l'.transfer, l.pool.key);
  }
}
