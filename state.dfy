/**
 * The escrow program's account records and the helpers the reject
 * instruction calls on them. The records are updated in place by the
 * instruction, so each is a class; `Data()` gives its current contents as a
 * value, and the value-level functions (members of PoolData and TransferData)
 * specify what each helper does to that value.
 */
module State {
  import opened Wrappers
  import opened Numerics

  /** A ledger address. */
  type Pubkey = nat

  datatype TransferStatus = Active | Claimed | Cancelled | Rejected | Declined | Expired

  /** The account whose Anchor `constraint = ...` check failed. */
  datatype ConstrainedAccount = MintAccount | TransferAccount

  datatype Error =
    // Anchor's error for a failed `constraint = ...` on an account
    | ConstraintRaw(account: ConstrainedAccount)
    // the program's own errors
    | Unauthorized
    | InvalidState
    | InvalidMemoLength
    | MathOverflow
    // errors of the token program's checked transfer
    | InsufficientFunds
    | TokenOverflow

  /** The contents of a pool account. `feeRule` is the pool's fee schedule, as a function of the amount. */
  datatype PoolData = PoolData(
    key: Pubkey,
    operator: Pubkey,
    mint: Pubkey,
    feeRule: U64 -> U64,
    isPaused: bool,
    totalDeposits: U64,
    totalWithdrawals: U64,
    totalFeesCollected: U64,
    transfersResolved: U64)
  {
    /** The fee the pool charges on `amount`; nothing constrains it, not even to be at most `amount`. */
    function TransferFee(amount: U64): U64 {
      feeRule(amount)
    }

    /** Posts a withdrawal of `amount`; fails on 64-bit overflow and then changes nothing. */
    function AddWithdrawal(amount: U64): (r: Result<PoolData, Error>)
      ensures r.Ok? <==> totalWithdrawals + amount <= U64_MAX
      ensures r.Err? ==> r.error == MathOverflow
      ensures r.Ok? ==> r.value == this.(totalWithdrawals := totalWithdrawals + amount)
    {
      match CheckedAdd(totalWithdrawals, amount)
      case None => Err(MathOverflow)
      case Some(w) => Ok(this.(totalWithdrawals := w))
    }

    /** Posts `fee` to the collected fees; fails on 64-bit overflow and then changes nothing. */
    function AddCollectedFees(fee: U64): (r: Result<PoolData, Error>)
      ensures r.Ok? <==> totalFeesCollected + fee <= U64_MAX
      ensures r.Err? ==> r.error == MathOverflow
      ensures r.Ok? ==> r.value == this.(totalFeesCollected := totalFeesCollected + fee)
    {
      match CheckedAdd(totalFeesCollected, fee)
      case None => Err(MathOverflow)
      case Some(f) => Ok(this.(totalFeesCollected := f))
    }

    /** Counts one more resolved transfer; fails on 64-bit overflow and then changes nothing. */
    function IncrementTransfersResolved(): (r: Result<PoolData, Error>)
      ensures r.Ok? <==> transfersResolved < U64_MAX
      ensures r.Err? ==> r.error == MathOverflow
      ensures r.Ok? ==> r.value == this.(transfersResolved := transfersResolved + 1)
    {
      match CheckedAdd(transfersResolved, 1)
      case None => Err(MathOverflow)
      case Some(n) => Ok(this.(transfersResolved := n))
    }
  }

  /** The contents of a transfer (escrow) account. */
  datatype TransferData = TransferData(
    key: Pubkey,
    sender: Pubkey,
    recipient: Pubkey,
    pool: Pubkey,
    amount: U64,
    status: TransferStatus)
  {
    /** Succeeds exactly when the transfer is still Active. */
    function ValidateActive(): (r: Outcome<Error>)
      ensures r.Pass? <==> status == Active
      ensures r.Fail? ==> r.error == InvalidState
    {
      if status == Active then Pass else Fail(InvalidState)
    }

    /** Moves an Active transfer to Rejected; any other status is refused and left as it is. */
    function MarkAsRejected(): (r: Result<TransferData, Error>)
      ensures r.Ok? <==> status == Active
      ensures r.Err? ==> r.error == InvalidState
      ensures r.Ok? ==> r.value == this.(status := Rejected)
    {
      if status == Active then Ok(this.(status := Rejected)) else Err(InvalidState)
    }
  }

  /**
   * The token program's checked transfer of `amount` between two distinct
   * token accounts holding `from` and `to`: refused when the source holds
   * too little or the destination would overflow.
   */
  function TokenTransfer(from: U64, to: U64, amount: U64): (r: Result<(U64, U64), Error>)
    ensures r.Ok? <==> amount <= from && to + amount <= U64_MAX
    ensures r.Err? ==> r.error == (if from < amount then InsufficientFunds else TokenOverflow)
    ensures r.Ok? ==> r.value.0 + r.value.1 == from + to
    ensures r.Ok? ==> r.value.1 - to == amount
  {
    if from < amount then Err(InsufficientFunds)
    else if to + amount > U64_MAX then Err(TokenOverflow)
    else Ok((from - amount, to + amount))
  }

  class Pool {
    const key: Pubkey
    var operator: Pubkey
    var mint: Pubkey
    var feeRule: U64 -> U64
    var isPaused: bool
    var totalDeposits: U64
    var totalWithdrawals: U64
    var totalFeesCollected: U64
    var transfersResolved: U64

    function Data(): (d: PoolData)
      reads this
      ensures d.key == key
    {
      PoolData(key, operator, mint, feeRule, isPaused,
               totalDeposits, totalWithdrawals, totalFeesCollected, transfersResolved)
    }

    constructor (d: PoolData)
      ensures Data() == d
    {
      key := d.key;
      operator, mint, feeRule, isPaused := d.operator, d.mint, d.feeRule, d.isPaused;
      totalDeposits, totalWithdrawals := d.totalDeposits, d.totalWithdrawals;
      totalFeesCollected, transfersResolved := d.totalFeesCollected, d.transfersResolved;
    }

    /** Overwrites every field with `d` (used to discard the writes of a failed instruction). */
    method Restore(d: PoolData)
      requires d.key == key
      modifies this
      ensures Data() == d
    {
      operator, mint, feeRule, isPaused := d.operator, d.mint, d.feeRule, d.isPaused;
      totalDeposits, totalWithdrawals := d.totalDeposits, d.totalWithdrawals;
      totalFeesCollected, transfersResolved := d.totalFeesCollected, d.transfersResolved;
    }

    function CalculateTransferFee(amount: U64): (fee: U64)
      reads this
      ensures fee == Data().TransferFee(amount)
    {
      feeRule(amount)
    }

    method AddWithdrawal(amount: U64) returns (o: Outcome<Error>)
      modifies this
      ensures var r := old(Data()).AddWithdrawal(amount);
        (o.Pass? <==> r.Ok?) && (o.Fail? ==> o.error == r.error)
      ensures Data() == if o.Pass? then old(Data()).AddWithdrawal(amount).value else old(Data())
    {
      var w := CheckedAdd(totalWithdrawals, amount);
      if w.None? {
        return Fail(MathOverflow);
      }
      totalWithdrawals := w.value;
      o := Pass;
    }

    method AddCollectedFees(fee: U64) returns (o: Outcome<Error>)
      modifies this
      ensures var r := old(Data()).AddCollectedFees(fee);
        (o.Pass? <==> r.Ok?) && (o.Fail? ==> o.error == r.error)
      ensures Data() == if o.Pass? then old(Data()).AddCollectedFees(fee).value else old(Data())
    {
      var f := CheckedAdd(totalFeesCollected, fee);
      if f.None? {
        return Fail(MathOverflow);
      }
      totalFeesCollected := f.value;
      o := Pass;
    }

    method IncrementTransfersResolved() returns (o: Outcome<Error>)
      modifies this
      ensures var r := old(Data()).IncrementTransfersResolved();
        (o.Pass? <==> r.Ok?) && (o.Fail? ==> o.error == r.error)
      ensures Data() == if o.Pass? then old(Data()).IncrementTransfersResolved().value else old(Data())
    {
      var n := CheckedAdd(transfersResolved, 1);
      if n.None? {
        return Fail(MathOverflow);
      }
      transfersResolved := n.value;
      o := Pass;
    }
  }

  class SecureTransfer {
    const key: Pubkey
    var sender: Pubkey
    var recipient: Pubkey
    var pool: Pubkey
    var amount: U64
    var status: TransferStatus

    function Data(): (d: TransferData)
      reads this
      ensures d.key == key
    {
      TransferData(key, sender, recipient, pool, amount, status)
    }

    constructor (d: TransferData)
      ensures Data() == d
    {
      key := d.key;
      sender, recipient, pool, amount, status := d.sender, d.recipient, d.pool, d.amount, d.status;
    }

    /** Overwrites every field with `d` (used to discard the writes of a failed instruction). */
    method Restore(d: TransferData)
      requires d.key == key
      modifies this
      ensures Data() == d
    {
      sender, recipient, pool, amount, status := d.sender, d.recipient, d.pool, d.amount, d.status;
    }

    method ValidateActive() returns (o: Outcome<Error>)
      ensures o == Data().ValidateActive()
    {
      if status != Active {
        return Fail(InvalidState);
      }
      o := Pass;
    }

    method MarkAsRejected() returns (o: Outcome<Error>)
      modifies this
      ensures var r := old(Data()).MarkAsRejected();
        (o.Pass? <==> r.Ok?) && (o.Fail? ==> o.error == r.error)
      ensures Data() == if o.Pass? then old(Data()).MarkAsRejected().value else old(Data())
    {
      if status != Active {
        return Fail(InvalidState);
      }
      status := Rejected;
      o := Pass;
    }
  }

  /** A token account; only its balance matters here. */
  class TokenAccount {
    var balance: U64

    constructor (balance: U64)
      ensures this.balance == balance
    {
      this.balance := balance;
    }
  }

  /**
   * The token program's checked transfer between two distinct accounts, as
   * seen from the calling program: the balances move as `TokenTransfer` says,
   * or nothing changes.
   */
  method TransferChecked(from: TokenAccount, to: TokenAccount, amount: U64) returns (o: Outcome<Error>)
    requires from != to
    modifies from, to
    ensures var r := TokenTransfer(old(from.balance), old(to.balance), amount);
      (o.Pass? <==> r.Ok?) && (o.Fail? ==> o.error == r.error)
      && (from.balance, to.balance) == (if r.Ok? then r.value else (old(from.balance), old(to.balance)))
  {
    if from.balance < amount {
      return Fail(InsufficientFunds);
    }
    if to.balance + amount > U64_MAX {
      return Fail(TokenOverflow);
    }
    from.balance := from.balance - amount;
    to.balance := to.balance + amount;
    o := Pass;
  }
}
