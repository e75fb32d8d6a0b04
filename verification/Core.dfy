/** Addresses, errors and the checked i128 arithmetic every contract entry point is written in. */
module Core {

  datatype Address = Address(id: nat)

  datatype VaultError =
    | ZeroAmount
    | VaultPaused
    | VaultNotPaused
    | BelowMinDeposit
    | TvlCapExceeded
    | BalanceMismatch
    | MathOverflow
    | InsufficientShares
    | InsufficientUnderlying
    | WithdrawalLimitExceeded
    | TransferFailed
    | QueueEntryNotFound
    | QueueUnbondingPending
    | ZeroShares
    | HarvestCooldown
    | CircuitBreakerTripped
    | YieldTooSmall
    | DistributionAccuracyError
    | BatchEmpty
    | BatchTooLarge
    | InvalidAddress
    | NotInitialized
    | NotASigner
    | OperationNotFound
    | OperationExpired
    | OperationAlreadyExecuted
    | ProposalCancelled
    | AlreadyVoted
    | ThresholdNotMet
    | TimelockNotExpired
    | InvalidThreshold
    | AlreadyInitialized
    | MigrationExpired
    | SlippageExceeded
    | WithdrawalQueued
    | NotApproved
    | NotWhitelisted

  datatype Option<+T> = None | Some(value: T)

  /** What an entry point returns: its value, or the error that makes the host undo every write. */
  datatype Result<+T> = Ok(value: T) | Err(error: VaultError) {
    predicate IsFailure() { Err? }

    function PropagateFailure<U>(): Result<U>
      requires Err?
    {
      Err(error)
    }

    function Extract(): T
      requires Ok?
    {
      value
    }
  }

  /** A guard: passes, or stops the entry point with an error. */
  datatype Guard = Pass | Fail(error: VaultError) {
    predicate IsFailure() { Fail? }

    function PropagateFailure<U>(): Result<U>
      requires Fail?
    {
      Err(error)
    }
  }

  function Need(condition: bool, error: VaultError): Guard {
    if condition then Pass else Fail(error)
  }

  const I128_MAX: int := 0x7FFF_FFFF_FFFF_FFFF_FFFF_FFFF_FFFF_FFFF
  const U64_MAX: int := 0xFFFF_FFFF_FFFF_FFFF

  predicate IsI128(x: int) { -I128_MAX - 1 <= x <= I128_MAX }

  function Checked(x: int): Result<int> {
    if IsI128(x) then Ok(x) else Err(MathOverflow)
  }

  function CheckedAdd(x: int, y: int): Result<int> { Checked(x + y) }

  function CheckedSub(x: int, y: int): Result<int> { Checked(x - y) }

  function CheckedMul(x: int, y: int): Result<int> { Checked(x * y) }

  /** Integer division that truncates toward zero, as i128 division does. */
  function TruncDiv(x: int, y: int): int
    requires y != 0
  {
    if x >= 0 then x / y else -((-x) / y)
  }

  /** By a nonzero constant this cannot fail; such divisions are written `TruncDiv` directly. */
  function CheckedDiv(x: int, y: int): Result<int> {
    if y == 0 then Err(MathOverflow) else Checked(TruncDiv(x, y))
  }

  function SaturatingSub(x: int, y: int): int {
    if x - y < -I128_MAX - 1 then -I128_MAX - 1
    else if x - y > I128_MAX then I128_MAX
    else x - y
  }

  /** Clock arithmetic is u64 and saturates. */
  function SaturatingAddU64(x: nat, y: nat): nat {
    if x + y > U64_MAX then U64_MAX else x + y
  }

  /** `a.saturating_sub(b)` on unsigned clocks. */
  function Elapsed(later: nat, earlier: nat): nat {
    if later >= earlier then later - earlier else 0
  }

  /** A storage cell that reads as zero until it is written. */
  function Get<K>(m: map<K, int>, k: K): int {
    if k in m then m[k] else 0
  }
}
