/** The host environment every contract runs in: addresses, fixed-width integers,
    the ledger clock, and the three ways a call can end. */
module Host {

  const I128_MAX: int := 0x7FFF_FFFF_FFFF_FFFF_FFFF_FFFF_FFFF_FFFF
  const I128_MIN: int := -0x8000_0000_0000_0000_0000_0000_0000_0000
  const U64_MAX: int := 0xFFFF_FFFF_FFFF_FFFF
  const U32_MAX: int := 0xFFFF_FFFF

  type i128 = x: int | I128_MIN <= x <= I128_MAX
  type u64 = x: int | 0 <= x <= U64_MAX
  type u32 = x: int | 0 <= x <= U32_MAX

  /** The two contract addresses the protocol hard-wires into each other, the all-zeros account nobody holds
      a key for, and everybody else (token contracts, people, multisig wallets). Only `Other` addresses sign. */
  datatype Address = Governance | Treasury | Zero | Other(id: nat)

  /** Ledger time and sequence, and whether the native-asset client (not part of this model)
      accepts a transfer. */
  datatype Env = Env(now: u64, sequence: u32, nativeOk: bool)

  datatype Option<+T> = None | Some(value: T)

  /** The error names of the governance and token contracts; a name both declare appears once. */
  datatype Error =
    | AlreadyInitialized | NotInitialized
    | ProposalNotFound | ProposalNotActive | ProposalNotPassed
    | InvalidTitle | InvalidDescription | InvalidLink | InvalidQuorum | QuorumExceedsSupply
    | InvalidDurationRange | InsufficientBalance | ProposalCooldown | QuorumBelowFloor | ProposalsStillActive
    | VotingNotStarted | VotingPeriodEnded | VotingStillOpen | AlreadyVoted | NoVotingPower
    | AdminVoteRestricted | VoteNotFound | VoteAlreadySame
    | NotAdmin | QuorumUpdateNotAllowed | InvalidNewAdmin | NoPendingAdmin | NotPendingAdmin
    | NotProposer | VotesAlreadyCast
    | ContractPaused | NotPaused | ArithmeticOverflow
    | InvalidAmount | AllowanceExceeded | InvalidExpiry
    | CannotDelegateSelf | AlreadyDelegating | NotDelegating

  /** `Err` is a returned error code; `Trap` is a panic (overflow, unwrap of an absent key, a failed
      cross-contract call). The host discards every write in both cases. */
  datatype Outcome<+T> = Ok(value: T) | Err(error: Error) | Trap {
    predicate IsFailure() {
      !Ok?
    }

    function PropagateFailure<U>(): Outcome<U>
      requires !Ok?
    {
      match this
      case Err(e) => Err(e)
      case Trap => Trap
    }

    function Extract(): T
      requires Ok?
    {
      value
    }
  }

  function AtMost(a: nat, b: nat): nat {
    if a < b then a else b
  }

  /** One check on the way to an outcome. */
  datatype Guard = Pass | Fail(error: Error) | Panic {
    predicate IsFailure() {
      !Pass?
    }

    function PropagateFailure<U>(): Outcome<U>
      requires !Pass?
    {
      if Fail? then Err(error) else Trap
    }
  }

  /** Returns the error code unless the condition holds. */
  function Need(condition: bool, error: Error): Guard {
    if condition then Pass else Fail(error)
  }

  /** An unwrap or an unchecked operation: panics or passes. */
  function Unless(panic: bool): Guard {
    if panic then Panic else Pass
  }

  /** A call that was specified to end as `spec` did end as `result`, moving the state accordingly. */
  ghost predicate Matches<S, R>(spec: Outcome<S>, result: Outcome<R>, before: S, after: S) {
    match spec
    case Ok(s) => result.Ok? && after == s
    case Err(e) => result == Err(e) && after == before
    case Trap => result == Trap && after == before
  }
}
