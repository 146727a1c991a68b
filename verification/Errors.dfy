/** The daemon's one error currency: a typed failure with a code, the message of the place
    that raised it, and the field or identifier it concerns. */
module Errors {

  datatype ErrorCode =
    | UnspecifiedCode | UnbalancedTransaction | AccountNotFound | TxnNotFound | CommodityNotFound
    | CurrencyMismatch | AccountNotEmpty | InvalidArgument | BookNotOpen | BookLocked
    | ReadOnlyBook | EngineError | IndeterminateMutation

  datatype StatusCode =
    | NotFound | FailedPrecondition | Unavailable | InvalidArgumentStatus | Internal

  /** One constructor for each message the modelled code raises. */
  datatype Message =
    | CurrencyRequired | NotACurrency | PostDateRequired | SplitRequired | GuidMustBeEmpty
    | GuidRequired | NameRequired | ParentRequired | MalformedGuid | NoAccount | NoTransaction
    | NoCommodity | DenomNotPositive | InvalidDate | DateRequired | SplitNotOwned | SplitTwice
    | SplitOverflow | SumNotZero | RootNotSettable | UnspecifiedAccountType
    | RootUnmodifiable | WouldCycle | HasSplitsOrChildren | NoBookOpen | JournalFailed
    | UnspecifiedReconcileState | OutcomeDoesNotParse | ImbalancedTransaction | TrialBalanceNonzero | TokenMismatch

  /** Where in the request the failure lies; a split is named by its position. */
  datatype Context =
    | Whole | Field(name: string) | SplitField(index: nat, name: string) | Entity(guid: nat)

  datatype ShimError = ShimError(code: ErrorCode, message: Message, context: Context)

  /** Failures that are a verdict on the request, and so may be journaled and replayed. */
  predicate IsDeterministicVerdict(code: ErrorCode) {
    match code
    case UnbalancedTransaction | AccountNotFound | TxnNotFound | CommodityNotFound
       | CurrencyMismatch | AccountNotEmpty | InvalidArgument => true
    case _ => false
  }

  function GrpcCodeFor(code: ErrorCode): StatusCode {
    match code
    case AccountNotFound | TxnNotFound | CommodityNotFound => NotFound
    case UnbalancedTransaction | CurrencyMismatch | AccountNotEmpty | ReadOnlyBook
       | IndeterminateMutation => FailedPrecondition
    case BookLocked | BookNotOpen => Unavailable
    case InvalidArgument => InvalidArgumentStatus
    case EngineError | UnspecifiedCode => Internal
  }
}
