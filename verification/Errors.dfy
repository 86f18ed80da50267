/** The error codes the contracts share. */
module Errors {

  datatype Error =
    | Unauthorized
    | NotFound
    | InvalidArgument
    | InvalidAmount
    | Overflow
    | InsufficientBalance
    | WithdrawalLimitExceeded
    | NotPaused
    | ProposalNotFound
    | AlreadyExecuted
    | AlreadyApproved
    | BelowThreshold
    | PaymentInvalidAmount
    | PaymentInvalidFeeRate
    | PaymentFeeOverflow
    | PaymentInsufficientBalance
    | PaymentEscrowNotFound
    | PaymentEscrowAlreadyReleased
    | PaymentEscrowAlreadyRefunded
    | PaymentEscrowExpired
    | PaymentEscrowIdOverflow
    | HostPanic  // the call aborted: a failed token transfer or an arithmetic trap
}
