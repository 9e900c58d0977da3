/** The typed errors of gateway/core/exceptions.py that a dispatch can end in. */
module Errors {
  datatype GatewayError =
    | ModelNotEntitled
    | RateLimitExceeded(retryAfterSeconds: real)
    | BudgetExceeded
    | AllProvidersUnavailable
    | ProviderTimeout
}
