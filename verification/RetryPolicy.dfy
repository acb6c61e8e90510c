/** The failure classifier and the retry schedule. */
module RetryPolicy {
  import opened Text

  const MAX_RETRY_ATTEMPTS := 3
  const RETRY_DELAYS_MS: seq<nat> := [30_000, 120_000, 600_000]
  const MAX_CONTINUATION := 2

  predicate IsTransientError(code: Option<string>) {
    code.Some? && code.value in {"gateway_unreachable", "gateway_handshake_timeout", "timeout", "network_error", "adapter_error"}
  }

  function NextRetryDelayMs(attemptIndex: int): Option<nat> {
    if attemptIndex < 0 || attemptIndex >= |RETRY_DELAYS_MS| then None else Some(RETRY_DELAYS_MS[attemptIndex])
  }

  // What the server's notifications ask about a failed run.
  predicate IsRetryExhausted(code: Option<string>, failureRetryAttempt: int) {
    !IsTransientError(code) || failureRetryAttempt >= MAX_RETRY_ATTEMPTS
  }
}
