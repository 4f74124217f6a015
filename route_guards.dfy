/** The two checks both payment routes run before their own work. */
module RouteGuards {
  import opened Wrappers
  import opened StackPayments

  /** The environment check passes. */
  predicate EnvReady(env: Env) {
    ValidatePaymentsEnv(env) == []
  }

  /** `user?.id` is truthy: a user was found and its id is non-empty. */
  predicate HasUserId(user: Option<string>) {
    user.Some? && user.value != []
  }
}
