/** Classification of the exceptions an attempt can raise. */
module Errors {

  /** Exceptions by the class the classifier tests for; other provider exceptions carry a status code. */
  datatype Failure =
    | InvalidModel | InvalidProvider | ProviderDisabled | ProviderAuth
    | ValueError | TypeError
    | ProviderTimeout | ProviderUnavailable | ProviderRateLimit
    | NetworkError
    | ProviderStatus(status: int)
    | OtherError

  predicate IsPermanent(f: Failure) {
    f.InvalidModel? || f.InvalidProvider? || f.ProviderDisabled? || f.ProviderAuth? || f.ValueError? || f.TypeError?
  }

  /** Worth retrying. */
  predicate IsTransient(f: Failure) {
    if IsPermanent(f) then false
    else if f.ProviderTimeout? || f.ProviderUnavailable? || f.ProviderRateLimit? then true
    else if f.NetworkError? then true
    else f.ProviderStatus? && f.status in {429, 500, 502, 503, 504}
  }

  /** Counts towards opening the provider's circuit. */
  predicate IsBreakerFailure(f: Failure) {
    if IsPermanent(f) then false
    else if f.ProviderTimeout? || f.ProviderUnavailable? then true
    else if f.NetworkError? then true
    else if f.ProviderRateLimit? then false  // its status 429 is not a server error
    else f.ProviderStatus? && f.status in {500, 502, 503, 504}
  }

  /** The two classifications differ on rate limiting alone. */
  lemma OnlyRateLimitsAreRetriedUncounted(f: Failure)
    ensures IsBreakerFailure(f) ==> IsTransient(f)
    ensures IsTransient(f) && !IsBreakerFailure(f) <==> f.ProviderRateLimit? || f == ProviderStatus(429)
  {
  }

  /** Every kind of failure there is, and whether it is retried. */
  lemma TransientPartition(f: Failure)
    ensures !IsTransient(f) <==>
              || f.InvalidModel? || f.InvalidProvider? || f.ProviderDisabled? || f.ProviderAuth?
              || f.ValueError? || f.TypeError? || f.OtherError?
              || (f.ProviderStatus? && f.status !in {429, 500, 502, 503, 504})
    ensures IsTransient(f) <==>
              || f.ProviderTimeout? || f.ProviderUnavailable? || f.ProviderRateLimit? || f.NetworkError?
              || (f.ProviderStatus? && f.status in {429, 500, 502, 503, 504})
  {
  }

  /** Every kind of failure there is, and whether it counts towards opening a circuit. */
  lemma CountedPartition(f: Failure)
    ensures IsBreakerFailure(f) <==>
              || f.ProviderTimeout? || f.ProviderUnavailable? || f.NetworkError?
              || (f.ProviderStatus? && f.status in {500, 502, 503, 504})
    ensures !IsBreakerFailure(f) <==>
              || f.InvalidModel? || f.InvalidProvider? || f.ProviderDisabled? || f.ProviderAuth?
              || f.ValueError? || f.TypeError? || f.ProviderRateLimit? || f.OtherError?
              || (f.ProviderStatus? && f.status !in {500, 502, 503, 504})
  {
  }
}
