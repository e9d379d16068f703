/** The bearer token of a session (Internal/AuthToken.cs): an immutable pair of
    the token text and its absolute expiry, considered expired one minute
    before that expiry. */
module AuthTokens {
  import opened Dates

  /** The safety margin before expiry, `TimeSpan.FromMinutes(1)`, in seconds. */
  const ExpiryMargin := 60

  /** `record AuthToken(string Value, DateTimeOffset Expiry)`. A datatype value
      cannot be changed after construction, as the positional record cannot. */
  datatype AuthToken = AuthToken(value: string, expiry: Instant)
  {
    /** `IsExpired`, with the wall clock passed in as `now`. */
    predicate IsExpired(now: Instant)
    {
      now >= expiry - ExpiryMargin
    }
  }

  /** A token whose expiry is at most a minute away is already expired. */
  lemma ExpiredWithinMargin(t: AuthToken, now: Instant)
    requires t.expiry - now <= ExpiryMargin
    ensures t.IsExpired(now)
  {
  }

  /** A token is live exactly while more than a minute remains. */
  lemma LiveIffMarginLeft(t: AuthToken, now: Instant)
    ensures !t.IsExpired(now) <==> t.expiry - now > ExpiryMargin
  {
  }

  /** Once expired, a token stays expired as time moves on. */
  lemma ExpiryIsMonotone(t: AuthToken, now: Instant, later: Instant)
    requires t.IsExpired(now) && now <= later
    ensures t.IsExpired(later)
  {
  }
}
