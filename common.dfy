/** Shared vocabulary of the model: optional values, the exceptions the services
    throw (as values), time readings, and the "Bearer " header convention. */
module Common {

  /** Java's Optional / a nullable reference. */
  datatype Option<+T> = None | Some(value: T)

  /** The exception classes thrown on the modelled paths. All of them are
      unchecked (subclasses of RuntimeException). */
  datatype ExceptionKind =
    | IllegalArgument          // IllegalArgumentException
    | NoSuchElement            // NoSuchElementException
    | Runtime                  // plain RuntimeException
    | UsernameNotFound         // Spring Security UsernameNotFoundException
    | BadCredentials           // any AuthenticationException from the authentication manager
    | DataIntegrityViolation   // a database constraint rejected an insert

  /** A thrown exception: its class and its getMessage(). */
  datatype Failure = Failure(kind: ExceptionKind, message: string)

  /** The outcome of a service call: a value, or the exception it threw. */
  datatype Result<+T> = Ok(value: T) | Err(failure: Failure)

  /** An Instant, in whole seconds since the epoch. */
  type Instant = int

  /** A LocalDateTime reading of the same clock. */
  type DateTime = int

  /** A java.lang.Double, kept as its IEEE 754 bit pattern: the model only copies it. */
  type Double = bv64

  /** String.startsWith (case-sensitive). */
  predicate StartsWith(s: string, prefix: string) {
    |prefix| <= |s| && s[..|prefix|] == prefix
  }

  /** String.endsWith (case-sensitive). */
  predicate EndsWith(s: string, suffix: string) {
    |suffix| <= |s| && s[|s| - |suffix|..] == suffix
  }

  /** The authorization scheme prefix checked by the filter and by the logout endpoint. */
  const BearerPrefix: string := "Bearer "

  /** `header != null && header.startsWith("Bearer ")`, then `header.substring(7)`:
      the token carried by an Authorization header, if the header uses the bearer scheme. */
  function BearerToken(header: Option<string>): (token: Option<string>)
    ensures token.Some? <==> header.Some? && StartsWith(header.value, BearerPrefix)
    ensures token.Some? ==> header.value == BearerPrefix + token.value
    ensures token.Some? ==> |token.value| == |header.value| - 7
  {
    if header.Some? && StartsWith(header.value, BearerPrefix) then Some(header.value[7..]) else None
  }

  /** Building the header from a token and extracting it again gives the token back. */
  lemma BearerRoundTrip(token: string)
    ensures BearerToken(Some(BearerPrefix + token)) == Some(token)
  {
  }

  /** The system clock. Each call to Now() (Instant.now() or LocalDateTime.now())
      yields the next reading of an arbitrary sequence fixed when the clock is built. */
  class Clock {
    const reading: nat -> int
    var ticks: nat

    constructor (reading: nat -> int)
      ensures this.reading == reading && ticks == 0
    {
      this.reading := reading;
      ticks := 0;
    }

    method Now() returns (t: int)
      modifies this
      ensures t == reading(old(ticks)) && ticks == old(ticks) + 1
    {
      t := reading(ticks);
      ticks := ticks + 1;
    }
  }
}
