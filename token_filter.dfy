/** The per-request revocation check: a bearer token is let through only when the
    tokens table holds a valid row for it. */
module JwtTokenDatabaseFilter {
  import opened Common
  import opened Entities
  import opened Store

  const UnauthorizedStatus: int := 401
  const ApplicationJson: string := "application/json"
  const RevokedBody: string := "{\"error\":\"UNAUTHORIZED\",\"status\":401,\"message\":\"Token invalid or revoked\"}"

  /** What the filter does with a request: hand it to the rest of the chain, or
      answer 401 itself and stop. */
  datatype Decision = Continue | Reject

  /** The decision for a request carrying `header` (None when absent), given the
      tokens table at the time of the request. */
  function Decide(header: Option<string>, tokens: map<string, TokenRow>): (d: Decision)
    ensures BearerToken(header).None? ==> d == Continue
    ensures BearerToken(header).Some? ==>
      var t := BearerToken(header).value; (d == Continue <==> t in tokens && tokens[t].valid)
  {
    match BearerToken(header)
    case None => Continue
    case Some(t) => if t !in tokens || !tokens[t].valid then Reject else Continue
  }

  /** A request without a bearer header is never stopped here, whatever the table holds. */
  lemma NoBearerPasses(header: Option<string>, tokens: map<string, TokenRow>)
    requires header.None? || !StartsWith(header.value, BearerPrefix)
    ensures Decide(header, tokens) == Continue
  {
  }

  /** The bearer form of a token is decided by that token's row alone: continue
      exactly when the row exists and is valid. */
  lemma BearerDecision(token: string, tokens: map<string, TokenRow>)
    ensures Decide(Some(BearerPrefix + token), tokens) == Continue <==> token in tokens && tokens[token].valid
  {
  }

  /** Once a token's row is invalid, every later state reached without revalidation
      still rejects it. */
  lemma RejectionPersists(before: map<string, TokenRow>, after: map<string, TokenRow>, token: string)
    requires NoRevalidation(before, after)
    requires token in before && !before[token].valid
    ensures Decide(Some(BearerPrefix + token), after) == Reject
  {
  }

  /** Whether a request reaches a protected endpoint: the resource server must
      accept the bearer token (signature and expiry, `signatureAccepted`, left
      abstract) and this filter must let it continue. */
  predicate Reaches(header: Option<string>, tokens: map<string, TokenRow>, signatureAccepted: string -> bool) {
    && BearerToken(header).Some?
    && signatureAccepted(BearerToken(header).value)
    && Decide(header, tokens) == Continue
  }

  /** A revoked or unknown token never reaches a protected endpoint, for every
      verdict of the signature check. */
  lemma RevokedNeverReaches(token: string, tokens: map<string, TokenRow>, signatureAccepted: string -> bool)
    requires token !in tokens || !tokens[token].valid
    ensures !Reaches(Some(BearerPrefix + token), tokens, signatureAccepted)
  {
  }

  /** A request that reaches an endpoint passed both checks: a well-signed token
      with a valid row. */
  lemma ReachedMeansBothChecks(token: string, tokens: map<string, TokenRow>, signatureAccepted: string -> bool)
    requires Reaches(Some(BearerPrefix + token), tokens, signatureAccepted)
    ensures signatureAccepted(token) && token in tokens && tokens[token].valid
  {
  }

  /** The servlet response the filter writes on rejection. */
  class HttpResponse {
    var status: int
    var contentType: Option<string>
    var body: string

    constructor ()
      ensures status == 200 && contentType.None? && body == ""
    {
      status, contentType, body := 200, None, "";
    }
  }

  /** The rest of the filter chain; it only counts how often it is invoked. */
  class FilterChain {
    var invocations: nat

    constructor ()
      ensures invocations == 0
    {
      invocations := 0;
    }

    method DoFilter()
      modifies this
      ensures invocations == old(invocations) + 1
    {
      invocations := invocations + 1;
    }
  }

  class TokenDatabaseFilter {
    const db: Database

    constructor (db: Database)
      ensures this.db == db
    {
      this.db := db;
    }

    /** doFilterInternal: reject an unknown or revoked bearer token with a JSON 401
        and return early; otherwise invoke the chain exactly once. The tokens table
        is only read. */
    method DoFilterInternal(header: Option<string>, response: HttpResponse, chain: FilterChain)
      requires db.Valid()
      modifies response, chain
      ensures unchanged(db)
      ensures Decide(header, db.tokens) == Continue ==>
        chain.invocations == old(chain.invocations) + 1 && unchanged(response)
      ensures Decide(header, db.tokens) == Reject ==>
        && chain.invocations == old(chain.invocations)
        && response.status == UnauthorizedStatus
        && response.contentType == Some(ApplicationJson)
        && response.body == old(response.body) + RevokedBody
    {
      if header.Some? && StartsWith(header.value, BearerPrefix) {
        var token := header.value[7..];
        var found := db.FindByToken(token);
        if found.None? || !found.value.valid {
          response.status := UnauthorizedStatus;
          response.contentType := Some(ApplicationJson);
          response.body := response.body + RevokedBody;
          return;
        }
      }
      chain.DoFilter();
    }
  }
}
