/** Token issuance: the claim set and JWS header handed to the configured encoder.
    Signing itself (HMAC-SHA-512) is the encoder's business and stays abstract:
    the encoder is any function from parameters to the compact token string. */
module JwtService {
  import opened Common

  datatype MacAlgorithm = HS256 | HS384 | HS512

  datatype JwsHeader = JwsHeader(algorithm: MacAlgorithm)

  datatype JwtClaimsSet = JwtClaimsSet(issuer: string, issuedAt: Instant, expiresAt: Instant, subject: string)

  datatype JwtEncoderParameters = JwtEncoderParameters(header: JwsHeader, claims: JwtClaimsSet)

  /** Lifetime of an issued token, in seconds. */
  const OneHour: int := 3600

  /** The parameters of generateToken. `issuedRead` and `expiryRead` are the two
      separate clock readings taken for `iat` and for `exp`. */
  function TokenParameters(subject: string, issuedRead: Instant, expiryRead: Instant): (p: JwtEncoderParameters)
    ensures p.header.algorithm == HS512
    ensures p.claims.issuer == "self"
    ensures p.claims.subject == subject
    ensures p.claims.issuedAt == issuedRead
    ensures p.claims.expiresAt - OneHour == expiryRead
  {
    JwtEncoderParameters(
      JwsHeader(HS512),
      JwtClaimsSet("self", issuedRead, expiryRead + OneHour, subject))
  }

  /** generateToken: the encoder's token value for the parameters above, and nothing else. */
  function GenerateToken(encoder: JwtEncoderParameters -> string, subject: string, issuedRead: Instant, expiryRead: Instant): (token: string)
    ensures exists p :: (token == encoder(p)
                         && p.header.algorithm == HS512 && p.claims.issuer == "self" && p.claims.subject == subject
                         && p.claims.issuedAt == issuedRead && p.claims.expiresAt == expiryRead + OneHour)
  {
    encoder(TokenParameters(subject, issuedRead, expiryRead))
  }

  /** With a clock that does not go backwards between the two readings, a token
      expires at least one hour after it was issued. */
  lemma ExpiresAtLeastAnHourAfterIssue(subject: string, issuedRead: Instant, expiryRead: Instant)
    requires issuedRead <= expiryRead
    ensures TokenParameters(subject, issuedRead, expiryRead).claims.expiresAt
         >= TokenParameters(subject, issuedRead, expiryRead).claims.issuedAt + OneHour
  {
  }

  /** A verifier that inverts the encoder (the resource server decoding with the same
      secret) recovers the issued claim set, whose subject is the authenticated name. */
  lemma SubjectRecovered(encoder: JwtEncoderParameters -> string, decoder: string -> Option<JwtEncoderParameters>,
                         subject: string, issuedRead: Instant, expiryRead: Instant)
    requires forall p :: decoder(encoder(p)) == Some(p)
    ensures decoder(GenerateToken(encoder, subject, issuedRead, expiryRead)).Some?
    ensures decoder(GenerateToken(encoder, subject, issuedRead, expiryRead)).value.claims.subject == subject
    ensures decoder(GenerateToken(encoder, subject, issuedRead, expiryRead)).value.claims.issuer == "self"
  {
  }
}
