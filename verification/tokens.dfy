/** The token record returned by the authorization service and the two kinds
    of principal a token can be requested for. */
module Tokens {
  import opened Options
  import opened JavaInt

  /** A Java `String` field that the JSON decoder leaves `null` when the
      response does not carry it. */
  type JString = Option<string>

  /** One issued credential set, field for field as the JSON decoder fills it
      (`id_token`, `token_type`, `expires_in`, `scope`, `access_token`,
      `refresh_token`). A missing `expires_in` decodes as 0. */
  datatype CSPTokens = CSPTokens(
    idToken: JString,
    tokenType: JString,
    expiresIn: int32,
    scope: JString,
    accessToken: JString,
    refreshToken: JString)

  /** What a caller identifies itself with: a user's API token, or an OAuth
      application's id, secret and optional organization id. */
  datatype Credentials =
    | ApiToken(apiToken: string)
    | ClientCredentials(appId: string, appSecret: string, orgId: JString)
  {
    /** The cache key. The two flows share one untagged keyspace: the raw API
        token, or the application id. */
    function Key(): string {
      match this
      case ApiToken(t) => t
      case ClientCredentials(id, _, _) => id
    }
  }
}
