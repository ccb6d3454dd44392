/** Building the token request for each flow, and classifying the reply. */
module Fetcher {
  import opened Options
  import opened Tokens

  /** The two authorization endpoints; only their identity matters here. */
  datatype Endpoint = ApiTokenUrl | OAuthTokenUrl

  /** One name/value pair of a form body, exactly as handed to OkHttp's
      `FormBody(names, values)` constructor. That constructor takes pairs that
      are already percent-encoded and applies no encoding of its own, so the
      value here is the raw text that goes on the wire: a value holding `&`,
      `=`, `%` or `+` is not one decoded field at the server. */
  datatype FormField = FormField(name: string, value: string)

  /** The value of an HTTP Basic `Authorization` header. `Credentials.basic`
      joins the id and secret with `:`, encodes the result as ISO-8859-1 and
      then as Base64. The Base64 step is injective on bytes, so it is kept
      symbolic: the header holds the ISO-8859-1 text that gets encoded. */
  datatype HeaderValue = Basic(userPass: string)

  /** Java's ISO-8859-1 encoding of a string: every character outside
      U+0000..U+00FF becomes `?`. */
  function Latin1(s: string): string {
    seq(|s|, i requires 0 <= i < |s| => if s[i] as int <= 0xFF then s[i] else '?')
  }

  /** `Credentials.basic(user, password)`. */
  function BasicAuth(user: string, password: string): HeaderValue {
    Basic(Latin1(user + ":" + password))
  }

  datatype Header = Header(name: string, value: HeaderValue)

  /** A form-encoded POST. */
  datatype Request = Request(url: Endpoint, form: seq<FormField>, headers: seq<Header>)

  const Authorization: string := "Authorization"
  const ApiTokenField: string := "api_token"
  const GrantTypeField: string := "grant_type"
  const ClientCredentialsGrant: string := "client_credentials"
  const OrgIdField: string := "orgId"

  predicate HasHeader(req: Request, name: string) {
    exists i :: 0 <= i < |req.headers| && req.headers[i].name == name
  }

  /** The request of the API-token exchange. */
  function ApiTokenRequest(apiToken: string): (req: Request)
    ensures req.url == ApiTokenUrl
    ensures |req.form| == 1 && req.form[0].name == ApiTokenField && req.form[0].value == apiToken
    ensures !HasHeader(req, Authorization)
  {
    Request(ApiTokenUrl, [FormField(ApiTokenField, apiToken)], [])
  }

  /** The request of the client-credentials exchange: the grant type, then the
      organization id exactly when one is given, and Basic authentication. */
  function ClientCredentialsRequest(appId: string, appSecret: string, orgId: JString): (req: Request)
    ensures req.url == OAuthTokenUrl
    ensures 1 <= |req.form| && req.form[0] == FormField(GrantTypeField, ClientCredentialsGrant)
    ensures |req.form| == 2 <==> orgId.Some?
    ensures |req.form| <= 2
    ensures orgId.Some? ==> req.form[1] == FormField(OrgIdField, orgId.value)
    ensures HasHeader(req, Authorization)
    ensures forall i :: 0 <= i < |req.headers| && req.headers[i].name == Authorization ==>
              req.headers[i].value == BasicAuth(appId, appSecret)
  {
    var body := match orgId
      case None => [FormField(GrantTypeField, ClientCredentialsGrant)]
      case Some(org) => [FormField(GrantTypeField, ClientCredentialsGrant), FormField(OrgIdField, org)];
    var req := Request(OAuthTokenUrl, body, [Header(Authorization, BasicAuth(appId, appSecret))]);
    assert req.headers[0].name == Authorization;
    req
  }

  /** The request sent for a principal, whichever flow it uses. */
  function BuildRequest(c: Credentials): Request {
    match c
    case ApiToken(t) => ApiTokenRequest(t)
    case ClientCredentials(id, secret, org) => ClientCredentialsRequest(id, secret, org)
  }

  /** What a request reveals about its principal: the API token, or the
      encoded `appId:appSecret` text and the organization id. The cache key
      of a client-credentials principal is not among it. */
  datatype Subject =
    | TokenSubject(apiToken: string)
    | ClientSubject(userPass: string, orgId: JString)

  function SubjectOf(c: Credentials): Subject {
    match c
    case ApiToken(t) => TokenSubject(t)
    case ClientCredentials(id, secret, org) => ClientSubject(Latin1(id + ":" + secret), org)
  }

  /** Two principals send the same request exactly when they reveal the same
      subject: the same API token, or the same encoded `appId:appSecret` and
      the same organization id. */
  lemma BuildRequestInjective(c1: Credentials, c2: Credentials)
    ensures BuildRequest(c1) == BuildRequest(c2) <==> SubjectOf(c1) == SubjectOf(c2)
  {
    var r1, r2 := BuildRequest(c1), BuildRequest(c2);
    if r1 == r2 {
      match c1
      case ApiToken(t1) =>
        assert r1.form[0].value == t1;
      case ClientCredentials(id1, sec1, org1) =>
        var ClientCredentials(id2, sec2, org2) := c2;
        assert r1.headers[0].value == BasicAuth(id1, sec1);
        assert r2.headers[0].value == BasicAuth(id2, sec2);
        if org1.Some? {
          assert r1.form[1].value == org1.value;
        }
    }
  }

  /** The id and the secret are joined with `:` before encoding, so principals
      with different application ids, and so different cache keys, can send
      the very same request. */
  lemma ColonJoinIsAmbiguous()
    ensures var c1 := ClientCredentials("a:b", "c", None);
            var c2 := ClientCredentials("a", "b:c", None);
            BuildRequest(c1) == BuildRequest(c2) && c1.Key() != c2.Key()
  {
    assert "a:b" + ":" + "c" == "a" + ":" + "b:c";
  }

  /** Characters outside ISO-8859-1 are all sent as `?`, so secrets that differ
      only in such characters produce the same request. */
  lemma NonLatin1SecretsCollide(id: string, s1: string, s2: string, org: JString)
    requires |s1| == |s2|
    requires forall i :: 0 <= i < |s1| ==> s1[i] == s2[i] || (s1[i] as int > 0xFF && s2[i] as int > 0xFF)
    ensures BuildRequest(ClientCredentials(id, s1, org)) == BuildRequest(ClientCredentials(id, s2, org))
  {
    var u1, u2 := id + ":" + s1, id + ":" + s2;
    forall i | 0 <= i < |u1|
      ensures Latin1(u1)[i] == Latin1(u2)[i]
    {
      if i > |id| {
        assert u1[i] == s1[i - |id| - 1] && u2[i] == s2[i - |id| - 1];
      }
    }
    assert Latin1(u1) == Latin1(u2);
  }

  /** The flows differ in endpoint and in authentication: only the
      client-credentials request carries an `Authorization` header. */
  lemma FlowsDiffer(c: Credentials)
    ensures BuildRequest(c).url == ApiTokenUrl <==> c.ApiToken?
    ensures HasHeader(BuildRequest(c), Authorization) <==> c.ClientCredentials?
  {
  }

  /** What the call brought back: a transport exception, or a response with
      its status code and the result of decoding its body (`None` when the
      decoder threw, the body was absent, or it decoded to `null`). */
  datatype Outcome = TransportError | Response(code: int, decoded: Option<CSPTokens>)

  /** OkHttp's `Response.isSuccessful`: a status in [200, 300). */
  predicate IsSuccessful(code: int) {
    200 <= code < 300
  }

  /** The token record a reply yields, or `None` for a failed fetch. The
      three kinds of failure (transport, non-2xx status, undecodable body)
      are not told apart. */
  function RequestTokens(o: Outcome): (r: Option<CSPTokens>)
    ensures r.Some? <==> o.Response? && IsSuccessful(o.code) && o.decoded.Some?
    ensures r.Some? ==> r == o.decoded
  {
    match o
    case TransportError => None
    case Response(code, decoded) => if IsSuccessful(code) then decoded else None
  }

  /** A non-2xx status fails the fetch whatever the body would have decoded
      to, and every failure has the same shape as any other. */
  lemma FailuresCollapse(code: int, d1: Option<CSPTokens>, d2: Option<CSPTokens>)
    requires !IsSuccessful(code)
    ensures RequestTokens(Response(code, d1)) == RequestTokens(Response(code, d2)) == RequestTokens(TransportError) == None
  {
  }
}
