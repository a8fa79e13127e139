/** The bearer-token check of the management API. The shared secret is the
    environment variable API_SECRET, read once when the module is loaded. */
module Auth {
  import opened Py

  /** An HTTP error response: status, detail text and extra headers. */
  datatype HttpError = HttpError(status: int, detail: string, headers: map<string, string>)

  const NotConfigured := "API_SECRET not configured. Please set API_SECRET in .env file."
  const InvalidCredentials := "Invalid authentication credentials"

  /** `os.getenv('API_SECRET', '')`. */
  function ApiSecret(environ: map<string, string>): (s: string)
    ensures "API_SECRET" in environ ==> s == environ["API_SECRET"]
    ensures "API_SECRET" !in environ ==> s == ""
  {
    if "API_SECRET" in environ then environ["API_SECRET"] else ""
  }

  /** `verify_api_token(credentials)` against the secret `apiSecret`: an
      unset secret is a server error whatever the token, a token other than
      the secret is refused with a bearer challenge, and only the secret
      itself is accepted. */
  function VerifyApiToken(apiSecret: string, token: string): (r: Result<bool, HttpError>)
    ensures r.Ok? <==> apiSecret != "" && token == apiSecret
    ensures r.Ok? ==> r.value
    ensures apiSecret == "" ==> r == Err(HttpError(500, NotConfigured, map[]))
    ensures apiSecret != "" && token != apiSecret ==>
              r == Err(HttpError(401, InvalidCredentials, map["WWW-Authenticate" := "Bearer"]))
  {
    if apiSecret == "" then Err(HttpError(500, NotConfigured, map[]))
    else if token != apiSecret then Err(HttpError(401, InvalidCredentials, map["WWW-Authenticate" := "Bearer"]))
    else Ok(true)
  }

  /** The empty token is refused whatever the environment holds. */
  lemma EmptyTokenRefused(environ: map<string, string>)
    ensures VerifyApiToken(ApiSecret(environ), "").Err?
    ensures VerifyApiToken(ApiSecret(environ), "").error.status in {401, 500}
  {
  }

  /** Without a configured secret no token gets through, and the answer is
      the same for every token. */
  lemma UnconfiguredRefusesAll(environ: map<string, string>, t1: string, t2: string)
    requires "API_SECRET" !in environ || environ["API_SECRET"] == ""
    ensures VerifyApiToken(ApiSecret(environ), t1) == VerifyApiToken(ApiSecret(environ), t2)
    ensures VerifyApiToken(ApiSecret(environ), t1).Err?
    ensures VerifyApiToken(ApiSecret(environ), t1).error.status == 500
  {
  }

  /** With a configured secret exactly one token is accepted. */
  lemma OnlyTheSecretAccepted(environ: map<string, string>, t1: string, t2: string)
    requires VerifyApiToken(ApiSecret(environ), t1).Ok? && VerifyApiToken(ApiSecret(environ), t2).Ok?
    ensures t1 == t2 && "API_SECRET" in environ && t1 == environ["API_SECRET"]
  {
  }
}
