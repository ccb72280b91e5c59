/**
 * The OpenID Connect side of sign-in, shared by both revisions of the
 * authorization code: the identity provider (token verifier, refresh-token
 * and authorization-code grants) and what authorization hands back to a
 * handler.
 */
module Oidc {
  import opened Wrappers
  import opened GoLib
  import opened Http

  /** The two ID-token claims the program reads. */
  datatype Claims = Claims(email: string, emailVerified: bool)

  /**
   * The verifier's verdict on a raw ID token: accepted, with its claims when
   * they decode, or rejected (expired, bad signature, wrong audience ...).
   */
  datatype Verification = Verified(claims: Option<Claims>) | Rejected

  /** An OAuth2 token response; `idToken` is its `id_token` extra, when that is a string. */
  datatype TokenResponse = TokenResponse(refreshToken: string, idToken: Option<string>, expiry: Time)

  /** A request to the identity provider. */
  datatype ProviderCall =
    | Verify(rawIdToken: string)
    | Refresh(refreshToken: string)
    | ExchangeCode(code: string)

  /**
   * The identity provider as the program reaches it. Its answers are
   * fixed functions of the request; every request made is logged.
   */
  class IdentityProvider {
    const verifier: string -> Verification
    const refreshGrant: string -> Option<TokenResponse>
    const codeGrant: string -> Option<TokenResponse>
    var calls: seq<ProviderCall>

    constructor (verifier: string -> Verification, refreshGrant: string -> Option<TokenResponse>,
                 codeGrant: string -> Option<TokenResponse>)
      ensures this.verifier == verifier && this.refreshGrant == refreshGrant && this.codeGrant == codeGrant
      ensures calls == []
    {
      this.verifier := verifier;
      this.refreshGrant := refreshGrant;
      this.codeGrant := codeGrant;
      calls := [];
    }

    /** IDTokenVerifier.Verify. */
    method Verify(rawIdToken: string) returns (v: Verification)
      modifies this
      ensures v == verifier(rawIdToken)
      ensures calls == old(calls) + [ProviderCall.Verify(rawIdToken)]
    {
      v := verifier(rawIdToken);
      calls := calls + [ProviderCall.Verify(rawIdToken)];
    }

    /** TokenSource(ctx, &Token{RefreshToken: ...}).Token(): the refresh-token grant. */
    method Refresh(refreshToken: string) returns (t: Option<TokenResponse>)
      modifies this
      ensures t == refreshGrant(refreshToken)
      ensures calls == old(calls) + [ProviderCall.Refresh(refreshToken)]
    {
      t := refreshGrant(refreshToken);
      calls := calls + [ProviderCall.Refresh(refreshToken)];
    }

    /** Config.Exchange: the authorization-code grant. */
    method Exchange(code: string) returns (t: Option<TokenResponse>)
      modifies this
      ensures t == codeGrant(code)
      ensures calls == old(calls) + [ProviderCall.ExchangeCode(code)]
    {
      t := codeGrant(code);
      calls := calls + [ProviderCall.ExchangeCode(code)];
    }
  }

  /**
   * The OIDC settings: the issuer URL (and what url.Parse makes of it) and
   * the redirect URL registered with the provider.
   */
  datatype Config = Config(issuer: string, parsedIssuer: Option<Url>, redirectURL: string)

  /** What authorization hands to a handler about the signed-in user. */
  datatype UserData = UserData(email: string, logoutURL: Url)

  const NoUser := UserData("", Url("", [], map[]))

  /** The (redirected, data, err) triple authorization returns. */
  datatype Authorization = Authorization(redirected: bool, user: UserData, err: Option<AuthError>)

  /** A handler goes on with its own work only when authorization neither failed nor redirected. */
  predicate Proceeds(a: Authorization) {
    a.err.None? && !a.redirected
  }

  /** The redirect to the provider's login page that authorization issues. */
  function LoginRedirect(cfg: Config): Effect {
    Redirect(AuthCodeUrl(cfg.redirectURL), StatusFound)
  }

  /** The refresh-token cookie: one year long. */
  function RefreshCookie(value: string): Cookie {
    SessionCookie(RefreshTokenKey, value, OneYearFromNow)
  }

  /** The ID-token cookie: it expires with the provider's token. */
  function IdCookie(value: string, expiry: Time): Cookie {
    SessionCookie(IdTokenKey, value, At(expiry))
  }

  /** Query parameters of the end-session request. */
  const IdTokenHint := "id_token_hint"
  const PostLogoutRedirectUri := "post_logout_redirect_uri"

  /**
   * The provider's end-session URL for a session: the issuer extended by
   * the path oidc/logout, carrying the ID token as the hint and the
   * redirect URL to come back to, and keeping the issuer's other parameters.
   */
  function LogoutUrl(issuer: Url, idToken: string, redirectURL: string): (u: Url)
    ensures u.base == issuer.base
    ensures u.path == issuer.path + ["oidc", "logout"]
    ensures u.query.Keys == issuer.query.Keys + {IdTokenHint, PostLogoutRedirectUri}
    ensures u.query[IdTokenHint] == idToken && u.query[PostLogoutRedirectUri] == redirectURL
    ensures forall k :: k in issuer.query && k != IdTokenHint && k != PostLogoutRedirectUri ==> u.query[k] == issuer.query[k]
  {
    Url(issuer.base, issuer.path + ["oidc", "logout"],
        issuer.query[IdTokenHint := idToken][PostLogoutRedirectUri := redirectURL])
  }

  /** The claims-to-result tail both revisions share: claims, verified e-mail, issuer URL. */
  function FromClaims(cfg: Config, claims: Option<Claims>, idToken: string): (a: Authorization)
    ensures !a.redirected
    ensures a.err.None? <==> claims.Some? && claims.value.emailVerified && cfg.parsedIssuer.Some?
    ensures a.err == Some(EmailNotVerified) <==> claims.Some? && !claims.value.emailVerified
    ensures a.err.None? ==> a.user == UserData(claims.value.email, LogoutUrl(cfg.parsedIssuer.value, idToken, cfg.redirectURL))
    ensures a.err.Some? ==> a.user == NoUser
  {
    if claims.None? then Authorization(false, NoUser, Some(ClaimsUndecodable))
    else if !claims.value.emailVerified then Authorization(false, NoUser, Some(EmailNotVerified))
    else if cfg.parsedIssuer.None? then Authorization(false, NoUser, Some(IssuerUnparsable))
    else Authorization(false, UserData(claims.value.email, LogoutUrl(cfg.parsedIssuer.value, idToken, cfg.redirectURL)), None)
  }
}
