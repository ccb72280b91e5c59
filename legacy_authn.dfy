/**
 * Session authorization and the OIDC callback of the earlier revision of
 * the web application. It differs from the current one in three ways: it
 * reports no status, it writes the renewed refresh token before checking
 * that the provider returned an ID token at all, and after a renewal it
 * never verifies the new ID token but reads the claims of the failed
 * verification, which the Go code does through a nil *IDToken: the
 * handler panics.
 */
module LegacyAuthn {
  import opened Wrappers
  import opened GoLib
  import opened Http
  import opened Oidc
  import Authn

  /** How authorization ends: it returns its triple, or the handler panics. */
  datatype Outcome = Returned(auth: Authorization) | Panicked

  datatype Decision = Decision(outcome: Outcome, effects: seq<Effect>, calls: seq<ProviderCall>)

  function NewRefreshCookie(tok: TokenResponse): seq<Effect> {
    if tok.refreshToken != "" then [SetCookie(RefreshCookie(tok.refreshToken))] else []
  }

  /** What authorization decides for a request, given the provider's verifier and refresh-token grant. */
  function Decide(cfg: Config, r: Request, verifier: string -> Verification,
                  refreshGrant: string -> Option<TokenResponse>): (d: Decision)
    // A missing cookie redirects to the login page, asking the provider nothing.
    ensures CookieOf(r, RefreshTokenKey).NoCookie? || (CookieOf(r, RefreshTokenKey).Found? && CookieOf(r, IdTokenKey).NoCookie?)
            ==> d == Decision(Returned(Authorization(true, NoUser, None)), [LoginRedirect(cfg)], [])
    // Any other cookie error is returned as it is, with nothing written.
    ensures CookieOf(r, RefreshTokenKey).Unreadable? || (CookieOf(r, RefreshTokenKey).Found? && CookieOf(r, IdTokenKey).Unreadable?)
            ==> d == Decision(Returned(Authorization(false, NoUser, Some(CookieUnreadable))), [], [])
    // The provider is asked at most twice, and only the cookie's ID token is ever verified.
    ensures |d.calls| <= 2
    ensures d.calls != [] ==> CookieOf(r, RefreshTokenKey).Found? && CookieOf(r, IdTokenKey).Found?
                              && d.calls[0] == Verify(CookieOf(r, IdTokenKey).value)
    ensures |d.calls| == 2 ==> verifier(CookieOf(r, IdTokenKey).value).Rejected?
                               && d.calls[1] == Refresh(CookieOf(r, RefreshTokenKey).value)
    // Every renewal that yields an ID token ends in a panic, after both cookies are written.
    ensures d.outcome.Panicked? <==> |d.calls| == 2 && refreshGrant(d.calls[1].refreshToken).Some?
                                     && refreshGrant(d.calls[1].refreshToken).value.idToken.Some?
    ensures d.outcome.Panicked? ==>
              var tok := refreshGrant(d.calls[1].refreshToken).value;
              d.effects == NewRefreshCookie(tok) + [SetCookie(IdCookie(tok.idToken.value, tok.expiry))]
    // A renewal that returns no ID token still stores the new refresh token before redirecting.
    ensures |d.calls| == 2 && d.outcome.Returned? ==>
              d.outcome.auth == Authorization(true, NoUser, None)
              && d.effects == (if refreshGrant(d.calls[1].refreshToken).Some?
                               then NewRefreshCookie(refreshGrant(d.calls[1].refreshToken).value) else []) + [LoginRedirect(cfg)]
    // A session answered without renewal writes nothing; a signed-in user is the cookie token's verified e-mail.
    ensures |d.calls| == 1 ==> d.effects == [] && !d.outcome.auth.redirected
    ensures d.outcome.Returned? && Proceeds(d.outcome.auth) ==>
              d.calls == [Verify(CookieOf(r, IdTokenKey).value)] && cfg.parsedIssuer.Some?
              && verifier(CookieOf(r, IdTokenKey).value) == Verified(Some(Claims(d.outcome.auth.user.email, true)))
              && d.outcome.auth.user.logoutURL == LogoutUrl(cfg.parsedIssuer.value, CookieOf(r, IdTokenKey).value, cfg.redirectURL)
    ensures d.outcome.Returned? && d.outcome.auth.err == Some(EmailNotVerified) <==>
              |d.calls| == 1 && verifier(CookieOf(r, IdTokenKey).value).Verified?
              && verifier(CookieOf(r, IdTokenKey).value).claims.Some?
              && !verifier(CookieOf(r, IdTokenKey).value).claims.value.emailVerified
    // With both cookies present: a verified token is decided on its own claims with one call, a
    // rejected one is renewed; a renewal without an ID token redirects, one with an ID token panics.
    ensures CookieOf(r, RefreshTokenKey).Found? && CookieOf(r, IdTokenKey).Found? ==>
              var it, rt := CookieOf(r, IdTokenKey).value, CookieOf(r, RefreshTokenKey).value;
              (verifier(it).Verified? <==> |d.calls| == 1)
              && (verifier(it).Verified? ==> d.outcome == Returned(FromClaims(cfg, verifier(it).claims, it)))
              && (verifier(it).Rejected? ==> |d.calls| == 2)
              && (verifier(it).Rejected? && (refreshGrant(rt).None? || refreshGrant(rt).value.idToken.None?) ==>
                    d.outcome == Returned(Authorization(true, NoUser, None)))
              && (verifier(it).Rejected? && refreshGrant(rt).Some? && refreshGrant(rt).value.idToken.Some? ==>
                    d.outcome.Panicked?)
              && (verifier(it).Verified? ==>
                    (d.outcome.Returned? && Proceeds(d.outcome.auth) <==>
                       verifier(it).claims.Some? && verifier(it).claims.value.emailVerified && cfg.parsedIssuer.Some?))
  {
    match CookieOf(r, RefreshTokenKey)
    case NoCookie => Decision(Returned(Authorization(true, NoUser, None)), [LoginRedirect(cfg)], [])
    case Unreadable => Decision(Returned(Authorization(false, NoUser, Some(CookieUnreadable))), [], [])
    case Found(rt) =>
      match CookieOf(r, IdTokenKey)
      case NoCookie => Decision(Returned(Authorization(true, NoUser, None)), [LoginRedirect(cfg)], [])
      case Unreadable => Decision(Returned(Authorization(false, NoUser, Some(CookieUnreadable))), [], [])
      case Found(it) =>
        match verifier(it)
        case Verified(claims) => Decision(Returned(FromClaims(cfg, claims, it)), [], [Verify(it)])
        case Rejected =>
          var renewing := [Verify(it), Refresh(rt)];
          match refreshGrant(rt)
          case None => Decision(Returned(Authorization(true, NoUser, None)), [LoginRedirect(cfg)], renewing)
          case Some(tok) =>
            match tok.idToken
            case None => Decision(Returned(Authorization(true, NoUser, None)), NewRefreshCookie(tok) + [LoginRedirect(cfg)], renewing)
            case Some(nt) => Decision(Panicked, NewRefreshCookie(tok) + [SetCookie(IdCookie(nt, tok.expiry))], renewing)
  }

  /**
   * A request whose ID token has expired but whose refresh token is good:
   * this revision panics on it, the current one signs the user in with
   * the renewed token.
   */
  lemma {:induction false} RenewalPanicsHereButNotInCurrentRevision()
    ensures var cfg := Config("https://issuer", Some(Url("https://issuer", [], map[])), "https://app/authorize");
            var r := Request("/", map[RefreshTokenKey := Found("rt"), IdTokenKey := Found("expired")],
                             map[], map[], true, true, None);
            var verifier := (raw: string) => if raw == "fresh" then Verified(Some(Claims("a@b", true))) else Rejected;
            var grant := (rt: string) => Some(TokenResponse("", Some("fresh"), Time(0)));
            Decide(cfg, r, verifier, grant).outcome.Panicked?
            && Proceeds(Authn.Decide(cfg, r, verifier, grant).result)
            && Authn.Decide(cfg, r, verifier, grant).result.user.email == "a@b"
  {
    var cfg := Config("https://issuer", Some(Url("https://issuer", [], map[])), "https://app/authorize");
    var r := Request("/", map[RefreshTokenKey := Found("rt"), IdTokenKey := Found("expired")],
                     map[], map[], true, true, None);
    assert CookieOf(r, RefreshTokenKey) == Found("rt");
    assert CookieOf(r, IdTokenKey) == Found("expired");
  }

  /** Authorization as the handlers call it: it writes and asks what Decide says. */
  method Authorize(cfg: Config, w: ResponseWriter, r: Request, idp: IdentityProvider) returns (o: Outcome)
    modifies w, idp
    ensures var d := Decide(cfg, r, idp.verifier, idp.refreshGrant);
            o == d.outcome && w.effects == old(w.effects) + d.effects && idp.calls == old(idp.calls) + d.calls
  {
    var rt := CookieOf(r, RefreshTokenKey);
    if !rt.Found? {
      if rt.NoCookie? {
        w.Redirect(AuthCodeUrl(cfg.redirectURL), StatusFound);
        return Returned(Authorization(true, NoUser, None));
      }
      return Returned(Authorization(false, NoUser, Some(CookieUnreadable)));
    }
    var it := CookieOf(r, IdTokenKey);
    if !it.Found? {
      if it.NoCookie? {
        w.Redirect(AuthCodeUrl(cfg.redirectURL), StatusFound);
        return Returned(Authorization(true, NoUser, None));
      }
      return Returned(Authorization(false, NoUser, Some(CookieUnreadable)));
    }
    var v := idp.Verify(it.value);
    if v.Rejected? {
      var tok := idp.Refresh(rt.value);
      if tok.None? {
        w.Redirect(AuthCodeUrl(cfg.redirectURL), StatusFound);
        return Returned(Authorization(true, NoUser, None));
      }
      if tok.value.refreshToken != "" {
        w.SetCookie(RefreshCookie(tok.value.refreshToken));
      }
      if tok.value.idToken.None? {
        w.Redirect(AuthCodeUrl(cfg.redirectURL), StatusFound);
        return Returned(Authorization(true, NoUser, None));
      }
      w.SetCookie(IdCookie(tok.value.idToken.value, tok.value.expiry));
      // The claims are read from the token of the failed verification, which is nil.
      return Panicked;
    }
    o := Returned(FromClaims(cfg, v.claims, it.value));
  }

  const SignInPage := "\U{1F512} Signing You In ..."
  const SignOutPage := "\U{1F512} Signing You Out ..."

  /** The OIDC callback of this revision: the current one's, without localization and with its own page titles. */
  method HandleAuthorize(w: ResponseWriter, r: Request, idp: IdentityProvider)
    modifies w, idp
    ensures QueryValue(r, "code") == "" ==>
              w.effects == old(w.effects) + Authn.SignOutEffects(w.renderFails, SignOutPage) && idp.calls == old(idp.calls)
    ensures QueryValue(r, "code") != "" ==>
              w.effects == old(w.effects) + Authn.SignInEffects(idp.codeGrant(QueryValue(r, "code")), w.renderFails, SignInPage)
              && idp.calls == old(idp.calls) + [ExchangeCode(QueryValue(r, "code"))]
  {
    var code := QueryValue(r, "code");
    if code == "" {
      w.SetCookie(ExpiredCookie(RefreshTokenKey));
      w.SetCookie(ExpiredCookie(IdTokenKey));
      w.RenderOrFail("redirect.html", SignOutPage);
      return;
    }
    var tok := idp.Exchange(code);
    if tok.None? {
      w.Error(CouldNotLogin, StatusUnauthorized);
      return;
    }
    w.SetCookie(RefreshCookie(tok.value.refreshToken));
    if tok.value.idToken.None? {
      w.Error(CouldNotLogin, StatusUnauthorized);
      return;
    }
    w.SetCookie(IdCookie(tok.value.idToken.value, tok.value.expiry));
    w.RenderOrFail("redirect.html", SignInPage);
  }
}
