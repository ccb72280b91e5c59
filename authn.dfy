/**
 * Session authorization and the sign-in/sign-out callback of the current
 * revision of the web application. A request's session consists of two
 * cookies; an ID token the verifier rejects is renewed at most once with
 * the refresh token, and the renewed token must itself pass the verifier
 * before it is stored.
 */
module Authn {
  import opened Wrappers
  import opened GoLib
  import opened Http
  import opened Oidc

  /** Everything one authorization does: its result and status, what it writes, whom it asks. */
  datatype Decision = Decision(result: Authorization, status: int, effects: seq<Effect>, calls: seq<ProviderCall>)

  function Last<T>(s: seq<T>): T
    requires |s| > 0
  {
    s[|s| - 1]
  }

  function Redirected(cfg: Config, status: int, calls: seq<ProviderCall>): Decision {
    Decision(Authorization(true, NoUser, None), status, [LoginRedirect(cfg)], calls)
  }

  /** The cookies written after a renewed ID token passes the verifier. */
  function RenewalCookies(tok: TokenResponse, idToken: string): seq<Effect> {
    (if tok.refreshToken != "" then [SetCookie(RefreshCookie(tok.refreshToken))] else [])
    + [SetCookie(IdCookie(idToken, tok.expiry))]
  }

  function WithClaims(cfg: Config, claims: Option<Claims>, idToken: string,
                      effects: seq<Effect>, calls: seq<ProviderCall>): Decision {
    var a := FromClaims(cfg, claims, idToken);
    Decision(a, if a.err.None? then StatusOK else StatusUnauthorized, effects, calls)
  }

  /**
   * What authorization decides for a request, given the verifier and the
   * refresh-token grant of the identity provider.
   */
  function Decide(cfg: Config, r: Request, verifier: string -> Verification,
                  refreshGrant: string -> Option<TokenResponse>): (d: Decision)
    // A request whose language cannot be matched fails with 500 before anything else.
    ensures !r.localizes ==> d == Decision(Authorization(false, NoUser, Some(LocalizeFailed)), StatusInternalServerError, [], [])
    // A missing cookie sends the browser to the login page, with 307, asking the provider nothing.
    ensures r.localizes && (CookieOf(r, RefreshTokenKey).NoCookie?
                            || (CookieOf(r, RefreshTokenKey).Found? && CookieOf(r, IdTokenKey).NoCookie?))
            ==> d == Decision(Authorization(true, NoUser, None), StatusTemporaryRedirect, [LoginRedirect(cfg)], [])
    // Any other cookie error is a 401, with nothing written.
    ensures d.result.err == Some(CookieUnreadable) <==>
            r.localizes && (CookieOf(r, RefreshTokenKey).Unreadable?
                            || (CookieOf(r, RefreshTokenKey).Found? && CookieOf(r, IdTokenKey).Unreadable?))
    // Failures never redirect, carry no user, and are 401 except the localization failure; they
    // write nothing unless they follow a renewal (whose cookies are then already set).
    ensures d.result.err.Some? ==> !d.result.redirected && d.result.user == NoUser
                                   && (|d.calls| < 3 ==> d.effects == [])
                                   && d.status == (if d.result.err == Some(LocalizeFailed) then StatusInternalServerError else StatusUnauthorized)
    // A redirect is the only thing written when authorization redirects; after a renewal attempt its status is 200.
    ensures d.result.redirected ==> d.result.err.None? && d.result.user == NoUser && d.effects == [LoginRedirect(cfg)]
                                    && d.status == (if d.calls == [] then StatusTemporaryRedirect else StatusOK)
    // The provider is asked at most three things: verify the cookie's token, refresh once, verify the renewed token.
    ensures |d.calls| <= 3
    ensures d.calls != [] ==> CookieOf(r, RefreshTokenKey).Found? && CookieOf(r, IdTokenKey).Found?
                              && d.calls[0] == Verify(CookieOf(r, IdTokenKey).value)
    ensures |d.calls| >= 2 ==> verifier(CookieOf(r, IdTokenKey).value).Rejected?
                               && d.calls[1] == Refresh(CookieOf(r, RefreshTokenKey).value)
    ensures |d.calls| == 3 ==> refreshGrant(CookieOf(r, RefreshTokenKey).value).Some?
                               && refreshGrant(CookieOf(r, RefreshTokenKey).value).value.idToken.Some?
                               && d.calls[2] == Verify(refreshGrant(CookieOf(r, RefreshTokenKey).value).value.idToken.value)
    // Cookies are rewritten only when the renewed token has itself been verified.
    ensures d.effects != [] && !d.result.redirected ==>
              |d.calls| == 3 && verifier(d.calls[2].rawIdToken).Verified?
              && d.effects == RenewalCookies(refreshGrant(CookieOf(r, RefreshTokenKey).value).value, d.calls[2].rawIdToken)
    // The e-mail must be verified; the claims come from the last token the verifier accepted.
    ensures d.result.err == Some(EmailNotVerified) <==>
              d.calls != [] && Last(d.calls).Verify? && verifier(Last(d.calls).rawIdToken).Verified?
              && verifier(Last(d.calls).rawIdToken).claims.Some? && !verifier(Last(d.calls).rawIdToken).claims.value.emailVerified
    ensures Proceeds(d.result) ==>
              d.status == StatusOK && d.calls != [] && Last(d.calls).Verify?
              && verifier(Last(d.calls).rawIdToken) == Verified(Some(Claims(d.result.user.email, true)))
              && cfg.parsedIssuer.Some?
              && d.result.user.logoutURL == LogoutUrl(cfg.parsedIssuer.value, Last(d.calls).rawIdToken, cfg.redirectURL)
    // With both cookies present: a verified token is decided on its own claims, a rejected one is
    // renewed; exactly the three renewal failures redirect, and a renewal whose new token verifies
    // writes the new cookies and is decided on that token's claims.
    ensures r.localizes && CookieOf(r, RefreshTokenKey).Found? && CookieOf(r, IdTokenKey).Found? ==>
              var it, rt := CookieOf(r, IdTokenKey).value, CookieOf(r, RefreshTokenKey).value;
              (verifier(it).Verified? ==> d.calls == [Verify(it)] && d.effects == []
                                           && d.result == FromClaims(cfg, verifier(it).claims, it))
              && (verifier(it).Rejected? ==> |d.calls| >= 2)
              && (d.result.redirected <==>
                    verifier(it).Rejected? && (refreshGrant(rt).None? || refreshGrant(rt).value.idToken.None?
                                               || verifier(refreshGrant(rt).value.idToken.value).Rejected?))
              && (verifier(it).Rejected? && refreshGrant(rt).Some? && refreshGrant(rt).value.idToken.Some?
                  && verifier(refreshGrant(rt).value.idToken.value).Verified? ==>
                    var tok := refreshGrant(rt).value;
                    d.effects == RenewalCookies(tok, tok.idToken.value)
                    && d.result == FromClaims(cfg, verifier(tok.idToken.value).claims, tok.idToken.value))
              && (Proceeds(d.result) <==>
                    !d.result.redirected && d.calls != [] && Last(d.calls).Verify?
                    && verifier(Last(d.calls).rawIdToken).claims.Some?
                    && verifier(Last(d.calls).rawIdToken).claims.value.emailVerified && cfg.parsedIssuer.Some?)
  {
    if !r.localizes then
      Decision(Authorization(false, NoUser, Some(LocalizeFailed)), StatusInternalServerError, [], [])
    else match CookieOf(r, RefreshTokenKey)
      case NoCookie => Redirected(cfg, StatusTemporaryRedirect, [])
      case Unreadable => Decision(Authorization(false, NoUser, Some(CookieUnreadable)), StatusUnauthorized, [], [])
      case Found(rt) =>
        match CookieOf(r, IdTokenKey)
        case NoCookie => Redirected(cfg, StatusTemporaryRedirect, [])
        case Unreadable => Decision(Authorization(false, NoUser, Some(CookieUnreadable)), StatusUnauthorized, [], [])
        case Found(it) =>
          match verifier(it)
          case Verified(claims) => WithClaims(cfg, claims, it, [], [Verify(it)])
          case Rejected =>
            var renewing := [Verify(it), Refresh(rt)];
            match refreshGrant(rt)
            case None => Redirected(cfg, StatusOK, renewing)
            case Some(tok) =>
              match tok.idToken
              case None => Redirected(cfg, StatusOK, renewing)
              case Some(nt) =>
                match verifier(nt)
                case Rejected => Redirected(cfg, StatusOK, renewing + [Verify(nt)])
                case Verified(claims) => WithClaims(cfg, claims, nt, RenewalCookies(tok, nt), renewing + [Verify(nt)])
  }

  /**
   * Authorization as the handlers call it: it writes the decided effects to
   * the response and makes the decided calls to the provider.
   */
  method Authorize(cfg: Config, w: ResponseWriter, r: Request, idp: IdentityProvider)
    returns (a: Authorization, status: int)
    modifies w, idp
    ensures var d := Decide(cfg, r, idp.verifier, idp.refreshGrant);
            a == d.result && status == d.status
            && w.effects == old(w.effects) + d.effects && idp.calls == old(idp.calls) + d.calls
  {
    if !r.localizes {
      return Authorization(false, NoUser, Some(LocalizeFailed)), StatusInternalServerError;
    }
    var rt := CookieOf(r, RefreshTokenKey);
    if !rt.Found? {
      if rt.NoCookie? {
        w.Redirect(AuthCodeUrl(cfg.redirectURL), StatusFound);
        return Authorization(true, NoUser, None), StatusTemporaryRedirect;
      }
      return Authorization(false, NoUser, Some(CookieUnreadable)), StatusUnauthorized;
    }
    var it := CookieOf(r, IdTokenKey);
    if !it.Found? {
      if it.NoCookie? {
        w.Redirect(AuthCodeUrl(cfg.redirectURL), StatusFound);
        return Authorization(true, NoUser, None), StatusTemporaryRedirect;
      }
      return Authorization(false, NoUser, Some(CookieUnreadable)), StatusUnauthorized;
    }
    var idToken := it.value;
    var v := idp.Verify(idToken);
    if v.Rejected? {
      var tok := idp.Refresh(rt.value);
      if tok.None? {
        w.Redirect(AuthCodeUrl(cfg.redirectURL), StatusFound);
        return Authorization(true, NoUser, None), StatusOK;
      }
      if tok.value.idToken.None? {
        w.Redirect(AuthCodeUrl(cfg.redirectURL), StatusFound);
        return Authorization(true, NoUser, None), StatusOK;
      }
      idToken := tok.value.idToken.value;
      v := idp.Verify(idToken);
      if v.Rejected? {
        w.Redirect(AuthCodeUrl(cfg.redirectURL), StatusFound);
        return Authorization(true, NoUser, None), StatusOK;
      }
      if tok.value.refreshToken != "" {
        w.SetCookie(RefreshCookie(tok.value.refreshToken));
      }
      w.SetCookie(IdCookie(idToken, tok.value.expiry));
    }
    a := FromClaims(cfg, v.claims, idToken);
    status := if a.err.None? then StatusOK else StatusUnauthorized;
  }

  const SignInPage := "Signing You In ..."
  const SignOutPage := "Signing You Out ..."

  /** What the sign-in callback writes once the code grant has answered. */
  function SignInEffects(tok: Option<TokenResponse>, renderFails: bool, page: string): (es: seq<Effect>)
    // A failed exchange is a 401 and sets nothing.
    ensures tok.None? ==> es == [Error(CouldNotLogin, StatusUnauthorized)]
    // Otherwise the refresh cookie is always written first, even when empty.
    ensures tok.Some? ==> |es| >= 2 && es[0] == SetCookie(RefreshCookie(tok.value.refreshToken))
    // Without an ID token the reply is a 401 after that cookie.
    ensures tok.Some? && tok.value.idToken.None? ==> es == [SetCookie(RefreshCookie(tok.value.refreshToken)), Error(CouldNotLogin, StatusUnauthorized)]
    // With one, both cookies are set and the sign-in page is rendered.
    ensures tok.Some? && tok.value.idToken.Some? ==>
              |es| >= 3 && es[..2] == [SetCookie(RefreshCookie(tok.value.refreshToken)), SetCookie(IdCookie(tok.value.idToken.value, tok.value.expiry))]
              && es[2..] == RenderEffects(renderFails, "redirect.html", page)
  {
    match tok
    case None => [Error(CouldNotLogin, StatusUnauthorized)]
    case Some(t) =>
      [SetCookie(RefreshCookie(t.refreshToken))]
      + match t.idToken
        case None => [Error(CouldNotLogin, StatusUnauthorized)]
        case Some(idToken) =>
          [SetCookie(IdCookie(idToken, t.expiry))] + RenderEffects(renderFails, "redirect.html", page)
  }

  /** What the callback writes when it is reached without a code: sign-out. */
  function SignOutEffects(renderFails: bool, page: string): (es: seq<Effect>)
    ensures |es| >= 3 && es[..2] == [SetCookie(ExpiredCookie(RefreshTokenKey)), SetCookie(ExpiredCookie(IdTokenKey))]
    ensures es[2..] == RenderEffects(renderFails, "redirect.html", page)
  {
    [SetCookie(ExpiredCookie(RefreshTokenKey)), SetCookie(ExpiredCookie(IdTokenKey))]
    + RenderEffects(renderFails, "redirect.html", page)
  }

  /**
   * The OIDC callback: with a `code` query parameter it exchanges the code
   * and stores the session cookies; without one it deletes them.
   */
  method HandleAuthorize(w: ResponseWriter, r: Request, idp: IdentityProvider)
    modifies w, idp
    ensures !r.localizes ==> w.effects == old(w.effects) + [Error(CouldNotLocalize, StatusInternalServerError)]
                             && idp.calls == old(idp.calls)
    ensures r.localizes && QueryValue(r, "code") == "" ==>
              w.effects == old(w.effects) + SignOutEffects(w.renderFails, SignOutPage) && idp.calls == old(idp.calls)
    ensures r.localizes && QueryValue(r, "code") != "" ==>
              w.effects == old(w.effects) + SignInEffects(idp.codeGrant(QueryValue(r, "code")), w.renderFails, SignInPage)
              && idp.calls == old(idp.calls) + [ExchangeCode(QueryValue(r, "code"))]
  {
    if !r.localizes {
      w.Error(CouldNotLocalize, StatusInternalServerError);
      return;
    }
    var code := QueryValue(r, "code");
    if code == "" {
      w.SetCookie(ExpiredCookie(RefreshTokenKey));
      w.SetCookie(ExpiredCookie(IdTokenKey));
      w.RenderOrFail("redirect.html", SignOutPage);
      return;
    }
    var tok := idp.Exchange(code);
    if tok.None? {
      w.Error(CouldNotLogin, StatusUnauthorized);
      return;
    }
    w.SetCookie(RefreshCookie(tok.value.refreshToken));
    if tok.value.idToken.None? {
      w.Error(CouldNotLogin, StatusUnauthorized);
      return;
    }
    w.SetCookie(IdCookie(tok.value.idToken.value, tok.value.expiry));
    w.RenderOrFail("redirect.html", SignInPage);
  }

  /** What a handler writes after authorization: the error at its status, or nothing. */
  function Refusal(d: Decision): (es: seq<Effect>)
    ensures d.result.err.Some? ==> es == [Error(AuthFailure(d.result.err.value), d.status)]
    ensures d.result.err.None? ==> es == []
  {
    if d.result.err.Some? then [Error(AuthFailure(d.result.err.value), d.status)] else []
  }

  /** Authorize, then answer an error or a redirect by returning; `proceed` says the handler goes on. */
  method Gate(cfg: Config, w: ResponseWriter, r: Request, idp: IdentityProvider)
    returns (proceed: bool, user: UserData)
    modifies w, idp
    ensures var d := Decide(cfg, r, idp.verifier, idp.refreshGrant);
            proceed == Proceeds(d.result) && user == d.result.user && idp.calls == old(idp.calls) + d.calls
            && w.effects == old(w.effects) + d.effects + Refusal(d)
  {
    var a, status := Authorize(cfg, w, r, idp);
    if a.err.Some? {
      w.Error(AuthFailure(a.err.value), status);
      return false, a.user;
    } else if a.redirected {
      return false, a.user;
    }
    return true, a.user;
  }
}
