/**
 * The index of the current revision: after authorize it sends "/" on to
 * the contacts and answers every other path with a 404 page.
 */
module SenbaraRoot {
  import opened Http
  import opened Oidc
  import opened Authn
  import DonnaRoot

  const NotFoundPage := "Page not found"

  /** What the index writes for a signed-in user: a 404 status and page off "/", a redirect to the contacts on it. */
  function IndexReply(path: string, renderFails: bool): (es: seq<Effect>)
    ensures |es| > 0 && (path != "/" <==> es[0] == WriteHeader(StatusNotFound))
    ensures path != "/" ==> es[1..] == RenderEffects(renderFails, "404.html", NotFoundPage)
    ensures path == "/" <==> es == [Redirect(LocalPath("/contacts"), StatusFound)]
  {
    if path != "/" then [WriteHeader(StatusNotFound)] + RenderEffects(renderFails, "404.html", NotFoundPage)
    else [Redirect(LocalPath("/contacts"), StatusFound)]
  }

  /**
   * The two revisions of the index agree on which paths are not found;
   * on "/" the earlier one renders its home page where this one redirects.
   */
  lemma IndexRevisionsDiffer(path: string, renderFails: bool)
    ensures IndexReply(path, renderFails)[0] == WriteHeader(StatusNotFound)
            <==> DonnaRoot.IndexPage(path, renderFails)[0] == WriteHeader(StatusNotFound)
    ensures path == "/" ==>
              IndexReply(path, renderFails)[0].Redirect?
              && forall i :: 0 <= i < |DonnaRoot.IndexPage(path, renderFails)| ==> !DonnaRoot.IndexPage(path, renderFails)[i].Redirect?
  {
  }

  /**
   * The index: authorize, whose error is answered at the status it chose
   * and whose redirect ends the request, then the reply for the path.
   */
  method HandleIndex(cfg: Config, w: ResponseWriter, r: Request, idp: IdentityProvider)
    modifies w, idp
    ensures var d := Decide(cfg, r, idp.verifier, idp.refreshGrant);
            idp.calls == old(idp.calls) + d.calls
            && w.effects == old(w.effects) + d.effects
                            + (if Proceeds(d.result) then IndexReply(r.path, w.renderFails) else Refusal(d))
  {
    var proceed, _ := Gate(cfg, w, r, idp);
    if !proceed {
      return;
    }
    if r.path != "/" {
      w.WriteHeader(StatusNotFound);
      w.RenderOrFail("404.html", NotFoundPage);
      return;
    }
    w.Redirect(LocalPath("/contacts"), StatusFound);
  }
}
