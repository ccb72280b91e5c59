/**
 * The pages of the earlier controllers that are not forms: the index,
 * which answers every path but "/" with a 404 page, and the imprint,
 * which is public. The controllers' own authorize is not part of this
 * model, so its result is an input of the handler that calls it.
 */
module DonnaRoot {
  import opened Http
  import opened Oidc
  import opened Forms

  const NotFoundPage := "\U{1F573}\U{FE0F} Page not found"
  const HomePage := "\U{1F3E0} Home"
  const ImprintPage := "\U{2139}\U{FE0F} Imprint"

  /** What the index writes for a signed-in user: a 404 status and page off "/", the home page on it. */
  function IndexPage(path: string, renderFails: bool): (es: seq<Effect>)
    ensures |es| > 0 && (path != "/" <==> es[0] == WriteHeader(StatusNotFound))
    ensures path != "/" ==> es[1..] == RenderEffects(renderFails, "404.html", NotFoundPage)
    ensures path == "/" ==> es == RenderEffects(renderFails, "index.html", HomePage)
    ensures forall i :: 0 <= i < |es| ==> !es[i].Redirect?
  {
    if path != "/" then [WriteHeader(StatusNotFound)] + RenderEffects(renderFails, "404.html", NotFoundPage)
    else RenderEffects(renderFails, "index.html", HomePage)
  }

  /** The index, given what authorize answered: a 401 on an error, nothing when it redirected, else the page. */
  method HandleIndex(w: ResponseWriter, r: Request, auth: Authorization)
    modifies w
    ensures w.effects == old(w.effects) + (if Proceeds(auth) then IndexPage(r.path, w.renderFails) else LoginRefusal(auth))
  {
    if auth.err.Some? {
      w.Error(CouldNotLogin, StatusUnauthorized);
      return;
    } else if auth.redirected {
      return;
    }
    if r.path != "/" {
      w.WriteHeader(StatusNotFound);
      w.RenderOrFail("404.html", NotFoundPage);
      return;
    }
    w.RenderOrFail("index.html", HomePage);
  }

  /** The imprint takes no authorization: it renders its page for everyone. */
  method HandleImprint(w: ResponseWriter)
    modifies w
    ensures w.effects == old(w.effects) + RenderEffects(w.renderFails, "imprint.html", ImprintPage)
  {
    w.RenderOrFail("imprint.html", ImprintPage);
  }
}
