/**
 * What the handlers see of net/http: a request reduced to the values they
 * read, and a response writer that records, in order, everything written
 * to it (redirects, cookies, errors, headers, rendered templates and JSON
 * lines).
 */
module Http {
  import opened Wrappers
  import opened GoLib
  import UserDataModels

  const StatusOK := 200
  const StatusFound := 302
  const StatusTemporaryRedirect := 307
  const StatusUnauthorized := 401
  const StatusNotFound := 404
  const StatusUnprocessableEntity := 422
  const StatusInternalServerError := 500

  /** Names of the two session cookies. */
  const IdTokenKey := "id_token"
  const RefreshTokenKey := "refresh_token"

  datatype SameSite = DefaultMode | StrictMode

  /** When a cookie expires: unset, one year after it is written, or an instant from the provider. */
  datatype Expiry = NoExpiry | OneYearFromNow | At(time: Time)

  datatype Cookie = Cookie(
    name: string,
    value: string,
    expires: Expiry,
    maxAge: int,
    httpOnly: bool,
    secure: bool,
    sameSite: SameSite,
    path: string)

  /** A session cookie: HttpOnly, Secure, SameSite=Strict and scoped to the whole site. */
  function SessionCookie(name: string, value: string, expires: Expiry): (c: Cookie)
    ensures c.name == name && c.value == value && c.expires == expires
    ensures c.httpOnly && c.secure && c.sameSite == StrictMode && c.path == "/" && c.maxAge == 0
  {
    Cookie(name, value, expires, 0, true, true, StrictMode, "/")
  }

  /** A cookie that tells the browser to delete `name` at once (MaxAge -1, empty value). */
  function ExpiredCookie(name: string): (c: Cookie)
    ensures c.name == name && c.value == "" && c.maxAge < 0
  {
    Cookie(name, "", NoExpiry, -1, false, false, DefaultMode, "")
  }

  /** A URL as the program builds it: base, path segments and query parameters. */
  datatype Url = Url(base: string, path: seq<string>, query: map<string, string>)

  /** Where a redirect points. */
  datatype Location =
    | LocalPath(path: string)
    | AuthCodeUrl(state: string)   // the identity provider's login page, for this redirect URL
    | Absolute(url: Url)

  /** The failures behind the bodies of error replies. */
  datatype Failure =
    | CouldNotLocalize
    | CouldNotLogin
    | CouldNotParseForm
    | InvalidForm
    | InvalidQueryParam
    | CouldNotFetchFromDB
    | CouldNotInsertIntoDB
    | CouldNotDeleteFromDB
    | CouldNotRenderTemplate
    | CouldNotReadRequest
    | CouldNotStartTransaction
    | AuthFailure(cause: AuthError)

  /** Why authorization failed, as reported to the handler that asked. */
  datatype AuthError =
    | LocalizeFailed
    | CookieUnreadable
    | ClaimsUndecodable
    | EmailNotVerified
    | IssuerUnparsable

  /** One thing written to the response. */
  datatype Effect =
    | Redirect(location: Location, code: int)
    | SetCookie(cookie: Cookie)
    | Error(failure: Failure, code: int)
    | WriteHeader(code: int)
    | SetHeader(key: string, value: string)
    | Render(template: string, page: string)
    | WriteJson(record: UserDataModels.ExportedRecord)

  /** What reading a cookie gives: its value, http.ErrNoCookie, or any other error. */
  datatype CookieLookup = Found(value: string) | NoCookie | Unreadable

  /**
   * The parts of an http.Request the handlers read. `formParses` says
   * whether ParseForm succeeds, `localizes` whether the Accept-Language
   * header can be matched against the translations, `upload` is the
   * multipart file `userData` when it can be opened.
   */
  datatype Request = Request(
    path: string,
    cookies: map<string, CookieLookup>,
    query: map<string, string>,
    form: map<string, string>,
    formParses: bool,
    localizes: bool,
    upload: Option<seq<UploadChunk>>)

  /**
   * One step of json.Decoder over an uploaded file: a JSON value together
   * with what unmarshalling it as each record type yields, or a value that
   * cannot be decoded.
   */
  datatype UploadChunk =
    | Value(raw: RawValue)
    | Malformed

  datatype RawValue = RawValue(
    identifier: Option<UserDataModels.ExportedEntityIdentifier>,
    asJournalEntry: Option<UserDataModels.ExportedJournalEntry>,
    asContact: Option<UserDataModels.ExportedContact>,
    asDebt: Option<UserDataModels.ExportedDebt>,
    asActivity: Option<UserDataModels.ExportedActivity>)

  /** http.Request.Cookie: a missing cookie is ErrNoCookie. */
  function CookieOf(r: Request, name: string): (c: CookieLookup)
    ensures name !in r.cookies ==> c.NoCookie?
  {
    if name in r.cookies then r.cookies[name] else NoCookie
  }

  /** Request.FormValue: the posted form first, then the URL query, else "". */
  function FormValue(r: Request, key: string): (v: string)
    ensures key !in r.form && key !in r.query ==> v == ""
    ensures key in r.form ==> v == r.form[key]
    ensures key !in r.form && key in r.query ==> v == r.query[key]
  {
    if key in r.form then r.form[key] else if key in r.query then r.query[key] else ""
  }

  /** URL.Query().Get: the query parameter, or "" when absent. */
  function QueryValue(r: Request, key: string): (v: string)
    ensures key in r.query ==> v == r.query[key]
    ensures key !in r.query ==> v == ""
  {
    if key in r.query then r.query[key] else ""
  }

  /**
   * An http.ResponseWriter that records what is written to it. Whether
   * executing a template on it fails is fixed when it is created, and
   * writing a JSON line fails exactly when what has been written before
   * is in the writer's set of failing states.
   */
  class ResponseWriter {
    var effects: seq<Effect>
    const renderFails: bool
    const writeFails: iset<seq<Effect>>

    constructor (renderFails: bool, writeFails: iset<seq<Effect>>)
      ensures effects == [] && this.renderFails == renderFails && this.writeFails == writeFails
    {
      effects := [];
      this.renderFails := renderFails;
      this.writeFails := writeFails;
    }

    /** http.Redirect. */
    method Redirect(location: Location, code: int)
      modifies this
      ensures effects == old(effects) + [Effect.Redirect(location, code)]
    {
      effects := effects + [Effect.Redirect(location, code)];
    }

    /** http.SetCookie. */
    method SetCookie(c: Cookie)
      modifies this
      ensures effects == old(effects) + [Effect.SetCookie(c)]
    {
      effects := effects + [Effect.SetCookie(c)];
    }

    /** http.Error. */
    method Error(f: Failure, code: int)
      modifies this
      ensures effects == old(effects) + [Effect.Error(f, code)]
    {
      effects := effects + [Effect.Error(f, code)];
    }

    /** ResponseWriter.WriteHeader. */
    method WriteHeader(code: int)
      modifies this
      ensures effects == old(effects) + [Effect.WriteHeader(code)]
    {
      effects := effects + [Effect.WriteHeader(code)];
    }

    /** ResponseWriter.Header().Set. */
    method SetHeader(key: string, value: string)
      modifies this
      ensures effects == old(effects) + [Effect.SetHeader(key, value)]
    {
      effects := effects + [Effect.SetHeader(key, value)];
    }

    /**
     * Template.ExecuteTemplate on this writer; on failure the caller
     * replies with CouldNotRenderTemplate.
     */
    method Render(template: string, page: string) returns (ok: bool)
      modifies this
      ensures ok == !renderFails
      ensures effects == old(effects) + [Effect.Render(template, page)]
    {
      effects := effects + [Effect.Render(template, page)];
      ok := !renderFails;
    }

    /** Renders a page and, when that fails, replies 500 CouldNotRenderTemplate. */
    method RenderOrFail(template: string, page: string)
      modifies this
      ensures effects == old(effects) + RenderEffects(renderFails, template, page)
    {
      var ok := Render(template, page);
      if !ok {
        Error(CouldNotRenderTemplate, StatusInternalServerError);
      }
    }

    /** json.Encoder.Encode on this writer: one JSON line, unless the write fails. */
    method WriteJson(record: UserDataModels.ExportedRecord) returns (ok: bool)
      modifies this
      ensures ok == (old(effects) !in writeFails)
      ensures effects == old(effects) + (if ok then [Effect.WriteJson(record)] else [])
    {
      ok := effects !in writeFails;
      if ok {
        effects := effects + [Effect.WriteJson(record)];
      }
    }
  }

  /** What rendering a page writes: the page, then a 500 if the template fails. */
  function RenderEffects(renderFails: bool, template: string, page: string): (es: seq<Effect>)
    ensures |es| == (if renderFails then 2 else 1)
    ensures es[0] == Render(template, page)
    ensures renderFails ==> es[1] == Error(CouldNotRenderTemplate, StatusInternalServerError)
  {
    [Render(template, page)] + (if renderFails then [Error(CouldNotRenderTemplate, StatusInternalServerError)] else [])
  }
}
