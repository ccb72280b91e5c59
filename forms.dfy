/**
 * The form checks the handlers run before they touch the database: a
 * value must not be blank after trimming, must parse as an integer, must
 * parse as a mail address, or, when not blank, as a date. Each handler
 * runs its checks one after the other and answers the first that fails
 * with the same 422 reply, so what it writes depends only on whether all
 * of them pass.
 */
module Forms {
  import opened Wrappers
  import opened GoLib
  import opened Http
  import opened Oidc

  /**
   * The library parsers the checks call: net/mail.ParseAddress accepts the
   * strings in `addresses`, time.Parse with the layout "2006-01-02" the keys
   * of `dates`, giving their value.
   */
  datatype Parsers = Parsers(addresses: iset<string>, dates: imap<string, Time>)

  /** One check of a request value. */
  datatype Check =
    | NonBlank(key: string)
    | Integer(key: string)
    | Address(key: string)
    | OptionalDate(key: string)

  /** Whether a check accepts the request's value for its key; the value is read untrimmed. */
  predicate Passes(r: Request, p: Parsers, c: Check) {
    var v := FormValue(r, c.key);
    match c
    case NonBlank(_) => !IsBlank(v)
    case Integer(_) => Atoi(v).Some?
    case Address(_) => v in p.addresses
    case OptionalDate(_) => IsBlank(v) || v in p.dates
  }

  /** A numeric form value as the handlers store it: strconv.Atoi, then the int32 conversion. */
  function IntOf(r: Request, key: string): (n: Int32)
    requires Atoi(FormValue(r, key)).Some?
    ensures Int32Range(Atoi(FormValue(r, key)).value) ==> n as int == Atoi(FormValue(r, key)).value
    ensures (Atoi(FormValue(r, key)).value - n as int) % TwoTo32 == 0
  {
    WrapInt32(Atoi(FormValue(r, key)).value)
  }

  predicate Int32Range(x: int) {
    -0x8000_0000 <= x < 0x8000_0000
  }

  /** The parsers of a handler that checks neither addresses nor dates. */
  const NoParsers := Parsers(iset{}, imap[])

  /** The id checks: present, then numeric. */
  predicate IdValid(r: Request, key: string) {
    Passes(r, NoParsers, NonBlank(key)) && Passes(r, NoParsers, Integer(key))
  }

  /** The blank check on an id adds nothing: the id checks pass exactly when Atoi accepts the value. */
  lemma IdValidIsAtoi(r: Request, key: string)
    ensures IdValid(r, key) <==> Atoi(FormValue(r, key)).Some?
  {
    if Atoi(FormValue(r, key)).Some? {
      AtoiImpliesNotBlank(FormValue(r, key));
    }
  }

  /** The checks of a journal entry: title, body and rating present, rating numeric. */
  predicate JournalValid(r: Request) {
    Passes(r, NoParsers, NonBlank("title")) && Passes(r, NoParsers, NonBlank("body"))
    && Passes(r, NoParsers, NonBlank("rating")) && Passes(r, NoParsers, Integer("rating"))
  }

  /** The journal checks pass exactly when title and body are not blank and the rating is numeric. */
  lemma JournalValidMeans(r: Request)
    ensures JournalValid(r) <==>
              !IsBlank(FormValue(r, "title")) && !IsBlank(FormValue(r, "body")) && Atoi(FormValue(r, "rating")).Some?
  {
    if Atoi(FormValue(r, "rating")).Some? {
      AtoiImpliesNotBlank(FormValue(r, "rating"));
    }
  }

  /** The contact checks of the earlier backend: names and pronouns present; nickname and e-mail unchecked. */
  predicate BackendContactValid(r: Request) {
    Passes(r, NoParsers, NonBlank("first_name")) && Passes(r, NoParsers, NonBlank("last_name"))
    && Passes(r, NoParsers, NonBlank("pronouns"))
  }

  /** The contact checks of the controllers: names present, e-mail an address, pronouns present. */
  predicate ContactValid(r: Request, p: Parsers) {
    Passes(r, p, NonBlank("first_name")) && Passes(r, p, NonBlank("last_name"))
    && Passes(r, p, Address("email")) && Passes(r, p, NonBlank("pronouns"))
  }

  /** The update of a contact: the id checks, the create checks, then an optional birthday. */
  predicate ContactUpdateValid(r: Request, p: Parsers) {
    IdValid(r, "id") && ContactValid(r, p) && Passes(r, p, OptionalDate("birthday"))
  }

  /**
   * Runs one check and answers a failing one with `failure` at 422;
   * `ok` says whether the handler goes on.
   */
  method Require(w: ResponseWriter, r: Request, p: Parsers, c: Check, failure: Failure) returns (ok: bool)
    modifies w
    ensures ok == Passes(r, p, c)
    ensures w.effects == old(w.effects) + (if ok then [] else [Error(failure, StatusUnprocessableEntity)])
  {
    ok := Passes(r, p, c);
    if !ok {
      w.Error(failure, StatusUnprocessableEntity);
    }
  }

  /** The id checks run in order, the first failure answered with `failure`. */
  method RequireId(w: ResponseWriter, r: Request, key: string, failure: Failure) returns (ok: bool)
    modifies w
    ensures ok == IdValid(r, key)
    ensures w.effects == old(w.effects) + (if ok then [] else [Error(failure, StatusUnprocessableEntity)])
  {
    ok := Require(w, r, NoParsers, NonBlank(key), failure);
    if ok {
      ok := Require(w, r, NoParsers, Integer(key), failure);
    }
  }

  /** The journal checks run in order: title, body, rating present, rating numeric. */
  method RequireJournal(w: ResponseWriter, r: Request) returns (ok: bool)
    modifies w
    ensures ok == JournalValid(r)
    ensures w.effects == old(w.effects) + (if ok then [] else [Error(InvalidForm, StatusUnprocessableEntity)])
  {
    ok := Require(w, r, NoParsers, NonBlank("title"), InvalidForm);
    if !ok {
      return;
    }
    ok := Require(w, r, NoParsers, NonBlank("body"), InvalidForm);
    if !ok {
      return;
    }
    ok := Require(w, r, NoParsers, NonBlank("rating"), InvalidForm);
    if !ok {
      return;
    }
    ok := Require(w, r, NoParsers, Integer("rating"), InvalidForm);
  }

  /** The checks of a journal update: the id checks, then the journal checks. */
  method RequireJournalUpdate(w: ResponseWriter, r: Request) returns (ok: bool)
    modifies w
    ensures ok == (IdValid(r, "id") && JournalValid(r))
    ensures w.effects == old(w.effects) + (if ok then [] else [Error(InvalidForm, StatusUnprocessableEntity)])
  {
    ok := RequireId(w, r, "id", InvalidForm);
    if ok {
      ok := RequireJournal(w, r);
    }
  }

  /** The earlier backend's contact checks run in order: first name, last name, pronouns. */
  method RequireBackendContact(w: ResponseWriter, r: Request) returns (ok: bool)
    modifies w
    ensures ok == BackendContactValid(r)
    ensures w.effects == old(w.effects) + (if ok then [] else [Error(InvalidForm, StatusUnprocessableEntity)])
  {
    ok := Require(w, r, NoParsers, NonBlank("first_name"), InvalidForm);
    if !ok {
      return;
    }
    ok := Require(w, r, NoParsers, NonBlank("last_name"), InvalidForm);
    if !ok {
      return;
    }
    ok := Require(w, r, NoParsers, NonBlank("pronouns"), InvalidForm);
  }

  /** The controllers' contact checks run in order: first name, last name, e-mail address, pronouns. */
  method RequireContact(w: ResponseWriter, r: Request, p: Parsers) returns (ok: bool)
    modifies w
    ensures ok == ContactValid(r, p)
    ensures w.effects == old(w.effects) + (if ok then [] else [Error(InvalidForm, StatusUnprocessableEntity)])
  {
    ok := Require(w, r, p, NonBlank("first_name"), InvalidForm);
    if !ok {
      return;
    }
    ok := Require(w, r, p, NonBlank("last_name"), InvalidForm);
    if !ok {
      return;
    }
    ok := Require(w, r, p, Address("email"), InvalidForm);
    if !ok {
      return;
    }
    ok := Require(w, r, p, NonBlank("pronouns"), InvalidForm);
  }

  /** The checks of a contact update: the id checks, the contact checks, then the optional birthday. */
  method RequireContactUpdate(w: ResponseWriter, r: Request, p: Parsers) returns (ok: bool)
    modifies w
    ensures ok == ContactUpdateValid(r, p)
    ensures w.effects == old(w.effects) + (if ok then [] else [Error(InvalidForm, StatusUnprocessableEntity)])
  {
    ok := RequireId(w, r, "id", InvalidForm);
    if !ok {
      return;
    }
    ok := RequireContact(w, r, p);
    if !ok {
      return;
    }
    ok := Require(w, r, p, OptionalDate("birthday"), InvalidForm);
  }

  /** What a handler that received authorize's result writes before its own work: a 401 on an error. */
  function LoginRefusal(a: Authorization): (es: seq<Effect>)
    ensures a.err.Some? <==> es == [Error(CouldNotLogin, StatusUnauthorized)]
    ensures a.err.None? <==> es == []
  {
    if a.err.Some? then [Error(CouldNotLogin, StatusUnauthorized)] else []
  }

  /** The path of a view page for a numeric id, as fmt's %v writes it. */
  function ViewPath(base: string, id: Int32): (path: string)
    ensures |path| > |base| && path[..|base|] == base
  {
    base + FormatDecimal(id as int)
  }

  /** The id in a view path reads back with strconv.Atoi. */
  lemma ViewPathReadsBack(base: string, id: Int32)
    ensures Atoi(ViewPath(base, id)[|base|..]) == Some(id as int)
  {
    assert ViewPath(base, id)[|base|..] == FormatDecimal(id as int);
    AtoiFormatDecimal(id as int);
  }
}
