/**
 * The form handlers of the earlier backend: after the earlier authorize
 * (with its renewal panic) each parses the form, runs its checks and,
 * when all pass, makes one persister call and redirects.
 *
 * Each handler is specified by a function of the request, the namespace
 * and the persister's state: the call it makes, if any, and the one
 * effect it writes after authorization.
 */
module BackendRoot {
  import opened Wrappers
  import opened GoLib
  import opened Http
  import opened Oidc
  import opened Forms
  import opened DonnaPersister
  import DonnaRoot
  import LegacyAuthn

  /** Whether the earlier authorize let the handler go on. */
  predicate Signed(o: LegacyAuthn.Outcome) {
    o.Returned? && Proceeds(o.auth)
  }

  /** What a handler writes after the earlier authorize stopped it: a 401 on an error, else nothing. */
  function Refusal(o: LegacyAuthn.Outcome): (es: seq<Effect>)
    ensures es != [] <==> o.Returned? && o.auth.err.Some?
    ensures es != [] ==> es == [Error(CouldNotLogin, StatusUnauthorized)]
  {
    if o.Returned? && o.auth.err.Some? then [Error(CouldNotLogin, StatusUnauthorized)] else []
  }

  /**
   * Authorize, then answer an error with 401 and stop on a redirect. A
   * panic ends the request with what was written so far.
   */
  method Gate(cfg: Config, w: ResponseWriter, r: Request, idp: IdentityProvider)
    returns (proceed: bool, user: UserData)
    modifies w, idp
    ensures var d := LegacyAuthn.Decide(cfg, r, idp.verifier, idp.refreshGrant);
            proceed == Signed(d.outcome) && (proceed ==> user == d.outcome.auth.user)
            && idp.calls == old(idp.calls) + d.calls && w.effects == old(w.effects) + d.effects + Refusal(d.outcome)
  {
    var o := LegacyAuthn.Authorize(cfg, w, r, idp);
    if o.Panicked? {
      return false, NoUser;
    }
    if o.auth.err.Some? {
      w.Error(CouldNotLogin, StatusUnauthorized);
      return false, NoUser;
    } else if o.auth.redirected {
      return false, NoUser;
    }
    return true, o.auth.user;
  }

  /** The index of the backend: the earlier controllers' rule, behind the earlier authorize. */
  method HandleIndex(cfg: Config, w: ResponseWriter, r: Request, idp: IdentityProvider)
    modifies w, idp
    ensures var d := LegacyAuthn.Decide(cfg, r, idp.verifier, idp.refreshGrant);
            idp.calls == old(idp.calls) + d.calls
            && w.effects == old(w.effects) + d.effects
                    + (if Signed(d.outcome) then DonnaRoot.IndexPage(r.path, w.renderFails) else Refusal(d.outcome))
  {
    var proceed, _ := Gate(cfg, w, r, idp);
    if !proceed {
      return;
    }
    if r.path != "/" {
      w.WriteHeader(StatusNotFound);
      w.RenderOrFail("404.html", DonnaRoot.NotFoundPage);
      return;
    }
    w.RenderOrFail("index.html", DonnaRoot.HomePage);
  }

  /** The imprint of the backend renders without authorization. */
  method HandleImprint(w: ResponseWriter)
    modifies w
    ensures w.effects == old(w.effects) + RenderEffects(w.renderFails, "imprint.html", DonnaRoot.ImprintPage)
  {
    w.RenderOrFail("imprint.html", DonnaRoot.ImprintPage);
  }

  // ---------------------------------------------------------------------
  // Journal
  // ---------------------------------------------------------------------

  /**
   * Creating a journal entry: 500 when the form does not parse, 422 unless
   * title and body are not blank and the rating is an integer, else the
   * untrimmed values are stored with the rating narrowed to int32, and the
   * reply redirects to the view of the new entry.
   */
  function CreateJournal(r: Request, namespace: string, calls: seq<Call>, fails: iset<(seq<Call>, Call)>,
                 assignId: seq<Call> -> Int32): Reply
  {
    if !r.formParses then Reply(None, Error(CouldNotParseForm, StatusInternalServerError))
    else if !JournalValid(r) then Reply(None, Error(InvalidForm, StatusUnprocessableEntity))
    else
      var c := CreateJournalEntry(FormValue(r, "title"), FormValue(r, "body"), IntOf(r, "rating"), namespace);
      Reply(Some(c), InsertReply(calls, fails, assignId, c, "/journal/view?id="))
  }

  /** The create rule: what each request and persister answer lead to. */
  lemma CreateJournalMeans(r: Request, namespace: string, calls: seq<Call>, fails: iset<(seq<Call>, Call)>,
                           assignId: seq<Call> -> Int32)
    ensures var o := CreateJournal(r, namespace, calls, fails, assignId);
            o.effect == Error(CouldNotParseForm, StatusInternalServerError) <==> !r.formParses
    ensures var o := CreateJournal(r, namespace, calls, fails, assignId);
            o.effect == Error(InvalidForm, StatusUnprocessableEntity) <==>
              r.formParses && !(!IsBlank(FormValue(r, "title")) && !IsBlank(FormValue(r, "body"))
                                && Atoi(FormValue(r, "rating")).Some?)
    ensures var o := CreateJournal(r, namespace, calls, fails, assignId);
            o.call.Some? <==> r.formParses && JournalValid(r)
    ensures var o := CreateJournal(r, namespace, calls, fails, assignId);
            o.call.Some? ==>
              o.call.value == CreateJournalEntry(FormValue(r, "title"), FormValue(r, "body"), IntOf(r, "rating"), namespace)
    ensures var o := CreateJournal(r, namespace, calls, fails, assignId);
            o.effect.Redirect? <==> o.call.Some? && (calls, o.call.value) !in fails
    ensures var o := CreateJournal(r, namespace, calls, fails, assignId);
            o.effect.Redirect? ==>
              o.effect == Redirect(LocalPath(ViewPath("/journal/view?id=", assignId(calls))), StatusFound)
    ensures var o := CreateJournal(r, namespace, calls, fails, assignId);
            o.call.Some? && !o.effect.Redirect? ==> o.effect == Error(CouldNotInsertIntoDB, StatusInternalServerError)
  {
    JournalValidMeans(r);
  }

  /** The redirect after a create names the new entry: the id after the prefix reads back with Atoi. */
  lemma CreateJournalRedirectsToNewEntry(r: Request, namespace: string, calls: seq<Call>,
                                         fails: iset<(seq<Call>, Call)>, assignId: seq<Call> -> Int32)
    ensures var o := CreateJournal(r, namespace, calls, fails, assignId);
            o.effect.Redirect? ==>
              o.effect.location.LocalPath? && |o.effect.location.path| > |"/journal/view?id="|
              && Atoi(o.effect.location.path[|"/journal/view?id="|..]) == Some(assignId(calls) as int)
  {
    ViewPathReadsBack("/journal/view?id=", assignId(calls));
  }

  /** HandleCreateJournal once the user is signed in, the namespace being the user's e-mail. */
  method AnswerCreateJournal(w: ResponseWriter, r: Request, namespace: string, db: Persister)
    modifies w, db
    ensures var o := CreateJournal(r, namespace, old(db.calls), db.fails, db.assignId);
            db.calls == old(db.calls) + CallsOf(o) && w.effects == old(w.effects) + [o.effect]
  {
    if !r.formParses {
      w.Error(CouldNotParseForm, StatusInternalServerError);
      return;
    }
    var title := FormValue(r, "title");
    var body := FormValue(r, "body");
    var ok := RequireJournal(w, r);
    if !ok {
      return;
    }
    var rating := IntOf(r, "rating");
    var c := CreateJournalEntry(title, body, rating, namespace);
    InsertAndView(w, db, c, "/journal/view?id=");
  }

  method HandleCreateJournal(cfg: Config, w: ResponseWriter, r: Request, idp: IdentityProvider, db: Persister)
    modifies w, idp, db
    ensures var d := LegacyAuthn.Decide(cfg, r, idp.verifier, idp.refreshGrant);
            idp.calls == old(idp.calls) + d.calls
            && (!Signed(d.outcome) ==> w.effects == old(w.effects) + d.effects + Refusal(d.outcome) && db.calls == old(db.calls))
            && (Signed(d.outcome) ==>
                  var o := CreateJournal(r, d.outcome.auth.user.email, old(db.calls), db.fails, db.assignId);
                  db.calls == old(db.calls) + CallsOf(o) && w.effects == old(w.effects) + d.effects + [o.effect])
  {
    var proceed, user := Gate(cfg, w, r, idp);
    if !proceed {
      return;
    }
    AnswerCreateJournal(w, r, user.email, db);
  }

  /**
   * Deleting a journal entry: 500 when the form does not parse, 422 unless
   * the id is an integer, else the entry of that id in the namespace is
   * deleted and the reply redirects to the journal.
   */
  function DeleteJournal(r: Request, namespace: string, calls: seq<Call>, fails: iset<(seq<Call>, Call)>): Reply
  {
    if !r.formParses then Reply(None, Error(CouldNotParseForm, StatusInternalServerError))
    else if !IdValid(r, "id") then Reply(None, Error(InvalidForm, StatusUnprocessableEntity))
    else
      var c := DeleteJournalEntry(IntOf(r, "id"), namespace);
      Reply(Some(c), ExecReply(calls, fails, c, CouldNotDeleteFromDB, LocalPath("/journal")))
  }

  /** The delete rule: what each request and persister answer lead to. */
  lemma DeleteJournalMeans(r: Request, namespace: string, calls: seq<Call>, fails: iset<(seq<Call>, Call)>)
    ensures var o := DeleteJournal(r, namespace, calls, fails);
            o.effect == Error(CouldNotParseForm, StatusInternalServerError) <==> !r.formParses
    ensures var o := DeleteJournal(r, namespace, calls, fails);
            o.effect == Error(InvalidForm, StatusUnprocessableEntity) <==>
              r.formParses && Atoi(FormValue(r, "id")).None?
    ensures var o := DeleteJournal(r, namespace, calls, fails);
            o.call.Some? <==> r.formParses && IdValid(r, "id")
    ensures var o := DeleteJournal(r, namespace, calls, fails);
            o.call.Some? ==> o.call.value == DeleteJournalEntry(IntOf(r, "id"), namespace)
    ensures var o := DeleteJournal(r, namespace, calls, fails);
            o.effect.Redirect? <==> o.call.Some? && (calls, o.call.value) !in fails
    ensures var o := DeleteJournal(r, namespace, calls, fails);
            o.effect.Redirect? ==> o.effect == Redirect(LocalPath("/journal"), StatusFound)
    ensures var o := DeleteJournal(r, namespace, calls, fails);
            o.call.Some? && !o.effect.Redirect? ==> o.effect == Error(CouldNotDeleteFromDB, StatusInternalServerError)
  {
    IdValidIsAtoi(r, "id");
  }

  /** HandleDeleteJournal once the user is signed in, the namespace being the user's e-mail. */
  method AnswerDeleteJournal(w: ResponseWriter, r: Request, namespace: string, db: Persister)
    modifies w, db
    ensures var o := DeleteJournal(r, namespace, old(db.calls), db.fails);
            db.calls == old(db.calls) + CallsOf(o) && w.effects == old(w.effects) + [o.effect]
  {
    if !r.formParses {
      w.Error(CouldNotParseForm, StatusInternalServerError);
      return;
    }
    var ok := RequireId(w, r, "id", InvalidForm);
    if !ok {
      return;
    }
    var id := IntOf(r, "id");
    ExecAndGo(w, db, DeleteJournalEntry(id, namespace), CouldNotDeleteFromDB, LocalPath("/journal"));
  }

  method HandleDeleteJournal(cfg: Config, w: ResponseWriter, r: Request, idp: IdentityProvider, db: Persister)
    modifies w, idp, db
    ensures var d := LegacyAuthn.Decide(cfg, r, idp.verifier, idp.refreshGrant);
            idp.calls == old(idp.calls) + d.calls
            && (!Signed(d.outcome) ==> w.effects == old(w.effects) + d.effects + Refusal(d.outcome) && db.calls == old(db.calls))
            && (Signed(d.outcome) ==>
                  var o := DeleteJournal(r, d.outcome.auth.user.email, old(db.calls), db.fails);
                  db.calls == old(db.calls) + CallsOf(o) && w.effects == old(w.effects) + d.effects + [o.effect])
  {
    var proceed, user := Gate(cfg, w, r, idp);
    if !proceed {
      return;
    }
    AnswerDeleteJournal(w, r, user.email, db);
  }

  /**
   * Updating a journal entry: the id checks, then the create checks; the
   * update's failure is answered with CouldNotInsertIntoDB, and the
   * redirect carries the id exactly as the form sent it.
   */
  function UpdateJournal(r: Request, namespace: string, calls: seq<Call>, fails: iset<(seq<Call>, Call)>): Reply
  {
    if !r.formParses then Reply(None, Error(CouldNotParseForm, StatusInternalServerError))
    else if !(IdValid(r, "id") && JournalValid(r)) then Reply(None, Error(InvalidForm, StatusUnprocessableEntity))
    else
      var c := UpdateJournalEntry(IntOf(r, "id"), FormValue(r, "title"), FormValue(r, "body"), IntOf(r, "rating"), namespace);
      Reply(Some(c), ExecReply(calls, fails, c, CouldNotInsertIntoDB, LocalPath("/journal/view?id=" + FormValue(r, "id"))))
  }

  /** The update rule: what each request and persister answer lead to. */
  lemma UpdateJournalMeans(r: Request, namespace: string, calls: seq<Call>, fails: iset<(seq<Call>, Call)>)
    ensures var o := UpdateJournal(r, namespace, calls, fails);
            o.effect == Error(CouldNotParseForm, StatusInternalServerError) <==> !r.formParses
    ensures var o := UpdateJournal(r, namespace, calls, fails);
            o.effect == Error(InvalidForm, StatusUnprocessableEntity) <==>
              r.formParses && !(Atoi(FormValue(r, "id")).Some? && !IsBlank(FormValue(r, "title"))
                                && !IsBlank(FormValue(r, "body")) && Atoi(FormValue(r, "rating")).Some?)
    ensures var o := UpdateJournal(r, namespace, calls, fails);
            o.call.Some? <==> r.formParses && IdValid(r, "id") && JournalValid(r)
    ensures var o := UpdateJournal(r, namespace, calls, fails);
            o.call.Some? ==>
              o.call.value == UpdateJournalEntry(IntOf(r, "id"), FormValue(r, "title"), FormValue(r, "body"),
                                                 IntOf(r, "rating"), namespace)
    ensures var o := UpdateJournal(r, namespace, calls, fails);
            o.effect.Redirect? <==> o.call.Some? && (calls, o.call.value) !in fails
    ensures var o := UpdateJournal(r, namespace, calls, fails);
            o.effect.Redirect? ==> o.effect == Redirect(LocalPath("/journal/view?id=" + FormValue(r, "id")), StatusFound)
    ensures var o := UpdateJournal(r, namespace, calls, fails);
            o.call.Some? && !o.effect.Redirect? ==> o.effect == Error(CouldNotInsertIntoDB, StatusInternalServerError)
  {
    IdValidIsAtoi(r, "id");
    JournalValidMeans(r);
  }

  /** HandleUpdateJournal once the user is signed in, the namespace being the user's e-mail. */
  method AnswerUpdateJournal(w: ResponseWriter, r: Request, namespace: string, db: Persister)
    modifies w, db
    ensures var o := UpdateJournal(r, namespace, old(db.calls), db.fails);
            db.calls == old(db.calls) + CallsOf(o) && w.effects == old(w.effects) + [o.effect]
  {
    if !r.formParses {
      w.Error(CouldNotParseForm, StatusInternalServerError);
      return;
    }
    var rid, title, body := FormValue(r, "id"), FormValue(r, "title"), FormValue(r, "body");
    var ok := RequireJournalUpdate(w, r);
    if !ok {
      return;
    }
    var id, rating := IntOf(r, "id"), IntOf(r, "rating");
    var c := UpdateJournalEntry(id, title, body, rating, namespace);
    ExecAndGo(w, db, c, CouldNotInsertIntoDB, LocalPath("/journal/view?id=" + rid));
  }

  method HandleUpdateJournal(cfg: Config, w: ResponseWriter, r: Request, idp: IdentityProvider, db: Persister)
    modifies w, idp, db
    ensures var d := LegacyAuthn.Decide(cfg, r, idp.verifier, idp.refreshGrant);
            idp.calls == old(idp.calls) + d.calls
            && (!Signed(d.outcome) ==> w.effects == old(w.effects) + d.effects + Refusal(d.outcome) && db.calls == old(db.calls))
            && (Signed(d.outcome) ==>
                  var o := UpdateJournal(r, d.outcome.auth.user.email, old(db.calls), db.fails);
                  db.calls == old(db.calls) + CallsOf(o) && w.effects == old(w.effects) + d.effects + [o.effect])
  {
    var proceed, user := Gate(cfg, w, r, idp);
    if !proceed {
      return;
    }
    AnswerUpdateJournal(w, r, user.email, db);
  }

  // ---------------------------------------------------------------------
  // Contacts
  // ---------------------------------------------------------------------

  /**
   * Creating a contact in the backend: names and pronouns must not be
   * blank; nickname and e-mail are stored as sent, without any check.
   */
  function CreateContactReply(r: Request, namespace: string, calls: seq<Call>, fails: iset<(seq<Call>, Call)>,
                      assignId: seq<Call> -> Int32): Reply
  {
    if !r.formParses then Reply(None, Error(CouldNotParseForm, StatusInternalServerError))
    else if !BackendContactValid(r) then Reply(None, Error(InvalidForm, StatusUnprocessableEntity))
    else
      var c := CreateContact(FormValue(r, "first_name"), FormValue(r, "last_name"), FormValue(r, "nickname"),
                     FormValue(r, "email"), FormValue(r, "pronouns"), namespace);
      Reply(Some(c), InsertReply(calls, fails, assignId, c, "/contacts/view?id="))
  }

  /** The backend's contact create rule: what each request and persister answer lead to. */
  lemma CreateContactMeans(r: Request, namespace: string, calls: seq<Call>, fails: iset<(seq<Call>, Call)>,
                           assignId: seq<Call> -> Int32)
    ensures var o := CreateContactReply(r, namespace, calls, fails, assignId);
            o.effect == Error(CouldNotParseForm, StatusInternalServerError) <==> !r.formParses
    ensures var o := CreateContactReply(r, namespace, calls, fails, assignId);
            o.effect == Error(InvalidForm, StatusUnprocessableEntity) <==>
              r.formParses && !(!IsBlank(FormValue(r, "first_name")) && !IsBlank(FormValue(r, "last_name"))
                                && !IsBlank(FormValue(r, "pronouns")))
    ensures var o := CreateContactReply(r, namespace, calls, fails, assignId);
            o.call.Some? <==> r.formParses && BackendContactValid(r)
    ensures var o := CreateContactReply(r, namespace, calls, fails, assignId);
            o.call.Some? ==>
              o.call.value == CreateContact(FormValue(r, "first_name"), FormValue(r, "last_name"), FormValue(r, "nickname"),
                                            FormValue(r, "email"), FormValue(r, "pronouns"), namespace)
    ensures var o := CreateContactReply(r, namespace, calls, fails, assignId);
            o.effect.Redirect? <==> o.call.Some? && (calls, o.call.value) !in fails
    ensures var o := CreateContactReply(r, namespace, calls, fails, assignId);
            o.effect.Redirect? ==>
              o.effect == Redirect(LocalPath(ViewPath("/contacts/view?id=", assignId(calls))), StatusFound)
    ensures var o := CreateContactReply(r, namespace, calls, fails, assignId);
            o.call.Some? && !o.effect.Redirect? ==> o.effect == Error(CouldNotInsertIntoDB, StatusInternalServerError)
  {
  }

  /** Nickname and e-mail decide nothing: two requests that differ only there are answered alike. */
  lemma CreateContactIgnoresUncheckedFields(r: Request, r': Request, namespace: string, calls: seq<Call>,
                                            fails: iset<(seq<Call>, Call)>, assignId: seq<Call> -> Int32)
    requires r.formParses == r'.formParses
    requires FormValue(r, "first_name") == FormValue(r', "first_name") && FormValue(r, "last_name") == FormValue(r', "last_name")
    requires FormValue(r, "pronouns") == FormValue(r', "pronouns")
    ensures CreateContactReply(r, namespace, calls, fails, assignId).call.Some?
            == CreateContactReply(r', namespace, calls, fails, assignId).call.Some?
  {
  }

  /** HandleCreateContact once the user is signed in, the namespace being the user's e-mail. */
  method AnswerCreateContact(w: ResponseWriter, r: Request, namespace: string, db: Persister)
    modifies w, db
    ensures var o := CreateContactReply(r, namespace, old(db.calls), db.fails, db.assignId);
            db.calls == old(db.calls) + CallsOf(o) && w.effects == old(w.effects) + [o.effect]
  {
    if !r.formParses {
      w.Error(CouldNotParseForm, StatusInternalServerError);
      return;
    }
    var firstName := FormValue(r, "first_name");
    var lastName, nickname, email := FormValue(r, "last_name"), FormValue(r, "nickname"), FormValue(r, "email");
    var pronouns := FormValue(r, "pronouns");
    var ok := RequireBackendContact(w, r);
    if !ok {
      return;
    }
    var c := CreateContact(firstName, lastName, nickname, email, pronouns, namespace);
    InsertAndView(w, db, c, "/contacts/view?id=");
  }

  method HandleCreateContact(cfg: Config, w: ResponseWriter, r: Request, idp: IdentityProvider, db: Persister)
    modifies w, idp, db
    ensures var d := LegacyAuthn.Decide(cfg, r, idp.verifier, idp.refreshGrant);
            idp.calls == old(idp.calls) + d.calls
            && (!Signed(d.outcome) ==> w.effects == old(w.effects) + d.effects + Refusal(d.outcome) && db.calls == old(db.calls))
            && (Signed(d.outcome) ==>
                  var o := CreateContactReply(r, d.outcome.auth.user.email, old(db.calls), db.fails, db.assignId);
                  db.calls == old(db.calls) + CallsOf(o) && w.effects == old(w.effects) + d.effects + [o.effect])
  {
    var proceed, user := Gate(cfg, w, r, idp);
    if !proceed {
      return;
    }
    AnswerCreateContact(w, r, user.email, db);
  }

  /** Deleting a contact: the id checks, then the delete in the namespace and a redirect to the contacts. */
  function DeleteContactReply(r: Request, namespace: string, calls: seq<Call>, fails: iset<(seq<Call>, Call)>): Reply
  {
    if !r.formParses then Reply(None, Error(CouldNotParseForm, StatusInternalServerError))
    else if !IdValid(r, "id") then Reply(None, Error(InvalidForm, StatusUnprocessableEntity))
    else
      var c := DeleteContact(IntOf(r, "id"), namespace);
      Reply(Some(c), ExecReply(calls, fails, c, CouldNotDeleteFromDB, LocalPath("/contacts")))
  }

  /** The backend's contact delete rule: what each request and persister answer lead to. */
  lemma DeleteContactMeans(r: Request, namespace: string, calls: seq<Call>, fails: iset<(seq<Call>, Call)>)
    ensures var o := DeleteContactReply(r, namespace, calls, fails);
            o.effect == Error(CouldNotParseForm, StatusInternalServerError) <==> !r.formParses
    ensures var o := DeleteContactReply(r, namespace, calls, fails);
            o.effect == Error(InvalidForm, StatusUnprocessableEntity) <==>
              r.formParses && Atoi(FormValue(r, "id")).None?
    ensures var o := DeleteContactReply(r, namespace, calls, fails);
            o.call.Some? <==> r.formParses && IdValid(r, "id")
    ensures var o := DeleteContactReply(r, namespace, calls, fails);
            o.call.Some? ==> o.call.value == DeleteContact(IntOf(r, "id"), namespace)
    ensures var o := DeleteContactReply(r, namespace, calls, fails);
            o.effect.Redirect? <==> o.call.Some? && (calls, o.call.value) !in fails
    ensures var o := DeleteContactReply(r, namespace, calls, fails);
            o.effect.Redirect? ==> o.effect == Redirect(LocalPath("/contacts"), StatusFound)
    ensures var o := DeleteContactReply(r, namespace, calls, fails);
            o.call.Some? && !o.effect.Redirect? ==> o.effect == Error(CouldNotDeleteFromDB, StatusInternalServerError)
  {
    IdValidIsAtoi(r, "id");
  }

  /** HandleDeleteContact once the user is signed in, the namespace being the user's e-mail. */
  method AnswerDeleteContact(w: ResponseWriter, r: Request, namespace: string, db: Persister)
    modifies w, db
    ensures var o := DeleteContactReply(r, namespace, old(db.calls), db.fails);
            db.calls == old(db.calls) + CallsOf(o) && w.effects == old(w.effects) + [o.effect]
  {
    if !r.formParses {
      w.Error(CouldNotParseForm, StatusInternalServerError);
      return;
    }
    var ok := RequireId(w, r, "id", InvalidForm);
    if !ok {
      return;
    }
    var id := IntOf(r, "id");
    ExecAndGo(w, db, DeleteContact(id, namespace), CouldNotDeleteFromDB, LocalPath("/contacts"));
  }

  method HandleDeleteContact(cfg: Config, w: ResponseWriter, r: Request, idp: IdentityProvider, db: Persister)
    modifies w, idp, db
    ensures var d := LegacyAuthn.Decide(cfg, r, idp.verifier, idp.refreshGrant);
            idp.calls == old(idp.calls) + d.calls
            && (!Signed(d.outcome) ==> w.effects == old(w.effects) + d.effects + Refusal(d.outcome) && db.calls == old(db.calls))
            && (Signed(d.outcome) ==>
                  var o := DeleteContactReply(r, d.outcome.auth.user.email, old(db.calls), db.fails);
                  db.calls == old(db.calls) + CallsOf(o) && w.effects == old(w.effects) + d.effects + [o.effect])
  {
    var proceed, user := Gate(cfg, w, r, idp);
    if !proceed {
      return;
    }
    AnswerDeleteContact(w, r, user.email, db);
  }
}
