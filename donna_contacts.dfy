/**
 * The contact handlers of the earlier controllers: create, delete and
 * view. The controllers' authorize is not part of this model; each
 * handler receives its result and answers an error with 401.
 */
module DonnaContacts {
  import opened Wrappers
  import opened GoLib
  import opened Http
  import opened Oidc
  import opened Forms
  import opened DonnaPersister
  import BackendRoot

  /**
   * Creating a contact: 500 when the form does not parse, 422 unless the
   * names and pronouns are not blank and the e-mail is an address; the
   * nickname is stored unchecked and every value untrimmed.
   */
  function CreateContactReply(r: Request, p: Parsers, namespace: string, calls: seq<Call>,
                              fails: iset<(seq<Call>, Call)>, assignId: seq<Call> -> Int32): Reply
  {
    if !r.formParses then Reply(None, Error(CouldNotParseForm, StatusInternalServerError))
    else if !ContactValid(r, p) then Reply(None, Error(InvalidForm, StatusUnprocessableEntity))
    else
      var c := CreateContact(FormValue(r, "first_name"), FormValue(r, "last_name"), FormValue(r, "nickname"),
                             FormValue(r, "email"), FormValue(r, "pronouns"), namespace);
      Reply(Some(c), InsertReply(calls, fails, assignId, c, "/contacts/view?id="))
  }

  /** The create rule: what each request and persister answer lead to. */
  lemma CreateContactMeans(r: Request, p: Parsers, namespace: string, calls: seq<Call>,
                           fails: iset<(seq<Call>, Call)>, assignId: seq<Call> -> Int32)
    ensures var o := CreateContactReply(r, p, namespace, calls, fails, assignId);
            o.effect == Error(CouldNotParseForm, StatusInternalServerError) <==> !r.formParses
    ensures var o := CreateContactReply(r, p, namespace, calls, fails, assignId);
            o.effect == Error(InvalidForm, StatusUnprocessableEntity) <==>
              r.formParses && !(!IsBlank(FormValue(r, "first_name")) && !IsBlank(FormValue(r, "last_name"))
                                && FormValue(r, "email") in p.addresses && !IsBlank(FormValue(r, "pronouns")))
    ensures var o := CreateContactReply(r, p, namespace, calls, fails, assignId);
            o.call.Some? ==>
              o.call.value == CreateContact(FormValue(r, "first_name"), FormValue(r, "last_name"), FormValue(r, "nickname"),
                                            FormValue(r, "email"), FormValue(r, "pronouns"), namespace)
    ensures var o := CreateContactReply(r, p, namespace, calls, fails, assignId);
            o.effect.Redirect? <==> r.formParses && ContactValid(r, p) && (calls, o.call.value) !in fails
    ensures var o := CreateContactReply(r, p, namespace, calls, fails, assignId);
            o.effect.Redirect? ==>
              o.effect == Redirect(LocalPath(ViewPath("/contacts/view?id=", assignId(calls))), StatusFound)
    ensures var o := CreateContactReply(r, p, namespace, calls, fails, assignId);
            o.call.Some? && !o.effect.Redirect? ==> o.effect == Error(CouldNotInsertIntoDB, StatusInternalServerError)
  {
  }

  /** The controllers check the e-mail the earlier backend stored unchecked; otherwise both accept the same forms. */
  lemma CreateContactChecksMoreThanBackend(r: Request, p: Parsers, namespace: string, calls: seq<Call>,
                                           fails: iset<(seq<Call>, Call)>, assignId: seq<Call> -> Int32)
    ensures CreateContactReply(r, p, namespace, calls, fails, assignId).call.Some?
            <==> BackendRoot.CreateContactReply(r, namespace, calls, fails, assignId).call.Some?
                 && FormValue(r, "email") in p.addresses
    ensures CreateContactReply(r, p, namespace, calls, fails, assignId).call.Some? ==>
              CreateContactReply(r, p, namespace, calls, fails, assignId)
              == BackendRoot.CreateContactReply(r, namespace, calls, fails, assignId)
  {
    assert ContactValid(r, p) <==> BackendContactValid(r) && Passes(r, p, Address("email"));
  }

  method HandleCreateContact(w: ResponseWriter, r: Request, auth: Authorization, p: Parsers, db: Persister)
    modifies w, db
    ensures !Proceeds(auth) ==> w.effects == old(w.effects) + LoginRefusal(auth) && db.calls == old(db.calls)
    ensures Proceeds(auth) ==>
              var o := CreateContactReply(r, p, auth.user.email, old(db.calls), db.fails, db.assignId);
              db.calls == old(db.calls) + CallsOf(o) && w.effects == old(w.effects) + [o.effect]
  {
    if auth.err.Some? {
      w.Error(CouldNotLogin, StatusUnauthorized);
      return;
    } else if auth.redirected {
      return;
    }
    if !r.formParses {
      w.Error(CouldNotParseForm, StatusInternalServerError);
      return;
    }
    var firstName, lastName, email := FormValue(r, "first_name"), FormValue(r, "last_name"), FormValue(r, "email");
    var nickname, pronouns := FormValue(r, "nickname"), FormValue(r, "pronouns");
    var ok := RequireContact(w, r, p);
    if !ok {
      return;
    }
    InsertAndView(w, db, CreateContact(firstName, lastName, nickname, email, pronouns, auth.user.email), "/contacts/view?id=");
  }

  /** Deleting a contact: the earlier backend's rule, the id checks then the delete and a redirect to the contacts. */
  method HandleDeleteContact(w: ResponseWriter, r: Request, auth: Authorization, db: Persister)
    modifies w, db
    ensures !Proceeds(auth) ==> w.effects == old(w.effects) + LoginRefusal(auth) && db.calls == old(db.calls)
    ensures Proceeds(auth) ==>
              var o := BackendRoot.DeleteContactReply(r, auth.user.email, old(db.calls), db.fails);
              db.calls == old(db.calls) + CallsOf(o) && w.effects == old(w.effects) + [o.effect]
  {
    if auth.err.Some? {
      w.Error(CouldNotLogin, StatusUnauthorized);
      return;
    } else if auth.redirected {
      return;
    }
    if !r.formParses {
      w.Error(CouldNotParseForm, StatusInternalServerError);
      return;
    }
    var ok := RequireId(w, r, "id", InvalidForm);
    if !ok {
      return;
    }
    ExecAndGo(w, db, DeleteContact(IntOf(r, "id"), auth.user.email), CouldNotDeleteFromDB, LocalPath("/contacts"));
  }

  /** What viewing a contact does: at most the one GetContact call, then what it writes. */
  datatype View = View(call: Option<Call>, effects: seq<Effect>)

  /**
   * Viewing a contact: 422 unless the id query parameter is an integer,
   * 500 when GetContact fails or finds no row in the namespace, else the
   * page titled with the first and the last name.
   */
  function ViewContact(r: Request, namespace: string, calls: seq<Call>, fails: iset<(seq<Call>, Call)>,
                       contacts: imap<(Int32, string), ContactRow>, renderFails: bool): View
  {
    if !IdValid(r, "id") then View(None, [Error(InvalidQueryParam, StatusUnprocessableEntity)])
    else
      var id := IntOf(r, "id");
      var c := GetContact(id, namespace);
      View(Some(c), if (calls, c) in fails || (id, namespace) !in contacts then [Error(CouldNotFetchFromDB, StatusInternalServerError)]
                    else RenderEffects(renderFails, "contacts_view.html",
                                       contacts[(id, namespace)].firstName + " " + contacts[(id, namespace)].lastName))
  }

  /** The view rule: only a row of the namespace is shown, under its names; a bad id is a 422 with no query. */
  lemma ViewContactMeans(r: Request, namespace: string, calls: seq<Call>, fails: iset<(seq<Call>, Call)>,
                         contacts: imap<(Int32, string), ContactRow>, renderFails: bool)
    ensures var v := ViewContact(r, namespace, calls, fails, contacts, renderFails);
            v.call.None? <==> Atoi(FormValue(r, "id")).None?
    ensures var v := ViewContact(r, namespace, calls, fails, contacts, renderFails);
            v.call.None? ==> v.effects == [Error(InvalidQueryParam, StatusUnprocessableEntity)]
    ensures var v := ViewContact(r, namespace, calls, fails, contacts, renderFails);
            v.call.Some? ==> v.call.value == GetContact(IntOf(r, "id"), namespace)
    ensures var v := ViewContact(r, namespace, calls, fails, contacts, renderFails);
            v.effects[0].Render? <==>
              v.call.Some? && (calls, v.call.value) !in fails && (IntOf(r, "id"), namespace) in contacts
    ensures var v := ViewContact(r, namespace, calls, fails, contacts, renderFails);
            v.effects[0].Render? ==>
              var row := contacts[(IntOf(r, "id"), namespace)];
              v.effects[0] == Render("contacts_view.html", row.firstName + " " + row.lastName)
  {
    IdValidIsAtoi(r, "id");
  }

  method HandleViewContact(w: ResponseWriter, r: Request, auth: Authorization, db: Persister)
    modifies w, db
    ensures !Proceeds(auth) ==> w.effects == old(w.effects) + LoginRefusal(auth) && db.calls == old(db.calls)
    ensures Proceeds(auth) ==>
              var v := ViewContact(r, auth.user.email, old(db.calls), db.fails, db.contacts, w.renderFails);
              db.calls == old(db.calls) + (if v.call.Some? then [v.call.value] else [])
              && w.effects == old(w.effects) + v.effects
  {
    if auth.err.Some? {
      w.Error(CouldNotLogin, StatusUnauthorized);
      return;
    } else if auth.redirected {
      return;
    }
    var ok := RequireId(w, r, "id", InvalidQueryParam);
    if !ok {
      return;
    }
    var row := db.FetchContact(IntOf(r, "id"), auth.user.email);
    if row.None? {
      w.Error(CouldNotFetchFromDB, StatusInternalServerError);
      return;
    }
    w.RenderOrFail("contacts_view.html", row.value.firstName + " " + row.value.lastName);
  }
}
