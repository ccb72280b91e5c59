/**
 * The contact handlers of the current revision, over the transactional
 * database: create, update, delete and view. The authorize these
 * handlers call returns three results, so its result is an input here
 * and an error is answered with 401.
 *
 * Each handler is specified by a function of the request, the namespace
 * and the database's state before the request: the tables and statement
 * log it leaves and what it writes.
 */
module ContactsController {
  import opened Wrappers
  import opened GoLib
  import opened Http
  import opened Oidc
  import opened Forms
  import opened Store
  import ContactPersister

  /** What a handler leaves once the user is signed in: the tables, the statements issued, what it wrote. */
  datatype Answer = Answer(tables: Tables, log: seq<Statement>, effects: seq<Effect>)

  /** The handlers' shared opening: a 401 on an authorize error, nothing more on a redirect. */
  method Refuse(w: ResponseWriter, auth: Authorization) returns (proceed: bool)
    modifies w
    ensures proceed == Proceeds(auth)
    ensures w.effects == old(w.effects) + (if proceed then [] else LoginRefusal(auth))
  {
    if auth.err.Some? {
      w.Error(CouldNotLogin, StatusUnauthorized);
      return false;
    }
    return !auth.redirected;
  }

  /**
   * How a handler answers a statement it issues: on success the tables the
   * statement leaves and `success`; on failure the tables unchanged and a
   * 500 with `failure`.
   */
  function Issued(t: Tables, log: seq<Statement>, fails: iset<(seq<Statement>, Statement)>, s: Statement,
                  success: Effect, failure: Failure): Answer
  {
    if (log, s) in fails then Answer(t, log + [s], [Error(failure, StatusInternalServerError)])
    else Answer(Apply(t, s), log + [s], [success])
  }

  // ---------------------------------------------------------------------
  // Create
  // ---------------------------------------------------------------------

  /** The row a create inserts: the form's values untrimmed, no birthday, address or notes. */
  function NewContact(r: Request, id: Int32): Contact {
    Contact(id, FormValue(r, "first_name"), FormValue(r, "last_name"), FormValue(r, "nickname"),
            FormValue(r, "email"), FormValue(r, "pronouns"), ContactPersister.NoBirthday, "", "")
  }

  function CreateContactAnswer(r: Request, p: Parsers, namespace: string, t: Tables, log: seq<Statement>,
                               fails: iset<(seq<Statement>, Statement)>, assignId: seq<Statement> -> Int32): Answer
  {
    if !r.formParses then Answer(t, log, [Error(CouldNotParseForm, StatusInternalServerError)])
    else if !ContactValid(r, p) then Answer(t, log, [Error(InvalidForm, StatusUnprocessableEntity)])
    else
      Issued(t, log, fails, InsertContact(namespace, NewContact(r, assignId(log))),
             Redirect(LocalPath(ViewPath("/contacts/view?id=", assignId(log))), StatusFound), CouldNotInsertIntoDB)
  }

  /**
   * The create rule: a 422 exactly when a check fails; a redirect to the
   * new contact exactly when the insert succeeds, and then the namespace
   * holds one row more, that of the form; otherwise nothing changes.
   */
  lemma CreateContactAnswerMeans(r: Request, p: Parsers, namespace: string, t: Tables, log: seq<Statement>,
                                 fails: iset<(seq<Statement>, Statement)>, assignId: seq<Statement> -> Int32)
    ensures var a := CreateContactAnswer(r, p, namespace, t, log, fails, assignId);
            a.effects == [Error(CouldNotParseForm, StatusInternalServerError)] <==> !r.formParses
    ensures var a := CreateContactAnswer(r, p, namespace, t, log, fails, assignId);
            a.effects == [Error(CouldNotInsertIntoDB, StatusInternalServerError)] <==>
              r.formParses && ContactValid(r, p) && (log, InsertContact(namespace, NewContact(r, assignId(log)))) in fails
    ensures var a := CreateContactAnswer(r, p, namespace, t, log, fails, assignId);
            |a.effects| == 1
            && (a.effects[0] == Error(InvalidForm, StatusUnprocessableEntity) <==>
                  r.formParses && !(!IsBlank(FormValue(r, "first_name")) && !IsBlank(FormValue(r, "last_name"))
                                    && FormValue(r, "email") in p.addresses && !IsBlank(FormValue(r, "pronouns"))))
    ensures var a := CreateContactAnswer(r, p, namespace, t, log, fails, assignId);
            a.effects[0].Redirect? <==>
              r.formParses && ContactValid(r, p) && (log, InsertContact(namespace, NewContact(r, assignId(log)))) !in fails
    ensures var a := CreateContactAnswer(r, p, namespace, t, log, fails, assignId);
            a.effects[0].Redirect? ==>
              a.effects[0] == Redirect(LocalPath(ViewPath("/contacts/view?id=", assignId(log))), StatusFound)
    ensures var a := CreateContactAnswer(r, p, namespace, t, log, fails, assignId);
            !a.effects[0].Redirect? ==> a.tables == t
  {
  }

  /** After a create commits, the namespace holds one row more, that of the form, and nothing else changed. */
  lemma CreateContactAddsRow(r: Request, p: Parsers, namespace: string, t: Tables, log: seq<Statement>,
                             fails: iset<(seq<Statement>, Statement)>, assignId: seq<Statement> -> Int32)
    requires CreateContactAnswer(r, p, namespace, t, log, fails, assignId).effects[0].Redirect?
    ensures var a := CreateContactAnswer(r, p, namespace, t, log, fails, assignId);
            Owned(a.tables.contacts, namespace) == Owned(t.contacts, namespace) + [NewContact(r, assignId(log))]
            && (forall ns :: ns != namespace ==> Owned(a.tables.contacts, ns) == Owned(t.contacts, ns))
            && a.tables.debts == t.debts && a.tables.activities == t.activities
            && a.tables.journalEntries == t.journalEntries
  {
    ContactPersister.InsertContactEffect(t, namespace, NewContact(r, assignId(log)));
  }

  /** Runs the create's insert and answers it. */
  method CreateAndView(w: ResponseWriter, r: Request, namespace: string, db: Database)
    requires db.tx.None?
    modifies w, db
    ensures db.tx.None?
    ensures var id := db.assignId(old(db.log));
            var a := Issued(old(db.tables), old(db.log), db.fails, InsertContact(namespace, NewContact(r, id)),
                            Redirect(LocalPath(ViewPath("/contacts/view?id=", id)), StatusFound), CouldNotInsertIntoDB);
            db.tables == a.tables && db.log == a.log && w.effects == old(w.effects) + a.effects
  {
    var id := ContactPersister.CreateContact(db, FormValue(r, "first_name"), FormValue(r, "last_name"),
                                             FormValue(r, "nickname"), FormValue(r, "email"), FormValue(r, "pronouns"),
                                             namespace);
    if id.None? {
      w.Error(CouldNotInsertIntoDB, StatusInternalServerError);
      return;
    }
    w.Redirect(LocalPath(ViewPath("/contacts/view?id=", id.value)), StatusFound);
  }

  method AnswerCreateContact(w: ResponseWriter, r: Request, p: Parsers, namespace: string, db: Database)
    requires db.tx.None?
    modifies w, db
    ensures db.tx.None?
    ensures var a := CreateContactAnswer(r, p, namespace, old(db.tables), old(db.log), db.fails, db.assignId);
            db.tables == a.tables && db.log == a.log && w.effects == old(w.effects) + a.effects
  {
    if !r.formParses {
      w.Error(CouldNotParseForm, StatusInternalServerError);
      return;
    }
    var ok := RequireContact(w, r, p);
    if !ok {
      return;
    }
    CreateAndView(w, r, namespace, db);
  }

  method HandleCreateContact(w: ResponseWriter, r: Request, auth: Authorization, p: Parsers, db: Database)
    requires db.tx.None?
    modifies w, db
    ensures db.tx.None?
    ensures !Proceeds(auth) ==>
              w.effects == old(w.effects) + LoginRefusal(auth) && db.tables == old(db.tables) && db.log == old(db.log)
    ensures Proceeds(auth) ==>
              var a := CreateContactAnswer(r, p, auth.user.email, old(db.tables), old(db.log), db.fails, db.assignId);
              db.tables == a.tables && db.log == a.log && w.effects == old(w.effects) + a.effects
  {
    var proceed := Refuse(w, auth);
    if !proceed {
      return;
    }
    AnswerCreateContact(w, r, p, auth.user.email, db);
  }

  // ---------------------------------------------------------------------
  // Delete
  // ---------------------------------------------------------------------

  function DeleteContactAnswer(r: Request, namespace: string, t: Tables, log: seq<Statement>,
                               fails: iset<(seq<Statement>, Statement)>): Answer
  {
    if !r.formParses then Answer(t, log, [Error(CouldNotParseForm, StatusInternalServerError)])
    else if !IdValid(r, "id") then Answer(t, log, [Error(InvalidForm, StatusUnprocessableEntity)])
    else
      var o := Transaction(t, log, fails, ContactPersister.DeleteContactPlan(IntOf(r, "id"), namespace));
      Answer(o.tables, o.log, [if o.ok then Redirect(LocalPath("/contacts"), StatusFound)
                               else Error(CouldNotDeleteFromDB, StatusInternalServerError)])
  }

  /**
   * The delete rule: a 422 exactly when the id is not an integer; a
   * redirect to the contacts exactly when the cascade commits, and then the
   * namespace keeps no contact with the id and no row that refers to it
   * while every other namespace is untouched; otherwise nothing changes.
   */
  lemma DeleteContactAnswerMeans(r: Request, namespace: string, t: Tables, log: seq<Statement>,
                                 fails: iset<(seq<Statement>, Statement)>)
    ensures var a := DeleteContactAnswer(r, namespace, t, log, fails);
            a.effects == [Error(CouldNotParseForm, StatusInternalServerError)] <==> !r.formParses
    ensures var a := DeleteContactAnswer(r, namespace, t, log, fails);
            a.effects == [Error(CouldNotDeleteFromDB, StatusInternalServerError)] <==>
              r.formParses && IdValid(r, "id")
              && !Transaction(t, log, fails, ContactPersister.DeleteContactPlan(IntOf(r, "id"), namespace)).ok
    ensures var a := DeleteContactAnswer(r, namespace, t, log, fails);
            |a.effects| == 1
            && (a.effects[0] == Error(InvalidForm, StatusUnprocessableEntity) <==>
                  r.formParses && Atoi(FormValue(r, "id")).None?)
    ensures var a := DeleteContactAnswer(r, namespace, t, log, fails);
            a.effects[0].Redirect? <==>
              r.formParses && IdValid(r, "id")
              && Transaction(t, log, fails, ContactPersister.DeleteContactPlan(IntOf(r, "id"), namespace)).ok
    ensures var a := DeleteContactAnswer(r, namespace, t, log, fails);
            a.effects[0].Redirect? ==>
              var id := IntOf(r, "id");
              a.effects[0] == Redirect(LocalPath("/contacts"), StatusFound)
              && (forall c :: c in Owned(a.tables.contacts, namespace) ==> c.id != id)
              && (forall d :: d in Owned(a.tables.debts, namespace) ==> !RefersTo(d.contactId, id))
              && (forall x :: x in Owned(a.tables.activities, namespace) ==> !RefersTo(x.contactId, id))
              && (forall c :: c in Owned(t.contacts, namespace) && c.id != id ==> c in Owned(a.tables.contacts, namespace))
              && (forall d :: d in Owned(t.debts, namespace) && !RefersTo(d.contactId, id) ==> d in Owned(a.tables.debts, namespace))
              && (forall x :: x in Owned(t.activities, namespace) && !RefersTo(x.contactId, id) ==> x in Owned(a.tables.activities, namespace))
              && a.tables.journalEntries == t.journalEntries
              && (forall ns :: ns != namespace ==>
                    Owned(a.tables.contacts, ns) == Owned(t.contacts, ns) && Owned(a.tables.debts, ns) == Owned(t.debts, ns)
                    && Owned(a.tables.activities, ns) == Owned(t.activities, ns))
    ensures var a := DeleteContactAnswer(r, namespace, t, log, fails);
            !a.effects[0].Redirect? ==> a.tables == t
  {
    IdValidIsAtoi(r, "id");
    if r.formParses && IdValid(r, "id") {
      var plan := ContactPersister.DeleteContactPlan(IntOf(r, "id"), namespace);
      TransactionAllOrNothing(t, log, fails, plan);
      ContactPersister.DeleteContactPlanEffect(t, IntOf(r, "id"), namespace);
    }
  }

  method AnswerDeleteContact(w: ResponseWriter, r: Request, namespace: string, db: Database)
    requires db.tx.None?
    modifies w, db
    ensures db.tx.None?
    ensures var a := DeleteContactAnswer(r, namespace, old(db.tables), old(db.log), db.fails);
            db.tables == a.tables && db.log == a.log && w.effects == old(w.effects) + a.effects
  {
    if !r.formParses {
      w.Error(CouldNotParseForm, StatusInternalServerError);
      return;
    }
    var ok := RequireId(w, r, "id", InvalidForm);
    if !ok {
      return;
    }
    ok := ContactPersister.DeleteContact(db, IntOf(r, "id"), namespace);
    if !ok {
      w.Error(CouldNotDeleteFromDB, StatusInternalServerError);
      return;
    }
    w.Redirect(LocalPath("/contacts"), StatusFound);
  }

  method HandleDeleteContact(w: ResponseWriter, r: Request, auth: Authorization, db: Database)
    requires db.tx.None?
    modifies w, db
    ensures db.tx.None?
    ensures !Proceeds(auth) ==>
              w.effects == old(w.effects) + LoginRefusal(auth) && db.tables == old(db.tables) && db.log == old(db.log)
    ensures Proceeds(auth) ==>
              var a := DeleteContactAnswer(r, auth.user.email, old(db.tables), old(db.log), db.fails);
              db.tables == a.tables && db.log == a.log && w.effects == old(w.effects) + a.effects
  {
    var proceed := Refuse(w, auth);
    if !proceed {
      return;
    }
    AnswerDeleteContact(w, r, auth.user.email, db);
  }

  // ---------------------------------------------------------------------
  // View
  // ---------------------------------------------------------------------

  /**
   * Viewing a contact: 422 unless the id is an integer; then GetContact,
   * GetDebts and GetActivities in that order, each failure (a missing
   * contact included) answered with 500; else the page titled with the
   * contact's first and last name.
   */
  function ViewContactAnswer(r: Request, namespace: string, t: Tables, log: seq<Statement>,
                             fails: iset<(seq<Statement>, Statement)>, renderFails: bool): Answer
  {
    if !IdValid(r, "id") then Answer(t, log, [Error(InvalidQueryParam, StatusUnprocessableEntity)])
    else ViewRows(IntOf(r, "id"), namespace, t, log, fails, renderFails)
  }

  /** The three reads of the view for a numeric id, and the page or the 500 that follows. */
  function ViewRows(id: Int32, namespace: string, t: Tables, log: seq<Statement>,
                    fails: iset<(seq<Statement>, Statement)>, renderFails: bool): Answer
  {
    var s1, s2, s3 := Statement.GetContact(id, namespace), GetDebts(id, namespace), GetActivities(id, namespace);
    var l1 := log + [s1];
    var l2 := l1 + [s2];
    var found := ContactPersister.FindContact(Owned(t.contacts, namespace), id);
    if (log, s1) in fails || found.None? then Answer(t, l1, [Error(CouldNotFetchFromDB, StatusInternalServerError)])
    else if (l1, s2) in fails then Answer(t, l2, [Error(CouldNotFetchFromDB, StatusInternalServerError)])
    else if (l2, s3) in fails then Answer(t, l2 + [s3], [Error(CouldNotFetchFromDB, StatusInternalServerError)])
    else
      Answer(t, l2 + [s3],
             RenderEffects(renderFails, "contacts_view.html", found.value.firstName + " " + found.value.lastName))
  }

  /**
   * The view rule: the view changes no table; a bad id is a 422 with no
   * query; a rendered page follows all three reads and is titled with the
   * names of a contact the namespace owns under that id.
   */
  lemma ViewContactAnswerMeans(r: Request, namespace: string, t: Tables, log: seq<Statement>,
                               fails: iset<(seq<Statement>, Statement)>, renderFails: bool)
    ensures ViewContactAnswer(r, namespace, t, log, fails, renderFails).tables == t
    ensures var a := ViewContactAnswer(r, namespace, t, log, fails, renderFails);
            Atoi(FormValue(r, "id")).None? <==> a.log == log
    ensures var a := ViewContactAnswer(r, namespace, t, log, fails, renderFails);
            Atoi(FormValue(r, "id")).None? ==> a.effects == [Error(InvalidQueryParam, StatusUnprocessableEntity)]
    ensures var a := ViewContactAnswer(r, namespace, t, log, fails, renderFails);
            a.effects[0].Render? ==>
              var id := IntOf(r, "id");
              a.log == log + [Statement.GetContact(id, namespace), GetDebts(id, namespace), GetActivities(id, namespace)]
              && exists c :: c in Owned(t.contacts, namespace) && c.id == id
                             && a.effects[0] == Render("contacts_view.html", c.firstName + " " + c.lastName)
    ensures var a := ViewContactAnswer(r, namespace, t, log, fails, renderFails);
            Atoi(FormValue(r, "id")).Some? ==>
              var id := IntOf(r, "id");
              var s1, s2, s3 := Statement.GetContact(id, namespace), GetDebts(id, namespace), GetActivities(id, namespace);
              (a.effects[0].Render? <==>
                 (log, s1) !in fails && (exists c :: c in Owned(t.contacts, namespace) && c.id == id)
                 && (log + [s1], s2) !in fails && (log + [s1, s2], s3) !in fails)
              && (!a.effects[0].Render? ==> a.effects == [Error(CouldNotFetchFromDB, StatusInternalServerError)])
  {
    IdValidIsAtoi(r, "id");
    if Atoi(FormValue(r, "id")).Some? {
      var id := IntOf(r, "id");
      var s1, s2 := Statement.GetContact(id, namespace), GetDebts(id, namespace);
      assert log + [s1] + [s2] == log + [s1, s2];
      var found := ContactPersister.FindContact(Owned(t.contacts, namespace), id);
      assert found.Some? <==> exists c :: c in Owned(t.contacts, namespace) && c.id == id;
    }
  }

  /** A read the view needs whose result only decides whether the page renders. */
  method Read(db: Database, s: Statement) returns (ok: bool)
    requires db.tx.None? && (s.GetDebts? || s.GetActivities?)
    modifies db
    ensures ok == ((old(db.log), s) !in db.fails) && db.log == old(db.log) + [s]
    ensures db.tables == old(db.tables) && db.tx.None?
  {
    ok := db.Run(s);
  }

  method HandleViewContact(w: ResponseWriter, r: Request, auth: Authorization, db: Database)
    requires db.tx.None?
    modifies w, db
    ensures db.tx.None? && db.tables == old(db.tables)
    ensures !Proceeds(auth) ==> w.effects == old(w.effects) + LoginRefusal(auth) && db.log == old(db.log)
    ensures Proceeds(auth) ==>
              var a := ViewContactAnswer(r, auth.user.email, old(db.tables), old(db.log), db.fails, w.renderFails);
              db.log == a.log && w.effects == old(w.effects) + a.effects
  {
    var proceed := Refuse(w, auth);
    if !proceed {
      return;
    }
    var ok := RequireId(w, r, "id", InvalidQueryParam);
    if !ok {
      return;
    }
    ShowContact(w, IntOf(r, "id"), auth.user.email, db);
  }

  /** Runs the view's three reads and answers them. */
  method ShowContact(w: ResponseWriter, id: Int32, namespace: string, db: Database)
    requires db.tx.None?
    modifies w, db
    ensures db.tx.None? && db.tables == old(db.tables)
    ensures var a := ViewRows(id, namespace, old(db.tables), old(db.log), db.fails, w.renderFails);
            db.log == a.log && w.effects == old(w.effects) + a.effects
  {
    var contact := ContactPersister.GetContact(db, id, namespace);
    if contact.None? {
      w.Error(CouldNotFetchFromDB, StatusInternalServerError);
      return;
    }
    var ok := Read(db, GetDebts(id, namespace));
    if !ok {
      w.Error(CouldNotFetchFromDB, StatusInternalServerError);
      return;
    }
    ok := Read(db, GetActivities(id, namespace));
    if !ok {
      w.Error(CouldNotFetchFromDB, StatusInternalServerError);
      return;
    }
    w.RenderOrFail("contacts_view.html", contact.value.firstName + " " + contact.value.lastName);
  }

  // ---------------------------------------------------------------------
  // Update
  // ---------------------------------------------------------------------

  /** The birthday the update passes on: none for a blank field, else the parsed date. */
  function BirthdayOf(r: Request, p: Parsers): Option<Time>
    requires Passes(r, p, OptionalDate("birthday"))
  {
    if IsBlank(FormValue(r, "birthday")) then None else Some(p.dates[FormValue(r, "birthday")])
  }

  /** The update statement for a request that passed its checks. */
  function UpdateOf(r: Request, p: Parsers, namespace: string): Statement
    requires ContactUpdateValid(r, p)
  {
    ContactPersister.UpdateContactStatement(IntOf(r, "id"), FormValue(r, "first_name"), FormValue(r, "last_name"),
                                            FormValue(r, "nickname"), FormValue(r, "email"), FormValue(r, "pronouns"),
                                            namespace, BirthdayOf(r, p), FormValue(r, "address"), FormValue(r, "notes"))
  }

  function UpdateContactAnswer(r: Request, p: Parsers, namespace: string, t: Tables, log: seq<Statement>,
                               fails: iset<(seq<Statement>, Statement)>): Answer
  {
    if !r.formParses then Answer(t, log, [Error(CouldNotParseForm, StatusInternalServerError)])
    else if !ContactUpdateValid(r, p) then Answer(t, log, [Error(InvalidForm, StatusUnprocessableEntity)])
    else
      Issued(t, log, fails, UpdateOf(r, p, namespace),
             Redirect(LocalPath("/contacts/view?id=" + FormValue(r, "id")), StatusFound), CouldNotInsertIntoDB)
  }

  /**
   * The update rule: a 422 exactly when the id, a contact check or a
   * non-blank birthday fails; on success the namespace's contact is
   * rewritten, a blank birthday stored as NULL, and the redirect carries
   * the id as sent.
   */
  lemma UpdateContactAnswerMeans(r: Request, p: Parsers, namespace: string, t: Tables, log: seq<Statement>,
                                 fails: iset<(seq<Statement>, Statement)>)
    ensures var a := UpdateContactAnswer(r, p, namespace, t, log, fails);
            a.effects == [Error(CouldNotParseForm, StatusInternalServerError)] <==> !r.formParses
    ensures var a := UpdateContactAnswer(r, p, namespace, t, log, fails);
            a.effects == [Error(CouldNotInsertIntoDB, StatusInternalServerError)] <==>
              r.formParses && ContactUpdateValid(r, p) && (log, UpdateOf(r, p, namespace)) in fails
    ensures var a := UpdateContactAnswer(r, p, namespace, t, log, fails);
            |a.effects| == 1
            && (a.effects[0] == Error(InvalidForm, StatusUnprocessableEntity) <==>
                  r.formParses && !(Atoi(FormValue(r, "id")).Some? && ContactValid(r, p)
                                    && (IsBlank(FormValue(r, "birthday")) || FormValue(r, "birthday") in p.dates)))
    ensures var a := UpdateContactAnswer(r, p, namespace, t, log, fails);
            a.effects[0].Redirect? <==>
              r.formParses && ContactUpdateValid(r, p) && (log, UpdateOf(r, p, namespace)) !in fails
    ensures var a := UpdateContactAnswer(r, p, namespace, t, log, fails);
            a.effects[0].Redirect? ==>
              var s := UpdateOf(r, p, namespace);
              a.effects[0] == Redirect(LocalPath("/contacts/view?id=" + FormValue(r, "id")), StatusFound)
              && a.tables == Apply(t, s) && s.UpdateContact? && s.id == IntOf(r, "id") && s.namespace == namespace
              && (s.fields.birthday.valid <==> !IsBlank(FormValue(r, "birthday")))
              && (s.fields.birthday.valid ==> s.fields.birthday.time == p.dates[FormValue(r, "birthday")])
    ensures var a := UpdateContactAnswer(r, p, namespace, t, log, fails);
            !a.effects[0].Redirect? ==> a.tables == t
  {
    IdValidIsAtoi(r, "id");
  }

  /**
   * The requests on which the source's persister would dereference a nil
   * birthday: every valid update whose birthday field is blank.
   */
  lemma BlankBirthdayReachesNilDereference(r: Request, p: Parsers, namespace: string)
    requires ContactUpdateValid(r, p)
    ensures ContactPersister.UpdateContactAsWritten(IntOf(r, "id"), FormValue(r, "first_name"), FormValue(r, "last_name"),
              FormValue(r, "nickname"), FormValue(r, "email"), FormValue(r, "pronouns"), namespace, BirthdayOf(r, p),
              FormValue(r, "address"), FormValue(r, "notes")).None?
            <==> IsBlank(FormValue(r, "birthday"))
  {
  }

  method AnswerUpdateContact(w: ResponseWriter, r: Request, p: Parsers, namespace: string, db: Database)
    requires db.tx.None?
    modifies w, db
    ensures db.tx.None?
    ensures var a := UpdateContactAnswer(r, p, namespace, old(db.tables), old(db.log), db.fails);
            db.tables == a.tables && db.log == a.log && w.effects == old(w.effects) + a.effects
  {
    if !r.formParses {
      w.Error(CouldNotParseForm, StatusInternalServerError);
      return;
    }
    var ok := RequireContactUpdate(w, r, p);
    if !ok {
      return;
    }
    UpdateAndView(w, r, p, namespace, db);
  }

  method HandleUpdateContact(w: ResponseWriter, r: Request, auth: Authorization, p: Parsers, db: Database)
    requires db.tx.None?
    modifies w, db
    ensures db.tx.None?
    ensures !Proceeds(auth) ==>
              w.effects == old(w.effects) + LoginRefusal(auth) && db.tables == old(db.tables) && db.log == old(db.log)
    ensures Proceeds(auth) ==>
              var a := UpdateContactAnswer(r, p, auth.user.email, old(db.tables), old(db.log), db.fails);
              db.tables == a.tables && db.log == a.log && w.effects == old(w.effects) + a.effects
  {
    var proceed := Refuse(w, auth);
    if !proceed {
      return;
    }
    AnswerUpdateContact(w, r, p, auth.user.email, db);
  }

  /** Runs the update of a request that passed its checks and answers it. */
  method UpdateAndView(w: ResponseWriter, r: Request, p: Parsers, namespace: string, db: Database)
    requires db.tx.None? && ContactUpdateValid(r, p)
    modifies w, db
    ensures db.tx.None?
    ensures var a := Issued(old(db.tables), old(db.log), db.fails, UpdateOf(r, p, namespace),
                            Redirect(LocalPath("/contacts/view?id=" + FormValue(r, "id")), StatusFound), CouldNotInsertIntoDB);
            db.tables == a.tables && db.log == a.log && w.effects == old(w.effects) + a.effects
  {
    var rid, rbirthday := FormValue(r, "id"), FormValue(r, "birthday");
    var birthday: Option<Time> := None;
    if !IsBlank(rbirthday) {
      birthday := Some(p.dates[rbirthday]);
    }
    var ok := ContactPersister.UpdateContact(db, IntOf(r, "id"), FormValue(r, "first_name"), FormValue(r, "last_name"),
                                             FormValue(r, "nickname"), FormValue(r, "email"), FormValue(r, "pronouns"),
                                             namespace, birthday, FormValue(r, "address"), FormValue(r, "notes"));
    if !ok {
      w.Error(CouldNotInsertIntoDB, StatusInternalServerError);
      return;
    }
    w.Redirect(LocalPath("/contacts/view?id=" + rid), StatusFound);
  }
}
