/**
 * The contact persister of the current revision: namespace-scoped reads
 * and inserts, the transactional delete of a contact together with the
 * rows that refer to it, and the update of a contact's columns.
 */
module ContactPersister {
  import opened Wrappers
  import opened GoLib
  import opened Store

  /** GetContacts: every contact the namespace owns, or None when the query fails. */
  method GetContacts(db: Database, namespace: string) returns (r: Option<seq<Contact>>)
    requires db.tx.None?
    modifies db
    ensures db.tables == old(db.tables) && db.tx.None?
    ensures db.log == old(db.log) + [Statement.GetContacts(namespace)]
    ensures r == if (old(db.log), Statement.GetContacts(namespace)) in db.fails then None
                 else Some(Owned(db.tables.contacts, namespace))
  {
    var ok := db.Run(Statement.GetContacts(namespace));
    r := if ok then Some(Owned(db.tables.contacts, namespace)) else None;
  }

  /** The first contact with the given id. */
  function FindContact(rows: seq<Contact>, id: Int32): (r: Option<Contact>)
    ensures r.Some? ==> r.value in rows && r.value.id == id
    ensures r.None? <==> forall c :: c in rows ==> c.id != id
  {
    if rows == [] then None
    else if rows[0].id == id then Some(rows[0])
    else
      assert forall c :: c in rows <==> c == rows[0] || c in rows[1..];
      FindContact(rows[1..], id)
  }

  /**
   * GetContact: the namespace's contact with this id; None when the query
   * fails or finds no row (sql.ErrNoRows).
   */
  method GetContact(db: Database, id: Int32, namespace: string) returns (r: Option<Contact>)
    requires db.tx.None?
    modifies db
    ensures db.tables == old(db.tables) && db.tx.None?
    ensures db.log == old(db.log) + [Statement.GetContact(id, namespace)]
    ensures r == if (old(db.log), Statement.GetContact(id, namespace)) in db.fails then None
                 else FindContact(Owned(db.tables.contacts, namespace), id)
  {
    var ok := db.Run(Statement.GetContact(id, namespace));
    r := if ok then FindContact(Owned(db.tables.contacts, namespace), id) else None;
  }

  /** A NULL birthday column; a new contact gets it, with empty address and notes, as the assumed column defaults. */
  const NoBirthday := NullTime(Time(0), false)

  /**
   * CreateContact: inserts the given fields unchanged under the namespace
   * and returns the id the database assigned.
   */
  method CreateContact(db: Database, firstName: string, lastName: string, nickname: string,
                       email: string, pronouns: string, namespace: string) returns (id: Option<Int32>)
    requires db.tx.None?
    modifies db
    ensures var c := Contact(db.assignId(old(db.log)), firstName, lastName, nickname, email, pronouns, NoBirthday, "", "");
            var s := InsertContact(namespace, c);
            db.log == old(db.log) + [s] && db.tx.None?
            && (id.Some? <==> (old(db.log), s) !in db.fails)
            && (id.Some? ==> id.value == c.id && db.tables == Apply(old(db.tables), s))
            && (id.None? ==> db.tables == old(db.tables))
  {
    var c := Contact(db.assignId(db.log), firstName, lastName, nickname, email, pronouns, NoBirthday, "", "");
    var ok := db.Run(InsertContact(namespace, c));
    id := if ok then Some(c.id) else None;
  }

  /** An insert appends the row to its namespace's contacts and changes nothing else. */
  lemma InsertContactEffect(t: Tables, namespace: string, c: Contact)
    ensures var r := Apply(t, InsertContact(namespace, c));
            Owned(r.contacts, namespace) == Owned(t.contacts, namespace) + [c]
            && (forall ns :: ns != namespace ==> Owned(r.contacts, ns) == Owned(t.contacts, ns))
            && r.debts == t.debts && r.activities == t.activities && r.journalEntries == t.journalEntries
  {
  }

  /** What deleting a contact runs: its debts, its activities, then the contact itself. */
  function DeleteContactPlan(id: Int32, namespace: string): seq<Statement> {
    [DeleteDebtsForContact(id, namespace), DeleteActivitiesForContact(id, namespace), Statement.DeleteContact(id, namespace)]
  }

  /** The plan as the source writes it: the debts are deleted twice and the activities not at all. */
  function DeleteContactPlanAsWritten(id: Int32, namespace: string): seq<Statement> {
    [DeleteDebtsForContact(id, namespace), DeleteDebtsForContact(id, namespace), Statement.DeleteContact(id, namespace)]
  }

  /**
   * DeleteContact: one transaction over the plan; it commits only when every
   * step succeeds and otherwise leaves the tables as they were.
   */
  method DeleteContact(db: Database, id: Int32, namespace: string) returns (ok: bool)
    requires db.tx.None?
    modifies db
    ensures var o := Transaction(old(db.tables), old(db.log), db.fails, DeleteContactPlan(id, namespace));
            db.tables == o.tables && db.log == o.log && ok == o.ok && db.tx.None?
  {
    ghost var t0, log0 := db.tables, db.log;
    var s0, s1, s2 := DeleteDebtsForContact(id, namespace), DeleteActivitiesForContact(id, namespace),
                      Statement.DeleteContact(id, namespace);
    ghost var plan := [s0, s1, s2];
    assert plan == DeleteContactPlan(id, namespace);
    ghost var l0 := log0 + [Begin];
    ok := db.Begin();
    if !ok {
      return;
    }
    ok := db.Exec(s0);
    if !ok {
      db.Rollback();
      RunPlanStops(plan, l0, db.fails);
      return;
    }
    RunPlanContinues(plan, l0, db.fails);
    assert plan[1..] == [s1, s2];
    ok := db.Exec(s1);
    if !ok {
      db.Rollback();
      RunPlanStops([s1, s2], l0 + [s0], db.fails);
      return;
    }
    RunPlanContinues([s1, s2], l0 + [s0], db.fails);
    assert [s1, s2][1..] == [s2];
    assert l0 + [s0] + [s1] == l0 + [s0, s1];
    ok := db.Exec(s2);
    if !ok {
      db.Rollback();
      RunPlanStops([s2], l0 + [s0, s1], db.fails);
      return;
    }
    RunPlanContinues([s2], l0 + [s0, s1], db.fails);
    assert RunPlan([s2][1..], l0 + [s0, s1] + [s2], db.fails) == PlanRun([], true);
    assert RunPlan([s1, s2], l0 + [s0], db.fails) == PlanRun([s1, s2], true);
    assert RunPlan(plan, l0, db.fails) == PlanRun(plan, true);
    assert [s2][1..] == [];
    assert db.log == l0 + plan;
    assert ApplyAll(t0, plan) == ApplyAll(Apply(t0, s0), [s1, s2]);
    assert ApplyAll(Apply(t0, s0), [s1, s2]) == ApplyAll(Apply(Apply(t0, s0), s1), [s2]);
    assert ApplyAll(Apply(Apply(t0, s0), s1), [s2]) == ApplyAll(Apply(Apply(Apply(t0, s0), s1), s2), []);
    ok := db.Commit();
    db.Rollback();
  }

  /** Deleting debts by contact a second time changes nothing. */
  lemma {:induction false} FilterIdempotent<T(!new)>(s: seq<T>, keep: T -> bool)
    ensures Filter(Filter(s, keep), keep) == Filter(s, keep)
    decreases |s|
  {
    if s != [] {
      FilterIdempotent(s[1..], keep);
    }
  }

  /** The source's repeated debt delete is redundant: its plan does what debts-then-contact does. */
  lemma {:induction false} AsWrittenPlanRepeatsDebtDelete(t: Tables, id: Int32, namespace: string)
    ensures ApplyAll(t, DeleteContactPlanAsWritten(id, namespace))
         == ApplyAll(t, [DeleteDebtsForContact(id, namespace), Statement.DeleteContact(id, namespace)])
  {
    var keep := (d: Debt) => !RefersTo(d.contactId, id);
    var t1 := Apply(t, DeleteDebtsForContact(id, namespace));
    FilterIdempotent(Owned(t.debts, namespace), keep);
    assert Apply(t1, DeleteDebtsForContact(id, namespace)) == t1;
  }

  /**
   * With the source's plan an activity of the deleted contact survives,
   * still pointing at a contact that no longer exists.
   */
  lemma {:induction false} AsWrittenPlanLeavesActivities()
    ensures var c := Contact(7, "Ada", "Lovelace", "", "", "she/her", NoBirthday, "", "");
            var a := Activity(1, "Tea", Time(0), "", NullInt32(7, true));
            var t := Tables(map[], map["u" := [c]], map[], map["u" := [a]]);
            var r := ApplyAll(t, DeleteContactPlanAsWritten(7, "u"));
            a in Owned(r.activities, "u") && FindContact(Owned(r.contacts, "u"), 7).None?
  {
    var c := Contact(7, "Ada", "Lovelace", "", "", "she/her", NoBirthday, "", "");
    var a := Activity(1, "Tea", Time(0), "", NullInt32(7, true));
    var t := Tables(map[], map["u" := [c]], map[], map["u" := [a]]);
    var plan := DeleteContactPlanAsWritten(7, "u");
    var t1 := Apply(t, plan[0]);
    var t2 := Apply(t1, plan[1]);
    var t3 := Apply(t2, plan[2]);
    assert ApplyAll(t, plan) == ApplyAll(t1, plan[1..]);
    assert ApplyAll(t1, plan[1..]) == ApplyAll(t2, plan[2..]);
    assert ApplyAll(t2, plan[2..]) == ApplyAll(t3, []);
    assert Owned(t3.activities, "u") == [a];
    assert Owned(t3.contacts, "u") == Filter([c], (x: Contact) => x.id != 7);
  }

  /**
   * After the delete commits, the namespace holds no contact with the id and
   * no debt or activity that refers to it, keeps its other rows, and no
   * other namespace is touched.
   */
  lemma {:induction false} DeleteContactPlanEffect(t: Tables, id: Int32, namespace: string)
    ensures var r := ApplyAll(t, DeleteContactPlan(id, namespace));
            (forall c :: c in Owned(r.contacts, namespace) ==> c.id != id)
            && (forall d :: d in Owned(r.debts, namespace) ==> !RefersTo(d.contactId, id))
            && (forall a :: a in Owned(r.activities, namespace) ==> !RefersTo(a.contactId, id))
            && (forall c :: c in Owned(t.contacts, namespace) && c.id != id ==> c in Owned(r.contacts, namespace))
            && (forall d :: d in Owned(t.debts, namespace) && !RefersTo(d.contactId, id) ==> d in Owned(r.debts, namespace))
            && (forall a :: a in Owned(t.activities, namespace) && !RefersTo(a.contactId, id) ==> a in Owned(r.activities, namespace))
            && r.journalEntries == t.journalEntries
            && (forall ns :: ns != namespace ==>
                  Owned(r.contacts, ns) == Owned(t.contacts, ns) && Owned(r.debts, ns) == Owned(t.debts, ns)
                  && Owned(r.activities, ns) == Owned(t.activities, ns))
  {
    var plan := DeleteContactPlan(id, namespace);
    var t1 := Apply(t, plan[0]);
    var t2 := Apply(t1, plan[1]);
    var t3 := Apply(t2, plan[2]);
    assert ApplyAll(t, plan) == ApplyAll(t1, plan[1..]);
    assert ApplyAll(t1, plan[1..]) == ApplyAll(t2, plan[2..]);
    assert ApplyAll(t2, plan[2..]) == ApplyAll(t3, []);
  }

  /** The birthday column for an optional birthday: NULL exactly when there is none. */
  function BirthdayColumn(birthday: Option<Time>): (n: NullTime)
    ensures n.valid <==> birthday.Some?
    ensures birthday.Some? ==> n.time == birthday.value
  {
    match birthday
    case Some(b) => NullTime(b, true)
    case None => NoBirthday
  }

  /**
   * The update statement as the source builds it: the `*time.Time` birthday is
   * dereferenced and the column always marked valid, so a nil birthday
   * panics (None).
   */
  function UpdateContactAsWritten(id: Int32, firstName: string, lastName: string, nickname: string,
                                  email: string, pronouns: string, namespace: string,
                                  birthday: Option<Time>, address: string, notes: string): (s: Option<Statement>)
    ensures s.None? <==> birthday.None?
    ensures s.Some? ==> s.value.UpdateContact? && s.value.fields.birthday == NullTime(birthday.value, true)
  {
    match birthday
    case None => None
    case Some(b) => Some(Statement.UpdateContact(id, namespace,
                           ContactFields(firstName, lastName, nickname, email, pronouns, NullTime(b, true), address, notes)))
  }

  /** The statement the update issues, with a missing birthday stored as NULL. */
  function UpdateContactStatement(id: Int32, firstName: string, lastName: string, nickname: string,
                                  email: string, pronouns: string, namespace: string,
                                  birthday: Option<Time>, address: string, notes: string): Statement {
    Statement.UpdateContact(id, namespace,
      ContactFields(firstName, lastName, nickname, email, pronouns, BirthdayColumn(birthday), address, notes))
  }

  /** Where the source's update does not panic, the corrected statement is the same one. */
  lemma UpdateContactAgreesWhereDefined(id: Int32, firstName: string, lastName: string, nickname: string,
                                       email: string, pronouns: string, namespace: string,
                                       birthday: Option<Time>, address: string, notes: string)
    requires birthday.Some?
    ensures UpdateContactAsWritten(id, firstName, lastName, nickname, email, pronouns, namespace, birthday, address, notes)
         == Some(UpdateContactStatement(id, firstName, lastName, nickname, email, pronouns, namespace, birthday, address, notes))
  {
  }

  /**
   * UpdateContact: overwrites the editable columns of the namespace's
   * contact with this id; a missing birthday is stored as NULL.
   */
  method UpdateContact(db: Database, id: Int32, firstName: string, lastName: string, nickname: string,
                       email: string, pronouns: string, namespace: string,
                       birthday: Option<Time>, address: string, notes: string) returns (ok: bool)
    requires db.tx.None?
    modifies db
    ensures var s := UpdateContactStatement(id, firstName, lastName, nickname, email, pronouns, namespace, birthday, address, notes);
            db.log == old(db.log) + [s] && db.tx.None? && ok == ((old(db.log), s) !in db.fails)
            && db.tables == if ok then Apply(old(db.tables), s) else old(db.tables)
  {
    ok := db.Run(UpdateContactStatement(id, firstName, lastName, nickname, email, pronouns, namespace, birthday, address, notes));
  }

  /** An update rewrites exactly the namespace's rows with the id, keeping their id, and nothing else. */
  lemma UpdateContactEffect(t: Tables, id: Int32, namespace: string, f: ContactFields)
    ensures var r := Apply(t, Statement.UpdateContact(id, namespace, f));
            |Owned(r.contacts, namespace)| == |Owned(t.contacts, namespace)|
            && (forall i :: 0 <= i < |Owned(t.contacts, namespace)| && Owned(t.contacts, namespace)[i].id == id ==>
                  Owned(r.contacts, namespace)[i] == Contact(id, f.firstName, f.lastName, f.nickname, f.email,
                                                             f.pronouns, f.birthday, f.address, f.notes))
            && (forall i :: 0 <= i < |Owned(t.contacts, namespace)| && Owned(t.contacts, namespace)[i].id != id ==>
                  Owned(r.contacts, namespace)[i] == Owned(t.contacts, namespace)[i])
            && (forall ns :: ns != namespace ==> Owned(r.contacts, ns) == Owned(t.contacts, ns))
            && r.debts == t.debts && r.activities == t.activities && r.journalEntries == t.journalEntries
  {
  }
}
