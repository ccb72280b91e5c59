/**
 * The database as the persisters see it: per-kind tables of rows keyed by
 * owner namespace, the statements the persisters issue, and a connection
 * whose transaction keeps a snapshot that rollback restores. A statement
 * fails exactly when it, together with the statements issued before it,
 * is in the connection's fixed set of failing pairs.
 */
module Store {
  import opened Wrappers
  import opened GoLib

  datatype JournalEntry = JournalEntry(id: Int32, title: string, date: Time, body: string, rating: Int32)

  datatype Contact = Contact(
    id: Int32, firstName: string, lastName: string, nickname: string, email: string,
    pronouns: string, birthday: NullTime, address: string, notes: string)

  datatype Debt = Debt(id: Int32, amount: Float64, currency: string, description: string, contactId: NullInt32)

  datatype Activity = Activity(id: Int32, name: string, date: Time, description: string, contactId: NullInt32)

  /** Every row lives under the namespace (the owner's e-mail) that owns it. */
  datatype Tables = Tables(
    journalEntries: map<string, seq<JournalEntry>>,
    contacts: map<string, seq<Contact>>,
    debts: map<string, seq<Debt>>,
    activities: map<string, seq<Activity>>)

  /** The rows one namespace owns in a table. */
  function Owned<T>(table: map<string, seq<T>>, namespace: string): seq<T> {
    if namespace in table then table[namespace] else []
  }

  /** The editable columns of a contact. */
  datatype ContactFields = ContactFields(
    firstName: string, lastName: string, nickname: string, email: string, pronouns: string,
    birthday: NullTime, address: string, notes: string)

  datatype Statement =
    | Begin
    | Commit
    | Rollback
    | GetContacts(namespace: string)
    | GetContact(id: Int32, namespace: string)
    | GetDebts(contactId: Int32, namespace: string)
    | GetActivities(contactId: Int32, namespace: string)
    | GetJournalEntriesExport(namespace: string)
    | GetContactsExport(namespace: string)
    | GetDebtsExport(namespace: string)
    | GetActivitiesExport(namespace: string)
    | DeleteActivitiesForNamespace(namespace: string)
    | DeleteDebtsForNamespace(namespace: string)
    | DeleteContactsForNamespace(namespace: string)
    | DeleteJournalEntriesForNamespace(namespace: string)
    | DeleteDebtsForContact(id: Int32, namespace: string)
      // No generated query deletes a contact's activities; this statement is
      // the model's own, for the corrected contact delete.
    | DeleteActivitiesForContact(id: Int32, namespace: string)
    | DeleteContact(id: Int32, namespace: string)
    | UpdateContact(id: Int32, namespace: string, fields: ContactFields)
    | InsertJournalEntry(namespace: string, journalEntry: JournalEntry)
    | InsertContact(namespace: string, contact: Contact)
    | InsertDebt(namespace: string, debt: Debt)
    | InsertActivity(namespace: string, activity: Activity)
  {
    /** Begin, Commit and Rollback steer the transaction; every other statement runs inside one. */
    predicate InTransaction() {
      !Begin? && !Commit? && !Rollback?
    }
  }

  /** The elements of s that satisfy keep, in their order in s. */
  function Filter<T(!new)>(s: seq<T>, keep: T -> bool): (r: seq<T>)
    ensures |r| <= |s|
    ensures forall x :: x in r <==> x in s && keep(x)
  {
    if s == [] then []
    else
      var rest := Filter(s[1..], keep);
      assert forall x :: x in s <==> x == s[0] || x in s[1..];
      if keep(s[0]) then [s[0]] + rest else rest
  }

  /** Whether a row's nullable contact reference points at the contact with this id. */
  predicate RefersTo(contactId: NullInt32, id: Int32) {
    contactId.valid && contactId.int32 == id
  }

  function UpdatedContact(c: Contact, f: ContactFields): Contact {
    Contact(c.id, f.firstName, f.lastName, f.nickname, f.email, f.pronouns, f.birthday, f.address, f.notes)
  }

  function UpdateRows(cs: seq<Contact>, id: Int32, f: ContactFields): (r: seq<Contact>)
    ensures |r| == |cs|
    ensures forall i :: 0 <= i < |cs| ==> r[i] == if cs[i].id == id then UpdatedContact(cs[i], f) else cs[i]
  {
    seq(|cs|, i requires 0 <= i < |cs| => if cs[i].id == id then UpdatedContact(cs[i], f) else cs[i])
  }

  /**
   * The effect of one statement on the tables. Queries change nothing;
   * deletes and updates touch only the rows of their namespace (and id).
   */
  function Apply(t: Tables, s: Statement): Tables {
    match s
    case DeleteActivitiesForNamespace(ns) => t.(activities := t.activities - {ns})
    case DeleteDebtsForNamespace(ns) => t.(debts := t.debts - {ns})
    case DeleteContactsForNamespace(ns) => t.(contacts := t.contacts - {ns})
    case DeleteJournalEntriesForNamespace(ns) => t.(journalEntries := t.journalEntries - {ns})
    case DeleteDebtsForContact(id, ns) =>
      t.(debts := t.debts[ns := Filter(Owned(t.debts, ns), (d: Debt) => !RefersTo(d.contactId, id))])
    case DeleteActivitiesForContact(id, ns) =>
      t.(activities := t.activities[ns := Filter(Owned(t.activities, ns), (a: Activity) => !RefersTo(a.contactId, id))])
    case DeleteContact(id, ns) =>
      t.(contacts := t.contacts[ns := Filter(Owned(t.contacts, ns), (c: Contact) => c.id != id)])
    case UpdateContact(id, ns, f) =>
      t.(contacts := t.contacts[ns := UpdateRows(Owned(t.contacts, ns), id, f)])
    case InsertJournalEntry(ns, e) => t.(journalEntries := t.journalEntries[ns := Owned(t.journalEntries, ns) + [e]])
    case InsertContact(ns, c) => t.(contacts := t.contacts[ns := Owned(t.contacts, ns) + [c]])
    case InsertDebt(ns, d) => t.(debts := t.debts[ns := Owned(t.debts, ns) + [d]])
    case InsertActivity(ns, a) => t.(activities := t.activities[ns := Owned(t.activities, ns) + [a]])
    case _ => t
  }

  function ApplyAll(t: Tables, ss: seq<Statement>): Tables
    decreases |ss|
  {
    if ss == [] then t else ApplyAll(Apply(t, ss[0]), ss[1..])
  }

  /** What running the statements of a plan in order issues, stopping at the first that fails. */
  datatype PlanRun = PlanRun(issued: seq<Statement>, ok: bool)

  function RunPlan(plan: seq<Statement>, log: seq<Statement>, fails: iset<(seq<Statement>, Statement)>): PlanRun
    decreases |plan|
  {
    if plan == [] then PlanRun([], true)
    else if (log, plan[0]) in fails then PlanRun([plan[0]], false)
    else
      var rest := RunPlan(plan[1..], log + [plan[0]], fails);
      PlanRun([plan[0]] + rest.issued, rest.ok)
  }

  /**
   * What is issued is the plan up to and including the step that fails;
   * the run succeeds exactly when no step fails.
   */
  lemma {:induction false} RunPlanIssues(plan: seq<Statement>, log: seq<Statement>, fails: iset<(seq<Statement>, Statement)>)
    ensures var run := RunPlan(plan, log, fails);
            |run.issued| <= |plan| && run.issued == plan[..|run.issued|]
            && (run.ok <==> run.issued == plan && forall i :: 0 <= i < |plan| ==> (log + plan[..i], plan[i]) !in fails)
            && (!run.ok ==> |run.issued| > 0 && (log + plan[..|run.issued| - 1], plan[|run.issued| - 1]) in fails)
            && (forall i :: 0 <= i < |run.issued| - 1 ==> (log + plan[..i], plan[i]) !in fails)
    decreases |plan|
  {
    if plan != [] {
      assert log + plan[..0] == log;
      if (log, plan[0]) !in fails {
        var rest := RunPlan(plan[1..], log + [plan[0]], fails);
        RunPlanIssues(plan[1..], log + [plan[0]], fails);
        forall i | 0 < i < |plan|
          ensures (log + plan[..i], plan[i]) == (log + [plan[0]] + plan[1..][..i - 1], plan[1..][i - 1])
        {
          StepLog(log, plan, i);
        }
        assert [plan[0]] + rest.issued == plan[..1 + |rest.issued|];
      }
    }
  }

  /** The log before step i of a plan, seen from the plan's second step. */
  lemma StepLog(log: seq<Statement>, plan: seq<Statement>, i: nat)
    requires 0 < i <= |plan|
    ensures log + plan[..i] == log + [plan[0]] + plan[1..][..i - 1]
  {
    assert plan[..i] == [plan[0]] + plan[1..][..i - 1];
  }

  /** A plan whose first step fails issues that step alone. */
  lemma RunPlanStops(plan: seq<Statement>, log: seq<Statement>, fails: iset<(seq<Statement>, Statement)>)
    requires plan != [] && (log, plan[0]) in fails
    ensures RunPlan(plan, log, fails) == PlanRun([plan[0]], false)
  {
  }

  /** A plan whose first step succeeds goes on with the rest after it. */
  lemma RunPlanContinues(plan: seq<Statement>, log: seq<Statement>, fails: iset<(seq<Statement>, Statement)>)
    requires plan != [] && (log, plan[0]) !in fails
    ensures var rest := RunPlan(plan[1..], log + [plan[0]], fails);
            RunPlan(plan, log, fails) == PlanRun([plan[0]] + rest.issued, rest.ok)
  {
  }

  /** A plan made of two parts runs the first, then, when it succeeded, the second after it. */
  lemma {:induction false} RunPlanAppend(p: seq<Statement>, q: seq<Statement>, log: seq<Statement>,
                                         fails: iset<(seq<Statement>, Statement)>)
    ensures var a := RunPlan(p, log, fails);
            var b := RunPlan(q, log + p, fails);
            RunPlan(p + q, log, fails) == if a.ok then PlanRun(p + b.issued, b.ok) else a
    decreases |p|
  {
    if p == [] {
      assert p + q == q && log + p == log;
    } else {
      assert (p + q)[0] == p[0] && (p + q)[1..] == p[1..] + q;
      assert log + [p[0]] + p[1..] == log + p;
      RunPlanAppend(p[1..], q, log + [p[0]], fails);
    }
  }

  /** Applying two parts of a plan applies the first, then the second. */
  lemma {:induction false} ApplyAllAppend(t: Tables, p: seq<Statement>, q: seq<Statement>)
    ensures ApplyAll(t, p + q) == ApplyAll(ApplyAll(t, p), q)
    decreases |p|
  {
    if p == [] {
      assert p + q == q;
    } else {
      assert (p + q)[0] == p[0] && (p + q)[1..] == p[1..] + q;
      ApplyAllAppend(Apply(t, p[0]), p[1..], q);
    }
  }

  /** How a transaction run through its deferred rollback ends. */
  datatype TxOutcome = TxOutcome(tables: Tables, log: seq<Statement>, ok: bool)

  /**
   * A transaction over a plan of statements: begin, run the plan until a
   * step fails, commit if none did; the deferred rollback restores the
   * snapshot whenever any step, the commit included, fails.
   */
  function Transaction(t: Tables, log: seq<Statement>, fails: iset<(seq<Statement>, Statement)>,
                       plan: seq<Statement>): TxOutcome
  {
    if (log, Begin) in fails then TxOutcome(t, log + [Begin], false)
    else
      var run := RunPlan(plan, log + [Begin], fails);
      var issued := log + [Begin] + run.issued;
      if !run.ok then TxOutcome(t, issued + [Rollback], false)
      else if (issued, Commit) in fails then TxOutcome(t, issued + [Commit], false)
      else TxOutcome(ApplyAll(t, plan), issued + [Commit], true)
  }

  /**
   * A transaction is all or nothing, and it issues Begin, the plan up to
   * the step that stopped it, then Commit or Rollback.
   */
  lemma TransactionAllOrNothing(t: Tables, log: seq<Statement>, fails: iset<(seq<Statement>, Statement)>,
                                plan: seq<Statement>)
    ensures var o := Transaction(t, log, fails, plan);
            (o.ok ==> o.tables == ApplyAll(t, plan)) && (!o.ok ==> o.tables == t)
            && (o.ok <==> (log, Begin) !in fails && (forall i :: 0 <= i < |plan| ==> (log + [Begin] + plan[..i], plan[i]) !in fails)
                          && (log + [Begin] + plan, Commit) !in fails)
            && ((log, Begin) in fails ==> o.log == log + [Begin])
            && ((log, Begin) !in fails ==>
                  var run := RunPlan(plan, log + [Begin], fails);
                  o.log == log + [Begin] + run.issued + [if run.ok then Commit else Rollback])
  {
    RunPlanIssues(plan, log + [Begin], fails);
  }

  /**
   * A database connection. `tx` holds the snapshot taken when the open
   * transaction began; `assignId` is the serial id the database gives the
   * next inserted row.
   */
  class Database {
    var tables: Tables
    var tx: Option<Tables>
    var log: seq<Statement>
    const fails: iset<(seq<Statement>, Statement)>
    const assignId: seq<Statement> -> Int32

    constructor (tables: Tables, fails: iset<(seq<Statement>, Statement)>, assignId: seq<Statement> -> Int32)
      ensures this.tables == tables && this.fails == fails && this.assignId == assignId && tx.None? && log == []
    {
      this.tables := tables;
      this.fails := fails;
      this.assignId := assignId;
      tx := None;
      log := [];
    }

    /** DB.Begin. */
    method Begin() returns (ok: bool)
      requires tx.None?
      modifies this
      ensures ok == ((old(log), Statement.Begin) !in fails) && log == old(log) + [Statement.Begin]
      ensures tables == old(tables) && tx == (if ok then Some(old(tables)) else None)
    {
      ok := (log, Statement.Begin) !in fails;
      log := log + [Statement.Begin];
      if ok {
        tx := Some(tables);
      }
    }

    /** One statement inside the open transaction; a failing one changes nothing. */
    method Exec(s: Statement) returns (ok: bool)
      requires tx.Some? && s.InTransaction()
      modifies this
      ensures ok == ((old(log), s) !in fails) && log == old(log) + [s] && tx == old(tx)
      ensures tables == if ok then Apply(old(tables), s) else old(tables)
    {
      ok := (log, s) !in fails;
      log := log + [s];
      if ok {
        tables := Apply(tables, s);
      }
    }

    /** One statement outside any transaction, committed on its own. */
    method Run(s: Statement) returns (ok: bool)
      requires tx.None? && s.InTransaction()
      modifies this
      ensures ok == ((old(log), s) !in fails) && log == old(log) + [s] && tx.None?
      ensures tables == if ok then Apply(old(tables), s) else old(tables)
    {
      ok := (log, s) !in fails;
      log := log + [s];
      if ok {
        tables := Apply(tables, s);
      }
    }

    /** Tx.Commit: the transaction ends either way; a failed commit keeps none of its changes. */
    method Commit() returns (ok: bool)
      requires tx.Some?
      modifies this
      ensures ok == ((old(log), Statement.Commit) !in fails) && log == old(log) + [Statement.Commit] && tx.None?
      ensures tables == if ok then old(tables) else old(tx).value
    {
      ok := (log, Statement.Commit) !in fails;
      log := log + [Statement.Commit];
      if !ok {
        tables := tx.value;
      }
      tx := None;
    }

    /** The deferred Tx.Rollback: restores the snapshot, or does nothing once the transaction has ended. */
    method Rollback()
      modifies this
      ensures tx.None?
      ensures old(tx).Some? ==> tables == old(tx).value && log == old(log) + [Statement.Rollback]
      ensures old(tx).None? ==> tables == old(tables) && log == old(log)
    {
      if tx.Some? {
        tables := tx.value;
        log := log + [Statement.Rollback];
        tx := None;
      }
    }
  }
}
