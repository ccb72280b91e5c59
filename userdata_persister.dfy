/**
 * The user-data persister: the export walk over the four tables of one
 * namespace inside a read transaction that is always rolled back, and the
 * all-or-nothing delete of everything the namespace owns.
 */
module UserDataPersister {
  import opened Wrappers
  import opened GoLib
  import opened UserDataModels
  import opened Http
  import opened Store
  import opened UserDataExport

  /** Rows are handed to the callbacks untagged; the callback sets the discriminator. */
  const Untagged := ExportedEntityIdentifier("")

  function ExportJournalEntry(e: JournalEntry, namespace: string): ExportedJournalEntry {
    ExportedJournalEntry(Untagged, e.id, e.title, e.date, e.body, e.rating, namespace)
  }

  function ExportContact(c: Contact, namespace: string): ExportedContact {
    ExportedContact(Untagged, c.id, c.firstName, c.lastName, c.nickname, c.email, c.pronouns,
                    namespace, c.birthday, c.address, c.notes)
  }

  /** Debts and activities are exported without their namespace. */
  function ExportDebt(d: Debt): ExportedDebt {
    ExportedDebt(Untagged, d.id, d.amount, d.currency, d.description, d.contactId)
  }

  function ExportActivity(a: Activity): ExportedActivity {
    ExportedActivity(Untagged, a.id, a.name, a.date, a.description, a.contactId)
  }

  function JournalEntryRecords(rows: seq<JournalEntry>, namespace: string): (recs: seq<ExportedRecord>)
    ensures |recs| == |rows|
    decreases |rows|
  {
    if rows == [] then [] else [JournalEntryRecord(ExportJournalEntry(rows[0], namespace))] + JournalEntryRecords(rows[1..], namespace)
  }

  function ContactRecords(rows: seq<Contact>, namespace: string): (recs: seq<ExportedRecord>)
    ensures |recs| == |rows|
    decreases |rows|
  {
    if rows == [] then [] else [ContactRecord(ExportContact(rows[0], namespace))] + ContactRecords(rows[1..], namespace)
  }

  function DebtRecords(rows: seq<Debt>): (recs: seq<ExportedRecord>)
    ensures |recs| == |rows|
    decreases |rows|
  {
    if rows == [] then [] else [DebtRecord(ExportDebt(rows[0]))] + DebtRecords(rows[1..])
  }

  function ActivityRecords(rows: seq<Activity>): (recs: seq<ExportedRecord>)
    ensures |recs| == |rows|
    decreases |rows|
  {
    if rows == [] then [] else [ActivityRecord(ExportActivity(rows[0]))] + ActivityRecords(rows[1..])
  }

  /** The four export queries, in the order the export runs them. */
  function ExportQueries(namespace: string): seq<Statement> {
    [GetJournalEntriesExport(namespace), GetContactsExport(namespace), GetDebtsExport(namespace), GetActivitiesExport(namespace)]
  }

  /** The records an export query yields: the namespace's rows of its kind, in table order. */
  function QueryRecords(t: Tables, q: Statement): seq<ExportedRecord> {
    match q
    case GetJournalEntriesExport(ns) => JournalEntryRecords(Owned(t.journalEntries, ns), ns)
    case GetContactsExport(ns) => ContactRecords(Owned(t.contacts, ns), ns)
    case GetDebtsExport(ns) => DebtRecords(Owned(t.debts, ns))
    case GetActivitiesExport(ns) => ActivityRecords(Owned(t.activities, ns))
    case _ => []
  }

  /** The records of several queries, one query after the other. */
  function AllRecords(t: Tables, qs: seq<Statement>): seq<ExportedRecord>
    decreases |qs|
  {
    if qs == [] then [] else QueryRecords(t, qs[0]) + AllRecords(t, qs[1..])
  }

  lemma {:induction false} AllRecordsAppend(t: Tables, a: seq<Statement>, b: seq<Statement>)
    ensures AllRecords(t, a + b) == AllRecords(t, a) + AllRecords(t, b)
    decreases |a|
  {
    if a == [] {
      assert a + b == b;
    } else {
      assert (a + b)[1..] == a[1..] + b;
      AllRecordsAppend(t, a[1..], b);
    }
  }

  /** The records of four queries, one after the other. */
  lemma AllRecordsOfFour(t: Tables, a: Statement, b: Statement, c: Statement, d: Statement)
    ensures AllRecords(t, [a, b, c, d]) == QueryRecords(t, a) + (QueryRecords(t, b) + (QueryRecords(t, c) + QueryRecords(t, d)))
  {
    AllRecordsCons(t, d, []);
    assert [d] + [] == [d];
    AllRecordsCons(t, c, [d]);
    assert [c] + [d] == [c, d];
    AllRecordsCons(t, b, [c, d]);
    assert [b] + [c, d] == [b, c, d];
    AllRecordsCons(t, a, [b, c, d]);
    assert [a] + [b, c, d] == [a, b, c, d];
  }

  /** The export's records: the journal entries, then the contacts, the debts and the activities. */
  lemma ExportRecordsInOrder(t: Tables, namespace: string)
    ensures AllRecords(t, ExportQueries(namespace))
         == JournalEntryRecords(Owned(t.journalEntries, namespace), namespace)
            + (ContactRecords(Owned(t.contacts, namespace), namespace)
               + (DebtRecords(Owned(t.debts, namespace)) + ActivityRecords(Owned(t.activities, namespace))))
  {
    AllRecordsOfFour(t, GetJournalEntriesExport(namespace), GetContactsExport(namespace),
                     GetDebtsExport(namespace), GetActivitiesExport(namespace));
  }

  /** What the export walk issues and writes. */
  datatype ExportRun = ExportRun(issued: seq<Statement>, written: seq<Effect>, ok: bool)

  /** One stage of the walk: the query, then one callback per row it returned. */
  function Stage(t: Tables, q: Statement, log: seq<Statement>, fails: iset<(seq<Statement>, Statement)>,
                 before: seq<Effect>, writeFails: iset<seq<Effect>>): ExportRun {
    if (log, q) in fails then ExportRun([q], [], false)
    else
      var e := EmitLines(QueryRecords(t, q), before, writeFails);
      ExportRun([q], e.written, e.ok)
  }

  /** A stage followed by the rest of the walk, which only runs when the stage succeeded. */
  function Then(first: ExportRun, rest: ExportRun): ExportRun {
    if !first.ok then first else ExportRun(first.issued + rest.issued, first.written + rest.written, rest.ok)
  }

  /** The export walk over the queries in order, stopping at the first query or callback that fails. */
  function Walk(t: Tables, qs: seq<Statement>, log: seq<Statement>, fails: iset<(seq<Statement>, Statement)>,
                before: seq<Effect>, writeFails: iset<seq<Effect>>): ExportRun
    decreases |qs|
  {
    if qs == [] then ExportRun([], [], true)
    else
      var s := Stage(t, qs[0], log, fails, before, writeFails);
      Then(s, Walk(t, qs[1..], log + s.issued, fails, before + s.written, writeFails))
  }

  /** A stage issues its query and writes a prefix of the lines of the query's rows, all of them when it succeeds. */
  lemma StageWrites(t: Tables, q: Statement, log: seq<Statement>, fails: iset<(seq<Statement>, Statement)>,
                    before: seq<Effect>, writeFails: iset<seq<Effect>>)
    ensures var s := Stage(t, q, log, fails, before, writeFails);
            var lines := Lines(QueryRecords(t, q));
            s.issued == [q] && |s.written| <= |lines| && s.written == lines[..|s.written|]
            && (s.ok ==> s.written == lines)
  {
    EmitLinesWrites(QueryRecords(t, q), before, writeFails);
  }

  /** The records of a query followed by more queries. */
  lemma AllRecordsCons(t: Tables, q: Statement, rest: seq<Statement>)
    ensures AllRecords(t, [q] + rest) == QueryRecords(t, q) + AllRecords(t, rest)
  {
    assert ([q] + rest)[1..] == rest;
  }

  /**
   * The queries are issued in order up to the one whose stage failed; what
   * is written is the lines of the issued queries' rows up to the failure,
   * so no row of a later query is ever emitted; a clean walk issues every
   * query and writes every row of every query.
   */
  lemma {:induction false} WalkWrites(t: Tables, qs: seq<Statement>, log: seq<Statement>,
                                      fails: iset<(seq<Statement>, Statement)>,
                                      before: seq<Effect>, writeFails: iset<seq<Effect>>)
    ensures var run := Walk(t, qs, log, fails, before, writeFails);
            |run.issued| <= |qs| && run.issued == qs[..|run.issued|]
            && |run.written| <= |Lines(AllRecords(t, run.issued))|
            && run.written == Lines(AllRecords(t, run.issued))[..|run.written|]
            && (run.ok ==> run.issued == qs && run.written == Lines(AllRecords(t, qs)))
    decreases |qs|
  {
    if qs != [] {
      var q := qs[0];
      var s := Stage(t, q, log, fails, before, writeFails);
      StageWrites(t, q, log, fails, before, writeFails);
      var lines := Lines(QueryRecords(t, q));
      if !s.ok {
        AllRecordsCons(t, q, []);
        assert [q] + [] == [q] == qs[..1];
        assert QueryRecords(t, q) + [] == QueryRecords(t, q);
      } else {
        var r := Walk(t, qs[1..], log + s.issued, fails, before + s.written, writeFails);
        WalkWrites(t, qs[1..], log + s.issued, fails, before + s.written, writeFails);
        AllRecordsCons(t, q, r.issued);
        LinesAppend(QueryRecords(t, q), AllRecords(t, r.issued));
        var more := Lines(AllRecords(t, r.issued));
        assert (lines + more)[..|lines| + |r.written|] == lines + more[..|r.written|];
        assert qs[..1 + |r.issued|] == [q] + qs[1..][..|r.issued|];
        if r.ok {
          assert qs == [q] + qs[1..];
        }
      }
    }
  }

  /** The `for range` over one query's rows, calling the callback on each until one fails. */
  method EmitAll(w: ResponseWriter, recs: seq<ExportedRecord>) returns (ok: bool)
    modifies w
    ensures var e := EmitLines(recs, old(w.effects), w.writeFails);
            ok == e.ok && w.effects == old(w.effects) + e.written
  {
    ghost var e0, wf := w.effects, w.writeFails;
    ghost var whole := EmitLines(recs, e0, wf);
    var i := 0;
    while i < |recs|
      invariant 0 <= i <= |recs|
      invariant whole.ok == EmitLines(recs[i..], w.effects, wf).ok
      invariant e0 + whole.written == w.effects + EmitLines(recs[i..], w.effects, wf).written
    {
      ghost var before := w.effects;
      ok := Emit(w, recs[i]);
      if !ok {
        assert EmitLines(recs[i..], before, wf).written == [];
        return;
      }
      EmitLinesStep(recs, i, before, wf);
      ghost var line := WriteJson(Tagged(recs[i]));
      ghost var rest := EmitLines(recs[i + 1..], before + [line], wf);
      assert before + ([line] + rest.written) == (before + [line]) + rest.written;
      i := i + 1;
    }
    assert recs[i..] == [];
    ok := true;
  }

  /** The export queries read and change nothing. */
  lemma ExportQueriesReadOnly(t: Tables, namespace: string)
    ensures ReadOnlyQueries(t, ExportQueries(namespace))
  {
  }

  /** One stage inside the read transaction: run the query, then the callbacks. */
  method ExportStage(db: Database, w: ResponseWriter, q: Statement) returns (ok: bool)
    requires db.tx.Some? && q.InTransaction() && Apply(db.tables, q) == db.tables
    modifies db, w
    ensures var s := Stage(old(db.tables), q, old(db.log), db.fails, old(w.effects), w.writeFails);
            ok == s.ok && db.log == old(db.log) + s.issued && w.effects == old(w.effects) + s.written
    ensures db.tables == old(db.tables) && db.tx == old(db.tx)
  {
    ok := db.Exec(q);
    if ok {
      ok := EmitAll(w, QueryRecords(db.tables, q));
    }
  }

  /** Queries that run inside the transaction and leave the tables as they are. */
  predicate ReadOnlyQueries(t: Tables, qs: seq<Statement>) {
    forall k :: 0 <= k < |qs| ==> qs[k].InTransaction() && Apply(t, qs[k]) == t
  }

  lemma ReadOnlyTail(t: Tables, qs: seq<Statement>)
    requires qs != [] && ReadOnlyQueries(t, qs)
    ensures qs[0].InTransaction() && Apply(t, qs[0]) == t && ReadOnlyQueries(t, qs[1..])
  {
    assert forall k :: 0 <= k < |qs| - 1 ==> qs[1..][k] == qs[k + 1];
  }

  /** The stages from the first query on, each returning early when it fails. */
  method ExportStages(db: Database, w: ResponseWriter, qs: seq<Statement>) returns (ok: bool)
    requires db.tx.Some? && ReadOnlyQueries(db.tables, qs)
    modifies db, w
    ensures var run := Walk(old(db.tables), qs, old(db.log), db.fails, old(w.effects), w.writeFails);
            ok == run.ok && db.log == old(db.log) + run.issued && w.effects == old(w.effects) + run.written
    ensures db.tables == old(db.tables) && db.tx == old(db.tx)
    decreases |qs|
  {
    if qs == [] {
      return true;
    }
    ghost var t, l0, e0 := db.tables, db.log, w.effects;
    ghost var s0 := Stage(t, qs[0], l0, db.fails, e0, w.writeFails);
    WalkUnfolds(t, qs, l0, db.fails, e0, w.writeFails);
    ReadOnlyTail(t, qs);
    ok := ExportStage(db, w, qs[0]);
    if !ok {
      return;
    }
    ghost var l1, e1 := db.log, w.effects;
    ok := ExportStages(db, w, qs[1..]);
    ghost var r := Walk(t, qs[1..], l1, db.fails, e1, w.writeFails);
    AppendAssoc(l0, s0.issued, r.issued);
    AppendAssoc(e0, s0.written, r.written);
  }

  /** A walk over at least one query is its first stage, then the walk over the rest. */
  lemma WalkUnfolds(t: Tables, qs: seq<Statement>, log: seq<Statement>, fails: iset<(seq<Statement>, Statement)>,
                    before: seq<Effect>, writeFails: iset<seq<Effect>>)
    requires qs != []
    ensures var s := Stage(t, qs[0], log, fails, before, writeFails);
            Walk(t, qs, log, fails, before, writeFails)
            == Then(s, Walk(t, qs[1..], log + s.issued, fails, before + s.written, writeFails))
  {
  }

  lemma AppendAssoc<T>(a: seq<T>, b: seq<T>, c: seq<T>)
    ensures a + (b + c) == (a + b) + c
  {
  }

  /**
   * GetUserData: inside a read transaction, every journal entry, then
   * every contact, debt and activity of the namespace is handed to the
   * export callback; the transaction is always rolled back.
   */
  method GetUserData(db: Database, w: ResponseWriter, namespace: string) returns (ok: bool)
    requires db.tx.None?
    modifies db, w
    // The export changes no data.
    ensures db.tables == old(db.tables) && db.tx.None?
    ensures (old(db.log), Begin) in db.fails ==> !ok && db.log == old(db.log) + [Begin] && w.effects == old(w.effects)
    ensures (old(db.log), Begin) !in db.fails ==>
              var run := Walk(old(db.tables), ExportQueries(namespace), old(db.log) + [Begin],
                              db.fails, old(w.effects), w.writeFails);
              ok == run.ok && w.effects == old(w.effects) + run.written
              && db.log == old(db.log) + [Begin] + run.issued + [Rollback]
  {
    ok := db.Begin();
    if !ok {
      return;
    }
    ExportQueriesReadOnly(db.tables, namespace);
    ok := ExportStages(db, w, ExportQueries(namespace));
    db.Rollback();
  }

  /** What deleting a namespace's data runs: activities, debts, contacts, then journal entries. */
  function DeleteUserDataPlan(namespace: string): seq<Statement> {
    [DeleteActivitiesForNamespace(namespace), DeleteDebtsForNamespace(namespace),
     DeleteContactsForNamespace(namespace), DeleteJournalEntriesForNamespace(namespace)]
  }

  /** Two statements inside the open transaction, the second run only when the first succeeded. */
  method ExecTwo(db: Database, s0: Statement, s1: Statement) returns (ok: bool)
    requires db.tx.Some? && s0.InTransaction() && s1.InTransaction()
    modifies db
    ensures var run := RunPlan([s0, s1], old(db.log), db.fails);
            ok == run.ok && db.log == old(db.log) + run.issued && db.tx == old(db.tx)
            && (ok ==> db.tables == ApplyAll(old(db.tables), [s0, s1]))
  {
    ghost var t0, l0 := db.tables, db.log;
    ok := db.Exec(s0);
    if !ok {
      RunPlanStops([s0, s1], l0, db.fails);
      return;
    }
    RunPlanContinues([s0, s1], l0, db.fails);
    assert [s0, s1][1..] == [s1];
    ok := db.Exec(s1);
    if !ok {
      RunPlanStops([s1], l0 + [s0], db.fails);
      return;
    }
    RunPlanContinues([s1], l0 + [s0], db.fails);
    assert [s1][1..] == [];
    assert ApplyAll(Apply(t0, s0), [s1]) == ApplyAll(Apply(Apply(t0, s0), s1), []);
  }

  /**
   * The four deletes inside the open transaction, each run only when the
   * one before it succeeded.
   */
  method ExecDeletes(db: Database, namespace: string) returns (ok: bool)
    requires db.tx.Some?
    modifies db
    ensures var run := RunPlan(DeleteUserDataPlan(namespace), old(db.log), db.fails);
            ok == run.ok && db.log == old(db.log) + run.issued && db.tx == old(db.tx)
            && (ok ==> db.tables == ApplyAll(old(db.tables), DeleteUserDataPlan(namespace)))
  {
    ghost var t0, l0 := db.tables, db.log;
    var s0, s1, s2, s3 := DeleteActivitiesForNamespace(namespace), DeleteDebtsForNamespace(namespace),
                          DeleteContactsForNamespace(namespace), DeleteJournalEntriesForNamespace(namespace);
    ghost var p, q := [s0, s1], [s2, s3];
    assert p + q == DeleteUserDataPlan(namespace);
    RunPlanAppend(p, q, l0, db.fails);
    ok := ExecTwo(db, s0, s1);
    if !ok {
      return;
    }
    RunPlanIssues(p, l0, db.fails);
    assert db.log == l0 + p;
    ok := ExecTwo(db, s2, s3);
    ApplyAllAppend(t0, p, q);
  }

  /**
   * DeleteUserData: the four deletes in one transaction, committed only
   * when all of them succeed.
   */
  method DeleteUserData(db: Database, namespace: string) returns (ok: bool)
    requires db.tx.None?
    modifies db
    ensures var o := Transaction(old(db.tables), old(db.log), db.fails, DeleteUserDataPlan(namespace));
            db.tables == o.tables && db.log == o.log && ok == o.ok && db.tx.None?
  {
    ok := db.Begin();
    if !ok {
      return;
    }
    ok := ExecDeletes(db, namespace);
    if !ok {
      db.Rollback();
      return;
    }
    ok := db.Commit();
    db.Rollback();
  }

  /** After the delete commits the namespace owns nothing in any table, and no other namespace changed. */
  lemma {:induction false} DeleteUserDataPlanEffect(t: Tables, namespace: string)
    ensures var r := ApplyAll(t, DeleteUserDataPlan(namespace));
            Owned(r.journalEntries, namespace) == [] && Owned(r.contacts, namespace) == []
            && Owned(r.debts, namespace) == [] && Owned(r.activities, namespace) == []
            && (forall ns :: ns != namespace ==>
                  Owned(r.journalEntries, ns) == Owned(t.journalEntries, ns) && Owned(r.contacts, ns) == Owned(t.contacts, ns)
                  && Owned(r.debts, ns) == Owned(t.debts, ns) && Owned(r.activities, ns) == Owned(t.activities, ns))
  {
    var plan := DeleteUserDataPlan(namespace);
    var t1 := Apply(t, plan[0]);
    var t2 := Apply(t1, plan[1]);
    var t3 := Apply(t2, plan[2]);
    var t4 := Apply(t3, plan[3]);
    assert ApplyAll(t, plan) == ApplyAll(t1, plan[1..]);
    assert ApplyAll(t1, plan[1..]) == ApplyAll(t2, plan[2..]);
    assert ApplyAll(t2, plan[2..]) == ApplyAll(t3, plan[3..]);
    assert ApplyAll(t3, plan[3..]) == ApplyAll(t4, []);
  }
}
