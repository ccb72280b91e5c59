/**
 * The user-data handlers of the current revision: export as a stream of
 * JSON lines, import of such a stream inside one transaction, and
 * deletion of everything the signed-in user owns.
 */
module UserDataController {
  import opened Wrappers
  import opened GoLib
  import opened UserDataModels
  import opened Http
  import opened Oidc
  import opened Authn
  import opened Store
  import opened UserDataExport
  import opened UserDataPersister

  // ---------------------------------------------------------------------
  // Export
  // ---------------------------------------------------------------------

  /** The headers set before the stream: a JSON-lines body, downloaded as an attachment. */
  const ExportHeaders: seq<Effect> :=
    [SetHeader("Content-Type", "application/jsonl"),
     SetHeader("Content-Disposition", "attachment; filename=\"senbara-forms-userdata.jsonl\"")]

  /**
   * What the export writes after its headers: the lines the walk wrote,
   * then a 500 when the walk (or the transaction it runs in) failed.
   */
  function ExportBody(t: Tables, namespace: string, log: seq<Statement>, fails: iset<(seq<Statement>, Statement)>,
                      before: seq<Effect>, writeFails: iset<seq<Effect>>): seq<Effect>
  {
    if (log, Begin) in fails then [Error(CouldNotFetchFromDB, StatusInternalServerError)]
    else
      var run := Walk(t, ExportQueries(namespace), log + [Begin], fails, before, writeFails);
      run.written + if run.ok then [] else [Error(CouldNotFetchFromDB, StatusInternalServerError)]
  }

  /**
   * The export body is the tagged lines of the namespace's rows, journal
   * entries first, then contacts, debts and activities; a failure stops
   * the lines and ends the body with one 500, written after them.
   */
  lemma ExportBodyLines(t: Tables, namespace: string, log: seq<Statement>, fails: iset<(seq<Statement>, Statement)>,
                        before: seq<Effect>, writeFails: iset<seq<Effect>>)
    ensures var body := ExportBody(t, namespace, log, fails, before, writeFails);
            var all := Lines(AllRecords(t, ExportQueries(namespace)));
            var failed := Error(CouldNotFetchFromDB, StatusInternalServerError);
            (body == all || (|body| > 0 && body[|body| - 1] == failed && |body| - 1 <= |all| && body[..|body| - 1] == all[..|body| - 1]))
            && (failed !in all)
  {
    var all := Lines(AllRecords(t, ExportQueries(namespace)));
    LinesAreJson(AllRecords(t, ExportQueries(namespace)));
    if (log, Begin) !in fails {
      var run := Walk(t, ExportQueries(namespace), log + [Begin], fails, before, writeFails);
      WalkWrites(t, ExportQueries(namespace), log + [Begin], fails, before, writeFails);
      if !run.ok {
        var issued := ExportQueries(namespace)[..|run.issued|];
        AllRecordsPrefix(t, ExportQueries(namespace), |run.issued|);
        var mine := Lines(AllRecords(t, issued));
        assert run.written == mine[..|run.written|];
        LinesAppend(AllRecords(t, issued), AllRecords(t, ExportQueries(namespace)[|run.issued|..]));
        assert mine == all[..|mine|];
        var body := run.written + [Error(CouldNotFetchFromDB, StatusInternalServerError)];
        assert body[..|body| - 1] == run.written;
      } else {
        assert ExportQueries(namespace)[..|ExportQueries(namespace)|] == ExportQueries(namespace);
      }
    }
  }

  /** Every line of the export is a JSON line. */
  lemma {:induction false} LinesAreJson(recs: seq<ExportedRecord>)
    ensures forall k :: 0 <= k < |Lines(recs)| ==> Lines(recs)[k].WriteJson?
  {
    forall k | 0 <= k < |Lines(recs)|
      ensures Lines(recs)[k].WriteJson?
    {
      LinesAt(recs, k);
    }
  }

  /** The records of the first k queries, then the records of the rest. */
  lemma AllRecordsPrefix(t: Tables, qs: seq<Statement>, k: nat)
    requires k <= |qs|
    ensures AllRecords(t, qs) == AllRecords(t, qs[..k]) + AllRecords(t, qs[k..])
  {
    assert qs == qs[..k] + qs[k..];
    AllRecordsAppend(t, qs[..k], qs[k..]);
  }

  /** The export behind the headers: the walk in its read transaction, then a 500 if it failed. */
  method ExportReply(db: Database, w: ResponseWriter, namespace: string)
    requires db.tx.None?
    modifies w, db
    ensures db.tables == old(db.tables) && db.tx.None?
    ensures w.effects == old(w.effects) + ExportBody(old(db.tables), namespace, old(db.log), db.fails,
                                                     old(w.effects), w.writeFails)
  {
    var ok := GetUserData(db, w, namespace);
    if !ok {
      w.Error(CouldNotFetchFromDB, StatusInternalServerError);
    }
  }

  /**
   * HandleUserData: after authorization, the two headers, then the
   * namespace's records through the tagging callbacks, and a 500 when the
   * export failed. The export changes no data.
   */
  method HandleUserData(cfg: Config, w: ResponseWriter, r: Request, idp: IdentityProvider, db: Database)
    requires db.tx.None?
    modifies w, idp, db
    ensures var d := Decide(cfg, r, idp.verifier, idp.refreshGrant);
            idp.calls == old(idp.calls) + d.calls && db.tables == old(db.tables) && db.tx.None?
            && (!Proceeds(d.result) ==> w.effects == old(w.effects) + d.effects + Refusal(d) && db.log == old(db.log))
            && (Proceeds(d.result) ==>
                  var before := old(w.effects) + d.effects + ExportHeaders;
                  w.effects == before + ExportBody(old(db.tables), d.result.user.email, old(db.log), db.fails,
                                                   before, w.writeFails))
  {
    var proceed, user := Gate(cfg, w, r, idp);
    if !proceed {
      return;
    }
    w.SetHeader("Content-Type", "application/jsonl");
    w.SetHeader("Content-Disposition", "attachment; filename=\"senbara-forms-userdata.jsonl\"");
    ghost var before := w.effects;
    ExportReply(db, w, user.email);
    ghost var d := Decide(cfg, r, idp.verifier, idp.refreshGrant);
    assert before == old(w.effects) + d.effects + ExportHeaders;
  }

  // ---------------------------------------------------------------------
  // Import
  // ---------------------------------------------------------------------

  /**
   * The rows the import's creators insert. The creators belong to
   * CreateUserData, which is not part of this model; each is taken to
   * insert the record's row under the importing user's namespace.
   */
  function JournalEntryRow(e: ExportedJournalEntry): JournalEntry {
    JournalEntry(e.id, e.title, e.date, e.body, e.rating)
  }

  function ContactRow(c: ExportedContact): Contact {
    Contact(c.id, c.firstName, c.lastName, c.nickname, c.email, c.pronouns, c.birthday, c.address, c.notes)
  }

  function DebtRow(d: ExportedDebt): Debt {
    Debt(d.id, d.amount, d.currency, d.description, d.contactId)
  }

  function ActivityRow(a: ExportedActivity): Activity {
    Activity(a.id, a.name, a.date, a.description, a.contactId)
  }

  /** What one value of the uploaded stream makes the import loop do. */
  datatype Step = Skip | Insert(statement: Statement) | Undecodable

  /**
   * One turn of the import loop: a value that does not decode, whose
   * discriminator does not decode, or whose record does not decode as the
   * discriminator's kind is unreadable; a known kind goes to the creator
   * of that kind; an unknown kind is skipped.
   */
  function ImportStep(c: UploadChunk, namespace: string): (st: Step)
    ensures st.Insert? ==> st.statement.InTransaction() && c.Value? && c.raw.identifier.Some?
  {
    match c
    case Malformed => Undecodable
    case Value(raw) =>
      match raw.identifier
      case None => Undecodable
      case Some(ident) =>
        if ident.entityName == EntityNameExportedJournalEntry then
          (match raw.asJournalEntry
           case None => Undecodable
           case Some(e) => Insert(InsertJournalEntry(namespace, JournalEntryRow(e))))
        else if ident.entityName == EntityNameExportedContact then
          (match raw.asContact
           case None => Undecodable
           case Some(x) => Insert(InsertContact(namespace, ContactRow(x))))
        else if ident.entityName == EntityNameExportedDebt then
          (match raw.asDebt
           case None => Undecodable
           case Some(d) => Insert(InsertDebt(namespace, DebtRow(d))))
        else if ident.entityName == EntityNameExportedActivity then
          (match raw.asActivity
           case None => Undecodable
           case Some(a) => Insert(InsertActivity(namespace, ActivityRow(a))))
        else Skip
  }

  /** How the import loop ends: at the end of the stream, at an unreadable value, or at a failed insert. */
  datatype ImportStatus = Clean | ReadFailed | InsertFailed

  datatype ImportRun = ImportRun(issued: seq<Statement>, status: ImportStatus)

  /** The import loop over the stream, inside the open transaction. */
  function ImportLoop(chunks: seq<UploadChunk>, namespace: string, log: seq<Statement>,
                      fails: iset<(seq<Statement>, Statement)>): ImportRun
    decreases |chunks|
  {
    if chunks == [] then ImportRun([], Clean)
    else
      match ImportStep(chunks[0], namespace)
      case Undecodable => ImportRun([], ReadFailed)
      case Skip => ImportLoop(chunks[1..], namespace, log, fails)
      case Insert(s) =>
        if (log, s) in fails then ImportRun([s], InsertFailed)
        else
          var rest := ImportLoop(chunks[1..], namespace, log + [s], fails);
          ImportRun([s] + rest.issued, rest.status)
  }

  /** The loop from value i on, after value i is read. */
  lemma ImportLoopStep(chunks: seq<UploadChunk>, i: nat, namespace: string, log: seq<Statement>,
                       fails: iset<(seq<Statement>, Statement)>)
    requires i < |chunks|
    ensures var rest := chunks[i + 1..];
            ImportLoop(chunks[i..], namespace, log, fails)
            == match ImportStep(chunks[i], namespace)
               case Undecodable => ImportRun([], ReadFailed)
               case Skip => ImportLoop(rest, namespace, log, fails)
               case Insert(s) =>
                 if (log, s) in fails then ImportRun([s], InsertFailed)
                 else
                   var r := ImportLoop(rest, namespace, log + [s], fails);
                   ImportRun([s] + r.issued, r.status)
  {
    assert chunks[i..][0] == chunks[i] && chunks[i..][1..] == chunks[i + 1..];
  }

  /** The inserts the stream asks for, up to its first unreadable value, and whether there is none. */
  datatype Planned = Planned(plan: seq<Statement>, readable: bool)

  function ImportPlan(chunks: seq<UploadChunk>, namespace: string): Planned
    decreases |chunks|
  {
    if chunks == [] then Planned([], true)
    else
      match ImportStep(chunks[0], namespace)
      case Undecodable => Planned([], false)
      case Skip => ImportPlan(chunks[1..], namespace)
      case Insert(s) =>
        var rest := ImportPlan(chunks[1..], namespace);
        Planned([s] + rest.plan, rest.readable)
  }

  /**
   * The loop runs the stream's inserts as a plan: it issues what running
   * the plan issues, ends at an insert exactly when the plan fails, and
   * at an unreadable value exactly when the whole plan succeeds but the
   * stream had one.
   */
  lemma {:induction false} ImportLoopRunsPlan(chunks: seq<UploadChunk>, namespace: string, log: seq<Statement>,
                                              fails: iset<(seq<Statement>, Statement)>)
    ensures var l := ImportLoop(chunks, namespace, log, fails);
            var p := ImportPlan(chunks, namespace);
            var run := RunPlan(p.plan, log, fails);
            l.issued == run.issued && (l.status == InsertFailed <==> !run.ok)
            && (l.status == ReadFailed <==> run.ok && !p.readable)
    decreases |chunks|
  {
    if chunks != [] {
      match ImportStep(chunks[0], namespace)
      case Undecodable =>
      case Skip =>
        ImportLoopRunsPlan(chunks[1..], namespace, log, fails);
      case Insert(s) =>
        var p := ImportPlan(chunks, namespace);
        if (log, s) !in fails {
          ImportLoopRunsPlan(chunks[1..], namespace, log + [s], fails);
          assert p.plan[0] == s && p.plan[1..] == ImportPlan(chunks[1..], namespace).plan;
        } else {
          assert p.plan[0] == s;
        }
    }
  }

  /** What the import leaves in the database and the one reply it writes. */
  datatype ImportResult = ImportResult(tx: TxOutcome, reply: Effect)

  const ImportedRedirect := Redirect(LocalPath("/contacts"), StatusFound)

  /**
   * The import after the upload opened: begin, the loop, then commit only
   * at the clean end of the stream; every other ending leaves the
   * deferred rollback in force.
   */
  function Import(t: Tables, log: seq<Statement>, fails: iset<(seq<Statement>, Statement)>,
                  chunks: seq<UploadChunk>, namespace: string): ImportResult
  {
    if (log, Begin) in fails then
      ImportResult(TxOutcome(t, log + [Begin], false), Error(CouldNotStartTransaction, StatusInternalServerError))
    else
      var l := ImportLoop(chunks, namespace, log + [Begin], fails);
      var issued := log + [Begin] + l.issued;
      match l.status
      case ReadFailed =>
        ImportResult(TxOutcome(t, issued + [Rollback], false), Error(CouldNotReadRequest, StatusInternalServerError))
      case InsertFailed =>
        ImportResult(TxOutcome(t, issued + [Rollback], false), Error(CouldNotInsertIntoDB, StatusInternalServerError))
      case Clean =>
        if (issued, Commit) in fails then
          ImportResult(TxOutcome(t, issued + [Commit], false), Error(CouldNotInsertIntoDB, StatusInternalServerError))
        else ImportResult(TxOutcome(ApplyAll(t, l.issued), issued + [Commit], true), ImportedRedirect)
  }

  /**
   * The import is all or nothing and commits only on a clean end of the
   * stream: it succeeds, redirecting to the contacts, exactly when every
   * value was readable, every insert and the commit passed, and then it
   * has applied every insert of the stream; otherwise no table changed.
   * On a readable stream it is the transaction over the stream's inserts.
   */
  lemma ImportAllOrNothing(t: Tables, log: seq<Statement>, fails: iset<(seq<Statement>, Statement)>,
                           chunks: seq<UploadChunk>, namespace: string)
    ensures var res := Import(t, log, fails, chunks, namespace);
            var p := ImportPlan(chunks, namespace);
            (res.tx.ok <==> res.reply == ImportedRedirect)
            && (res.tx.ok <==> p.readable && Transaction(t, log, fails, p.plan).ok)
            && (res.tx.ok ==> res.tx.tables == ApplyAll(t, p.plan))
            && (!res.tx.ok ==> res.tx.tables == t)
            && (p.readable ==> res.tx == Transaction(t, log, fails, p.plan))
  {
    if (log, Begin) !in fails {
      ImportLoopRunsPlan(chunks, namespace, log + [Begin], fails);
      RunPlanIssues(ImportPlan(chunks, namespace).plan, log + [Begin], fails);
    }
  }

  /** State the import loop keeps: the inserts done so far, then the loop over the rest of the stream. */
  function After(done: seq<Statement>, rest: ImportRun): ImportRun {
    ImportRun(done + rest.issued, rest.status)
  }

  /**
   * The import from Begin to the redirect: `HandleCreateUserData` after
   * authorization and after the upload opened.
   */
  method ImportUpload(db: Database, w: ResponseWriter, chunks: seq<UploadChunk>, namespace: string)
    requires db.tx.None?
    modifies db, w
    ensures var res := Import(old(db.tables), old(db.log), db.fails, chunks, namespace);
            db.tables == res.tx.tables && db.log == res.tx.log && db.tx.None?
            && w.effects == old(w.effects) + [res.reply]
  {
    var ok := db.Begin();
    if !ok {
      w.Error(CouldNotStartTransaction, StatusInternalServerError);
      return;
    }
    ghost var t0, l0, f := db.tables, db.log, db.fails;
    ghost var whole := ImportLoop(chunks, namespace, l0, f);
    ghost var done: seq<Statement> := [];
    assert chunks[0..] == chunks;
    var i := 0;
    while i < |chunks|
      invariant 0 <= i <= |chunks|
      invariant db.tx == Some(t0) && db.log == l0 + done && db.tables == ApplyAll(t0, done)
      invariant whole == After(done, ImportLoop(chunks[i..], namespace, l0 + done, f))
      invariant w.effects == old(w.effects)
    {
      ImportLoopStep(chunks, i, namespace, l0 + done, f);
      var step := ImportStep(chunks[i], namespace);
      match step {
        case Undecodable =>
          w.Error(CouldNotReadRequest, StatusInternalServerError);
          db.Rollback();
          return;
        case Skip =>
        case Insert(s) =>
          ok := db.Exec(s);
          if !ok {
            w.Error(CouldNotInsertIntoDB, StatusInternalServerError);
            db.Rollback();
            return;
          }
          ghost var rest := ImportLoop(chunks[i + 1..], namespace, l0 + done + [s], f);
          assert done + ([s] + rest.issued) == (done + [s]) + rest.issued;
          ApplyAllSnoc(t0, done, s);
          done := done + [s];
      }
      i := i + 1;
    }
    assert chunks[i..] == [];
    assert done + [] == done;
    assert whole == ImportRun(done, Clean);
    ok := db.Commit();
    if !ok {
      w.Error(CouldNotInsertIntoDB, StatusInternalServerError);
      db.Rollback();
      return;
    }
    w.Redirect(LocalPath("/contacts"), StatusFound);
    db.Rollback();
  }

  /** Applying one more statement after a sequence of them. */
  lemma {:induction false} ApplyAllSnoc(t: Tables, ss: seq<Statement>, s: Statement)
    ensures ApplyAll(t, ss + [s]) == Apply(ApplyAll(t, ss), s)
    decreases |ss|
  {
    if ss == [] {
      assert [] + [s] == [s];
    } else {
      assert (ss + [s])[1..] == ss[1..] + [s];
      ApplyAllSnoc(Apply(t, ss[0]), ss[1..], s);
    }
  }

  /**
   * HandleCreateUserData: after authorization, an upload that cannot be
   * opened is a 500; otherwise the import runs and writes its one reply.
   */
  method HandleCreateUserData(cfg: Config, w: ResponseWriter, r: Request, idp: IdentityProvider, db: Database)
    requires db.tx.None?
    modifies w, idp, db
    ensures var d := Decide(cfg, r, idp.verifier, idp.refreshGrant);
            idp.calls == old(idp.calls) + d.calls && db.tx.None?
            && (!Proceeds(d.result) || r.upload.None? ==> db.tables == old(db.tables) && db.log == old(db.log))
            && (!Proceeds(d.result) ==> w.effects == old(w.effects) + d.effects + Refusal(d))
            && (Proceeds(d.result) && r.upload.None? ==>
                  w.effects == old(w.effects) + d.effects + [Error(CouldNotReadRequest, StatusInternalServerError)])
            && (Proceeds(d.result) && r.upload.Some? ==>
                  var res := Import(old(db.tables), old(db.log), db.fails, r.upload.value, d.result.user.email);
                  db.tables == res.tx.tables && db.log == res.tx.log && w.effects == old(w.effects) + d.effects + [res.reply])
  {
    var proceed, user := Gate(cfg, w, r, idp);
    if !proceed {
      return;
    }
    if r.upload.None? {
      w.Error(CouldNotReadRequest, StatusInternalServerError);
      return;
    }
    ImportUpload(db, w, r.upload.value, user.email);
  }

  // ---------------------------------------------------------------------
  // Export, then import
  // ---------------------------------------------------------------------

  /** The value the decoder reads back for one JSON line the export wrote. */
  function Decoded(line: Effect): UploadChunk {
    match line
    case WriteJson(rec) =>
      var ident := Some(ExportedEntityIdentifier(rec.EntityName()));
      (match rec
       case JournalEntryRecord(e) => Value(RawValue(ident, Some(e), None, None, None))
       case ContactRecord(c) => Value(RawValue(ident, None, Some(c), None, None))
       case DebtRecord(d) => Value(RawValue(ident, None, None, Some(d), None))
       case ActivityRecord(a) => Value(RawValue(ident, None, None, None, Some(a))))
    case _ => Malformed
  }

  /** The stream an exported body is read back as. */
  function Reread(lines: seq<Effect>): (cs: seq<UploadChunk>)
    ensures |cs| == |lines|
    decreases |lines|
  {
    if lines == [] then [] else [Decoded(lines[0])] + Reread(lines[1..])
  }

  /** The insert the import issues for an exported record. */
  function InsertOf(rec: ExportedRecord, namespace: string): Statement {
    match rec
    case JournalEntryRecord(e) => InsertJournalEntry(namespace, JournalEntryRow(e))
    case ContactRecord(c) => InsertContact(namespace, ContactRow(c))
    case DebtRecord(d) => InsertDebt(namespace, DebtRow(d))
    case ActivityRecord(a) => InsertActivity(namespace, ActivityRow(a))
  }

  function InsertsOf(recs: seq<ExportedRecord>, namespace: string): (ss: seq<Statement>)
    ensures |ss| == |recs|
    decreases |recs|
  {
    if recs == [] then [] else [InsertOf(recs[0], namespace)] + InsertsOf(recs[1..], namespace)
  }

  /** A line the export's callbacks wrote is read back by the import as the insert of its record. */
  lemma ImportStepOfExportedLine(rec: ExportedRecord, namespace: string)
    ensures ImportStep(Decoded(WriteJson(Tagged(rec))), namespace) == Insert(InsertOf(rec, namespace))
  {
    assert EntityNameExportedJournalEntry[0] == 'j' && EntityNameExportedContact[0] == 'c';
    assert EntityNameExportedDebt[0] == 'd' && EntityNameExportedActivity[0] == 'a';
  }

  /** Reading an export back plans one insert per exported record, in order, and nothing is unreadable. */
  lemma {:induction false} ReimportPlan(recs: seq<ExportedRecord>, namespace: string)
    ensures ImportPlan(Reread(Lines(recs)), namespace) == Planned(InsertsOf(recs, namespace), true)
    decreases |recs|
  {
    if recs != [] {
      ImportStepOfExportedLine(recs[0], namespace);
      ReimportPlan(recs[1..], namespace);
      var cs := Reread(Lines(recs));
      assert cs[0] == Decoded(WriteJson(Tagged(recs[0])));
      assert cs[1..] == Reread(Lines(recs[1..]));
    }
  }

  /** The rows of each kind that a sequence of exported records holds. */
  datatype Rows = Rows(journalEntries: seq<JournalEntry>, contacts: seq<Contact>, debts: seq<Debt>, activities: seq<Activity>)

  function Concat(a: Rows, b: Rows): Rows {
    Rows(a.journalEntries + b.journalEntries, a.contacts + b.contacts, a.debts + b.debts, a.activities + b.activities)
  }

  const NoRows := Rows([], [], [], [])

  /** The row an exported record holds, under its kind. */
  function RowOf(rec: ExportedRecord): Rows {
    match rec
    case JournalEntryRecord(e) => NoRows.(journalEntries := [JournalEntryRow(e)])
    case ContactRecord(c) => NoRows.(contacts := [ContactRow(c)])
    case DebtRecord(d) => NoRows.(debts := [DebtRow(d)])
    case ActivityRecord(a) => NoRows.(activities := [ActivityRow(a)])
  }

  function RowsOf(recs: seq<ExportedRecord>): Rows
    decreases |recs|
  {
    if recs == [] then NoRows else Concat(RowOf(recs[0]), RowsOf(recs[1..]))
  }

  lemma {:induction false} RowsOfAppend(a: seq<ExportedRecord>, b: seq<ExportedRecord>)
    ensures RowsOf(a + b) == Concat(RowsOf(a), RowsOf(b))
    decreases |a|
  {
    if a == [] {
      assert a + b == b;
      assert Concat(NoRows, RowsOf(b)) == RowsOf(b);
    } else {
      assert (a + b)[0] == a[0] && (a + b)[1..] == a[1..] + b;
      RowsOfAppend(a[1..], b);
      ConcatAssoc(RowOf(a[0]), RowsOf(a[1..]), RowsOf(b));
    }
  }

  /** The rows a namespace owns, table by table. */
  function Holdings(t: Tables, namespace: string): Rows {
    Rows(Owned(t.journalEntries, namespace), Owned(t.contacts, namespace), Owned(t.debts, namespace), Owned(t.activities, namespace))
  }

  /** One insert of the import appends its record's row to the namespace and leaves every other namespace alone. */
  lemma InsertOfAppendsRow(u: Tables, rec: ExportedRecord, namespace: string, other: string)
    ensures Holdings(Apply(u, InsertOf(rec, namespace)), namespace) == Concat(Holdings(u, namespace), RowOf(rec))
    ensures other != namespace ==> Holdings(Apply(u, InsertOf(rec, namespace)), other) == Holdings(u, other)
  {
  }

  /** Applying the inserts of some records appends each record's row to its kind's table of the namespace. */
  lemma {:induction false} InsertsAppendRows(u: Tables, recs: seq<ExportedRecord>, namespace: string)
    ensures Holdings(ApplyAll(u, InsertsOf(recs, namespace)), namespace) == Concat(Holdings(u, namespace), RowsOf(recs))
    decreases |recs|
  {
    var h := Holdings(u, namespace);
    if recs != [] {
      var u1 := Apply(u, InsertOf(recs[0], namespace));
      InsertsCons(u, recs, namespace);
      InsertOfAppendsRow(u, recs[0], namespace, namespace);
      InsertsAppendRows(u1, recs[1..], namespace);
      ConcatAssoc(h, RowOf(recs[0]), RowsOf(recs[1..]));
    } else {
      assert Concat(h, NoRows) == h;
    }
  }

  /** The inserts of some records touch no namespace but the importing one. */
  lemma {:induction false} InsertsKeepOthers(u: Tables, recs: seq<ExportedRecord>, namespace: string, other: string)
    requires other != namespace
    ensures Holdings(ApplyAll(u, InsertsOf(recs, namespace)), other) == Holdings(u, other)
    decreases |recs|
  {
    if recs != [] {
      var u1 := Apply(u, InsertOf(recs[0], namespace));
      InsertsCons(u, recs, namespace);
      InsertOfAppendsRow(u, recs[0], namespace, other);
      InsertsKeepOthers(u1, recs[1..], namespace, other);
    }
  }

  lemma InsertsCons(u: Tables, recs: seq<ExportedRecord>, namespace: string)
    requires recs != []
    ensures ApplyAll(u, InsertsOf(recs, namespace)) == ApplyAll(Apply(u, InsertOf(recs[0], namespace)), InsertsOf(recs[1..], namespace))
  {
    var ss := InsertsOf(recs, namespace);
    assert ss[0] == InsertOf(recs[0], namespace) && ss[1..] == InsertsOf(recs[1..], namespace);
  }

  lemma ConcatAssoc(a: Rows, b: Rows, c: Rows)
    ensures Concat(Concat(a, b), c) == Concat(a, Concat(b, c))
  {
  }

  /** The rows of the exported journal entries are the journal entries. */
  lemma {:induction false} JournalEntryRecordsRows(rows: seq<JournalEntry>, namespace: string)
    ensures RowsOf(JournalEntryRecords(rows, namespace)) == Rows(rows, [], [], [])
    decreases |rows|
  {
    if rows != [] {
      JournalEntryRecordsRows(rows[1..], namespace);
      assert JournalEntryRecords(rows, namespace)[1..] == JournalEntryRecords(rows[1..], namespace);
      assert [rows[0]] + rows[1..] == rows;
    }
  }

  lemma {:induction false} ContactRecordsRows(rows: seq<Contact>, namespace: string)
    ensures RowsOf(ContactRecords(rows, namespace)) == Rows([], rows, [], [])
    decreases |rows|
  {
    if rows != [] {
      ContactRecordsRows(rows[1..], namespace);
      assert ContactRecords(rows, namespace)[1..] == ContactRecords(rows[1..], namespace);
      assert [rows[0]] + rows[1..] == rows;
    }
  }

  lemma {:induction false} DebtRecordsRows(rows: seq<Debt>)
    ensures RowsOf(DebtRecords(rows)) == Rows([], [], rows, [])
    decreases |rows|
  {
    if rows != [] {
      DebtRecordsRows(rows[1..]);
      assert DebtRecords(rows)[1..] == DebtRecords(rows[1..]);
      assert [rows[0]] + rows[1..] == rows;
    }
  }

  lemma {:induction false} ActivityRecordsRows(rows: seq<Activity>)
    ensures RowsOf(ActivityRecords(rows)) == Rows([], [], [], rows)
    decreases |rows|
  {
    if rows != [] {
      ActivityRecordsRows(rows[1..]);
      assert ActivityRecords(rows)[1..] == ActivityRecords(rows[1..]);
      assert [rows[0]] + rows[1..] == rows;
    }
  }

  /** A clean export holds exactly the namespace's rows of every kind. */
  lemma ExportedRows(t: Tables, namespace: string)
    ensures RowsOf(AllRecords(t, ExportQueries(namespace))) == Holdings(t, namespace)
  {
    var je := JournalEntryRecords(Owned(t.journalEntries, namespace), namespace);
    var cs := ContactRecords(Owned(t.contacts, namespace), namespace);
    var ds := DebtRecords(Owned(t.debts, namespace));
    var acts := ActivityRecords(Owned(t.activities, namespace));
    ExportRecordsInOrder(t, namespace);
    RowsOfAppend(je, cs + (ds + acts));
    RowsOfAppend(cs, ds + acts);
    RowsOfAppend(ds, acts);
    JournalEntryRecordsRows(Owned(t.journalEntries, namespace), namespace);
    ContactRecordsRows(Owned(t.contacts, namespace), namespace);
    DebtRecordsRows(Owned(t.debts, namespace));
    ActivityRecordsRows(Owned(t.activities, namespace));
  }

  /**
   * Round trip: reading back a clean export of one namespace into any
   * namespace appends, to each of that namespace's tables, exactly the
   * exported namespace's rows of that kind, in order, and touches no
   * other namespace.
   */
  lemma ExportThenImport(t: Tables, namespace: string, u: Tables, target: string)
    ensures var p := ImportPlan(Reread(Lines(AllRecords(t, ExportQueries(namespace)))), target);
            var r := ApplyAll(u, p.plan);
            p.readable && Holdings(r, target) == Concat(Holdings(u, target), Holdings(t, namespace))
            && forall ns :: ns != target ==> Holdings(r, ns) == Holdings(u, ns)
  {
    var recs := AllRecords(t, ExportQueries(namespace));
    ReimportPlan(recs, target);
    ExportedRows(t, namespace);
    InsertsAppendRows(u, recs, target);
    forall ns | ns != target
      ensures Holdings(ApplyAll(u, InsertsOf(recs, target)), ns) == Holdings(u, ns)
    {
      InsertsKeepOthers(u, recs, target, ns);
    }
  }

  // ---------------------------------------------------------------------
  // Delete all
  // ---------------------------------------------------------------------

  /**
   * HandleDeleteUserData: after authorization, the delete-all transaction
   * over the user's namespace; success sends the browser to the
   * provider's logout URL, failure is a 500.
   */
  method HandleDeleteUserData(cfg: Config, w: ResponseWriter, r: Request, idp: IdentityProvider, db: Database)
    requires db.tx.None?
    modifies w, idp, db
    ensures var d := Decide(cfg, r, idp.verifier, idp.refreshGrant);
            idp.calls == old(idp.calls) + d.calls && db.tx.None?
            && (!Proceeds(d.result) ==> w.effects == old(w.effects) + d.effects + Refusal(d)
                                        && db.tables == old(db.tables) && db.log == old(db.log))
            && (Proceeds(d.result) ==>
                  var o := Transaction(old(db.tables), old(db.log), db.fails, DeleteUserDataPlan(d.result.user.email));
                  db.tables == o.tables && db.log == o.log
                  && w.effects == old(w.effects) + d.effects
                                  + [if o.ok then Redirect(Absolute(d.result.user.logoutURL), StatusFound)
                                     else Error(CouldNotDeleteFromDB, StatusInternalServerError)])
  {
    var proceed, user := Gate(cfg, w, r, idp);
    if !proceed {
      return;
    }
    var ok := DeleteUserData(db, user.email);
    if !ok {
      w.Error(CouldNotDeleteFromDB, StatusInternalServerError);
      return;
    }
    w.Redirect(Absolute(user.logoutURL), StatusFound);
  }
}
