/**
 * The callbacks the export handler gives the persister: each tags the
 * record with the discriminator of its kind and encodes it as one JSON
 * line on the response.
 */
module UserDataExport {
  import opened UserDataModels
  import opened Http

  const EntityNameExportedJournalEntry := "journalEntry"
  const EntityNameExportedContact := "contact"
  const EntityNameExportedDebt := "debt"
  const EntityNameExportedActivity := "activity"

  /** The discriminator of a record's kind. */
  function KindName(rec: ExportedRecord): string {
    match rec
    case JournalEntryRecord(_) => EntityNameExportedJournalEntry
    case ContactRecord(_) => EntityNameExportedContact
    case DebtRecord(_) => EntityNameExportedDebt
    case ActivityRecord(_) => EntityNameExportedActivity
  }

  /** The record as the callback encodes it: only its discriminator changes. */
  function Tagged(rec: ExportedRecord): (r: ExportedRecord)
    ensures r.EntityName() == KindName(rec)
  {
    rec.WithEntityName(KindName(rec))
  }

  /** The four kinds carry four different discriminators. */
  lemma {:induction false} KindNamesDistinct(a: ExportedRecord, b: ExportedRecord)
    ensures KindName(a) == KindName(b) <==>
              (a.JournalEntryRecord? && b.JournalEntryRecord?) || (a.ContactRecord? && b.ContactRecord?)
              || (a.DebtRecord? && b.DebtRecord?) || (a.ActivityRecord? && b.ActivityRecord?)
  {
    assert EntityNameExportedJournalEntry[0] == 'j' && EntityNameExportedContact[0] == 'c';
    assert EntityNameExportedDebt[0] == 'd' && EntityNameExportedActivity[0] == 'a';
  }

  /** The lines that encode a sequence of records, one per record, in order. */
  function Lines(recs: seq<ExportedRecord>): (ls: seq<Effect>)
    ensures |ls| == |recs|
    decreases |recs|
  {
    if recs == [] then [] else [WriteJson(Tagged(recs[0]))] + Lines(recs[1..])
  }

  /** The i-th line encodes the i-th record, tagged with its kind. */
  lemma {:induction false} LinesAt(recs: seq<ExportedRecord>, i: nat)
    requires i < |recs|
    ensures Lines(recs)[i] == WriteJson(Tagged(recs[i]))
    ensures Lines(recs)[i].record.EntityName() == KindName(recs[i])
    decreases i
  {
    if i > 0 {
      LinesAt(recs[1..], i - 1);
    }
  }

  lemma {:induction false} LinesAppend(a: seq<ExportedRecord>, b: seq<ExportedRecord>)
    ensures Lines(a + b) == Lines(a) + Lines(b)
    decreases |a|
  {
    if a == [] {
      assert a + b == b;
    } else {
      assert (a + b)[1..] == a[1..] + b;
      LinesAppend(a[1..], b);
    }
  }

  /** One export callback: tag the record and encode it on the response. */
  method Emit(w: ResponseWriter, rec: ExportedRecord) returns (ok: bool)
    modifies w
    ensures ok == (old(w.effects) !in w.writeFails)
    ensures w.effects == old(w.effects) + (if ok then [WriteJson(Tagged(rec))] else [])
  {
    ok := w.WriteJson(Tagged(rec));
  }

  /** What emitting records one by one writes, stopping at the first write that fails. */
  datatype Emission = Emission(written: seq<Effect>, ok: bool)

  function EmitLines(recs: seq<ExportedRecord>, before: seq<Effect>, writeFails: iset<seq<Effect>>): Emission
    decreases |recs|
  {
    if recs == [] then Emission([], true)
    else if before in writeFails then Emission([], false)
    else
      var line := WriteJson(Tagged(recs[0]));
      var rest := EmitLines(recs[1..], before + [line], writeFails);
      Emission([line] + rest.written, rest.ok)
  }

  /**
   * What is written is the records' lines up to the one whose write
   * failed; a clean run writes all of them.
   */
  lemma {:induction false} EmitLinesWrites(recs: seq<ExportedRecord>, before: seq<Effect>, writeFails: iset<seq<Effect>>)
    ensures var e := EmitLines(recs, before, writeFails);
            |e.written| <= |recs| && e.written == Lines(recs)[..|e.written|]
            && (e.ok ==> e.written == Lines(recs))
            && (!e.ok ==> |e.written| < |recs| && (before + e.written) in writeFails)
    decreases |recs|
  {
    if recs != [] && before !in writeFails {
      var line := WriteJson(Tagged(recs[0]));
      var rest := EmitLines(recs[1..], before + [line], writeFails);
      EmitLinesWrites(recs[1..], before + [line], writeFails);
      assert ([line] + Lines(recs[1..]))[..1 + |rest.written|] == [line] + Lines(recs[1..])[..|rest.written|];
      assert before + [line] + rest.written == before + ([line] + rest.written);
    } else if recs != [] {
      assert before + [] == before;
    }
  }

  /** Emitting from record i on, when the write of record i succeeds. */
  lemma EmitLinesStep(recs: seq<ExportedRecord>, i: nat, before: seq<Effect>, writeFails: iset<seq<Effect>>)
    requires i < |recs| && before !in writeFails
    ensures var line := WriteJson(Tagged(recs[i]));
            var rest := EmitLines(recs[i + 1..], before + [line], writeFails);
            EmitLines(recs[i..], before, writeFails) == Emission([line] + rest.written, rest.ok)
  {
    assert recs[i..][1..] == recs[i + 1..];
  }
}
