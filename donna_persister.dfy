/**
 * The persister of the earlier revision as its handlers see it: every
 * method is one generated SQL query whose text is not part of this
 * model, so the persister records the calls made (with their arguments,
 * which carry the namespace) and answers them from fixed oracles.
 */
module DonnaPersister {
  import opened Wrappers
  import opened GoLib
  import opened Http
  import opened Forms

  /** The contact row the earlier revision reads back. */
  datatype ContactRow = ContactRow(id: Int32, firstName: string, lastName: string, nickname: string,
                                   email: string, pronouns: string)

  /** One persister call, with the arguments it forwards to its query. */
  datatype Call =
    | CreateJournalEntry(title: string, body: string, rating: Int32, namespace: string)
    | UpdateJournalEntry(id: Int32, title: string, body: string, rating: Int32, namespace: string)
    | DeleteJournalEntry(id: Int32, namespace: string)
    | CreateContact(firstName: string, lastName: string, nickname: string, email: string,
                    pronouns: string, namespace: string)
    | DeleteContact(id: Int32, namespace: string)
    | GetContact(id: Int32, namespace: string)

  /**
   * A persister whose queries fail for the (calls so far, call) pairs in
   * `fails`; an insert returns the id `assignId` gives the calls before it,
   * and GetContact finds the rows of `contacts`, keyed by id and namespace.
   */
  class Persister {
    var calls: seq<Call>
    const fails: iset<(seq<Call>, Call)>
    const assignId: seq<Call> -> Int32
    const contacts: imap<(Int32, string), ContactRow>

    constructor (fails: iset<(seq<Call>, Call)>, assignId: seq<Call> -> Int32, contacts: imap<(Int32, string), ContactRow>)
      ensures calls == [] && this.fails == fails && this.assignId == assignId && this.contacts == contacts
    {
      calls := [];
      this.fails := fails;
      this.assignId := assignId;
      this.contacts := contacts;
    }

    /** A query that returns only an error. */
    method Exec(c: Call) returns (ok: bool)
      requires c.UpdateJournalEntry? || c.DeleteJournalEntry? || c.DeleteContact?
      modifies this
      ensures calls == old(calls) + [c] && ok == ((old(calls), c) !in fails)
    {
      ok := (calls, c) !in fails;
      calls := calls + [c];
    }

    /** An insert that returns the new row's id. */
    method Insert(c: Call) returns (id: Option<Int32>)
      requires c.CreateJournalEntry? || c.CreateContact?
      modifies this
      ensures calls == old(calls) + [c]
      ensures id == if (old(calls), c) in fails then None else Some(assignId(old(calls)))
    {
      id := if (calls, c) in fails then None else Some(assignId(calls));
      calls := calls + [c];
    }

    /** GetContact(id, namespace): the row, or an error when the query fails or finds none. */
    method FetchContact(id: Int32, namespace: string) returns (row: Option<ContactRow>)
      modifies this
      ensures calls == old(calls) + [GetContact(id, namespace)]
      ensures row == if (old(calls), GetContact(id, namespace)) in fails || (id, namespace) !in contacts then None
                     else Some(contacts[(id, namespace)])
    {
      var c := GetContact(id, namespace);
      row := if (calls, c) in fails || (id, namespace) !in contacts then None else Some(contacts[(id, namespace)]);
      calls := calls + [c];
    }
  }

  // ---------------------------------------------------------------------
  // How the form handlers answer a persister call
  // ---------------------------------------------------------------------

  /** What a handler does once the user is signed in: at most one persister call, then one reply. */
  datatype Reply = Reply(call: Option<Call>, effect: Effect)

  function CallsOf(o: Reply): seq<Call> {
    if o.call.Some? then [o.call.value] else []
  }

  /** The reply to an insert: 500 when it fails, else a redirect to the view of the new row. */
  function InsertReply(calls: seq<Call>, fails: iset<(seq<Call>, Call)>, assignId: seq<Call> -> Int32,
                       c: Call, base: string): Effect
  {
    if (calls, c) in fails then Error(CouldNotInsertIntoDB, StatusInternalServerError)
    else Redirect(LocalPath(ViewPath(base, assignId(calls))), StatusFound)
  }

  /** The reply to an update or a delete: 500 with `failure` when it fails, else a redirect to `location`. */
  function ExecReply(calls: seq<Call>, fails: iset<(seq<Call>, Call)>, c: Call, failure: Failure, location: Location): Effect
  {
    if (calls, c) in fails then Error(failure, StatusInternalServerError) else Redirect(location, StatusFound)
  }

  /** Runs an insert and answers it. */
  method InsertAndView(w: ResponseWriter, db: Persister, c: Call, base: string)
    requires c.CreateJournalEntry? || c.CreateContact?
    modifies w, db
    ensures db.calls == old(db.calls) + [c]
    ensures w.effects == old(w.effects) + [InsertReply(old(db.calls), db.fails, db.assignId, c, base)]
  {
    var id := db.Insert(c);
    if id.None? {
      w.Error(CouldNotInsertIntoDB, StatusInternalServerError);
      return;
    }
    w.Redirect(LocalPath(ViewPath(base, id.value)), StatusFound);
  }

  /** Runs an update or a delete and answers it. */
  method ExecAndGo(w: ResponseWriter, db: Persister, c: Call, failure: Failure, location: Location)
    requires c.UpdateJournalEntry? || c.DeleteJournalEntry? || c.DeleteContact?
    modifies w, db
    ensures db.calls == old(db.calls) + [c]
    ensures w.effects == old(w.effects) + [ExecReply(old(db.calls), db.fails, c, failure, location)]
  {
    var ok := db.Exec(c);
    if !ok {
      w.Error(failure, StatusInternalServerError);
      return;
    }
    w.Redirect(location, StatusFound);
  }
}
