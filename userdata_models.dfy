/**
 * The records of the user-data export format: one JSON object per line,
 * each carrying an `entityName` discriminator next to its own fields.
 */
module UserDataModels {
  import opened GoLib

  /** The discriminator every exported line carries. */
  datatype ExportedEntityIdentifier = ExportedEntityIdentifier(entityName: string)

  datatype ExportedJournalEntry = ExportedJournalEntry(
    identifier: ExportedEntityIdentifier,
    id: Int32,
    title: string,
    date: Time,
    body: string,
    rating: Int32,
    namespace: string)

  datatype ExportedContact = ExportedContact(
    identifier: ExportedEntityIdentifier,
    id: Int32,
    firstName: string,
    lastName: string,
    nickname: string,
    email: string,
    pronouns: string,
    namespace: string,
    birthday: NullTime,
    address: string,
    notes: string)

  datatype ExportedDebt = ExportedDebt(
    identifier: ExportedEntityIdentifier,
    id: Int32,
    amount: Float64,
    currency: string,
    description: string,
    contactId: NullInt32)

  datatype ExportedActivity = ExportedActivity(
    identifier: ExportedEntityIdentifier,
    id: Int32,
    name: string,
    date: Time,
    description: string,
    contactId: NullInt32)

  /** One line of the export stream. */
  datatype ExportedRecord =
    | JournalEntryRecord(journalEntry: ExportedJournalEntry)
    | ContactRecord(contact: ExportedContact)
    | DebtRecord(debt: ExportedDebt)
    | ActivityRecord(activity: ExportedActivity)
  {
    function EntityName(): string {
      match this
      case JournalEntryRecord(e) => e.identifier.entityName
      case ContactRecord(c) => c.identifier.entityName
      case DebtRecord(d) => d.identifier.entityName
      case ActivityRecord(a) => a.identifier.entityName
    }

    /** The same record with its discriminator replaced. */
    function WithEntityName(name: string): (r: ExportedRecord)
      ensures r.EntityName() == name
      ensures r.JournalEntryRecord? == JournalEntryRecord? && r.ContactRecord? == ContactRecord?
              && r.DebtRecord? == DebtRecord? && r.ActivityRecord? == ActivityRecord?
    {
      var id := ExportedEntityIdentifier(name);
      match this
      case JournalEntryRecord(e) => JournalEntryRecord(e.(identifier := id))
      case ContactRecord(c) => ContactRecord(c.(identifier := id))
      case DebtRecord(d) => DebtRecord(d.(identifier := id))
      case ActivityRecord(a) => ActivityRecord(a.(identifier := id))
    }
  }
}
