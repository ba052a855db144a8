/** The document-store collaborator, as the handlers observe it. The
    handlers import a shared handle at each call. `Collaborator` says how
    that import turns out, and a `Database` says how the calls on the handle
    answer. Exception objects are represented by their text (`str(e)`). */
module Store {
  import opened Values
  import opened JobQuery

  /** Running a query on a collection and reading all its results. */
  datatype FindOutcome =
    | FindRaises(error: string)
    | Found(cursor: seq<Value>)   // every matching record, in the store's order

  /** Enumerating the collection names. */
  datatype ListOutcome =
    | ListRaises(error: string)
    | Listed(names: seq<string>)

  /** A configured handle: its optional `name` attribute, how it answers a
      query on a named collection, and how it answers a listing. */
  datatype Database = Database(
    name: Option<string>,
    find: (string, Query) -> FindOutcome,
    listCollectionNames: ListOutcome)

  /** What `from database import db` yields. For the diagnostic report
      only, which also reads `db.name`: an `ImportError` from that read is
      `ModuleMissing` and any other exception from it is `ImportRaises`. The
      job listing never reads `db.name`, so it sees such a store as a
      `Handle`. */
  datatype Collaborator =
    | ModuleMissing                  // the import raises ImportError
    | ImportRaises(error: string)    // the import raises any other exception
    | Unconfigured                   // the import succeeds and `db` is None
    | Handle(db: Database)
}
