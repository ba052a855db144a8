/** The diagnostic endpoint (main.py, test_database): a status report
    assembled field by field, each check guarded separately, ending with
    the presence of two environment variables. It never fails. */
module Diagnostics {
  import opened Values
  import opened Store

  /** The response object. `databaseUrl` and `databaseName` start out as
      `None` and are strings once the report is complete. */
  datatype Report = Report(
    backend: string,
    database: string,
    databaseUrl: Option<string>,
    databaseName: Option<string>,
    connectionStatus: string,
    collections: seq<string>)

  const Running: string := "✅ Running"
  const NotAvailable: string := "❌ Not Available"
  const Available: string := "✅ Available"
  const UrlConfigured: string := "✅ Configured"
  const NameConnected: string := "✅ Connected"
  const Working: string := "✅ Connected & Working"
  const ListingFailed: string := "⚠️  Connected but Error: "
  const NotInitialized: string := "⚠️  Available but not initialized"
  const ModuleNotFound: string := "❌ Database module not found" + EnableHint
  const EnableHint: string := " (run enable-database first)"
  const ImportFailed: string := "❌ Error: "
  const VarSet: string := "✅ Set"
  const VarNotSet: string := "❌ Not Set"

  /** How many collection names are shown. */
  const ShownCollections: nat := 10
  /** How many characters of an error's text are shown. */
  const ShownErrorText: nat := 50

  /** The final `database` status for each outcome of the collaborator. */
  function DatabaseStatus(c: Collaborator): (s: string)
    // an error status is its marker followed by at most 50 characters of
    // the exception's text
    ensures c.ImportRaises? ==>
              ImportFailed <= s && |s| <= |ImportFailed| + ShownErrorText
    ensures c.Handle? && c.db.listCollectionNames.ListRaises? ==>
              ListingFailed <= s && |s| <= |ListingFailed| + ShownErrorText
    // the other outcomes give fixed texts
    ensures c.ModuleMissing? ==> s == ModuleNotFound
    ensures c.Unconfigured? ==> s == NotInitialized
    ensures c.Handle? && c.db.listCollectionNames.Listed? ==> s == Working
  {
    match c
    case ModuleMissing => ModuleNotFound
    case ImportRaises(e) => ImportFailed + Prefix(e, ShownErrorText)
    case Unconfigured => NotInitialized
    case Handle(db) =>
      match db.listCollectionNames
      case Listed(_) => Working
      case ListRaises(e) => ListingFailed + Prefix(e, ShownErrorText)
  }

  /** The status shown for an environment variable: set means present and
      not empty. The value itself is never shown. */
  function VariableStatus(v: Option<string>): (s: string)
    ensures s == VarSet <==> Truthy(v)
    ensures s == VarNotSet <==> !Truthy(v)
  {
    if Truthy(v) then VarSet else VarNotSet
  }

  /** test_database. `urlVar` and `nameVar` are the values of DATABASE_URL
      and DATABASE_NAME in the process environment. */
  method TestDatabase(c: Collaborator, urlVar: Option<string>, nameVar: Option<string>)
    returns (response: Report)
    ensures response.backend == Running
    ensures response.database == DatabaseStatus(c)
    ensures response.connectionStatus == if c.Handle? then "Connected" else "Not Connected"
    // the collections shown are the first ten listed names, and only when listing worked
    ensures |response.collections| <= ShownCollections
    ensures c.Handle? && c.db.listCollectionNames.Listed? ==>
              response.collections == Prefix(c.db.listCollectionNames.names, ShownCollections)
    ensures !(c.Handle? && c.db.listCollectionNames.Listed?) ==> response.collections == []
    // the last two writes win: whatever the database checks wrote before,
    // including the handle's own name, these depend on the environment only
    ensures response.databaseUrl == Some(VariableStatus(urlVar))
    ensures response.databaseName == Some(VariableStatus(nameVar))
  {
    response := Report(Running, NotAvailable, None, None, "Not Connected", []);
    match c {
      case Handle(db) =>
        response := response.(database := Available);
        response := response.(databaseUrl := Some(UrlConfigured));
        response := response.(databaseName := Some(if db.name.Some? then db.name.value else NameConnected));
        response := response.(connectionStatus := "Connected");
        match db.listCollectionNames {
          case Listed(names) =>
            response := response.(collections := Prefix(names, ShownCollections));
            response := response.(database := Working);
          case ListRaises(e) =>
            response := response.(database := ListingFailed + Prefix(e, ShownErrorText));
        }
      case Unconfigured =>
        response := response.(database := NotInitialized);
      case ModuleMissing =>
        response := response.(database := ModuleNotFound);
      case ImportRaises(e) =>
        response := response.(database := ImportFailed + Prefix(e, ShownErrorText));
    }
    response := response.(databaseUrl := Some(VariableStatus(urlVar)));
    response := response.(databaseName := Some(VariableStatus(nameVar)));
  }

  /** Any error text embedded in the status is at most 50 characters. */
  lemma ErrorTextBounded(c: Collaborator)
    ensures c.ImportRaises? ==>
              exists t :: |t| <= ShownErrorText && t <= c.error && DatabaseStatus(c) == ImportFailed + t
    ensures c.Handle? && c.db.listCollectionNames.ListRaises? ==>
              exists t :: |t| <= ShownErrorText && t <= c.db.listCollectionNames.error &&
                           DatabaseStatus(c) == ListingFailed + t
  {
    match c
    case ImportRaises(e) =>
      var t := Prefix(e, ShownErrorText);
      assert DatabaseStatus(c) == ImportFailed + t;
    case Handle(db) =>
      if db.listCollectionNames.ListRaises? {
        var t := Prefix(db.listCollectionNames.error, ShownErrorText);
        assert DatabaseStatus(c) == ListingFailed + t;
      }
    case _ =>
  }

  /** The first five characters of a status, as far as any of them can be
      told apart. */
  function Mark(s: string): (m: string)
  {
    Prefix(s, 5)
  }

  /** The mark of each kind of outcome. */
  lemma MarkOfStatus(c: Collaborator)
    ensures c.ModuleMissing? ==> Mark(DatabaseStatus(c)) == ModuleNotFound[..5]
    ensures c.ImportRaises? ==> Mark(DatabaseStatus(c)) == ImportFailed[..5]
    ensures c.Unconfigured? ==> Mark(DatabaseStatus(c)) == NotInitialized[..5]
    ensures c.Handle? && c.db.listCollectionNames.Listed? ==> Mark(DatabaseStatus(c)) == Working[..5]
    ensures c.Handle? && c.db.listCollectionNames.ListRaises? ==>
              Mark(DatabaseStatus(c)) == ListingFailed[..5]
  {
  }

  /** Every outcome overwrites the initial "not available" status. */
  lemma StatusAlwaysWritten(c: Collaborator)
    ensures DatabaseStatus(c) != NotAvailable
  {
    MarkOfStatus(c);
    assert NotAvailable[2] == 'N';
  }

  /** The status text tells the kinds of failure apart: equal statuses come
      from the same kind of outcome. */
  lemma StatusIdentifiesOutcome(c1: Collaborator, c2: Collaborator)
    requires DatabaseStatus(c1) == DatabaseStatus(c2)
    ensures c1.ModuleMissing? <==> c2.ModuleMissing?
    ensures c1.ImportRaises? <==> c2.ImportRaises?
    ensures c1.Unconfigured? <==> c2.Unconfigured?
    ensures c1.Handle? <==> c2.Handle?
    ensures c1.Handle? && c2.Handle? ==>
              (c1.db.listCollectionNames.Listed? <==> c2.db.listCollectionNames.Listed?)
  {
    MarkOfStatus(c1);
    MarkOfStatus(c2);
    // the five marks differ at the first, third or fifth character
    assert ModuleNotFound[2] == 'D';
    assert ImportFailed[2] == 'E';
    assert NotInitialized[4] == 'A';
    assert ListingFailed[4] == 'C';
    assert Working[0] == '\U{2705}';
    assert ModuleNotFound[0] == '\U{274C}';
    assert ImportFailed[0] == '\U{274C}';
    assert NotInitialized[0] == '\U{26A0}';
    assert ListingFailed[0] == '\U{26A0}';
  }
}
