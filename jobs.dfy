/** The job listing handler (main.py, list_jobs): query the `job`
    collection with the search filter, keep at most 100 records, serialise
    each one, and fall back to an empty list whenever the store is missing,
    unconfigured or fails. */
module Jobs {
  import opened Values
  import opened JobQuery
  import opened Store
  import opened Serialize

  const JobCollection: string := "job"
  const MaxItems: nat := 100

  /** list_jobs: the `items` of the response. */
  method ListJobs(c: Collaborator, q: Option<string>, location: Option<string>,
                  toStr: Value -> string)
    returns (items: seq<Value>)
    // never more than the cap
    ensures |items| <= MaxItems
    // fail open: no module, an import error or no handle give the empty list
    ensures !c.Handle? ==> items == []
    // so does any error while querying
    ensures c.Handle? && c.db.find(JobCollection, BuildQuery(q, location)).FindRaises? ==>
              items == []
    // otherwise: the first 100 matches of the filter, each serialised, in order
    ensures c.Handle? && c.db.find(JobCollection, BuildQuery(q, location)).Found? ==>
              var docs := Prefix(c.db.find(JobCollection, BuildQuery(q, location)).cursor, MaxItems);
              |items| == |docs| &&
              forall i :: 0 <= i < |items| ==> items[i] == SerializeJob(docs[i], toStr)
    // no record leaves with its storage key
    ensures forall i :: 0 <= i < |items| && items[i].Obj? ==> StorageKey !in items[i].fields
  {
    items := [];
    match c {
      case Handle(db) =>
        var query := BuildQuery(q, location);
        match db.find(JobCollection, query) {
          case Found(cursor) =>
            var docs := Prefix(cursor, MaxItems);
            // the list comprehension, one record at a time; its result
            // replaces `items` only once it is complete
            var serialized := [];
            for i := 0 to |docs|
              invariant |serialized| == i
              invariant forall j :: 0 <= j < i ==> serialized[j] == SerializeJob(docs[j], toStr)
            {
              serialized := serialized + [SerializeJob(docs[i], toStr)];
            }
            items := serialized;
          case FindRaises(_) =>
            items := [];
        }
      case Unconfigured =>
        items := [];
      case _ =>
        // the import raised: caught by the handler's `except Exception`
        items := [];
    }
  }
}
