/** The search filter that the job listing sends to the document store
    (main.py, list_jobs lines 46-56). Only its structure is modelled: the
    matching itself is done by the store. */
module JobQuery {
  import opened Values

  /** One `{field: {"$regex": pattern, "$options": "i"}}` condition. */
  datatype Clause = Clause(field: string, pattern: string, caseInsensitive: bool)

  /** `{}` (match every record) or `{"$or": clauses}`. */
  datatype Query = MatchAll | AnyOf(clauses: seq<Clause>)

  /** The fields the general search term is matched against, in order. */
  const TextFields: seq<string> := ["title", "company", "description"]
  const LocationField: string := "location"

  /** The filters list, built by successive appends: three clauses for a
      search term, then one for a location. */
  function SearchClauses(q: Option<string>, location: Option<string>): (cs: seq<Clause>)
    ensures |cs| == (if Truthy(q) then 3 else 0) + (if Truthy(location) then 1 else 0)
    ensures forall i :: 0 <= i < |cs| ==> cs[i].caseInsensitive
    ensures Truthy(q) ==>
              forall i :: 0 <= i < 3 ==> cs[i] == Clause(TextFields[i], q.value, true)
    ensures Truthy(location) ==> cs[|cs| - 1] == Clause(LocationField, location.value, true)
  {
    var termClauses :=
      if Truthy(q) then seq(|TextFields|, i requires 0 <= i < |TextFields| => Clause(TextFields[i], q.value, true))
      else [];
    var locationClauses :=
      if Truthy(location) then [Clause(LocationField, location.value, true)] else [];
    termClauses + locationClauses
  }

  /** The query: `$or` over the filters when there are any, else match all. */
  function BuildQuery(q: Option<string>, location: Option<string>): (query: Query)
    ensures query == MatchAll <==> !Truthy(q) && !Truthy(location)
    ensures query.AnyOf? ==> query.clauses == SearchClauses(q, location) && query.clauses != []
  {
    var filters := SearchClauses(q, location);
    if filters != [] then AnyOf(filters) else MatchAll
  }

  /** How many conditions a query holds. */
  function ClauseCount(query: Query): (n: nat)
  {
    match query
    case MatchAll => 0
    case AnyOf(cs) => |cs|
  }

  /** A query holds 0, 1, 3 or 4 conditions, and `$or` appears exactly when
      it holds any. */
  lemma ClauseCountShape(q: Option<string>, location: Option<string>)
    ensures ClauseCount(BuildQuery(q, location)) in {0, 1, 3, 4}
    ensures BuildQuery(q, location).AnyOf? <==> ClauseCount(BuildQuery(q, location)) != 0
  {
  }

  /** Every condition on a text field searches for the search term, and the
      condition on the location field searches for the location. */
  lemma ClausesUseTheirTerm(q: Option<string>, location: Option<string>, i: nat)
    requires i < |SearchClauses(q, location)|
    ensures var c := SearchClauses(q, location)[i];
            (c.field in TextFields ==> Truthy(q) && c.pattern == q.value) &&
            (c.field == LocationField ==> Truthy(location) && c.pattern == location.value)
  {
  }

  /** The query as the store receives it. */
  function ToDocument(query: Query): (doc: Value)
    ensures doc.Obj?
    ensures query.MatchAll? ==> doc.fields == map[]
    ensures query.AnyOf? ==>
              doc.fields.Keys == {"$or"} && doc.fields["$or"].Arr? &&
              |doc.fields["$or"].items| == |query.clauses|
  {
    match query
    case MatchAll => Obj(map[])
    case AnyOf(cs) => Obj(map["$or" := Arr(seq(|cs|, i requires 0 <= i < |cs| => ClauseDocument(cs[i])))])
  }

  /** `{field: {"$regex": pattern, "$options": "i"}}`. */
  function ClauseDocument(c: Clause): (doc: Value)
    // a one-key document on the clause's field ...
    ensures doc.Obj? && doc.fields.Keys == {c.field}
    // ... holding the pattern under `$regex` and the flag under `$options`
    ensures var cond := doc.fields[c.field];
            cond.Obj? && cond.fields.Keys == {"$regex", "$options"} &&
            cond.fields["$regex"] == Str(c.pattern) &&
            (cond.fields["$options"] == Str("i") <==> c.caseInsensitive)
  {
    Obj(map[c.field := Obj(map["$regex" := Str(c.pattern),
                               "$options" := Str(if c.caseInsensitive then "i" else "")])])
  }

  /** Reading a clause back from its document: the partner of
      `ClauseDocument`, used to show that the encoding loses nothing. */
  ghost function ClauseFromDocument(v: Value): Option<Clause>
  {
    if v.Obj? && |v.fields| == 1 then
      var field :| field in v.fields;
      var cond := v.fields[field];
      if cond.Obj? && cond.fields.Keys == {"$regex", "$options"}
         && cond.fields["$regex"].Str? && cond.fields["$options"].Str?
         && cond.fields["$options"].s in {"i", ""}
      then Some(Clause(field, cond.fields["$regex"].s, cond.fields["$options"].s == "i"))
      else None
    else None
  }

  /** Reading a query back from the document the store receives. */
  ghost function QueryFromDocument(doc: Value): Option<Query>
  {
    if doc == Obj(map[]) then Some(MatchAll)
    else if doc.Obj? && doc.fields.Keys == {"$or"} && doc.fields["$or"].Arr?
            && forall v :: v in doc.fields["$or"].items ==> ClauseFromDocument(v).Some?
    then
      var items := doc.fields["$or"].items;
      Some(AnyOf(seq(|items|, i requires 0 <= i < |items| => ClauseFromDocument(items[i]).value)))
    else None
  }

  lemma ClauseDocumentRoundTrip(c: Clause)
    ensures ClauseFromDocument(ClauseDocument(c)) == Some(c)
  {
  }

  /** The document sent to the store determines the query: different
      queries never reach the store as the same document. */
  lemma ToDocumentRoundTrip(query: Query)
    ensures QueryFromDocument(ToDocument(query)) == Some(query)
  {
    match query
    case MatchAll =>
    case AnyOf(cs) =>
      var doc := ToDocument(query);
      var items := doc.fields["$or"].items;
      assert "$or" in doc.fields && doc != Obj(map[]);
      forall i | 0 <= i < |cs| ensures ClauseFromDocument(items[i]) == Some(cs[i]) {
        assert items[i] == ClauseDocument(cs[i]);
        ClauseDocumentRoundTrip(cs[i]);
      }
      forall v | v in items ensures ClauseFromDocument(v).Some? {
        var i :| 0 <= i < |items| && items[i] == v;
      }
      var decoded := seq(|items|, i requires 0 <= i < |items| => ClauseFromDocument(items[i]).value);
      assert decoded == cs;
  }
}
