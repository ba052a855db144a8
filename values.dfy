/** JSON-like values as the backend sees them: job records read from the
    document store, and the optional strings it receives as query
    parameters or reads from the environment. */
module Values {

  datatype Option<+T> = None | Some(value: T)

  /** A document-store value. `Null` is Python's `None`; `Id` is a storage
      identity object (the `_id` the store assigns), whose textual form is
      produced by a conversion this model does not see. */
  datatype Value =
    | Null
    | Bool(b: bool)
    | Num(n: int)
    | Str(s: string)
    | Id(raw: nat)
    | Arr(items: seq<Value>)
    | Obj(fields: map<string, Value>)

  /** Python truthiness of an `Optional[str]`: absent and empty are false. */
  predicate Truthy(o: Option<string>)
  {
    o.Some? && o.value != ""
  }

  /** Python's slice `s[:n]`: the first `n` elements, or all of them when
      there are fewer. */
  function Prefix<T>(s: seq<T>, n: nat): (r: seq<T>)
    ensures |r| <= n
    ensures r <= s
    ensures |r| < n ==> r == s
  {
    if |s| <= n then s else s[..n]
  }
}
