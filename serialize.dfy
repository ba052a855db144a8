/** Turning a stored job record into its public form: the storage key
    `_id` is removed and, when it held a value, that value's text is
    published under the key `id` (main.py, serialize_job). */
module Serialize {
  import opened Values

  const StorageKey: string := "_id"
  const PublicKey: string := "id"

  /** The record carries a storage identity that is not `None`. */
  predicate HasStorageId(fields: map<string, Value>)
  {
    StorageKey in fields && fields[StorageKey] != Null
  }

  /** serialize_job. `toStr` stands for Python's `str` on the identity
      object. Values are immutable here, so the caller's record is never
      changed; the source gets the same effect by working on a copy. */
  function SerializeJob(doc: Value, toStr: Value -> string): (r: Value)
    // anything that is not a record comes back as it is
    ensures !doc.Obj? ==> r == doc
    ensures doc.Obj? ==> r.Obj?
    // the storage key never survives
    ensures doc.Obj? ==> StorageKey !in r.fields
    // a present, non-None identity is published as text under `id`
    ensures doc.Obj? && HasStorageId(doc.fields) ==>
              PublicKey in r.fields && r.fields[PublicKey] == Str(toStr(doc.fields[StorageKey]))
    // otherwise `id` is exactly as it was, present or absent
    ensures doc.Obj? && !HasStorageId(doc.fields) ==>
              (PublicKey in r.fields <==> PublicKey in doc.fields) &&
              (PublicKey in doc.fields ==> r.fields[PublicKey] == doc.fields[PublicKey])
    // every other key keeps its value, and no other key appears
    ensures doc.Obj? ==>
              forall k :: k != StorageKey && k != PublicKey ==>
                (k in r.fields <==> k in doc.fields) &&
                (k in doc.fields ==> r.fields[k] == doc.fields[k])
  {
    match doc
    case Obj(fields) =>
      var d := fields - {StorageKey};
      if HasStorageId(fields) then Obj(d[PublicKey := Str(toStr(fields[StorageKey]))])
      else Obj(d)
    case _ => doc
  }

  /** A record that holds no storage key is returned unchanged. */
  lemma NoStorageKeyUnchanged(doc: Value, toStr: Value -> string)
    requires doc.Obj? && StorageKey !in doc.fields
    ensures SerializeJob(doc, toStr) == doc
  {
  }

  /** Serialising a public record again changes nothing. */
  lemma SerializeJobIdempotent(doc: Value, toStr: Value -> string)
    ensures SerializeJob(SerializeJob(doc, toStr), toStr) == SerializeJob(doc, toStr)
  {
  }
}
