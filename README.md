# Job board backend: verified model of its request logic

The backend is a small HTTP service with a job listing endpoint and a
diagnostic endpoint, both in front of an optional document store. This
project models the three parts of `main.py` that hold logic of their own,
with the store and the environment reduced to inputs:

- **Record serialisation** (`serialize_job`), in module `Serialize`: the storage
  key `_id` is removed from a job record and, when it held a value that is
  not `None`, that value's text is published under `id`. Anything that is not a
  record is returned as it is. The text of an identity object comes from a
  conversion this model does not see, so it is the parameter `toStr`.
- **Search filter construction** (inside `list_jobs`), in module `JobQuery`: a
  non-empty search term adds three case-insensitive `$regex` conditions on
  `title`, `company` and `description`, in that order. A non-empty location
  adds one on `location` after them. The query is `{"$or": conditions}` when
  there are any conditions, and the match-all `{}` otherwise. `ToDocument`
  gives the dictionary the store receives.
- **Job listing** (`list_jobs`), in module `Jobs`: it queries the `job`
  collection, keeps the first 100 results and serialises each one. When the
  store module is missing, the handle is `None`, or anything raises, it
  returns the empty list.
- **Diagnostic report** (`test_database`), in module `Diagnostics`: the report
  is built field by field over the collaborator's outcome. The outcome is a
  missing module, another import error, a `None` handle, a listing that raises,
  or a listing that succeeds. The last two writes set `database_url` and
  `database_name` from the presence of `DATABASE_URL` and `DATABASE_NAME`.

The store is the datatype `Store.Collaborator`. It has one constructor for each
way the `from database import db` import can turn out. The diagnostic report
also reads `db.name`. For that report only, an `ImportError` from the read is the
`ModuleMissing` outcome and any other exception from it is `ImportRaises`.
The job listing never reads `db.name`, so it sees such a store as a `Handle`.
A configured handle has
an optional `name`, a `find` function from a collection name and a query to
the records it yields or an error, and the outcome of listing collection names.
Exceptions are represented by their text, because the handlers use only
`str(e)`.

Three behaviours of the code are worth knowing, because a reader might
expect otherwise:
- The diagnostic report never shows the database's name. `db.name` is
  written into `database_name` (main.py:86) and then overwritten with the
  presence of `DATABASE_NAME` (main.py:107). `Diagnostics.TestDatabase`
  states the overwrite.
- The search term is not escaped. It goes into each condition as a `$regex`
  pattern (main.py:50-54), so the store treats it as a regular expression,
  not as a literal substring. The clauses here therefore carry the term as a
  pattern.
- The 50-character truncation applies both to a failed listing (main.py:95)
  and to a non-import error raised while importing the store module or
  reading `db.name` (main.py:102).

## Model

| member | source | states |
|---|---|---|
| Values.Prefix | main.py:92 | Python's `s[:n]` as used for the collections and the error text: at most `n` elements, a prefix of `s`, and all of `s` when it is shorter |
| Serialize.SerializeJob | main.py:18-25 | non-records come back unchanged; a record loses `_id`; a non-`None` `_id` becomes `id` holding its text; otherwise `id` stays as it was; every other key keeps its value and no key is added |
| Serialize.NoStorageKeyUnchanged | main.py:21-25 | a record without `_id` comes back equal to the input |
| Serialize.SerializeJobIdempotent | main.py:18-25 | serialising an already serialised value changes nothing |
| JobQuery.SearchClauses | main.py:47-54 | 3 conditions for a non-empty term plus 1 for a non-empty location; all case-insensitive; the term conditions are on title, company and description in that order and search for the term; the location condition is last |
| JobQuery.BuildQuery | main.py:46-56 | the query is match-all exactly when both inputs are absent or empty; otherwise it is `$or` over the non-empty list of conditions |
| JobQuery.ClauseDocument | main.py:50-54 | one condition is a document with the single key of its field, holding the pattern under `$regex` and `"i"` under `$options` exactly when it is case-insensitive |
| JobQuery.ClauseCountShape | main.py:47-56 | a query holds 0, 1, 3 or 4 conditions, and `$or` appears exactly when it holds at least one |
| JobQuery.ClausesUseTheirTerm | main.py:48-54 | a condition on a text field exists only for a non-empty term and searches for it; the condition on `location` exists only for a non-empty location and searches for it |
| JobQuery.ToDocument | main.py:50-56 | the match-all query is `{}`; any other query is a document whose only key is `$or`, holding a list with one entry per condition |
| JobQuery.ClauseDocumentRoundTrip | main.py:50-54 | the `{field: {"$regex": p, "$options": "i"}}` document of a condition gives back that condition |
| JobQuery.ToDocumentRoundTrip | main.py:50-56 | the document sent to the store gives back the query, so different queries never reach the store as the same document |
| Jobs.ListJobs | main.py:38-64 | never more than 100 items; empty list when the module is missing, the import raises, the handle is `None`, or the query raises; otherwise the first 100 records of the `job` collection matching `BuildQuery`, each serialised, in order; no returned record keeps `_id` |
| Diagnostics.DatabaseStatus | main.py:79-102 | the final `database` status for each outcome: the fixed texts for a missing module, a `None` handle and a working listing; for either error, its marker followed by at most 50 characters of the exception's text |
| Diagnostics.VariableStatus | main.py:106-107 | "✅ Set" exactly when the variable is present and not empty, "❌ Not Set" exactly otherwise |
| Diagnostics.TestDatabase | main.py:67-109 | `backend` is always running; `database` is the final status of the outcome; `connection_status` is "Connected" exactly for a handle; collections are the first ten listed names when listing works and empty otherwise; `database_url` and `database_name` depend only on the environment, whatever the earlier branches wrote |
| Diagnostics.ErrorTextBounded | main.py:94-102 | the error text embedded in either error status is a prefix of the exception's text of at most 50 characters |
| Diagnostics.StatusAlwaysWritten | main.py:70-102 | no outcome leaves the initial "❌ Not Available" status in place |
| Diagnostics.StatusIdentifiesOutcome | main.py:79-102 | equal statuses come from the same kind of outcome, so the report tells a missing module, an import error, a `None` handle, a failed listing and a working store apart |

## Left out

- The greeting handlers `read_root` and `hello` (main.py:28-35) return constant messages and have nothing to prove.
- The application object, the cross-origin middleware, the route decorators and the server start with its `PORT` variable (main.py:1-15, 112-115) are framework and process plumbing.
- The store's own work is not modelled: importing `database`, `find`, `limit`, iterating the cursor and `list_collection_names`. Each is an input outcome. `limit(100)` is taken as keeping the first 100 results of the query, in the order the store yields them.
- The matching done by `$regex` with option `i` is carried out by the store. Only the structure of the conditions is modelled.
- Environment lookups are optional strings passed in. A variable counts as set when it is present and not empty, as `os.getenv` truthiness gives.
- `str` on an identity object is the parameter `toStr` and is assumed not to raise. In the source, such an exception inside the listing would also end in the empty list.
- `hasattr(db, 'name')` is an optional string. A `name` attribute that is not a string is not modelled, because the value is overwritten before the response is returned. A read of `db.name` that raises is an outcome of the diagnostic report only. There, an `ImportError` leaves the `ModuleMissing` report and any other exception leaves the `ImportRaises` report with the same text. The job listing never reads the name.
- Insertion order of dictionary keys, including where `id` appears in a serialised record, is not modelled. Records are finite maps.
- Exceptions outside Python's `Exception` hierarchy, such as a keyboard interrupt, escape both handlers in the source. They are not modelled.
- Jobs.ListJobs: returns the `items` list only. The source wraps it in `{"items": ...}`.
