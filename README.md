# User report: a Dafny model

`fetch_users.py` fetches the user list of a JSON placeholder API and projects
each user onto four columns: `Name`, `Username`, `Email` and `Company`. It writes
those rows to `users_report.csv` and prints a summary. The summary is the row
count and the sorted list of distinct company names.

This project models the data step and the control flow of `main`:

- **Projection.** `FetchUsers.ProjectUser` projects one record; the
  method `FetchUsers.Project` is the appending `for` loop.
  A record is a `map<string, Value>`, where a `Value` is `Null` (Python `None`),
  a `Str` or an `Obj` (a dict).
  Each column holds what `dict.get` returned, so a missing key gives `Null`
  and is never an error. A missing `company` key defaults to an empty dict.
- **Summary.** `FetchUsers.TruthyCompanies` is the filtering list
  comprehension. Python truthiness excludes both `None` and `""`.
  `PyBuiltins.SortedSet` is `sorted(set(...))`.
  `PyBuiltins.Less` is Python's ordering of `str` values: lexicographic by code
  point, with a proper prefix coming first.
  `FetchUsers.Companies` joins the two.
- **Stages.** `FetchUsers.RunReport` is `main`. The
  outcome of the request stage (GET, status check, JSON decoding) and the
  outcome of the file write are inputs.
  The result records which stages ran, what became of the file and the console
  messages in order. Each failure ends the run early.
  The handler is chosen the way Python picks an `except` clause: the first
  clause that matches wins. So an exception that is both a `RequestException`
  and a `ValueError` gets the request-error message. Recent versions of the
  `requests` library raise exactly such an exception when JSON decoding fails.
  Which exception classes the library raises is an input of the model.
  `RunReport` determines its whole result from its inputs. A second run with
  the same API response therefore writes the same rows.

## Model

| member | source | states |
|---|---|---|
| `FetchUsers.ProjectUser` | fetch_users.py:20-25 | Each of `Name`, `Username`, `Email` is the record's value for `name`, `username`, `email`, or `Null` when the key is missing. `Company` is the `name` inside the `company` dict. It is `Null` when `company` is missing or has no `name`. The only demand is that a present `company` is a dict. |
| `FetchUsers.Project` | fetch_users.py:18-25 | Exactly one row per input record, in input order: row `i` is the projection of record `i` |
| `FetchUsers.TruthyCompanies` | fetch_users.py:40 | A string is in the filtered list exactly when it is non-empty and is the `Str` company of some row. Absent and empty companies never appear. |
| `FetchUsers.Companies` | fetch_users.py:40 | The summary's company list is strictly ascending in Python string order, so it is sorted and free of duplicates. It holds exactly the non-empty `Str` companies of the rows. |
| `FetchUsers.CompaniesOfRecords` | fetch_users.py:18-40 | Read off the input records: a name is listed exactly when some record has a `company` dict whose `name` is that non-empty string. A record without `company`, or whose company lacks `name`, contributes nothing. |
| `FetchUsers.RunReport` | fetch_users.py:4-41 | A request or decode failure: only the request stage runs, the file is untouched, and the one console line is that failure's message, where a `RequestException` takes precedence. A write failure: no summary stage, no success message, only the write error. Success: the file holds the header `Name,Username,Email,Company` and then one projected row per record in order, followed by the success message and a summary. The summary's total equals the number of records and its companies are `Companies(rows)`. |
| `PyBuiltins.SortedSet` | fetch_users.py:40 | `sorted(set(xs))` is strictly ascending and holds exactly the elements of `xs` |
| `PyBuiltins.InsertDistinct` | fetch_users.py:40 | Adding a string to a strictly ascending list keeps it strictly ascending. The elements are the old ones plus the new string. |
| `PyBuiltins.AscendingUnique` | fetch_users.py:40 | Two strictly ascending lists with the same elements are equal. So `SortedSet(xs)` is the only sorted, duplicate-free listing of `set(xs)`. |
| `PyBuiltins.LessIrreflexive` | fetch_users.py:40 | No string sorts before itself |
| `PyBuiltins.LessTransitive` | fetch_users.py:40 | Python's string order is transitive |
| `PyBuiltins.LessTotal` | fetch_users.py:40 | Any two different strings are ordered one way or the other |
| `PyBuiltins.LessAsymmetric` | fetch_users.py:40 | Two strings are never each below the other |

## Left out

- The HTTP GET, `raise_for_status` and `response.json()` (fetch_users.py:7-9) are library calls. Only their outcome is modelled: the decoded user list, or the classes of the exception raised.
- CSV serialisation (fetch_users.py:29-32) belongs to `csv.DictWriter` and `open`. This covers quoting, escaping, writing `None` as an empty field and UTF-8 encoding. The model records only that a header row precedes one row per record. A failed write leaves the file `Indeterminate`, because `open` may already have truncated it.
- The exception detail printed with the request error, the French console text and Python's list `repr` (fetch_users.py:11, 14, 33, 35, 41) are presentation. Each message is a constructor of `Message`.
- JSON numbers, booleans and arrays are not in `Value`. The fields the script reads (`name`, `username`, `email`, `company.name`) are strings and objects.
- A `str` holding a lone surrogate code point (JSON `"\ud800"`) cannot be a Dafny `string`, so `Str` cannot hold such a name and `PyBuiltins.Less` does not order it.
- FetchUsers.ProjectUser: requires a present `company` to be a dict. For `null` or a string, `.get` raises an `AttributeError` that nothing catches.
- FetchUsers.RunReport: requires, when the write succeeded, every truthy company name to be a string. `set(...)` raises an uncaught `TypeError` on a dict; after a failed write the script returns before that line, so nothing is required there. The run also requires a request-stage exception to be a `RequestException` or a `ValueError`; any other exception propagates out of `main`. Neither crash is modelled.
- A decoded top-level value that is not a list of dicts is not modelled. The input type is a sequence of records.
- Exit status: the script never sets one, so there is nothing to model.
