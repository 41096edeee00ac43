# Contact form and database configuration of the easycyber2 site

The site is a small Flask application. It serves four static pages and one
JSON endpoint, `POST /api/contact`, which stores contact-form submissions
either in a local SQLite file or in a PostgreSQL database. This project
models the two pieces of `app.py` that carry logic, and proves properties
of them in Dafny:

- **Configuration resolution** (`is_postgres`, and the decision part of
  `get_connection`). The model chooses the backend from the environment.
  PostgreSQL is used when `DATABASE_URL` or `POSTGRES_URL` is set, and
  `DATABASE_URL` wins when both are. A `postgres://` scheme is rewritten to
  `postgresql://`. The SQLite file is `SQLITE_PATH`, else
  `/tmp/database.db` under `VERCEL`, else `database.db`. A missing
  PostgreSQL driver raises the configuration error.
- **The contact handler** (`api_contact`). It reads `name`, `email` and
  `message` from the decoded JSON body. A missing or falsy value reads as
  `""`, and each value is stripped with Python's `str.strip()`. The request
  is rejected with 400 and `"All fields are required"` unless all three are
  non-empty. Otherwise exactly one row is appended and `{success: true}` is
  returned. Every exception on the way becomes a 500 reply carrying the
  exception's text.

Files, one module each:

- `wrappers.dfy`: `Option` and `Result`. `Failure(text)` stands for a
  raised Python exception whose `str()` is `text`.
- `pystr.dfy`: the per-character whitespace test behind Python's
  `str.isspace` and `strip`, and `strip`, `startswith`, `find` and
  `replace(old, new, 1)`. `Strip` has a functional definition and an
  independent characterisation. `StripSpan` is the two-index scan that
  CPython's `strip()` performs, proved to agree with `Strip`.
- `json.dfy`: the decoded body as Python objects. Includes Python
  truthiness, `type(v).__name__`, and the text of an `AttributeError`.
- `config.dfy`: the environment as a map from variable name to value, and
  `Resolve`, which gives the backend or the configuration error.
- `contact.dfy`: the messages table as a sequence of rows, and
  `HandleContact`, a pure function from (body, configuration, database
  outcome, clock reading, table) to (reply, new table).

The I/O the handler performs is passed in as parameters:

- the environment;
- whether `psycopg2` could be imported;
- the clock reading (`datetime.utcnow()`), known only by its `isoformat()`
  text;
- how the database work ends: committed, or an error (with its text)
  raised before the row is durable, or raised after it is durable.

## Model

| member | source | states |
|---|---|---|
| PyStr.Strip | app.py:94-96 | The stripped text has no whitespace at either end, is no longer than the input, and is empty exactly when the input is all whitespace |
| PyStr.StripCharacterization | app.py:94-96 | For any split `a + t + b` where `a` and `b` are all whitespace and `t` has no whitespace at either end, `strip()` returns exactly `t` |
| PyStr.StripIdempotent | app.py:94-96 | Stripping a stripped text changes nothing |
| PyStr.StripOfStripped | app.py:94-96 | A text with no whitespace at either end is its own strip |
| PyStr.StripSpan | app.py:94-96 | The left/right scan returns bounds `lo <= hi` such that everything before `lo` and after `hi` is whitespace and `s[lo..hi]` is the functional strip |
| PyStr.FindFrom | app.py:28 | The search behind `replace(..., 1)` returns the first index at or after `i` where the pattern occurs, or reports that none exists |
| PyStr.ReplaceFirst | app.py:28 | `replace(pat, repl, 1)` returns the string unchanged when the pattern never occurs, and otherwise splices `repl` in place of the first occurrence, keeping everything before and after it |
| PyStr.ReplaceFirstAtPrefix | app.py:27-28 | When the string starts with the pattern, `replace(pat, repl, 1)` swaps exactly that prefix and keeps the rest |
| Config.IsPostgres | app.py:15-17 | PostgreSQL is selected iff `DATABASE_URL` or `POSTGRES_URL` is present with a non-empty value |
| Config.RawDsn | app.py:25 | The connection string is `DATABASE_URL` when it is set, else `POSTGRES_URL`, and it is never empty |
| Config.NormalizeDsn | app.py:26-28 | A `postgres://` prefix becomes `postgresql://` with the remainder unchanged; any other string is returned unchanged; the result never starts with `postgres://` |
| Config.NormalizeDsnIdempotent | app.py:27-28 | Normalizing twice equals normalizing once |
| Config.SqlitePath | app.py:30-31 | The SQLite path is `SQLITE_PATH` when set, else `/tmp/database.db` when `VERCEL` is set, else `database.db`; it is never empty |
| Config.Resolve | app.py:20-32 | Fails with the driver-missing text iff PostgreSQL is selected and the driver is absent; otherwise gives PostgreSQL with the normalized DSN exactly when a URL is set, else SQLite with the chosen path; the target is never empty |
| Config.ResolveDependsOnlyOnFourVariables | app.py:15-31 | Environments that agree on `DATABASE_URL`, `POSTGRES_URL`, `SQLITE_PATH` and `VERCEL` (each read through `or`) resolve identically |
| Contact.AsDict | app.py:93-94 | A falsy body reads as the empty dict, an object body as its fields, and any other truthy body raises `'<type>' object has no attribute 'get'` |
| Contact.Field | app.py:94-96 | A missing or falsy field reads as `""`; a string is stripped; a truthy non-string raises `'<type>' object has no attribute 'strip'`; a successful read has no whitespace at either end |
| Contact.ReadSubmission | app.py:93-98 | Reading succeeds for every dict body with no raising field; it yields three non-empty fields iff the body is an object whose three fields are strings containing non-whitespace |
| Contact.HandleContact | app.py:91-122 | The status is 200, 400 or 500; the table is either unchanged or gains exactly one clean row after the old rows; 200 happens iff a row was added and the database work completed, with body `{success: true}`; no row is added when the driver fails before the commit; 400 carries the fixed text, leaves the table unchanged, and happens iff the fields were read but one is empty; every 500 carries `{success: false, error: <text>}`; a row is added only for an object body whose three fields are strings with non-whitespace content and a configuration that resolves |
| Contact.BlankFieldRejected | app.py:94-99 | A missing, `None`, falsy or whitespace-only field, with no field raising, gives 400 with `"All fields are required"` and leaves the table untouched |
| Contact.FalsyBodyRejected | app.py:93-99 | A falsy body (`null`, `false`, `0`, `""`, `[]`, `{}`) is rejected with 400 and the table is untouched |
| Contact.CompleteSubmissionAppendsOneRow | app.py:98-119 | Three strings with non-whitespace content, a usable configuration and no driver error give 200 `{success: true}` and the table plus exactly one row holding the stripped texts and the backend's timestamp form |
| Contact.SuccessOnlyForCompleteSubmission | app.py:98-119 | Conversely, a 200 reply implies an object body with three filled string fields, a usable configuration and no driver error |
| Contact.FirstNonStringFieldIsServerError | app.py:94-122 | The first field in the order name, email, message that is truthy but not a string gives 500 with its `AttributeError` text, whatever the later fields hold; the table is untouched |
| Contact.NonDictBodyIsServerError | app.py:93-122 | A truthy body that is not an object gives 500 with `'<type>' object has no attribute 'get'`; the table is untouched |
| Contact.MissingDriverIsServerError | app.py:101-122 | With PostgreSQL configured and no driver, a complete submission gets 500 with `psycopg2 not available but DATABASE_URL/POSTGRES_URL is set`, and nothing is stored. The same configuration already makes `init_db()` raise at import (app.py:37, 69), so a serving process reaches this only if its environment changed after start-up |
| Contact.DriverErrorBeforeCommitIsServerError | app.py:101-122 | An error the driver raises while connecting, inserting or committing, before the row is durable, is returned verbatim with 500, and nothing is stored |
| Contact.DriverErrorAfterCommitKeepsRow | app.py:115-122 | An error raised after `commit()` went through, such as one from `close()` in the `finally`, is returned verbatim with 500, yet the row stays stored |
| Contact.ValidationPrecedesConnection | app.py:94-101 | A 400 outcome does not depend on the environment, the driver, the database or the clock |
| Contact.HandleContactKeepsStoreClean | app.py:94-114 | If every stored row has non-empty, stripped name, email and message, that stays true after any request |
| Contact.StoredFieldsStripToThemselves | app.py:94-114 | Stored name, email and message are fixed points of `strip()` |
| Contact.AliceIsStored | app.py:91-119 | The body `{"name": " Alice ", "email": "a@b.com", "message": "Hi"}` with no PostgreSQL URL stores `("Alice", "a@b.com", "Hi", <iso>Z)` and replies 200 `{success: true}` |

## Left out

- Page routes (`app.py:72-86`), `jsonify` rendering and `app.run` (`app.py:125-126`). They are framework plumbing with no logic.
- `init_db` and its `CREATE TABLE IF NOT EXISTS` statements (`app.py:35-69`). These are SQL sent to a foreign driver. The table is modelled only as the sequence of its rows. One consequence is not modelled: `init_db()` runs at import (`app.py:69`) and calls `get_connection()`. If a PostgreSQL URL is set but `psycopg2` is missing, the process fails at start-up with the driver-missing error and never serves. The handler's driver-missing 500 is therefore reachable only if the environment changes after start-up.
- Connecting, executing, committing and closing through `sqlite3` and `psycopg2`. These are foreign calls. Their observable effect is the `DbOutcome` parameter. The work either completes, or raises an exception with some text before the row is durable (the table is unchanged), or raises after the row is durable (500 with the row stored).
- Decoding the raw request body. The handler's input is the already-decoded JSON value. In the code, an undecodable body makes `get_json(force=True)` raise, and the exception lands in the 500 branch. That case is not modelled.
- Strings holding lone surrogate code points (U+D800 to U+DFFF), in the body or in the environment. Python's JSON decoder produces them from escapes such as `"\ud800"`. Dafny's `char` cannot hold them. Such a field is truthy, strips to itself and passes validation. The driver then raises `UnicodeEncodeError`, which gives 500.
- JSON `NaN` and `Infinity`. Python's decoder accepts them as floats, and they are truthy. `JFloat` holds a real number, so it cannot represent them.
- Row identifiers. The `id` column is assigned by the database. A row's position in the sequence stands for it.
- Clock formatting. `datetime.utcnow()` and `isoformat()` are library behaviour. The clock reading is an opaque `Instant` carrying its ISO text. On SQLite the model stores that text followed by `Z`. On PostgreSQL it stores the reading itself. The reading is a naive `datetime` written into a `TIMESTAMPTZ` column (`app.py:48`, `app.py:108`); PostgreSQL interprets it in the session's `TimeZone` setting, so the stored instant equals the UTC reading only when that setting is UTC. The model does not represent time zones.
- The `import psycopg2` attempt at module load (`app.py:6-9`). Its outcome is the `driverAvailable` parameter.
- `static/js/script.js`. It is a purely visual browser animation driven by timers and `Math.random`.
