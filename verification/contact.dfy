/** The contact-form endpoint `POST /api/contact`: read `name`, `email` and
    `message` from the decoded JSON body, strip them, reject the request when
    any is empty, otherwise append one row to the `messages` table of the
    configured backend; every exception raised on the way becomes a 500 reply
    carrying the exception's text.

    The messages table is a sequence of rows in insertion order. The clock,
    the environment, whether the PostgreSQL driver is importable, and how the
    database work ends (committed, or an error raised before or after the
    commit) are all parameters.
 */
module Contact {
  import opened Wrappers
  import opened Json
  import opened PyStr
  import Config

  const FieldsRequired := "All fields are required"

  const NameKey := "name"
  const EmailKey := "email"
  const MessageKey := "message"

  /** The form fields, in the order the handler reads them. */
  const FieldNames: seq<string> := [NameKey, EmailKey, MessageKey]

  /** A reading of `datetime.utcnow()`, known by its `isoformat()` text. */
  datatype Instant = Instant(iso: string)

  /** The `created_at` column: a native timestamp on PostgreSQL, text on
      SQLite. The PostgreSQL column is `TIMESTAMPTZ` and receives a naive
      reading, which the server interprets in the session's time zone; time
      zones are not represented here. */
  datatype CreatedAt = Native(at: Instant) | IsoText(text: string)

  datatype Row = Row(name: string, email: string, message: string, createdAt: CreatedAt)

  type Store = seq<Row>

  /** The three stripped form fields. */
  datatype Submission = Submission(name: string, email: string, message: string)

  /** An HTTP status with the JSON document `jsonify` renders. */
  datatype Response = Response(status: int, body: JsonValue)

  /** How the database work after validation ends. `Committed`: the INSERT
      is committed and the connection closes. `FailsBeforeCommit(e)`: the
      driver raises `e` while connecting, inserting or committing, before the
      row is durable. `FailsAfterCommit(e)`: the row is durable, but `e` is
      raised afterwards (by `close()` after `commit()` returned, or by a
      commit whose acknowledgement is lost). */
  datatype DbOutcome = Committed | FailsBeforeCommit(error: string) | FailsAfterCommit(error: string)

  /** The reply, and the table after the request. */
  datatype Handled = Handled(response: Response, store: Store)

  function SuccessBody(): JsonValue {
    JObject(map["success" := JBool(true)])
  }

  function ErrorBody(text: string): JsonValue {
    JObject(map["success" := JBool(false), "error" := JString(text)])
  }

  /** The `except Exception` branch: the exception's text, with status 500. */
  function ServerError(text: string): Response {
    Response(500, ErrorBody(text))
  }

  /** `request.get_json(force=True) or {}` followed by the first `data.get`:
      a falsy body stands for the empty dict, and a truthy body that is not a
      dict has no `get`, which raises. */
  function AsDict(body: JsonValue): (r: Result<map<string, JsonValue>, string>)
    ensures r.Success? <==> body.JObject? || !Truthy(body)
    ensures r.Success? && body.JObject? ==> r.value == body.fields
    ensures r.Success? && !body.JObject? ==> r.value == map[]
    ensures r.Failure? ==> r.error == NoAttribute(body, "get")
  {
    if !Truthy(body) then Success(map[])
    else match body
      case JObject(m) => Success(m)
      case _ => Failure(NoAttribute(body, "get"))
  }

  /** The value under `key` is truthy but not a string, so it has no `strip`. */
  predicate Raises(data: map<string, JsonValue>, key: string) {
    key in data && Truthy(data[key]) && !data[key].JString?
  }

  /** `(data.get(key) or '').strip()`: a missing or falsy value reads as the
      empty string, a truthy string is stripped, and any other truthy value
      has no `strip`, which raises. */
  function Field(data: map<string, JsonValue>, key: string): (r: Result<string, string>)
    ensures key !in data || !Truthy(data[key]) ==> r == Success("")
    ensures key in data && data[key].JString? ==> r == Success(Strip(data[key].str))
    ensures r.Success? ==> IsStripped(r.value)
    ensures r.Failure? <==> Raises(data, key)
    ensures r.Failure? ==> r.error == NoAttribute(data[key], "strip")
  {
    if key !in data then Success("")
    else
      var v := data[key];
      if !Truthy(v) then Success("")
      else if v.JString? then Success(Strip(v.str))
      else Failure(NoAttribute(v, "strip"))
  }

  /** The three field reads, in source order; the first one that raises ends
      the request. */
  function ReadSubmission(body: JsonValue): (r: Result<Submission, string>)
    ensures r.Success? ==> body.JObject? || !Truthy(body)
    ensures body.JObject? && NoneRaises(body.fields) ==> r.Success?
    ensures r.Success? ==> IsStripped(r.value.name) && IsStripped(r.value.email) && IsStripped(r.value.message)
    ensures r.Success? && Complete(r.value) <==> body.JObject? && AllFilled(body.fields)
  {
    var data :- AsDict(body);
    var name :- Field(data, NameKey);
    var email :- Field(data, EmailKey);
    var message :- Field(data, MessageKey);
    Success(Submission(name, email, message))
  }

  /** The negation of `not name or not email or not message`: every
      stripped field is a truthy string. */
  predicate Complete(sub: Submission) {
    sub.name != "" && sub.email != "" && sub.message != ""
  }

  /** A row as the handler writes it: all three text fields non-empty and
      free of surrounding whitespace. */
  predicate CleanRow(row: Row) {
    && row.name != "" && IsStripped(row.name)
    && row.email != "" && IsStripped(row.email)
    && row.message != "" && IsStripped(row.message)
  }

  predicate CleanStore(store: Store) {
    forall k :: 0 <= k < |store| ==> CleanRow(store[k])
  }

  /** `api_contact()`. `db` says how the database work ends once the
      submission is valid and a backend is configured. */
  function HandleContact(body: JsonValue, env: Config.Env, driverAvailable: bool,
                         db: DbOutcome, now: Instant, store: Store): (h: Handled)
    ensures h.response.status in {200, 400, 500}
    ensures h.store == store
            || (&& |h.store| == |store| + 1
                && h.store[..|store|] == store
                && CleanRow(h.store[|store|]))
    ensures h.response.status == 200 <==> h.store != store && db.Committed?
    ensures h.response.status == 200 ==> h.response.body == SuccessBody()
    ensures h.store != store ==> !db.FailsBeforeCommit?
    ensures h.response.status == 400 ==> h.response.body == ErrorBody(FieldsRequired) && h.store == store
    ensures h.response.status == 400 <==> ReadSubmission(body).Success? && !Complete(ReadSubmission(body).value)
    ensures h.response.status == 500 ==> exists e :: h.response.body == ErrorBody(e)
    ensures h.store != store ==> body.JObject? && AllFilled(body.fields) && Config.Resolve(env, driverAvailable).Success?
  {
    match ReadSubmission(body)
    case Failure(e) => Handled(ServerError(e), store)
    case Success(sub) =>
      if !Complete(sub) then
        Handled(Response(400, ErrorBody(FieldsRequired)), store)
      else
        match Config.Resolve(env, driverAvailable)
        case Failure(e) => Handled(ServerError(e), store)
        case Success(backend) =>
          // The INSERT: the stripped fields and the clock reading, as a native
          // timestamp on PostgreSQL and as `isoformat() + 'Z'` on SQLite.
          var row := Row(sub.name, sub.email, sub.message,
                         if backend.Postgres? then Native(now) else IsoText(now.iso + "Z"));
          match db
          case Committed => Handled(Response(200, SuccessBody()), store + [row])
          case FailsBeforeCommit(e) => Handled(ServerError(e), store)
          case FailsAfterCommit(e) => Handled(ServerError(e), store + [row])
  }

  /** The field under `key` reads as the empty string: it is missing, falsy, or
      a string of whitespace only. */
  predicate BlankField(data: map<string, JsonValue>, key: string) {
    key !in data || !Truthy(data[key]) || (data[key].JString? && AllSpace(data[key].str))
  }

  /** The field under `key` is a string with something besides whitespace. */
  predicate FilledField(data: map<string, JsonValue>, key: string) {
    key in data && data[key].JString? && !AllSpace(data[key].str)
  }

  /** None of the three fields is truthy without being a string. */
  predicate NoneRaises(data: map<string, JsonValue>) {
    !Raises(data, NameKey) && !Raises(data, EmailKey) && !Raises(data, MessageKey)
  }

  /** All three fields are strings with something besides whitespace. */
  predicate AllFilled(data: map<string, JsonValue>) {
    FilledField(data, NameKey) && FilledField(data, EmailKey) && FilledField(data, MessageKey)
  }

  /** A missing, `None`, falsy or whitespace-only field rejects the request
      with 400 and the fixed text, whatever the configuration, the driver and
      the clock, as long as no field raises first; the table is untouched. */
  lemma BlankFieldRejected(m: map<string, JsonValue>, key: string, env: Config.Env,
                           driverAvailable: bool, db: DbOutcome, now: Instant, store: Store)
    requires key == NameKey || key == EmailKey || key == MessageKey
    requires BlankField(m, key)
    requires NoneRaises(m)
    ensures HandleContact(JObject(m), env, driverAvailable, db, now, store)
            == Handled(Response(400, ErrorBody(FieldsRequired)), store)
  {
    assert !FilledField(m, key);
  }

  /** A falsy body (`null`, `false`, `0`, `""`, `[]`, `{}`) stands for the
      empty dict, so every field is missing and the request is rejected. */
  lemma FalsyBodyRejected(body: JsonValue, env: Config.Env, driverAvailable: bool,
                          db: DbOutcome, now: Instant, store: Store)
    requires !Truthy(body)
    ensures HandleContact(body, env, driverAvailable, db, now, store)
            == Handled(Response(400, ErrorBody(FieldsRequired)), store)
  {
    assert AsDict(body) == Success(map[]);
  }

  /** Three non-blank string fields, a usable configuration and a driver that
      does not fail: the reply is `{success: true}` with 200, and exactly one
      row is appended, holding the stripped texts and the clock reading as
      the backend stores it. */
  lemma CompleteSubmissionAppendsOneRow(m: map<string, JsonValue>, env: Config.Env,
                                        driverAvailable: bool, now: Instant, store: Store)
    requires AllFilled(m)
    requires Config.Resolve(env, driverAvailable).Success?
    ensures var backend := Config.Resolve(env, driverAvailable).value;
            HandleContact(JObject(m), env, driverAvailable, Committed, now, store)
            == Handled(Response(200, SuccessBody()),
                       store + [Row(Strip(m[NameKey].str), Strip(m[EmailKey].str), Strip(m[MessageKey].str),
                                    if backend.Postgres? then Native(now) else IsoText(now.iso + "Z"))])
  {
    assert Truthy(JObject(m)) by { assert NameKey in m; }
  }

  /** The converse: a 200 reply happens only for a dict body whose three
      fields are strings with something besides whitespace, a usable
      configuration and no driver error. */
  lemma SuccessOnlyForCompleteSubmission(body: JsonValue, env: Config.Env, driverAvailable: bool,
                                         db: DbOutcome, now: Instant, store: Store)
    requires HandleContact(body, env, driverAvailable, db, now, store).response.status == 200
    ensures body.JObject?
    ensures AllFilled(body.fields)
    ensures Config.Resolve(env, driverAvailable).Success?
    ensures db.Committed?
  {
    assert ReadSubmission(body).Success? && Complete(ReadSubmission(body).value);
  }

  /** The first field, in reading order, whose value is truthy but not a
      string raises `AttributeError`; its text is the 500 reply, fields after
      it are never looked at, and the table is untouched. */
  lemma FirstNonStringFieldIsServerError(m: map<string, JsonValue>, i: nat, env: Config.Env,
                                         driverAvailable: bool, db: DbOutcome, now: Instant, store: Store)
    requires i < |FieldNames|
    requires forall j :: 0 <= j < i ==> !Raises(m, FieldNames[j])
    requires Raises(m, FieldNames[i])
    ensures HandleContact(JObject(m), env, driverAvailable, db, now, store)
            == Handled(ServerError(NoAttribute(m[FieldNames[i]], "strip")), store)
  {
    assert Truthy(JObject(m)) by { assert FieldNames[i] in m; }
    if i == 0 {
    } else if i == 1 {
      assert !Raises(m, FieldNames[0]);
    } else {
      assert !Raises(m, FieldNames[0]);
      assert !Raises(m, FieldNames[1]);
    }
  }

  /** A truthy body that is not a dict has no `get`: 500 with that text. */
  lemma NonDictBodyIsServerError(body: JsonValue, env: Config.Env, driverAvailable: bool,
                                 db: DbOutcome, now: Instant, store: Store)
    requires Truthy(body) && !body.JObject?
    ensures HandleContact(body, env, driverAvailable, db, now, store)
            == Handled(ServerError(NoAttribute(body, "get")), store)
  {
  }

  /** With PostgreSQL configured but its driver missing, a complete
      submission gets the configuration error's text with 500. The same
      configuration already makes the start-up table creation raise, so a
      serving process reaches this only if its environment changed after
      start-up. */
  lemma MissingDriverIsServerError(m: map<string, JsonValue>, env: Config.Env,
                                   db: DbOutcome, now: Instant, store: Store)
    requires AllFilled(m)
    requires Config.IsPostgres(env)
    ensures HandleContact(JObject(m), env, false, db, now, store)
            == Handled(ServerError(Config.DriverMissing), store)
  {
    assert Truthy(JObject(m)) by { assert NameKey in m; }
  }

  /** An error the database driver raises before the row is durable is
      reported verbatim with 500, and nothing is stored. */
  lemma DriverErrorBeforeCommitIsServerError(m: map<string, JsonValue>, env: Config.Env, driverAvailable: bool,
                                             e: string, now: Instant, store: Store)
    requires AllFilled(m)
    requires Config.Resolve(env, driverAvailable).Success?
    ensures HandleContact(JObject(m), env, driverAvailable, FailsBeforeCommit(e), now, store)
            == Handled(ServerError(e), store)
  {
    assert Truthy(JObject(m)) by { assert NameKey in m; }
  }

  /** An error raised after the commit went through is still reported
      verbatim with 500, yet the row stays stored: the reply and the table
      disagree. */
  lemma DriverErrorAfterCommitKeepsRow(m: map<string, JsonValue>, env: Config.Env, driverAvailable: bool,
                                       e: string, now: Instant, store: Store)
    requires AllFilled(m)
    requires Config.Resolve(env, driverAvailable).Success?
    ensures var h := HandleContact(JObject(m), env, driverAvailable, FailsAfterCommit(e), now, store);
            && h.response == ServerError(e)
            && h.store == HandleContact(JObject(m), env, driverAvailable, Committed, now, store).store
            && |h.store| == |store| + 1
  {
    assert Truthy(JObject(m)) by { assert NameKey in m; }
  }

  /** Field reading and validation happen before any connection is opened:
      when the request stops there, the outcome does not depend on the
      environment, the driver, the database or the clock. */
  lemma ValidationPrecedesConnection(body: JsonValue, env1: Config.Env, env2: Config.Env,
                                     d1: bool, d2: bool, f1: DbOutcome, f2: DbOutcome,
                                     t1: Instant, t2: Instant, store: Store)
    requires HandleContact(body, env1, d1, f1, t1, store).response.status == 400
    ensures HandleContact(body, env2, d2, f2, t2, store) == HandleContact(body, env1, d1, f1, t1, store)
  {
  }

  lemma CleanStoreAppend(store: Store, row: Row)
    requires CleanStore(store) && CleanRow(row)
    ensures CleanStore(store + [row])
  {
    forall k | 0 <= k < |store| + 1
      ensures CleanRow((store + [row])[k])
    {
      if k < |store| {
        assert (store + [row])[k] == store[k];
      }
    }
  }

  /** Every row in the table is non-empty and stripped in all three text
      fields, and each request keeps it so. */
  lemma HandleContactKeepsStoreClean(body: JsonValue, env: Config.Env, driverAvailable: bool,
                                     db: DbOutcome, now: Instant, store: Store)
    requires CleanStore(store)
    ensures CleanStore(HandleContact(body, env, driverAvailable, db, now, store).store)
  {
    var h := HandleContact(body, env, driverAvailable, db, now, store);
    if h.store != store {
      var row := h.store[|store|];
      assert h.store == h.store[..|store|] + [row];
      CleanStoreAppend(store, row);
    }
  }

  /** Stored texts are fixed points of `strip()`: stripping them again
      changes nothing. */
  lemma StoredFieldsStripToThemselves(row: Row)
    requires CleanRow(row)
    ensures Strip(row.name) == row.name
    ensures Strip(row.email) == row.email
    ensures Strip(row.message) == row.message
  {
    StripOfStripped(row.name);
    StripOfStripped(row.email);
    StripOfStripped(row.message);
  }

  /** Stripping the example's name removes one space on each side. */
  lemma AliceNameStrips(name: string)
    requires name == " Alice "
    ensures Strip(name) == "Alice"
  {
    var space, core := [' '], "Alice";
    assert name == space + core + space;
    StripCharacterization(space, core, space);
  }

  /** The example's fields are filled, and its email and message have no
      whitespace at either end. */
  lemma AliceFieldsFilled(m: map<string, JsonValue>)
    requires NameKey in m && m[NameKey] == JString(" Alice ")
    requires EmailKey in m && m[EmailKey] == JString("a@b.com")
    requires MessageKey in m && m[MessageKey] == JString("Hi")
    ensures AllFilled(m)
    ensures IsStripped(m[EmailKey].str) && IsStripped(m[MessageKey].str)
  {
    assert !IsSpace(" Alice "[1]);
    assert !IsSpace("a@b.com"[0]);
    assert !IsSpace("Hi"[0]);
  }

  /** The body `{"name": " Alice ", "email": "a@b.com", "message": "Hi"}`
      (other keys are never read) with no PostgreSQL URL set stores
      `("Alice", "a@b.com", "Hi")` in SQLite, with the ISO text of the clock
      reading, and replies `{success: true}`. */
  lemma AliceIsStored(m: map<string, JsonValue>, env: Config.Env, driverAvailable: bool, now: Instant, store: Store)
    requires NameKey in m && m[NameKey] == JString(" Alice ")
    requires EmailKey in m && m[EmailKey] == JString("a@b.com")
    requires MessageKey in m && m[MessageKey] == JString("Hi")
    requires !Config.IsPostgres(env)
    ensures HandleContact(JObject(m), env, driverAvailable, Committed, now, store)
            == Handled(Response(200, SuccessBody()),
                       store + [Row("Alice", "a@b.com", "Hi", IsoText(now.iso + "Z"))])
  {
    AliceFieldsFilled(m);
    AliceNameStrips(m[NameKey].str);
    StripOfStripped(m[EmailKey].str);
    StripOfStripped(m[MessageKey].str);
    CompleteSubmissionAppendsOneRow(m, env, driverAvailable, now, store);
  }
}
