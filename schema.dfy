/**
 * The record shapes of the job board: the three tables with their column types,
 * nullability and defaults, the insert shapes derived from them, and the validation
 * that request bodies go through before they reach the store.
 *
 * An insert shape is derived from a table the way drizzle-zod derives it: a column that
 * is nullable or has a default may be left out, only a nullable column accepts null,
 * and server-assigned columns are omitted. Validation checks every field of the shape,
 * reports one issue per field that does not conform (zod reports each bad item of an
 * array separately; here the array field gets one issue), and drops keys the shape does
 * not name.
 */
module Schema {
  import opened Wrappers

  /** A JSON value as a parsed request body carries it. Only the kind of a number matters here. */
  datatype Json =
    | JNull
    | JBool(b: bool)
    | JNumber(n: int)
    | JString(str: string)
    | JArray(items: seq<Json>)
    | JObject(fields: map<string, Json>)

  /** A `createdAt` instant; the model takes it from the caller instead of reading a clock. */
  type Timestamp = int

  const DefaultFormUrl := "https://forms.gle/fNz6c7of3pwQwJad7"

  datatype ColumnType = SerialColumn | TextColumn | TextArrayColumn | BooleanColumn | TimestampColumn

  /** No default, a fixed default value, or one the database generates (a serial counter, `now()`). */
  datatype ColumnDefault = NoDefault | Fixed(value: Json) | Generated

  datatype Column = Column(name: string, kind: ColumnType, notNull: bool, defaultValue: ColumnDefault)

  const UsersTable: seq<Column> := [
    Column("id", SerialColumn, true, Generated),
    Column("username", TextColumn, true, NoDefault),
    Column("password", TextColumn, true, NoDefault)
  ]

  const JobListingsTable: seq<Column> := [
    Column("id", SerialColumn, true, Generated),
    Column("title", TextColumn, true, NoDefault),
    Column("department", TextColumn, true, NoDefault),
    Column("location", TextColumn, true, NoDefault),
    Column("type", TextColumn, true, NoDefault),
    Column("experience", TextColumn, true, NoDefault),
    Column("description", TextColumn, true, NoDefault),
    Column("requirements", TextColumn, true, NoDefault),
    Column("skills", TextArrayColumn, true, Fixed(JArray([]))),
    Column("googleFormUrl", TextColumn, true, Fixed(JString(DefaultFormUrl))),
    Column("isActive", BooleanColumn, true, Fixed(JBool(true))),
    Column("createdAt", TimestampColumn, true, Generated)
  ]

  const ContactSubmissionsTable: seq<Column> := [
    Column("id", SerialColumn, true, Generated),
    Column("firstName", TextColumn, true, NoDefault),
    Column("lastName", TextColumn, true, NoDefault),
    Column("email", TextColumn, true, NoDefault),
    Column("company", TextColumn, false, NoDefault),
    Column("message", TextColumn, true, NoDefault),
    Column("createdAt", TimestampColumn, true, Generated)
  ]

  /** One field of an insert shape. */
  datatype Field = Field(name: string, kind: ColumnType, optional: bool, nullable: bool)

  /**
   * drizzle-zod's rule for one column: it may be left out when it is nullable or has a
   * default, and it accepts null only when it is nullable.
   */
  function InsertField(c: Column): (f: Field)
    ensures f.name == c.name && f.kind == c.kind
    ensures f.optional <==> !c.notNull || c.defaultValue != NoDefault
    ensures f.nullable <==> !c.notNull
    ensures f.nullable ==> f.optional
  {
    Field(c.name, c.kind, !c.notNull || !c.defaultValue.NoDefault?, !c.notNull)
  }

  /** `createInsertSchema(table)`: one field per column, in column order. */
  function InsertShape(table: seq<Column>): (r: seq<Field>)
    ensures |r| == |table|
    ensures forall i :: 0 <= i < |r| ==> r[i].name == table[i].name && r[i].kind == table[i].kind
    ensures forall i :: 0 <= i < |r| ==> (r[i].optional <==> !table[i].notNull || !table[i].defaultValue.NoDefault?)
    ensures forall i :: 0 <= i < |r| ==> (r[i].nullable <==> !table[i].notNull)
  {
    seq(|table|, i requires 0 <= i < |table| => InsertField(table[i]))
  }

  /** `.omit(names)`: the fields whose names are not listed, in order. */
  function Omit(shape: seq<Field>, names: set<string>): (r: seq<Field>)
    ensures forall f :: f in r <==> f in shape && f.name !in names
    ensures |r| <= |shape|
  {
    if shape == [] then []
    else (if shape[0].name in names then [] else [shape[0]]) + Omit(shape[1..], names)
  }

  /** `.pick(names)`: the fields whose names are listed, in order. */
  function Pick(shape: seq<Field>, names: set<string>): (r: seq<Field>)
    ensures forall f :: f in r <==> f in shape && f.name in names
    ensures |r| <= |shape|
  {
    if shape == [] then []
    else (if shape[0].name in names then [shape[0]] else []) + Pick(shape[1..], names)
  }

  /** `.partial()`: every field may be left out; what is present must still conform. */
  function PartialShape(shape: seq<Field>): (r: seq<Field>)
    ensures |r| == |shape|
    ensures forall i :: 0 <= i < |r| ==> r[i].optional
    ensures forall i :: 0 <= i < |r| ==>
              r[i].name == shape[i].name && r[i].kind == shape[i].kind && r[i].nullable == shape[i].nullable
  {
    seq(|shape|, i requires 0 <= i < |shape| => shape[i].(optional := true))
  }

  /**
   * What drizzle-zod's rule for a column means for a body: a missing key is accepted when
   * the column is nullable or has a default, null when the column is nullable, and any
   * other value when it has the column's kind.
   */
  lemma InsertFieldAccepts(c: Column, fields: map<string, Json>)
    ensures FieldAccepts(InsertField(c), fields) <==>
      && (c.name !in fields ==> !c.notNull || !c.defaultValue.NoDefault?)
      && (c.name in fields && fields[c.name] == JNull ==> !c.notNull)
      && (c.name in fields && fields[c.name] != JNull ==> Matches(c.kind, fields[c.name]))
  {
  }

  /** A body passes a table's insert schema exactly when every column's rule accepts it. */
  lemma InsertShapeConforms(table: seq<Column>, body: Json)
    ensures Conforms(InsertShape(table), body) <==> (
      && body.JObject?
      && forall i :: 0 <= i < |table| ==>
        && (table[i].name !in body.fields ==> !table[i].notNull || !table[i].defaultValue.NoDefault?)
        && (table[i].name in body.fields && body.fields[table[i].name] == JNull ==> !table[i].notNull)
        && (table[i].name in body.fields && body.fields[table[i].name] != JNull ==>
              Matches(table[i].kind, body.fields[table[i].name])))
  {
    if body.JObject? {
      forall i | 0 <= i < |table| {
        InsertFieldAccepts(table[i], body.fields);
      }
    }
  }

  /**
   * `.partial()` accepts a body exactly when it is an object and every field it does carry
   * is accepted by the original shape: any field may be left out, none may be malformed.
   */
  lemma PartialShapeConforms(shape: seq<Field>, body: Json)
    ensures Conforms(PartialShape(shape), body) <==> (
      && body.JObject?
      && forall i :: 0 <= i < |shape| && shape[i].name in body.fields ==> FieldAccepts(shape[i], body.fields))
  {
  }

  function Names(shape: seq<Field>): set<string> {
    set f | f in shape :: f.name
  }

  /** `insertUserSchema`: username and password, picked from the users table. */
  const InsertUserShape: seq<Field> := [
    Field("username", TextColumn, false, false),
    Field("password", TextColumn, false, false)
  ]

  /** `insertJobListingSchema`: the job listings table without `id` and `createdAt`. */
  const InsertJobListingShape: seq<Field> := [
    Field("title", TextColumn, false, false),
    Field("department", TextColumn, false, false),
    Field("location", TextColumn, false, false),
    Field("type", TextColumn, false, false),
    Field("experience", TextColumn, false, false),
    Field("description", TextColumn, false, false),
    Field("requirements", TextColumn, false, false),
    Field("skills", TextArrayColumn, true, false),
    Field("googleFormUrl", TextColumn, true, false),
    Field("isActive", BooleanColumn, true, false)
  ]

  /** `insertJobListingSchema.partial()`: the job listing fields, every one optional. */
  const UpdateJobListingShape: seq<Field> := [
    Field("title", TextColumn, true, false),
    Field("department", TextColumn, true, false),
    Field("location", TextColumn, true, false),
    Field("type", TextColumn, true, false),
    Field("experience", TextColumn, true, false),
    Field("description", TextColumn, true, false),
    Field("requirements", TextColumn, true, false),
    Field("skills", TextArrayColumn, true, false),
    Field("googleFormUrl", TextColumn, true, false),
    Field("isActive", BooleanColumn, true, false)
  ]

  /** `insertContactSubmissionSchema`: the contact table without `id` and `createdAt`. */
  const InsertContactSubmissionShape: seq<Field> := [
    Field("firstName", TextColumn, false, false),
    Field("lastName", TextColumn, false, false),
    Field("email", TextColumn, false, false),
    Field("company", TextColumn, true, true),
    Field("message", TextColumn, false, false)
  ]

  // ---------------------------------------------------------------------------
  // Validation

  predicate Matches(kind: ColumnType, v: Json) {
    match kind
    case SerialColumn => v.JNumber?
    case TextColumn => v.JString?
    case TextArrayColumn => v.JArray? && forall i :: 0 <= i < |v.items| ==> v.items[i].JString?
    case BooleanColumn => v.JBool?
    // a timestamp column accepts only a Date object, which no JSON value is
    case TimestampColumn => false
  }

  predicate FieldAccepts(f: Field, fields: map<string, Json>) {
    if f.name !in fields then f.optional
    else if fields[f.name] == JNull then f.nullable
    else Matches(f.kind, fields[f.name])
  }

  /** A body that the schema's `parse` accepts. */
  predicate Conforms(shape: seq<Field>, body: Json) {
    body.JObject? && forall i :: 0 <= i < |shape| ==> FieldAccepts(shape[i], body.fields)
  }

  /**
   * Why a field was refused. zod reports both cases with code `invalid_type`; a missing
   * field is told apart by its message "Required", which `Required` stands for here.
   */
  datatype IssueCode = Required | InvalidType

  /** One validation error: the field it is about ("" for the body itself) and why. */
  datatype Issue = Issue(path: string, code: IssueCode)

  function FieldIssue(f: Field, fields: map<string, Json>): (r: Option<Issue>)
    ensures r.None? <==> FieldAccepts(f, fields)
    ensures r.Some? ==> r.value.path == f.name
    ensures r.Some? ==> (r.value.code == Required <==> f.name !in fields)
  {
    if f.name !in fields then
      if f.optional then None else Some(Issue(f.name, Required))
    else if fields[f.name] == JNull then
      if f.nullable then None else Some(Issue(f.name, InvalidType))
    else if Matches(f.kind, fields[f.name]) then None
    else Some(Issue(f.name, InvalidType))
  }

  /** The issues of every field of the shape, in the shape's order. */
  function Issues(shape: seq<Field>, fields: map<string, Json>): (r: seq<Issue>)
    ensures r == [] <==> forall i :: 0 <= i < |shape| ==> FieldAccepts(shape[i], fields)
    ensures forall j :: 0 <= j < |r| ==>
              exists i :: 0 <= i < |shape| && r[j].path == shape[i].name && !FieldAccepts(shape[i], fields)
    ensures forall i :: 0 <= i < |shape| && !shape[i].optional && shape[i].name !in fields ==>
              Issue(shape[i].name, Required) in r
  {
    if shape == [] then []
    else
      var first := match FieldIssue(shape[0], fields) case Some(x) => [x] case None => [];
      var rest := Issues(shape[1..], fields);
      assert forall i :: 1 <= i < |shape| ==> shape[i] == shape[1..][i - 1];
      first + rest
  }

  /**
   * Every field that rejects the body is reported, with the issue `FieldIssue` gives it:
   * a null where null is not allowed and a value of the wrong kind as well as a missing field.
   */
  lemma {:induction false} EveryRejectedFieldReported(shape: seq<Field>, fields: map<string, Json>, i: nat)
    requires i < |shape| && !FieldAccepts(shape[i], fields)
    ensures FieldIssue(shape[i], fields).Some?
    ensures FieldIssue(shape[i], fields).value in Issues(shape, fields)
  {
    if i > 0 {
      assert shape[i] == shape[1..][i - 1];
      EveryRejectedFieldReported(shape[1..], fields, i - 1);
    }
  }

  /** `schema.parse(body)`: the conforming body with the keys the shape does not name dropped. */
  function Parse(shape: seq<Field>, body: Json): (r: Result<map<string, Json>, seq<Issue>>)
    ensures r.Success? <==> Conforms(shape, body)
    ensures r.Success? ==> forall k :: k in r.value <==> k in body.fields && k in Names(shape)
    ensures r.Success? ==> forall k :: k in r.value ==> r.value[k] == body.fields[k]
    ensures r.Failure? ==> r.error != []
    ensures r.Failure? && body.JObject? ==> r.error == Issues(shape, body.fields)
  {
    if !body.JObject? then Failure([Issue("", InvalidType)])
    else
      var issues := Issues(shape, body.fields);
      if issues == [] then Success(map k | k in body.fields && k in Names(shape) :: body.fields[k])
      else Failure(issues)
  }

  // ---------------------------------------------------------------------------
  // Typed records

  datatype User = User(id: int, username: string, password: string)

  datatype InsertUser = InsertUser(username: string, password: string)

  datatype JobListing = JobListing(
    id: int,
    title: string,
    department: string,
    location: string,
    jobType: string,  // the `type` column: Full-time, Part-time, Contract
    experience: string,
    description: string,
    requirements: string,
    skills: seq<string>,
    googleFormUrl: string,
    isActive: bool,
    createdAt: Timestamp)

  /** A validated job listing body; a field left out is None. */
  datatype InsertJobListing = InsertJobListing(
    title: string,
    department: string,
    location: string,
    jobType: string,
    experience: string,
    description: string,
    requirements: string,
    skills: Option<seq<string>>,
    googleFormUrl: Option<string>,
    isActive: Option<bool>)

  /** A validated update body: every field may be left out. */
  datatype PartialJobListing = PartialJobListing(
    title: Option<string>,
    department: Option<string>,
    location: Option<string>,
    jobType: Option<string>,
    experience: Option<string>,
    description: Option<string>,
    requirements: Option<string>,
    skills: Option<seq<string>>,
    googleFormUrl: Option<string>,
    isActive: Option<bool>)

  datatype ContactSubmission = ContactSubmission(
    id: int,
    firstName: string,
    lastName: string,
    email: string,
    company: Option<string>,  // None is null
    message: string,
    createdAt: Timestamp)

  /** A validated contact body; `company` is left out (None), null (Some(None)) or text. */
  datatype InsertContactSubmission = InsertContactSubmission(
    firstName: string,
    lastName: string,
    email: string,
    company: Option<Option<string>>,
    message: string)

  // Readers of a validated body. Their fallbacks ("", false) are never reached on a body
  // that conforms; they keep the readers total.

  function Text(fields: map<string, Json>, name: string): string {
    if name in fields && fields[name].JString? then fields[name].str else ""
  }

  function OptText(fields: map<string, Json>, name: string): Option<string> {
    if name in fields && fields[name].JString? then Some(fields[name].str) else None
  }

  function OptBool(fields: map<string, Json>, name: string): Option<bool> {
    if name in fields && fields[name].JBool? then Some(fields[name].b) else None
  }

  function Strings(items: seq<Json>): seq<string> {
    seq(|items|, i requires 0 <= i < |items| => if items[i].JString? then items[i].str else "")
  }

  function OptStrings(fields: map<string, Json>, name: string): Option<seq<string>> {
    if name in fields && fields[name].JArray? then Some(Strings(fields[name].items)) else None
  }

  function NullableText(fields: map<string, Json>, name: string): Option<Option<string>> {
    if name !in fields then None
    else if fields[name].JString? then Some(Some(fields[name].str))
    else Some(None)
  }

  // How a typed body sits in the JSON object it was read from: a field left out is a
  // missing key, every other field is the JSON value the body carries under its name.

  function StringsJson(s: seq<string>): Json {
    JArray(seq(|s|, i requires 0 <= i < |s| => JString(s[i])))
  }

  function TextJson(v: Option<string>): Option<Json> {
    if v.Some? then Some(JString(v.value)) else None
  }

  function BoolJson(v: Option<bool>): Option<Json> {
    if v.Some? then Some(JBool(v.value)) else None
  }

  function StringsOptJson(v: Option<seq<string>>): Option<Json> {
    if v.Some? then Some(StringsJson(v.value)) else None
  }

  predicate Carries(fields: map<string, Json>, name: string, v: Option<Json>) {
    if v.Some? then name in fields && fields[name] == v.value else name !in fields
  }

  predicate UserCarried(fields: map<string, Json>, u: InsertUser) {
    && Carries(fields, "username", Some(JString(u.username)))
    && Carries(fields, "password", Some(JString(u.password)))
  }

  predicate JobListingCarried(fields: map<string, Json>, j: InsertJobListing) {
    && Carries(fields, "title", Some(JString(j.title)))
    && Carries(fields, "department", Some(JString(j.department)))
    && Carries(fields, "location", Some(JString(j.location)))
    && Carries(fields, "type", Some(JString(j.jobType)))
    && Carries(fields, "experience", Some(JString(j.experience)))
    && Carries(fields, "description", Some(JString(j.description)))
    && Carries(fields, "requirements", Some(JString(j.requirements)))
    && Carries(fields, "skills", StringsOptJson(j.skills))
    && Carries(fields, "googleFormUrl", TextJson(j.googleFormUrl))
    && Carries(fields, "isActive", BoolJson(j.isActive))
  }

  predicate PartialCarried(fields: map<string, Json>, p: PartialJobListing) {
    && Carries(fields, "title", TextJson(p.title))
    && Carries(fields, "department", TextJson(p.department))
    && Carries(fields, "location", TextJson(p.location))
    && Carries(fields, "type", TextJson(p.jobType))
    && Carries(fields, "experience", TextJson(p.experience))
    && Carries(fields, "description", TextJson(p.description))
    && Carries(fields, "requirements", TextJson(p.requirements))
    && Carries(fields, "skills", StringsOptJson(p.skills))
    && Carries(fields, "googleFormUrl", TextJson(p.googleFormUrl))
    && Carries(fields, "isActive", BoolJson(p.isActive))
  }

  predicate ContactCarried(fields: map<string, Json>, c: InsertContactSubmission) {
    && Carries(fields, "firstName", Some(JString(c.firstName)))
    && Carries(fields, "lastName", Some(JString(c.lastName)))
    && Carries(fields, "email", Some(JString(c.email)))
    && Carries(fields, "company",
         match c.company
         case None => None
         case Some(None) => Some(JNull)
         case Some(Some(s)) => Some(JString(s)))
    && Carries(fields, "message", Some(JString(c.message)))
  }

  // ---------------------------------------------------------------------------
  // Typed validation

  function JobListingFrom(fields: map<string, Json>): InsertJobListing {
    InsertJobListing(
      Text(fields, "title"), Text(fields, "department"), Text(fields, "location"),
      Text(fields, "type"), Text(fields, "experience"), Text(fields, "description"),
      Text(fields, "requirements"), OptStrings(fields, "skills"),
      OptText(fields, "googleFormUrl"), OptBool(fields, "isActive"))
  }

  /** `insertJobListingSchema.parse(body)`. */
  function ParseInsertJobListing(body: Json): (r: Result<InsertJobListing, seq<Issue>>)
    ensures r.Success? <==> Conforms(InsertJobListingShape, body)
    ensures r.Success? ==> JobListingCarried(body.fields, r.value)
    ensures r.Failure? ==> r.error == Parse(InsertJobListingShape, body).error
  {
    match Parse(InsertJobListingShape, body)
    case Failure(issues) => Failure(issues)
    case Success(fields) =>
      JobListingFieldsRead(body);
      Success(JobListingFrom(body.fields))
  }

  lemma JobListingFieldsRead(body: Json)
    requires Conforms(InsertJobListingShape, body)
    ensures JobListingCarried(body.fields, JobListingFrom(body.fields))
  {
    var f := body.fields;
    var s := InsertJobListingShape;
    assert FieldAccepts(s[0], f) && FieldAccepts(s[1], f);
    assert FieldAccepts(s[2], f) && FieldAccepts(s[3], f);
    assert FieldAccepts(s[4], f) && FieldAccepts(s[5], f);
    assert FieldAccepts(s[6], f) && FieldAccepts(s[7], f);
    assert FieldAccepts(s[8], f) && FieldAccepts(s[9], f);
    if "skills" in f {
      var items := f["skills"].items;
      assert StringsJson(Strings(items)).items == items;
    }
  }

  function PartialJobListingFrom(fields: map<string, Json>): PartialJobListing {
    PartialJobListing(
      OptText(fields, "title"), OptText(fields, "department"), OptText(fields, "location"),
      OptText(fields, "type"), OptText(fields, "experience"), OptText(fields, "description"),
      OptText(fields, "requirements"), OptStrings(fields, "skills"),
      OptText(fields, "googleFormUrl"), OptBool(fields, "isActive"))
  }

  // Reading one field of a conforming body gives back what the body carries under its name.

  lemma TextRead(shape: seq<Field>, body: Json, i: nat)
    requires Conforms(shape, body) && i < |shape| && shape[i].kind == TextColumn && !shape[i].nullable
    ensures Carries(body.fields, shape[i].name, TextJson(OptText(body.fields, shape[i].name)))
    ensures !shape[i].optional ==> Carries(body.fields, shape[i].name, Some(JString(Text(body.fields, shape[i].name))))
  {
  }

  lemma BoolRead(shape: seq<Field>, body: Json, i: nat)
    requires Conforms(shape, body) && i < |shape| && shape[i].kind == BooleanColumn && !shape[i].nullable
    ensures Carries(body.fields, shape[i].name, BoolJson(OptBool(body.fields, shape[i].name)))
  {
  }

  lemma StringsRead(shape: seq<Field>, body: Json, i: nat)
    requires Conforms(shape, body) && i < |shape| && shape[i].kind == TextArrayColumn && !shape[i].nullable
    ensures Carries(body.fields, shape[i].name, StringsOptJson(OptStrings(body.fields, shape[i].name)))
  {
    var name := shape[i].name;
    assert FieldAccepts(shape[i], body.fields);
    if name in body.fields {
      var items := body.fields[name].items;
      assert StringsJson(Strings(items)).items == items;
    }
  }

  lemma PartialFieldsRead(body: Json)
    requires Conforms(UpdateJobListingShape, body)
    ensures PartialCarried(body.fields, PartialJobListingFrom(body.fields))
  {
    var s := UpdateJobListingShape;
    TextRead(s, body, 0); TextRead(s, body, 1); TextRead(s, body, 2);
    TextRead(s, body, 3); TextRead(s, body, 4); TextRead(s, body, 5);
    TextRead(s, body, 6); StringsRead(s, body, 7); TextRead(s, body, 8);
    BoolRead(s, body, 9);
  }

  /** `insertJobListingSchema.partial().parse(body)`. */
  function ParsePartialJobListing(body: Json): (r: Result<PartialJobListing, seq<Issue>>)
    ensures r.Success? <==> Conforms(UpdateJobListingShape, body)
    ensures r.Success? ==> PartialCarried(body.fields, r.value)
    ensures r.Failure? ==> r.error == Parse(UpdateJobListingShape, body).error
  {
    match Parse(UpdateJobListingShape, body)
    case Failure(issues) => Failure(issues)
    case Success(_) =>
      PartialFieldsRead(body);
      Success(PartialJobListingFrom(body.fields))
  }

  function ContactFrom(fields: map<string, Json>): InsertContactSubmission {
    InsertContactSubmission(
      Text(fields, "firstName"), Text(fields, "lastName"), Text(fields, "email"),
      NullableText(fields, "company"), Text(fields, "message"))
  }

  lemma ContactFieldsRead(body: Json)
    requires Conforms(InsertContactSubmissionShape, body)
    ensures ContactCarried(body.fields, ContactFrom(body.fields))
  {
    var f := body.fields;
    var s := InsertContactSubmissionShape;
    assert FieldAccepts(s[0], f) && FieldAccepts(s[1], f) && FieldAccepts(s[2], f);
    assert FieldAccepts(s[3], f) && FieldAccepts(s[4], f);
  }

  /** `insertContactSubmissionSchema.parse(body)`. */
  function ParseInsertContactSubmission(body: Json): (r: Result<InsertContactSubmission, seq<Issue>>)
    ensures r.Success? <==> Conforms(InsertContactSubmissionShape, body)
    ensures r.Success? ==> ContactCarried(body.fields, r.value)
    ensures r.Failure? ==> r.error == Parse(InsertContactSubmissionShape, body).error
  {
    match Parse(InsertContactSubmissionShape, body)
    case Failure(issues) => Failure(issues)
    case Success(_) =>
      ContactFieldsRead(body);
      Success(ContactFrom(body.fields))
  }

  /** `insertUserSchema.parse(body)`. */
  function ParseInsertUser(body: Json): (r: Result<InsertUser, seq<Issue>>)
    ensures r.Success? <==> Conforms(InsertUserShape, body)
    ensures r.Success? ==> UserCarried(body.fields, r.value)
    ensures r.Failure? ==> r.error == Parse(InsertUserShape, body).error
  {
    match Parse(InsertUserShape, body)
    case Failure(issues) => Failure(issues)
    case Success(_) =>
      assert FieldAccepts(InsertUserShape[0], body.fields) && FieldAccepts(InsertUserShape[1], body.fields);
      Success(InsertUser(Text(body.fields, "username"), Text(body.fields, "password")))
  }

  // ---------------------------------------------------------------------------
  // What the shapes promise

  /** A required field that the body leaves out is reported by name, with code Required. */
  lemma MissingFieldReported(shape: seq<Field>, body: Json, i: nat)
    requires body.JObject? && i < |shape| && !shape[i].optional && shape[i].name !in body.fields
    ensures Parse(shape, body).Failure?
    ensures Issue(shape[i].name, Required) in Parse(shape, body).error
  {
  }

  /** A job listing body without a title is refused, and the refusal names `title`. */
  lemma MissingTitleReported(body: Json)
    requires body.JObject? && "title" !in body.fields
    ensures ParseInsertJobListing(body).Failure?
    ensures Issue("title", Required) in ParseInsertJobListing(body).error
  {
    MissingFieldReported(InsertJobListingShape, body, 0);
  }

  /**
   * Exactly the seven text fields title, department, location, type, experience,
   * description and requirements are required in a job listing body.
   */
  lemma JobListingRequiredFields()
    ensures forall f :: f in InsertJobListingShape ==>
      (!f.optional <==> f.name in {"title", "department", "location", "type", "experience",
                                   "description", "requirements"})
  {
  }

  /**
   * skills, googleFormUrl and isActive may be left out but not sent as null, in a new
   * listing and in an update alike.
   */
  lemma DefaultedFieldsRejectNull(body: Json, name: string)
    requires name in {"skills", "googleFormUrl", "isActive"}
    requires body.JObject? && name in body.fields && body.fields[name] == JNull
    ensures ParseInsertJobListing(body).Failure?
    ensures ParsePartialJobListing(body).Failure?
  {
    var k := if name == "skills" then 7 else if name == "googleFormUrl" then 8 else 9;
    assert !FieldAccepts(InsertJobListingShape[k], body.fields);
    assert !FieldAccepts(UpdateJobListingShape[k], body.fields);
  }

  /** An empty update body is valid and changes nothing. */
  lemma EmptyUpdateAccepted()
    ensures ParsePartialJobListing(JObject(map[]))
         == Success(PartialJobListing(None, None, None, None, None, None, None, None, None, None))
  {
    var body := JObject(map[]);
    assert forall i :: 0 <= i < |UpdateJobListingShape| ==> UpdateJobListingShape[i].optional;
    assert forall i :: 0 <= i < |UpdateJobListingShape| ==> FieldAccepts(UpdateJobListingShape[i], body.fields);
    assert PartialJobListingFrom(body.fields) == PartialJobListing(None, None, None, None, None, None, None, None, None, None);
  }

  /** A key the shape does not name is dropped from what `parse` returns. */
  lemma UnnamedKeyDropped(shape: seq<Field>, body: Json, k: string)
    requires Parse(shape, body).Success? && k !in Names(shape)
    ensures k !in Parse(shape, body).value
  {
  }

  /**
   * In a contact body company is the one field that may be null or left out; firstName,
   * lastName, email and message are required.
   */
  lemma CompanyOnlyNullableContactField()
    ensures forall f :: f in InsertContactSubmissionShape ==> (f.nullable <==> f.name == "company")
    ensures forall f :: f in InsertContactSubmissionShape ==> (f.optional <==> f.name == "company")
  {
  }

  // ---------------------------------------------------------------------------
  // The insert shapes follow from the tables

  lemma {:induction false} OmitAppend(a: seq<Field>, b: seq<Field>, names: set<string>)
    ensures Omit(a + b, names) == Omit(a, names) + Omit(b, names)
  {
    if a == [] {
      assert a + b == b;
    } else {
      assert (a + b)[1..] == a[1..] + b;
      OmitAppend(a[1..], b, names);
    }
  }

  lemma {:induction false} PickAppend(a: seq<Field>, b: seq<Field>, names: set<string>)
    ensures Pick(a + b, names) == Pick(a, names) + Pick(b, names)
  {
    if a == [] {
      assert a + b == b;
    } else {
      assert (a + b)[1..] == a[1..] + b;
      PickAppend(a[1..], b, names);
    }
  }

  /** Omitting names that no field carries changes nothing. */
  lemma {:induction false} OmitNoneNamed(s: seq<Field>, names: set<string>)
    requires forall i :: 0 <= i < |s| ==> s[i].name !in names
    ensures Omit(s, names) == s
  {
    if s != [] {
      OmitNoneNamed(s[1..], names);
    }
  }

  /** Picking names that every field carries keeps them all. */
  lemma {:induction false} PickAllNamed(s: seq<Field>, names: set<string>)
    requires forall i :: 0 <= i < |s| ==> s[i].name in names
    ensures Pick(s, names) == s
  {
    if s != [] {
      PickAllNamed(s[1..], names);
    }
  }

  /** An omitted name is not in the resulting shape. */
  lemma {:induction false} OmitRemoves(s: seq<Field>, names: set<string>, k: string)
    requires k in names
    ensures k !in Names(Omit(s, names))
  {
    if s != [] {
      OmitRemoves(s[1..], names, k);
      var head := if s[0].name in names then [] else [s[0]];
      assert Omit(s, names) == head + Omit(s[1..], names);
      assert Names(head + Omit(s[1..], names)) == Names(head) + Names(Omit(s[1..], names));
    }
  }

  /** Only picked names are in the resulting shape. */
  lemma {:induction false} PickKeepsOnly(s: seq<Field>, names: set<string>)
    ensures Names(Pick(s, names)) <= names
  {
    if s != [] {
      PickKeepsOnly(s[1..], names);
      var head := if s[0].name in names then [s[0]] else [];
      assert Pick(s, names) == head + Pick(s[1..], names);
      assert Names(head + Pick(s[1..], names)) == Names(head) + Names(Pick(s[1..], names));
    }
  }

  lemma UserColumnsAsFields()
    ensures |InsertShape(UsersTable)| == 3
    ensures InsertShape(UsersTable)[0].name == "id"
    ensures InsertShape(UsersTable)[1..] == InsertUserShape
  {
  }

  /** `insertUserSchema` is the users table's username and password, both required. */
  lemma InsertUserShapeFollowsTable()
    ensures InsertUserShape == Pick(InsertShape(UsersTable), {"username", "password"})
    ensures Names(InsertUserShape) <= {"username", "password"}
  {
    var u := InsertShape(UsersTable);
    var n := {"username", "password"};
    UserColumnsAsFields();
    assert u == [u[0]] + u[1..];
    PickAppend([u[0]], u[1..], n);
    assert Pick([u[0]], n) == [];
    PickAllNamed(u[1..], n);
    PickKeepsOnly(u, n);
  }

  /** Omitting the names of exactly the first and the last field leaves the fields in between. */
  lemma OmitEnds(s: seq<Field>, names: set<string>)
    requires |s| >= 2 && s[0].name in names && s[|s| - 1].name in names
    requires forall i :: 0 < i < |s| - 1 ==> s[i].name !in names
    ensures Omit(s, names) == s[1..|s| - 1]
  {
    var mid := s[1..|s| - 1];
    assert s == [s[0]] + (mid + [s[|s| - 1]]);
    OmitAppend([s[0]], mid + [s[|s| - 1]], names);
    OmitAppend(mid, [s[|s| - 1]], names);
    OmitNoneNamed(mid, names);
    assert Omit([s[0]], names) == [];
    assert Omit([s[|s| - 1]], names) == [];
  }

  lemma JobListingColumnsAsFields()
    ensures |InsertShape(JobListingsTable)| == 12
    ensures InsertShape(JobListingsTable)[0].name == "id"
    ensures InsertShape(JobListingsTable)[11].name == "createdAt"
    ensures InsertShape(JobListingsTable)[1..11] == InsertJobListingShape
  {
  }

  lemma JobListingFieldsNotServerAssigned()
    ensures forall i :: 0 <= i < |InsertJobListingShape| ==> InsertJobListingShape[i].name !in {"id", "createdAt"}
  {
  }

  /**
   * `insertJobListingSchema` is the job listings table without `id` and `createdAt`: the
   * seven text columns without a default are required, skills, googleFormUrl and isActive
   * may be left out because they have defaults, and none of them accepts null.
   */
  lemma InsertJobListingShapeFollowsTable()
    ensures InsertJobListingShape == Omit(InsertShape(JobListingsTable), {"id", "createdAt"})
  {
    var j := InsertShape(JobListingsTable);
    JobListingColumnsAsFields();
    JobListingFieldsNotServerAssigned();
    assert forall i :: 0 < i < |j| - 1 ==> j[i].name == InsertJobListingShape[i - 1].name;
    OmitEnds(j, {"id", "createdAt"});
  }

  /** Neither `id` nor `createdAt` is a field of a job listing body: the server assigns both. */
  lemma ServerFieldsNotInJobShape()
    ensures "id" !in Names(InsertJobListingShape) && "createdAt" !in Names(InsertJobListingShape)
  {
    InsertJobListingShapeFollowsTable();
    OmitRemoves(InsertShape(JobListingsTable), {"id", "createdAt"}, "id");
    OmitRemoves(InsertShape(JobListingsTable), {"id", "createdAt"}, "createdAt");
  }

  lemma PartialShapeNames(shape: seq<Field>)
    ensures Names(PartialShape(shape)) == Names(shape)
  {
    var p := PartialShape(shape);
    forall n | n in Names(shape) ensures n in Names(p) {
      var i :| 0 <= i < |shape| && shape[i].name == n;
      assert p[i].name == n;
    }
  }

  /** `.partial()` of the job listing shape is the update shape. */
  lemma UpdateShapeIsPartial()
    ensures UpdateJobListingShape == PartialShape(InsertJobListingShape)
  {
  }

  /** Neither `id` nor `createdAt` is a field of an update body either. */
  lemma ServerFieldsNotInUpdateShape()
    ensures "id" !in Names(UpdateJobListingShape) && "createdAt" !in Names(UpdateJobListingShape)
  {
    ServerFieldsNotInJobShape();
    UpdateShapeIsPartial();
    PartialShapeNames(InsertJobListingShape);
  }

  lemma ContactColumnsAsFields()
    ensures |InsertShape(ContactSubmissionsTable)| == 7
    ensures InsertShape(ContactSubmissionsTable)[0].name == "id"
    ensures InsertShape(ContactSubmissionsTable)[6].name == "createdAt"
    ensures InsertShape(ContactSubmissionsTable)[1..6] == InsertContactSubmissionShape
  {
  }

  /** `insertContactSubmissionSchema` is the contact table without `id` and `createdAt`. */
  lemma InsertContactShapeFollowsTable()
    ensures InsertContactSubmissionShape == Omit(InsertShape(ContactSubmissionsTable), {"id", "createdAt"})
  {
    var c := InsertShape(ContactSubmissionsTable);
    ContactColumnsAsFields();
    assert forall i :: 0 < i < |c| - 1 ==> c[i].name == InsertContactSubmissionShape[i - 1].name;
    OmitEnds(c, {"id", "createdAt"});
  }

  /** Neither `id` nor `createdAt` is a field of a contact body: the server assigns both. */
  lemma ServerFieldsNotInContactShape()
    ensures "id" !in Names(InsertContactSubmissionShape) && "createdAt" !in Names(InsertContactSubmissionShape)
  {
    InsertContactShapeFollowsTable();
    OmitRemoves(InsertShape(ContactSubmissionsTable), {"id", "createdAt"}, "id");
    OmitRemoves(InsertShape(ContactSubmissionsTable), {"id", "createdAt"}, "createdAt");
  }
}
