/** The zod schemas of lib/validations.ts as validator functions. A zod
    string schema is a chain of links applied in the order written: a
    length or format link reports an issue and parsing goes on, while
    `.trim()` and `.toLowerCase()` replace the value seen by the links after
    them. So a length bound written before `.trim()` measures the raw input.
    Object schemas check their fields in declaration order and collect every
    field's issues; unknown keys are dropped. The e-mail, UUID and datetime
    formats are zod's regular expressions and stay uninterpreted here. */
module Validations {
  import opened Wrappers
  import opened Strings
  import opened Json
  import opened Domain
  import opened ValidationErrors

  /** zod's format predicates, left uninterpreted. */
  datatype Formats = Formats(isEmail: string -> bool, isUuid: string -> bool, isDatetime: string -> bool)

  /** One link of a zod string chain. */
  datatype StrCheck =
    | MinLength(n: nat, message: string)
    | MaxLength(n: nat, message: string)
    | EmailFormat(message: string)
    | UuidFormat(message: string)
    | DatetimeFormat(message: string)
    | LowerUpperDigit(message: string)
    | TrimValue
    | LowerCaseValue

  /** The result of parsing: the output value, or the issues found (never none). */
  datatype Parsed<T> = Valid(value: T) | Invalid(issues: seq<Issue>)

  function IssuesOf<T>(p: Parsed<T>): seq<Issue>
  {
    if p.Valid? then [] else p.issues
  }

  // ─── The password pattern ─────────────────────────────

  predicate IsLineTerminator(c: char)
  {
    c == '\n' || c == '\r' || c == '\U{2028}' || c == '\U{2029}'
  }

  /** The text before the first line terminator: what `.*` can reach from
      the start of the string. */
  function FirstLine(s: string): (l: string)
    ensures |l| <= |s| && l == s[..|l|]
    ensures forall i :: 0 <= i < |l| ==> !IsLineTerminator(l[i])
    ensures |l| < |s| ==> IsLineTerminator(s[|l|])
  {
    if s == [] || IsLineTerminator(s[0]) then [] else [s[0]] + FirstLine(s[1..])
  }

  predicate HasLower(s: string) { exists i :: 0 <= i < |s| && 'a' <= s[i] <= 'z' }
  predicate HasUpper(s: string) { exists i :: 0 <= i < |s| && 'A' <= s[i] <= 'Z' }
  predicate HasDigit(s: string) { exists i :: 0 <= i < |s| && '0' <= s[i] <= '9' }

  /** `/^(?=.*[a-z])(?=.*[A-Z])(?=.*\d)/.test(s)`: the three lookaheads all
      start at position 0 and `.` stops at a line terminator, so the three
      character classes must all occur on the first line. */
  predicate PasswordPattern(s: string)
  {
    var l := FirstLine(s);
    HasLower(l) && HasUpper(l) && HasDigit(l)
  }

  /** The first line of a text is the part before its first terminator. */
  lemma {:induction false} FirstLineOf(a: string, t: char, b: string)
    requires forall i :: 0 <= i < |a| ==> !IsLineTerminator(a[i])
    requires IsLineTerminator(t)
    ensures FirstLine(a + [t] + b) == a
    decreases |a|
  {
    if a == [] {
      assert (a + [t] + b)[0] == t;
    } else {
      assert (a + [t] + b)[1..] == a[1..] + [t] + b;
      FirstLineOf(a[1..], t, b);
    }
  }

  /** A password whose letters and digit are split across lines is refused,
      although it holds all three classes. */
  lemma PasswordClassesMustShareFirstLine()
    ensures var p := "a\nA1";
      HasLower(p) && HasUpper(p) && HasDigit(p) && !PasswordPattern(p)
  {
    var p := "a\nA1";
    assert p == "a" + ['\n'] + "A1";
    assert p[0] == 'a' && p[2] == 'A' && p[3] == '1';
    FirstLineOf("a", '\n', "A1");
    assert !HasUpper("a");
  }

  // ─── Default messages ─────────────────────────────────

  function TooShortMessage(n: nat): string
  {
    "String must contain at least " + NatToString(n) + " character(s)"
  }

  function TooLongMessage(n: nat): string
  {
    "String must contain at most " + NatToString(n) + " character(s)"
  }

  function ExpectedString(v: Json): string
  {
    "Expected string, received " + TypeName(v)
  }

  // ─── String chains ────────────────────────────────────

  /** `.trim()` and `.toLowerCase()` change the value and never fail;
      every other link only tests it. */
  predicate IsTransform(c: StrCheck)
  {
    c.TrimValue? || c.LowerCaseValue?
  }

  /** Whether a testing link accepts the value it sees. */
  predicate Passes(s: string, c: StrCheck, f: Formats)
    requires !IsTransform(c)
  {
    match c
    case MinLength(n, _) => |s| >= n
    case MaxLength(n, _) => |s| <= n
    case EmailFormat(_) => f.isEmail(s)
    case UuidFormat(_) => f.isUuid(s)
    case DatetimeFormat(_) => f.isDatetime(s)
    case LowerUpperDigit(_) => PasswordPattern(s)
  }

  /** What a transforming link makes of the value. */
  function Transformed(s: string, c: StrCheck): string
    requires IsTransform(c)
  {
    if c.TrimValue? then Trim(s) else ToLower(s)
  }

  /** One link applied to the current value: the value it passes on and the
      issue it reports, if any. */
  function ApplyCheck(path: seq<string>, s: string, check: StrCheck, f: Formats): (string, seq<Issue>)
  {
    if IsTransform(check) then (Transformed(s, check), [])
    else (s, if Passes(s, check, f) then [] else [Issue(path, check.message)])
  }

  /** The whole chain, link by link: the final value and every issue. */
  function RunChecks(path: seq<string>, s: string, checks: seq<StrCheck>, f: Formats): (string, seq<Issue>)
    decreases |checks|
  {
    if checks == [] then (s, [])
    else
      var (s1, first) := ApplyCheck(path, s, checks[0], f);
      var (out, rest) := RunChecks(path, s1, checks[1..], f);
      (out, first + rest)
  }

  /** A required string field. */
  function StringField(path: seq<string>, v: Option<Json>, checks: seq<StrCheck>, f: Formats): (r: Parsed<string>)
    ensures r.Invalid? ==> r.issues != []
  {
    match v
    case None => Invalid([Issue(path, "Required")])
    case Some(JStr(s)) =>
      var (out, issues) := RunChecks(path, s, checks, f);
      if issues == [] then Valid(out) else Invalid(issues)
    case Some(other) => Invalid([Issue(path, ExpectedString(other))])
  }

  /** `.optional().nullable()` around a string chain: `undefined` and `null`
      pass through as they are. */
  function OptionalNullableString(path: seq<string>, v: Option<Json>, checks: seq<StrCheck>, f: Formats): (r: Parsed<Nullable<string>>)
    ensures r.Invalid? ==> r.issues != []
  {
    match v
    case None => Valid(Undefined)
    case Some(JNull) => Valid(Null)
    case Some(_) =>
      var p := StringField(path, v, checks, f);
      if p.Valid? then Valid(Value(p.value)) else Invalid(p.issues)
  }

  /** `.optional()` around a string chain. */
  function OptionalString(path: seq<string>, v: Option<Json>, checks: seq<StrCheck>, f: Formats): (r: Parsed<Option<string>>)
    ensures r.Invalid? ==> r.issues != []
  {
    match v
    case None => Valid(None)
    case Some(_) =>
      var p := StringField(path, v, checks, f);
      if p.Valid? then Valid(Some(p.value)) else Invalid(p.issues)
  }

  /** An optional, nullable datetime whose transform turns a (non-empty)
      string into a date and anything else into `null`. Dates are kept as
      their validated text. */
  function DueDateOrNull(path: seq<string>, v: Option<Json>, f: Formats): (r: Parsed<Option<string>>)
    ensures r.Invalid? ==> r.issues != []
  {
    var p := OptionalNullableString(path, v, [DatetimeFormat("Invalid datetime")], f);
    match p
    case Valid(Value(s)) => Valid(if s != "" then Some(s) else None)
    case Valid(_) => Valid(None)
    case Invalid(issues) => Invalid(issues)
  }

  // ─── Enumerations ─────────────────────────────────────

  function QuotedList(names: seq<string>): string
  {
    if names == [] then ""
    else if |names| == 1 then "'" + names[0] + "'"
    else "'" + names[0] + "' | " + QuotedList(names[1..])
  }

  /** `z.enum(names)`, with `.default(d)` when `default` is given (it
      replaces only `undefined`) and `.optional()` when `optional` holds. */
  function EnumField(path: seq<string>, v: Option<Json>, names: seq<string>, default: Option<string>, optional: bool): (r: Parsed<Option<string>>)
    ensures r.Invalid? ==> r.issues != []
    ensures r.Valid? && r.value.Some? ==> r.value.value in names || Some(r.value.value) == default
  {
    match v
    case None =>
      if default.Some? then Valid(default)
      else if optional then Valid(None)
      else Invalid([Issue(path, "Required")])
    case Some(JStr(s)) =>
      if s in names then Valid(Some(s))
      else Invalid([Issue(path, "Invalid enum value. Expected " + QuotedList(names) + ", received '" + s + "'")])
    case Some(other) => Invalid([Issue(path, "Expected " + QuotedList(names) + ", received " + TypeName(other))])
  }

  /** The status field: the name, read back as a status. */
  function StatusField(path: seq<string>, v: Option<Json>, default: Option<Status>): (r: Parsed<Option<Status>>)
    ensures r.Invalid? ==> r.issues != []
  {
    var dflt := if default.Some? then Some(StatusName(default.value)) else None;
    var p := EnumField(path, v, StatusNames, dflt, true);
    if p.Invalid? then Invalid(p.issues)
    else if p.value.None? then Valid(None)
    else if p.value.value in StatusNames then Valid(StatusFromName(p.value.value))
    else Valid(default)
  }

  /** The priority field, as `StatusField`. `optional` is false only for the
      action items, whose priority has a default but no `.optional()`. */
  function PriorityField(path: seq<string>, v: Option<Json>, default: Option<Priority>, optional: bool): (r: Parsed<Option<Priority>>)
    ensures r.Invalid? ==> r.issues != []
  {
    var dflt := if default.Some? then Some(PriorityName(default.value)) else None;
    var p := EnumField(path, v, PriorityNames, dflt, optional);
    if p.Invalid? then Invalid(p.issues)
    else if p.value.None? then Valid(None)
    else if p.value.value in PriorityNames then Valid(PriorityFromName(p.value.value))
    else Valid(default)
  }

  /** The issue of a body that is not an object. */
  function NotAnObject(path: seq<string>, v: Json): Issue
  {
    Issue(path, "Expected object, received " + TypeName(v))
  }

  // ─── The schemas ──────────────────────────────────────

  const NameChecks: seq<StrCheck> := [
    MinLength(2, "Name must be at least 2 characters"),
    MaxLength(100, "Name must be at most 100 characters"),
    TrimValue]
  const RegisterEmailTests: seq<StrCheck> := [
    EmailFormat("Invalid email address"),
    MaxLength(255, "Email must be at most 255 characters")]
  const RegisterEmailChecks: seq<StrCheck> := RegisterEmailTests + [LowerCaseValue, TrimValue]
  const PasswordChecks: seq<StrCheck> := [
    MinLength(8, "Password must be at least 8 characters"),
    MaxLength(128, "Password must be at most 128 characters"),
    LowerUpperDigit("Password must contain at least one lowercase letter, one uppercase letter, and one digit")]
  const LoginEmailChecks: seq<StrCheck> := [
    EmailFormat("Invalid email address"),
    LowerCaseValue,
    TrimValue]
  const LoginPasswordChecks: seq<StrCheck> := [MinLength(1, "Password is required")]
  const TitleChecks: seq<StrCheck> := [
    MinLength(1, "Title is required"),
    MaxLength(255, "Title must be at most 255 characters"),
    TrimValue]
  const DescriptionChecks: seq<StrCheck> := [
    MaxLength(2000, "Description must be at most 2000 characters"),
    TrimValue]
  const TranscriptChecks: seq<StrCheck> := [
    MinLength(10, "Transcript must be at least 10 characters"),
    MaxLength(50000, "Transcript must be at most 50,000 characters"),
    TrimValue]
  const TranscriptIdChecks: seq<StrCheck> := [UuidFormat("Invalid transcript ID")]
  const ItemTitleChecks: seq<StrCheck> := [MinLength(1, TooShortMessage(1)), MaxLength(255, TooLongMessage(255)), TrimValue]
  const ItemDescriptionChecks: seq<StrCheck> := [MaxLength(2000, TooLongMessage(2000)), TrimValue]

  datatype RegisterInput = RegisterInput(name: string, email: string, password: string)
  datatype LoginInput = LoginInput(email: string, password: string)
  datatype CreateTaskInput = CreateTaskInput(
    title: string, description: Nullable<string>, status: Status, priority: Priority, dueDate: Option<string>)
  datatype UpdateTaskInput = UpdateTaskInput(
    title: Option<string>, description: Nullable<string>, status: Option<Status>,
    priority: Option<Priority>, dueDate: Nullable<string>)
  datatype ActionItemInput = ActionItemInput(
    title: string, description: Nullable<string>, priority: Priority, dueDate: Option<string>)
  datatype ConfirmInput = ConfirmInput(transcriptId: string, actionItems: seq<ActionItemInput>)

  /** `registerSchema.safeParse(body)`. */
  function RegisterSchema(body: Json, f: Formats): (r: Parsed<RegisterInput>)
    ensures r.Invalid? ==> r.issues != []
  {
    match body
    case JObj(m) =>
      var name := StringField(["name"], Get(m, "name"), NameChecks, f);
      var email := StringField(["email"], Get(m, "email"), RegisterEmailChecks, f);
      var password := StringField(["password"], Get(m, "password"), PasswordChecks, f);
      if name.Valid? && email.Valid? && password.Valid? then
        Valid(RegisterInput(name.value, email.value, password.value))
      else Invalid(IssuesOf(name) + IssuesOf(email) + IssuesOf(password))
    case _ => Invalid([NotAnObject([], body)])
  }

  /** `loginSchema.safeParse(body)`. */
  function LoginSchema(body: Json, f: Formats): (r: Parsed<LoginInput>)
    ensures r.Invalid? ==> r.issues != []
  {
    match body
    case JObj(m) =>
      var email := StringField(["email"], Get(m, "email"), LoginEmailChecks, f);
      var password := StringField(["password"], Get(m, "password"), LoginPasswordChecks, f);
      if email.Valid? && password.Valid? then Valid(LoginInput(email.value, password.value))
      else Invalid(IssuesOf(email) + IssuesOf(password))
    case _ => Invalid([NotAnObject([], body)])
  }

  /** `createTaskSchema.safeParse(body)`. */
  function CreateTaskSchema(body: Json, f: Formats): (r: Parsed<CreateTaskInput>)
    ensures r.Invalid? ==> r.issues != []
  {
    match body
    case JObj(m) =>
      var title := StringField(["title"], Get(m, "title"), TitleChecks, f);
      var description := OptionalNullableString(["description"], Get(m, "description"), DescriptionChecks, f);
      var status := StatusField(["status"], Get(m, "status"), Some(Todo));
      var priority := PriorityField(["priority"], Get(m, "priority"), Some(Medium), true);
      var dueDate := DueDateOrNull(["dueDate"], Get(m, "dueDate"), f);
      if title.Valid? && description.Valid? && status.Valid? && priority.Valid? && dueDate.Valid? then
        Valid(CreateTaskInput(title.value, description.value,
          status.value.GetOr(Todo), priority.value.GetOr(Medium), dueDate.value))
      else Invalid(IssuesOf(title) + IssuesOf(description) + IssuesOf(status) + IssuesOf(priority) + IssuesOf(dueDate))
    case _ => Invalid([NotAnObject([], body)])
  }

  /** `updateTaskSchema.safeParse(body)`. */
  function UpdateTaskSchema(body: Json, f: Formats): (r: Parsed<UpdateTaskInput>)
    ensures r.Invalid? ==> r.issues != []
  {
    match body
    case JObj(m) =>
      var title := OptionalString(["title"], Get(m, "title"), TitleChecks, f);
      var description := OptionalNullableString(["description"], Get(m, "description"), DescriptionChecks, f);
      var status := StatusField(["status"], Get(m, "status"), None);
      var priority := PriorityField(["priority"], Get(m, "priority"), None, true);
      var dueDate := OptionalNullableString(["dueDate"], Get(m, "dueDate"), [DatetimeFormat("Invalid datetime")], f);
      if title.Valid? && description.Valid? && status.Valid? && priority.Valid? && dueDate.Valid? then
        Valid(UpdateTaskInput(title.value, description.value, status.value, priority.value, dueDate.value))
      else Invalid(IssuesOf(title) + IssuesOf(description) + IssuesOf(status) + IssuesOf(priority) + IssuesOf(dueDate))
    case _ => Invalid([NotAnObject([], body)])
  }

  /** `extractTranscriptSchema.safeParse(body)`: the trimmed transcript. */
  function ExtractTranscriptSchema(body: Json, f: Formats): (r: Parsed<string>)
    ensures r.Invalid? ==> r.issues != []
  {
    match body
    case JObj(m) => StringField(["transcript"], Get(m, "transcript"), TranscriptChecks, f)
    case _ => Invalid([NotAnObject([], body)])
  }

  /** One action item of `confirmActionItemsSchema`, at index `i`. */
  function ActionItemSchema(i: nat, v: Json, f: Formats): (r: Parsed<ActionItemInput>)
    ensures r.Invalid? ==> r.issues != []
  {
    var at := ["actionItems", NatToString(i)];
    match v
    case JObj(m) =>
      var title := StringField(at + ["title"], Get(m, "title"), ItemTitleChecks, f);
      var description := OptionalNullableString(at + ["description"], Get(m, "description"), ItemDescriptionChecks, f);
      var priority := PriorityField(at + ["priority"], Get(m, "priority"), Some(Medium), false);
      var dueDate := DueDateOrNull(at + ["dueDate"], Get(m, "dueDate"), f);
      if title.Valid? && description.Valid? && priority.Valid? && dueDate.Valid? then
        Valid(ActionItemInput(title.value, description.value, priority.value.GetOr(Medium), dueDate.value))
      else Invalid(IssuesOf(title) + IssuesOf(description) + IssuesOf(priority) + IssuesOf(dueDate))
    case _ => Invalid([NotAnObject(at, v)])
  }

  /** The elements of an array from index `i` on, each parsed by `parse`
      at its index; every element's issues are collected, in order. */
  function ParseEach<T>(items: seq<Json>, i: nat, parse: (nat, Json) -> Parsed<T>): (r: Parsed<seq<T>>)
    requires i <= |items|
    requires forall j, v :: parse(j, v).Invalid? ==> parse(j, v).issues != []
    ensures r.Invalid? ==> r.issues != []
    ensures r.Valid? ==> |r.value| == |items| - i
    decreases |items| - i
  {
    if i == |items| then Valid([])
    else
      var head := parse(i, items[i]);
      var tail := ParseEach(items, i + 1, parse);
      if head.Valid? && tail.Valid? then Valid([head.value] + tail.value)
      else Invalid(IssuesOf(head) + IssuesOf(tail))
  }

  /** The `actionItems` array: its size bounds are checked before its items. */
  function ActionItemsField(v: Option<Json>, f: Formats): (r: Parsed<seq<ActionItemInput>>)
    ensures r.Invalid? ==> r.issues != []
  {
    match v
    case None => Invalid([Issue(["actionItems"], "Required")])
    case Some(JArr(items)) =>
      var size :=
        (if |items| < 1 then [Issue(["actionItems"], "At least one action item is required")] else []) +
        (if |items| > 50 then [Issue(["actionItems"], "Maximum 50 action items allowed")] else []);
      var parsed := ParseEach(items, 0, (j, v) => ActionItemSchema(j, v, f));
      if size == [] && parsed.Valid? then parsed else Invalid(size + IssuesOf(parsed))
    case Some(other) => Invalid([Issue(["actionItems"], "Expected array, received " + TypeName(other))])
  }

  /** `confirmActionItemsSchema.safeParse(body)`. */
  function ConfirmActionItemsSchema(body: Json, f: Formats): (r: Parsed<ConfirmInput>)
    ensures r.Invalid? ==> r.issues != []
  {
    match body
    case JObj(m) =>
      var id := StringField(["transcriptId"], Get(m, "transcriptId"), TranscriptIdChecks, f);
      var items := ActionItemsField(Get(m, "actionItems"), f);
      if id.Valid? && items.Valid? then Valid(ConfirmInput(id.value, items.value))
      else Invalid(IssuesOf(id) + IssuesOf(items))
    case _ => Invalid([NotAnObject([], body)])
  }

  // ─── Properties of the chains ─────────────────────────

  /** Every issue a chain reports sits at the field's own path. */
  lemma {:induction false} RunChecksAtPath(path: seq<string>, s: string, checks: seq<StrCheck>, f: Formats)
    ensures forall iss :: iss in RunChecks(path, s, checks, f).1 ==> iss.path == path
    decreases |checks|
  {
    if checks != [] {
      var (s1, _) := ApplyCheck(path, s, checks[0], f);
      RunChecksAtPath(path, s1, checks[1..], f);
    }
  }

  lemma StringFieldAtPath(path: seq<string>, v: Option<Json>, checks: seq<StrCheck>, f: Formats)
    ensures forall iss :: iss in IssuesOf(StringField(path, v, checks, f)) ==> iss.path == path
  {
    if v.Some? && v.value.JStr? {
      RunChecksAtPath(path, v.value.s, checks, f);
    }
  }

  /** The transforms of a chain, applied in order. */
  function TransformAll(s: string, transforms: seq<StrCheck>): string
    requires forall c :: c in transforms ==> IsTransform(c)
    decreases |transforms|
  {
    if transforms == [] then s else TransformAll(Transformed(s, transforms[0]), transforms[1..])
  }

  predicate AllPass(s: string, tests: seq<StrCheck>, f: Formats)
  {
    forall c :: c in tests ==> !IsTransform(c) && Passes(s, c, f)
  }

  lemma {:induction false} TransformsOnly(path: seq<string>, s: string, transforms: seq<StrCheck>, f: Formats)
    requires forall c :: c in transforms ==> IsTransform(c)
    ensures RunChecks(path, s, transforms, f) == (TransformAll(s, transforms), [])
    decreases |transforms|
  {
    if transforms != [] {
      var c := transforms[0];
      assert c in transforms;
      assert forall d :: d in transforms[1..] ==> d in transforms;
      var s1 := Transformed(s, c);
      assert ApplyCheck(path, s, c, f) == (s1, []);
      TransformsOnly(path, s1, transforms[1..], f);
      var rest := RunChecks(path, s1, transforms[1..], f);
      assert RunChecks(path, s, transforms, f) == (rest.0, [] + rest.1);
      assert [] + rest.1 == rest.1;
      assert TransformAll(s, transforms) == TransformAll(s1, transforms[1..]);
    }
  }

  /** A chain whose tests all come before its transforms: the tests all see
      the raw input, it fails exactly when one of them does, with that
      test's message among its issues, and its output is the transformed
      input. */
  lemma {:induction false} TestsThenTransforms(path: seq<string>, s: string, tests: seq<StrCheck>, transforms: seq<StrCheck>, f: Formats)
    requires forall c :: c in tests ==> !IsTransform(c)
    requires forall c :: c in transforms ==> IsTransform(c)
    ensures var (out, issues) := RunChecks(path, s, tests + transforms, f);
      out == TransformAll(s, transforms) &&
      (issues == [] <==> AllPass(s, tests, f)) &&
      (forall c :: c in tests && !Passes(s, c, f) ==> Issue(path, c.message) in issues)
    decreases |tests|
  {
    if tests == [] {
      assert tests + transforms == transforms;
      TransformsOnly(path, s, transforms, f);
    } else {
      assert (tests + transforms)[1..] == tests[1..] + transforms;
      assert (tests + transforms)[0] == tests[0];
      TestsThenTransforms(path, s, tests[1..], transforms, f);
      assert forall c :: c in tests ==> c == tests[0] || c in tests[1..];
    }
  }

  /** `StringField` on a string, for a chain of that shape. */
  lemma StringFieldChain(path: seq<string>, s: string, tests: seq<StrCheck>, transforms: seq<StrCheck>, f: Formats)
    requires forall c :: c in tests ==> !IsTransform(c)
    requires forall c :: c in transforms ==> IsTransform(c)
    ensures var r := StringField(path, Some(JStr(s)), tests + transforms, f);
      (r.Valid? <==> AllPass(s, tests, f)) &&
      (r.Valid? ==> r.value == TransformAll(s, transforms)) &&
      (forall c :: c in tests && !Passes(s, c, f) ==> Issue(path, c.message) in IssuesOf(r))
  {
    TestsThenTransforms(path, s, tests, transforms, f);
  }

  /** The name: its length bounds measure the raw input, before `.trim()`. */
  lemma NameField(s: string, f: Formats)
    ensures var r := StringField(["name"], Some(JStr(s)), NameChecks, f);
      (r.Valid? <==> 2 <= |s| <= 100) && (r.Valid? ==> r.value == Trim(s)) &&
      (|s| < 2 ==> Issue(["name"], "Name must be at least 2 characters") in IssuesOf(r)) &&
      (|s| > 100 ==> Issue(["name"], "Name must be at most 100 characters") in IssuesOf(r))
  {
    var tests := NameChecks[..2];
    assert NameChecks == tests + [TrimValue];
    StringFieldChain(["name"], s, tests, [TrimValue], f);
    assert tests[0] in tests && tests[1] in tests;
  }

  /** A name of one letter padded with a space passes and is stored as one letter. */
  lemma PaddedShortNameAccepted(f: Formats)
    ensures StringField(["name"], Some(JStr(" a")), NameChecks, f) == Valid("a")
  {
    assert LeadingSpace(" a") == 1 by {
      assert IsJsWhitespace(" a"[0]);
      assert " a"[1..] == "a";
    }
    assert " a"[1..] == "a";
    assert !IsJsWhitespace('a');
    assert TrailingSpace("a") == 0;
    assert Trim(" a") == "a";
    NameField(" a", f);
  }

  /** An e-mail chain: its tests see the raw input, the stored value is
      lower-cased and then trimmed. */
  lemma EmailChain(path: seq<string>, s: string, tests: seq<StrCheck>, f: Formats)
    requires forall c :: c in tests ==> !IsTransform(c)
    ensures var r := StringField(path, Some(JStr(s)), tests + [LowerCaseValue, TrimValue], f);
      (r.Valid? <==> AllPass(s, tests, f)) && (r.Valid? ==> r.value == Trim(ToLower(s)))
  {
    StringFieldChain(path, s, tests, [LowerCaseValue, TrimValue], f);
    LowerThenTrim(s);
  }

  /** The registration e-mail: the format and the length are checked on the
      raw input; the stored value is lower-cased and then trimmed. */
  lemma RegisterEmailField(s: string, f: Formats)
    ensures var r := StringField(["email"], Some(JStr(s)), RegisterEmailChecks, f);
      (r.Valid? <==> f.isEmail(s) && |s| <= 255) && (r.Valid? ==> r.value == Trim(ToLower(s)))
  {
    var tests := RegisterEmailTests;
    EmailChain(["email"], s, tests, f);
    assert AllPass(s, tests, f) <==> f.isEmail(s) && |s| <= 255 by {
      assert tests[0] in tests && tests[1] in tests;
      assert forall c :: c in tests ==> c == tests[0] || c == tests[1];
    }
  }

  lemma LowerThenTrim(s: string)
    ensures TransformAll(s, [LowerCaseValue, TrimValue]) == Trim(ToLower(s))
  {
    assert [LowerCaseValue, TrimValue][1..] == [TrimValue];
    assert [TrimValue][1..] == [];
  }

  /** The login e-mail is cleaned as at registration, without the length bound. */
  lemma LoginEmailField(s: string, f: Formats)
    ensures var r := StringField(["email"], Some(JStr(s)), LoginEmailChecks, f);
      (r.Valid? <==> f.isEmail(s)) && (r.Valid? ==> r.value == Trim(ToLower(s)))
  {
    var tests := LoginEmailChecks[..1];
    assert LoginEmailChecks == tests + [LowerCaseValue, TrimValue];
    EmailChain(["email"], s, tests, f);
    assert tests[0] in tests;
  }

  /** The registration password is stored as given. */
  lemma PasswordField(s: string, f: Formats)
    ensures var r := StringField(["password"], Some(JStr(s)), PasswordChecks, f);
      (r.Valid? <==> 8 <= |s| <= 128 && PasswordPattern(s)) && (r.Valid? ==> r.value == s)
  {
    assert PasswordChecks == PasswordChecks + [];
    StringFieldChain(["password"], s, PasswordChecks, [], f);
    assert PasswordChecks[0] in PasswordChecks && PasswordChecks[1] in PasswordChecks && PasswordChecks[2] in PasswordChecks;
  }

  /** The login password only has to be non-empty, and is kept as given. */
  lemma LoginPasswordField(s: string, f: Formats)
    ensures var r := StringField(["password"], Some(JStr(s)), LoginPasswordChecks, f);
      (r.Valid? <==> |s| >= 1) && (r.Valid? ==> r.value == s)
  {
    assert LoginPasswordChecks == LoginPasswordChecks + [];
    StringFieldChain(["password"], s, LoginPasswordChecks, [], f);
    assert LoginPasswordChecks[0] in LoginPasswordChecks;
  }

  /** A title chain (of a task or of an action item): one raw character is
      enough, so a blank title passes and is stored empty. */
  lemma TitleField(path: seq<string>, s: string, checks: seq<StrCheck>, f: Formats)
    requires checks == TitleChecks || checks == ItemTitleChecks
    ensures var r := StringField(path, Some(JStr(s)), checks, f);
      (r.Valid? <==> 1 <= |s| <= 255) && (r.Valid? ==> r.value == Trim(s)) &&
      (r.Valid? && IsBlank(s) ==> r.value == "")
  {
    var tests := checks[..2];
    assert checks == tests + [TrimValue];
    StringFieldChain(path, s, tests, [TrimValue], f);
    assert tests[0] in tests && tests[1] in tests;
    TrimEmptyIffBlank(s);
  }

  /** A description chain: at most 2000 raw characters, stored trimmed. */
  lemma DescriptionField(path: seq<string>, s: string, checks: seq<StrCheck>, f: Formats)
    requires checks == DescriptionChecks || checks == ItemDescriptionChecks
    ensures var r := StringField(path, Some(JStr(s)), checks, f);
      (r.Valid? <==> |s| <= 2000) && (r.Valid? ==> r.value == Trim(s))
  {
    var tests := checks[..1];
    assert checks == tests + [TrimValue];
    StringFieldChain(path, s, tests, [TrimValue], f);
    assert tests[0] in tests;
  }

  /** The transcript to extract from, bounded before trimming. */
  lemma TranscriptField(s: string, f: Formats)
    ensures var r := ExtractTranscriptSchema(JObj(map["transcript" := JStr(s)]), f);
      (r.Valid? <==> 10 <= |s| <= 50000) && (r.Valid? ==> r.value == Trim(s))
  {
    assert Get(map["transcript" := JStr(s)], "transcript") == Some(JStr(s));
    var tests := TranscriptChecks[..2];
    assert TranscriptChecks == tests + [TrimValue];
    StringFieldChain(["transcript"], s, tests, [TrimValue], f);
    assert tests[0] in tests && tests[1] in tests;
  }

  /** A transcript of ten spaces is accepted, and what is extracted from is empty. */
  lemma BlankTranscriptAccepted(f: Formats)
    ensures ExtractTranscriptSchema(JObj(map["transcript" := JStr("          ")]), f) == Valid("")
  {
    var s := "          ";
    assert IsBlank(s) by {
      forall i | 0 <= i < |s| ensures IsJsWhitespace(s[i]) { }
    }
    TrimEmptyIffBlank(s);
    TranscriptField(s, f);
  }

  // ─── Properties of the schemas ────────────────────────

  predicate IsStrWhere(v: Option<Json>, ok: string -> bool)
  {
    v.Some? && v.value.JStr? && ok(v.value.s)
  }

  /** A registration body is accepted exactly when each of its three fields
      is, and then the cleaned values are what the route sees. */
  lemma RegisterAccepts(m: map<string, Json>, f: Formats)
    ensures var r := RegisterSchema(JObj(m), f);
      r.Valid? <==>
        IsStrWhere(Get(m, "name"), s => 2 <= |s| <= 100) &&
        IsStrWhere(Get(m, "email"), s => f.isEmail(s) && |s| <= 255) &&
        IsStrWhere(Get(m, "password"), s => 8 <= |s| <= 128 && PasswordPattern(s))
    ensures var r := RegisterSchema(JObj(m), f);
      r.Valid? ==> r.value == RegisterInput(
        Trim(Get(m, "name").value.s), Trim(ToLower(Get(m, "email").value.s)), Get(m, "password").value.s)
  {
    var name, email, password := Get(m, "name"), Get(m, "email"), Get(m, "password");
    if name.Some? && name.value.JStr? { NameField(name.value.s, f); }
    if email.Some? && email.value.JStr? { RegisterEmailField(email.value.s, f); }
    if password.Some? && password.value.JStr? { PasswordField(password.value.s, f); }
  }

  /** Every registration issue is keyed by one of the schema's fields, or
      by the empty path when the body is not an object. */
  lemma RegisterIssuePaths(body: Json, f: Formats)
    ensures forall iss :: iss in IssuesOf(RegisterSchema(body, f)) ==>
      iss.path in {["name"], ["email"], ["password"], []}
  {
    if body.JObj? {
      var m := body.fields;
      StringFieldAtPath(["name"], Get(m, "name"), NameChecks, f);
      StringFieldAtPath(["email"], Get(m, "email"), RegisterEmailChecks, f);
      StringFieldAtPath(["password"], Get(m, "password"), PasswordChecks, f);
    }
  }

  /** An empty registration body reports every field as required, in order. */
  lemma RegisterEmptyBody(f: Formats)
    ensures RegisterSchema(JObj(map[]), f) ==
      Invalid([Issue(["name"], "Required"), Issue(["email"], "Required"), Issue(["password"], "Required")])
  {
    assert Get(map[], "name") == None;
  }

  /** A login body is accepted exactly when the e-mail has the format and
      the password is not empty; the password keeps its spaces. */
  lemma LoginAccepts(m: map<string, Json>, f: Formats)
    ensures var r := LoginSchema(JObj(m), f);
      r.Valid? <==>
        IsStrWhere(Get(m, "email"), s => f.isEmail(s)) && IsStrWhere(Get(m, "password"), s => |s| >= 1)
    ensures var r := LoginSchema(JObj(m), f);
      r.Valid? ==> r.value == LoginInput(Trim(ToLower(Get(m, "email").value.s)), Get(m, "password").value.s)
  {
    var email, password := Get(m, "email"), Get(m, "password");
    if email.Some? && email.value.JStr? { LoginEmailField(email.value.s, f); }
    if password.Some? && password.value.JStr? { LoginPasswordField(password.value.s, f); }
  }

  /** Both schemas clean the e-mail alike, so an address accepted at
      registration is found again at login. */
  lemma LoginFindsRegisteredEmail(s: string, f: Formats)
    requires StringField(["email"], Some(JStr(s)), RegisterEmailChecks, f).Valid?
    ensures StringField(["email"], Some(JStr(s)), LoginEmailChecks, f) ==
      StringField(["email"], Some(JStr(s)), RegisterEmailChecks, f)
  {
    RegisterEmailField(s, f);
    LoginEmailField(s, f);
  }

  /** An optional, nullable string of at most 2000 raw characters. */
  predicate OptionalNullableOk(v: Option<Json>)
  {
    v.None? || v == Some(JNull) || IsStrWhere(v, s => |s| <= 2000)
  }

  /** An optional enumeration value. */
  predicate OptionalEnumOk(v: Option<Json>, names: seq<string>)
  {
    v.None? || IsStrWhere(v, s => s in names)
  }

  /** An optional, nullable datetime. */
  predicate OptionalDatetimeOk(v: Option<Json>, f: Formats)
  {
    v.None? || v == Some(JNull) || IsStrWhere(v, f.isDatetime)
  }

  /** An optional, nullable description: `undefined` and `null` are kept
      apart, a string is bounded and trimmed. */
  lemma OptionalDescription(path: seq<string>, v: Option<Json>, checks: seq<StrCheck>, f: Formats)
    requires checks == DescriptionChecks || checks == ItemDescriptionChecks
    ensures var r := OptionalNullableString(path, v, checks, f);
      (r.Valid? <==> OptionalNullableOk(v)) &&
      (r.Valid? ==> r.value == (if v.None? then Undefined else if v == Some(JNull) then Null else Value(Trim(v.value.s))))
  {
    if v.Some? && v.value.JStr? { DescriptionField(path, v.value.s, checks, f); }
  }

  /** A due date that is not a datetime is refused; an accepted one is kept,
      and absent and `null` both become no date. */
  lemma DueDate(path: seq<string>, v: Option<Json>, f: Formats)
    ensures var r := DueDateOrNull(path, v, f);
      (r.Valid? <==> OptionalDatetimeOk(v, f)) &&
      (r.Valid? ==> (r.value.Some? <==> v.Some? && v.value.JStr? && v.value.s != "")) &&
      (r.Valid? && r.value.Some? ==> r.value.value == v.value.s)
  {
    if v.Some? && v.value.JStr? {
      var c := DatetimeFormat("Invalid datetime");
      assert [c] == [c] + [];
      StringFieldChain(path, v.value.s, [c], [], f);
      assert c in [c];
    }
  }

  /** The status of a new task: an enumeration name, TODO when absent. */
  lemma CreateStatus(v: Option<Json>)
    ensures var r := StatusField(["status"], v, Some(Todo));
      (r.Valid? <==> OptionalEnumOk(v, StatusNames)) &&
      (r.Valid? ==> r.value == if v.None? then Some(Todo) else StatusFromName(v.value.s))
  {
  }

  /** The priority of a new task or action item: MEDIUM when absent. */
  lemma CreatePriority(path: seq<string>, v: Option<Json>, optional: bool)
    ensures var r := PriorityField(path, v, Some(Medium), optional);
      (r.Valid? <==> OptionalEnumOk(v, PriorityNames)) &&
      (r.Valid? ==> r.value == if v.None? then Some(Medium) else PriorityFromName(v.value.s))
  {
  }

  /** A task body is accepted exactly when the title is a string of 1 to
      255 raw characters and every other field is absent or well formed;
      status and priority then default to TODO and MEDIUM. */
  lemma CreateTaskAccepts(m: map<string, Json>, f: Formats)
    ensures var r := CreateTaskSchema(JObj(m), f);
      r.Valid? <==>
        IsStrWhere(Get(m, "title"), s => 1 <= |s| <= 255) &&
        OptionalNullableOk(Get(m, "description")) &&
        OptionalEnumOk(Get(m, "status"), StatusNames) &&
        OptionalEnumOk(Get(m, "priority"), PriorityNames) &&
        OptionalDatetimeOk(Get(m, "dueDate"), f)
    ensures var r := CreateTaskSchema(JObj(m), f);
      r.Valid? ==>
        r.value.title == Trim(Get(m, "title").value.s) &&
        Some(r.value.status) == (if Get(m, "status").None? then Some(Todo) else StatusFromName(Get(m, "status").value.s)) &&
        Some(r.value.priority) == (if Get(m, "priority").None? then Some(Medium) else PriorityFromName(Get(m, "priority").value.s)) &&
        (r.value.dueDate.Some? <==> Get(m, "dueDate").Some? && Get(m, "dueDate").value.JStr? && Get(m, "dueDate").value.s != "")
  {
    var title := Get(m, "title");
    if title.Some? && title.value.JStr? { TitleField(["title"], title.value.s, TitleChecks, f); }
    OptionalDescription(["description"], Get(m, "description"), DescriptionChecks, f);
    CreateStatus(Get(m, "status"));
    CreatePriority(["priority"], Get(m, "priority"), true);
    DueDate(["dueDate"], Get(m, "dueDate"), f);
  }

  /** A blank title is accepted and becomes the empty title. */
  lemma BlankTitleAccepted(f: Formats)
    ensures CreateTaskSchema(JObj(map["title" := JStr(" ")]), f) ==
      Valid(CreateTaskInput("", Undefined, Todo, Medium, None))
  {
    var m := map["title" := JStr(" ")];
    assert Get(m, "title") == Some(JStr(" "));
    assert Get(m, "description") == None && Get(m, "status") == None;
    assert Get(m, "priority") == None && Get(m, "dueDate") == None;
    assert IsBlank(" ") by { assert IsJsWhitespace(" "[0]); }
    TitleField(["title"], " ", TitleChecks, f);
  }

  /** `null` is not a status: the enumeration is optional but not nullable. */
  lemma NullStatusRejected(f: Formats)
    ensures CreateTaskSchema(JObj(map["title" := JStr("Plan"), "status" := JNull]), f).Invalid?
    ensures UpdateTaskSchema(JObj(map["status" := JNull]), f).Invalid?
  {
    assert Get(map["title" := JStr("Plan"), "status" := JNull], "status") == Some(JNull);
    assert Get(map["status" := JNull], "status") == Some(JNull);
  }

  /** Every field of an update is optional; absent fields stay apart from
      those explicitly cleared with `null`. */
  lemma UpdateTaskAccepts(m: map<string, Json>, f: Formats)
    ensures var r := UpdateTaskSchema(JObj(m), f);
      r.Valid? <==>
        (Get(m, "title").None? || IsStrWhere(Get(m, "title"), s => 1 <= |s| <= 255)) &&
        OptionalNullableOk(Get(m, "description")) &&
        OptionalEnumOk(Get(m, "status"), StatusNames) &&
        OptionalEnumOk(Get(m, "priority"), PriorityNames) &&
        OptionalDatetimeOk(Get(m, "dueDate"), f)
    ensures var r := UpdateTaskSchema(JObj(m), f);
      r.Valid? ==>
        (r.value.title.None? <==> Get(m, "title").None?) &&
        (r.value.status.None? <==> Get(m, "status").None?) &&
        (r.value.priority.None? <==> Get(m, "priority").None?) &&
        (r.value.description.Undefined? <==> Get(m, "description").None?) &&
        (r.value.description.Null? <==> Get(m, "description") == Some(JNull)) &&
        (r.value.dueDate.Undefined? <==> Get(m, "dueDate").None?) &&
        (r.value.dueDate.Null? <==> Get(m, "dueDate") == Some(JNull))
  {
    var title := Get(m, "title");
    if title.Some? && title.value.JStr? { TitleField(["title"], title.value.s, TitleChecks, f); }
    OptionalDescription(["description"], Get(m, "description"), DescriptionChecks, f);
    UpdateEnums(Get(m, "status"), Get(m, "priority"));
    OptionalDatetime(Get(m, "dueDate"), f);
  }

  /** Update enumerations have no default: absent stays absent. */
  lemma UpdateEnums(status: Option<Json>, priority: Option<Json>)
    ensures var r := StatusField(["status"], status, None);
      (r.Valid? <==> OptionalEnumOk(status, StatusNames)) &&
      (r.Valid? ==> r.value == if status.None? then None else StatusFromName(status.value.s))
    ensures var r := PriorityField(["priority"], priority, None, true);
      (r.Valid? <==> OptionalEnumOk(priority, PriorityNames)) &&
      (r.Valid? ==> r.value == if priority.None? then None else PriorityFromName(priority.value.s))
  {
  }

  /** The update's due date keeps `undefined`, `null` and a datetime apart. */
  lemma OptionalDatetime(v: Option<Json>, f: Formats)
    ensures var r := OptionalNullableString(["dueDate"], v, [DatetimeFormat("Invalid datetime")], f);
      (r.Valid? <==> OptionalDatetimeOk(v, f)) &&
      (r.Valid? ==> r.value == (if v.None? then Undefined else if v == Some(JNull) then Null else Value(v.value.s)))
  {
    if v.Some? && v.value.JStr? {
      var c := DatetimeFormat("Invalid datetime");
      assert [c] == [c] + [];
      StringFieldChain(["dueDate"], v.value.s, [c], [], f);
      assert c in [c];
    }
  }

  /** The empty update is valid and changes nothing. */
  lemma EmptyUpdateAccepted(f: Formats)
    ensures UpdateTaskSchema(JObj(map[]), f) == Valid(UpdateTaskInput(None, Undefined, None, None, Undefined))
  {
    assert Get(map[], "title") == None;
  }

  /** The elements from `i` on are accepted exactly when each is, and the
      result keeps them in order. */
  lemma {:induction false} ParseEachAccepts<T>(items: seq<Json>, i: nat, parse: (nat, Json) -> Parsed<T>)
    requires i <= |items|
    requires forall j, v :: parse(j, v).Invalid? ==> parse(j, v).issues != []
    ensures var r := ParseEach(items, i, parse);
      r.Valid? <==> forall j :: i <= j < |items| ==> parse(j, items[j]).Valid?
    ensures var r := ParseEach(items, i, parse);
      r.Valid? ==> forall j :: i <= j < |items| ==> r.value[j - i] == parse(j, items[j]).value
    decreases |items| - i
  {
    if i < |items| {
      ParseEachAccepts(items, i + 1, parse);
    }
  }

  /** An action item: the title as a task title (with zod's default
      messages), priority defaulting to MEDIUM. */
  lemma ActionItemAccepts(i: nat, m: map<string, Json>, f: Formats)
    ensures var r := ActionItemSchema(i, JObj(m), f);
      r.Valid? <==>
        IsStrWhere(Get(m, "title"), s => 1 <= |s| <= 255) &&
        OptionalNullableOk(Get(m, "description")) &&
        OptionalEnumOk(Get(m, "priority"), PriorityNames) &&
        OptionalDatetimeOk(Get(m, "dueDate"), f)
    ensures var r := ActionItemSchema(i, JObj(m), f);
      r.Valid? ==>
        r.value.title == Trim(Get(m, "title").value.s) &&
        Some(r.value.priority) == (if Get(m, "priority").None? then Some(Medium) else PriorityFromName(Get(m, "priority").value.s))
  {
    var at := ["actionItems", NatToString(i)];
    var title := Get(m, "title");
    if title.Some? && title.value.JStr? { TitleField(at + ["title"], title.value.s, ItemTitleChecks, f); }
    OptionalDescription(at + ["description"], Get(m, "description"), ItemDescriptionChecks, f);
    CreatePriority(at + ["priority"], Get(m, "priority"), false);
    DueDate(at + ["dueDate"], Get(m, "dueDate"), f);
  }

  /** A confirmation is accepted exactly when the transcript id is a UUID,
      there are 1 to 50 items and each item is accepted; the items keep
      their order. */
  lemma ConfirmAccepts(m: map<string, Json>, f: Formats)
    ensures var r := ConfirmActionItemsSchema(JObj(m), f);
      r.Valid? <==>
        IsStrWhere(Get(m, "transcriptId"), f.isUuid) &&
        Get(m, "actionItems").Some? && Get(m, "actionItems").value.JArr? &&
        1 <= |Get(m, "actionItems").value.items| <= 50 &&
        (forall j :: 0 <= j < |Get(m, "actionItems").value.items| ==>
          ActionItemSchema(j, Get(m, "actionItems").value.items[j], f).Valid?)
    ensures var r := ConfirmActionItemsSchema(JObj(m), f);
      r.Valid? ==>
        r.value.transcriptId == Get(m, "transcriptId").value.s &&
        |r.value.actionItems| == |Get(m, "actionItems").value.items| &&
        (forall j :: 0 <= j < |r.value.actionItems| ==>
          r.value.actionItems[j] == ActionItemSchema(j, Get(m, "actionItems").value.items[j], f).value)
  {
    var id := Get(m, "transcriptId");
    if id.Some? && id.value.JStr? {
      assert TranscriptIdChecks == TranscriptIdChecks + [];
      StringFieldChain(["transcriptId"], id.value.s, TranscriptIdChecks, [], f);
      assert TranscriptIdChecks[0] in TranscriptIdChecks;
    }
    var v := Get(m, "actionItems");
    if v.Some? && v.value.JArr? {
      ParseEachAccepts(v.value.items, 0, (j, x) => ActionItemSchema(j, x, f));
    }
  }
}
