/** The request-body schemas and the middleware that applies one: every
    failing rule of every field is reported, and any failure answers 400
    with one detail per rule. */
module Validation {
  import opened Common
  import opened Constants
  import opened Text

  /** One failed rule: the path of the offending value and its message. */
  datatype Issue = Issue(path: seq<string>, message: string)

  /** `path.join(sep)`. */
  function JoinPath(path: seq<string>, sep: string): (r: string)
    ensures |path| == 1 ==> r == path[0]
  {
    if path == [] then ""
    else if |path| == 1 then path[0]
    else path[0] + sep + JoinPath(path[1..], sep)
  }

  /** The rules of a `z.string()` field: a minimum length with its message,
      an optional maximum length with the library's message, and an optional
      address check with its message. */
  datatype StringRule = StringRule(min: nat, minMessage: string, max: Option<nat>, emailMessage: Option<string>)

  /** The library's message for a string above its maximum length. */
  function TooLong(max: nat): string {
    "String must contain at most " + Decimal(max) + " character(s)"
  }

  /** The issues of a string field. An absent field gives the single issue
      "Required"; a present one gives one issue per failing rule, in the
      order minimum, maximum, address, and none exactly when it is long
      enough, short enough and, where required, an address. `isEmail` is the
      library's address check. */
  function StringIssues(field: string, v: Option<string>, rule: StringRule, isEmail: string -> bool): (r: seq<Issue>)
    ensures r == [] <==>
      && v.Some?
      && rule.min <= |v.value|
      && (rule.max.None? || |v.value| <= rule.max.value)
      && (rule.emailMessage.None? || isEmail(v.value))
    ensures v.None? ==> r == [Issue([field], "Required")]
    ensures v.Some? && |v.value| < rule.min ==> r[0] == Issue([field], rule.minMessage)
    ensures v.Some? && rule.max.Some? && |v.value| > rule.max.value ==> Issue([field], TooLong(rule.max.value)) in r
    ensures v.Some? && rule.emailMessage.Some? && !isEmail(v.value) ==> Issue([field], rule.emailMessage.value) in r
    ensures v.Some? ==>
      |r| == (if |v.value| < rule.min then 1 else 0)
             + (if rule.max.Some? && |v.value| > rule.max.value then 1 else 0)
             + (if rule.emailMessage.Some? && !isEmail(v.value) then 1 else 0)
    ensures forall i :: 0 <= i < |r| ==> r[i].path == [field]
    ensures |r| <= 3
  {
    match v
    case None => [Issue([field], "Required")]
    case Some(s) =>
      (if |s| < rule.min then [Issue([field], rule.minMessage)] else [])
      + (if rule.max.Some? && |s| > rule.max.value then [Issue([field], TooLong(rule.max.value))] else [])
      + (if rule.emailMessage.Some? && !isEmail(s) then [Issue([field], rule.emailMessage.value)] else [])
  }

  /** `'a' | 'b' | 'c'`: the allowed values, each quoted, joined by bars. */
  function Alternatives(values: seq<string>): string {
    if values == [] then ""
    else if |values| == 1 then "'" + values[0] + "'"
    else "'" + values[0] + "' | " + Alternatives(values[1..])
  }

  /** The issues of an optional `z.enum(values)` field: none when it is
      absent or one of the values, otherwise one naming the allowed values
      and the received one. */
  function EnumIssues(field: string, v: Option<string>, values: seq<string>): (r: seq<Issue>)
    ensures r == [] <==> v.None? || v.value in values
    ensures r != [] ==> r == [Issue([field], "Invalid enum value. Expected " + Alternatives(values) + ", received '" + v.value + "'")]
  {
    if v.None? || v.value in values then []
    else [Issue([field], "Invalid enum value. Expected " + Alternatives(values) + ", received '" + v.value + "'")]
  }

  /** The bodies the schemas check; an absent key is None. Keys the schema
      does not name are not represented, since no handler reads them. */
  datatype RegisterBody = RegisterBody(name: Option<string>, email: Option<string>, password: Option<string>)
  datatype LoginBody = LoginBody(email: Option<string>, password: Option<string>)
  datatype TicketCreateBody = TicketCreateBody(title: Option<string>, description: Option<string>, customerEmail: Option<string>, priority: Option<string>)
  datatype TicketUpdateBody = TicketUpdateBody(status: Option<string>, priority: Option<string>)
  datatype NoteBody = NoteBody(text: Option<string>)

  const NameRule := StringRule(1, "Name is required", Some(100), None)
  const EmailRule := StringRule(0, "", None, Some("Invalid email format"))
  const PasswordRule := StringRule(6, "Password must be at least 6 characters", None, None)
  const LoginPasswordRule := StringRule(1, "Password is required", None, None)
  const TitleRule := StringRule(1, "Title is required", Some(200), None)
  const DescriptionRule := StringRule(1, "Description is required", None, None)
  const CustomerEmailRule := StringRule(0, "", None, Some("Invalid customer email format"))
  const NoteTextRule := StringRule(1, "Note text is required", Some(1000), None)

  /** The registration schema: a name of 1 to 100 characters, an address
      and a password of at least 6 characters. */
  function RegisterIssues(b: RegisterBody, isEmail: string -> bool): (r: seq<Issue>)
    ensures r == [] <==>
      && b.name.Some? && 1 <= |b.name.value| <= 100
      && b.email.Some? && isEmail(b.email.value)
      && b.password.Some? && |b.password.value| >= 6
  {
    StringIssues("name", b.name, NameRule, isEmail)
    + StringIssues("email", b.email, EmailRule, isEmail)
    + StringIssues("password", b.password, PasswordRule, isEmail)
  }

  /** The login schema: an address and a non-empty password. */
  function LoginIssues(b: LoginBody, isEmail: string -> bool): (r: seq<Issue>)
    ensures r == [] <==>
      && b.email.Some? && isEmail(b.email.value)
      && b.password.Some? && b.password.value != ""
  {
    StringIssues("email", b.email, EmailRule, isEmail)
    + StringIssues("password", b.password, LoginPasswordRule, isEmail)
  }

  /** The ticket creation schema: a title of 1 to 200 characters, a
      non-empty description, an address, and a priority that is absent or
      one of the three values. */
  function TicketCreateIssues(b: TicketCreateBody, isEmail: string -> bool): (r: seq<Issue>)
    ensures r == [] <==>
      && b.title.Some? && 1 <= |b.title.value| <= 200
      && b.description.Some? && b.description.value != ""
      && b.customerEmail.Some? && isEmail(b.customerEmail.value)
      && (b.priority.None? || b.priority.value in PriorityValues)
  {
    StringIssues("title", b.title, TitleRule, isEmail)
    + StringIssues("description", b.description, DescriptionRule, isEmail)
    + StringIssues("customer_email", b.customerEmail, CustomerEmailRule, isEmail)
    + EnumIssues("priority", b.priority, PriorityValues)
  }

  /** The ticket update schema: a status and a priority, each absent or one
      of its three values. */
  function TicketUpdateIssues(b: TicketUpdateBody): (r: seq<Issue>)
    ensures r == [] <==>
      && (b.status.None? || b.status.value in StatusValues)
      && (b.priority.None? || b.priority.value in PriorityValues)
  {
    EnumIssues("status", b.status, StatusValues) + EnumIssues("priority", b.priority, PriorityValues)
  }

  /** The note schema: a text of 1 to 1000 characters. */
  function NoteIssues(b: NoteBody): (r: seq<Issue>)
    ensures r == [] <==> b.text.Some? && 1 <= |b.text.value| <= 1000
  {
    StringIssues("text", b.text, NoteTextRule, _ => true)
  }

  /** What the middleware does: hand the request on, or answer. */
  datatype Outcome = Next | Reject(answer: ApiError)

  /** `validate(schema)` on a body: the request goes on exactly when the
      schema finds no issue; otherwise the answer is 400 "Validation failed"
      with one detail per issue, in order, naming the dotted path and the
      message. */
  function Validate<B>(schema: B -> seq<Issue>, body: B): (r: Outcome)
    ensures r.Next? <==> schema(body) == []
    ensures r.Reject? ==>
      && r.answer.status == 400 && r.answer.error == "Validation failed" && r.answer.cause.None?
      && |r.answer.details| == |schema(body)|
      && forall i :: 0 <= i < |schema(body)| ==>
           r.answer.details[i] == Detail(JoinPath(schema(body)[i].path, "."), schema(body)[i].message)
  {
    var issues := schema(body);
    if issues == [] then Next
    else
      Reject(ApiError(400, "Validation failed", None,
        seq(|issues|, i requires 0 <= i < |issues| => Detail(JoinPath(issues[i].path, "."), issues[i].message))))
  }

  /** An empty update body passes: both fields are optional. */
  lemma EmptyUpdateAccepted()
    ensures Validate(TicketUpdateIssues, TicketUpdateBody(None, None)) == Next
  {
  }

  /** A creation body missing everything is answered with one "Required"
      detail per required field, in schema order. */
  lemma EmptyCreateRejected(isEmail: string -> bool)
    ensures Validate(b => TicketCreateIssues(b, isEmail), TicketCreateBody(None, None, None, None))
      == Reject(ApiError(400, "Validation failed", None,
           [Detail("title", "Required"), Detail("description", "Required"), Detail("customer_email", "Required")]))
  {
    var issues := TicketCreateIssues(TicketCreateBody(None, None, None, None), isEmail);
    assert issues == [Issue(["title"], "Required"), Issue(["description"], "Required"), Issue(["customer_email"], "Required")];
  }

  /** An unknown priority in a creation body is reported with the allowed
      values and the received one. */
  lemma UnknownPriorityRejected(isEmail: string -> bool)
    requires isEmail("a@b.co")
    ensures TicketCreateIssues(TicketCreateBody(Some("Login"), Some("Cannot log in"), Some("a@b.co"), Some("urgent")), isEmail)
      == [Issue(["priority"], "Invalid enum value. Expected " + "'low' | 'medium' | 'high'" + ", received '" + "urgent" + "'")]
  {
    var b := TicketCreateBody(Some("Login"), Some("Cannot log in"), Some("a@b.co"), Some("urgent"));
    assert StringIssues("title", b.title, TitleRule, isEmail) == [];
    assert StringIssues("description", b.description, DescriptionRule, isEmail) == [];
    assert StringIssues("customer_email", b.customerEmail, CustomerEmailRule, isEmail) == [];
    assert Alternatives(PriorityValues) == "'low' | 'medium' | 'high'";
    assert "urgent" !in PriorityValues;
  }

  /** An empty title breaks only the minimum rule, with its own message. */
  lemma EmptyTitleMessage(isEmail: string -> bool)
    requires isEmail("a@b.co")
    ensures TicketCreateIssues(TicketCreateBody(Some(""), Some("Cannot log in"), Some("a@b.co"), None), isEmail)
      == [Issue(["title"], "Title is required")]
  {
  }
}
