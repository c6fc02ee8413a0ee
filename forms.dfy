/**
 * The declarative field rules of the signup, signin and blog forms, and a
 * validator that runs a field's rule chain the way the form library does:
 * a failed "required" check discards the field's earlier errors and stops
 * the chain, any other failed check records an error and lets the chain go on.
 */
module Forms {
  import opened Wrappers
  import opened Models

  /** The fields of the three forms. */
  datatype Field = Fullname | EmailId | Password | Title | Body | Status

  /**
   * One field rule. `Length(min, max)` uses -1 for "no bound", as the form
   * library does; `Email` defers to the abstract well-formedness check.
   */
  datatype Rule = DataRequired | Length(min: int, max: int) | Email

  /** What a failed rule reports. */
  datatype Violation = Required | BadLength(min: int, max: int) | BadEmail | NotAChoice

  datatype FieldError = FieldError(field: Field, violation: Violation)

  /** Outcome of one rule on one value: pass, fail and stop, or fail and go on. */
  datatype Check = Pass | Stop(stopped: Violation) | Fail(failed: Violation)

  /** The characters string stripping removes: those the language counts as whitespace. */
  predicate IsSpace(c: char) {
    || c == ' ' || ('\t' <= c <= '\r') || ('\U{1C}' <= c <= '\U{1F}')
    || c == '\U{85}' || c == '\U{A0}' || c == '\U{1680}' || ('\U{2000}' <= c <= '\U{200A}')
    || c == '\U{2028}' || c == '\U{2029}' || c == '\U{202F}' || c == '\U{205F}' || c == '\U{3000}'
  }

  /** A value is present when something other than whitespace is left after stripping. */
  predicate Present(s: string) {
    exists i :: 0 <= i < |s| && !IsSpace(s[i])
  }

  /** The length check: at least `min` and, unless `max` is -1, at most `max`. */
  predicate LengthHolds(s: string, min: int, max: int) {
    |s| >= min && (max == -1 || |s| <= max)
  }

  /** The condition a rule puts on a value. */
  predicate Holds(rule: Rule, s: string, isEmail: string -> bool) {
    match rule
    case DataRequired => Present(s)
    case Length(min, max) => LengthHolds(s, min, max)
    case Email => isEmail(s)
  }

  /** What a rule reports when its condition fails. */
  function Reported(rule: Rule): Violation {
    match rule
    case DataRequired => Required
    case Length(min, max) => BadLength(min, max)
    case Email => BadEmail
  }

  /** One rule on one value: only "required" stops the chain when it fails. */
  function Apply(rule: Rule, s: string, isEmail: string -> bool): (c: Check)
    ensures c.Pass? <==> Holds(rule, s, isEmail)
    ensures c.Stop? <==> rule.DataRequired? && !Present(s)
    ensures c.Stop? ==> c.stopped == Required
    ensures c.Fail? ==> c.failed == Reported(rule) && c.failed != Required
  {
    if Holds(rule, s, isEmail) then Pass
    else if rule.DataRequired? then Stop(Reported(rule))
    else Fail(Reported(rule))
  }

  /**
   * Runs a rule chain on one value, starting from the errors `prior` the
   * field already has, and collects the violations. A failed "required"
   * replaces all of them by its own and ends the chain. The result is empty
   * exactly when there were no earlier errors and every rule holds.
   */
  function RunChain(chain: seq<Rule>, s: string, isEmail: string -> bool, prior: seq<Violation>): (errs: seq<Violation>)
    ensures |errs| <= |prior| + |chain|
    ensures errs == [] <==> prior == [] && forall i :: 0 <= i < |chain| ==> Holds(chain[i], s, isEmail)
    ensures chain != [] && chain[0] == DataRequired && !Present(s) ==> errs == [Required]
    ensures Required in errs ==> Required in prior || !Present(s)
  {
    if chain == [] then prior
    else
      match Apply(chain[0], s, isEmail)
      case Pass => RunChain(chain[1..], s, isEmail, prior)
      case Stop(v) => [v]
      case Fail(v) => RunChain(chain[1..], s, isEmail, prior + [v])
  }

  /** Attaches a field name to each of its violations. */
  function Tag(field: Field, vs: seq<Violation>): (errs: seq<FieldError>)
    ensures |errs| == |vs|
    ensures forall i :: 0 <= i < |errs| ==> errs[i] == FieldError(field, vs[i])
    ensures forall v :: FieldError(field, v) in errs <==> v in vs
  {
    seq(|vs|, i requires 0 <= i < |vs| => FieldError(field, vs[i]))
  }

  // The field rules, as the three forms declare them.
  const FullnameRules: seq<Rule> := [DataRequired, Length(3, 120)]
  const EmailRules: seq<Rule> := [DataRequired, Email]
  const SignupPasswordRules: seq<Rule> := [DataRequired, Length(6, -1)]
  const SigninPasswordRules: seq<Rule> := [DataRequired]
  const TitleRules: seq<Rule> := [DataRequired, Length(-1, 300)]
  const BodyRules: seq<Rule> := [DataRequired]
  const StatusRules: seq<Rule> := [DataRequired]

  /** The status selected when the form does not submit one. */
  const DefaultStatus := "draft"

  /** The status choices: one (value, label) pair per status, in declaration order. */
  function StatusChoices(): (c: seq<(string, string)>)
    ensures |c| == |AllStatuses|
    ensures c[0].0 == DefaultStatus
    ensures forall i :: 0 <= i < |c| ==> ParseStatus(c[i].0) == Some(AllStatuses[i])
    ensures forall i :: 0 <= i < |c| ==> c[i].1 == Upper(c[i].0)
  {
    seq(|AllStatuses|, i requires 0 <= i < |AllStatuses| =>
      (StatusValue(AllStatuses[i]), Upper(StatusValue(AllStatuses[i]))))
  }

  /** ASCII upper-casing, used for the choice labels. */
  function Upper(s: string): (u: string)
    ensures |u| == |s|
    ensures forall i :: 0 <= i < |s| ==> u[i] == if 'a' <= s[i] <= 'z' then (s[i] as int - 32) as char else s[i]
  {
    if s == [] then []
    else [if 'a' <= s[0] <= 'z' then (s[0] as int - 32) as char else s[0]] + Upper(s[1..])
  }

  /** The string values offered by the status select box. */
  function ChoiceValues(): (vs: seq<string>)
    ensures |vs| == |StatusChoices()|
    ensures forall i :: 0 <= i < |vs| ==> vs[i] == StatusChoices()[i].0
  {
    seq(|StatusChoices()|, i requires 0 <= i < |StatusChoices()| => StatusChoices()[i].0)
  }

  /** A submitted string is one of the choices exactly when it names a status. */
  lemma ChoicesAreStatuses(v: string)
    ensures v in ChoiceValues() <==> ParseStatus(v).Some?
  {
    var c := StatusChoices();
    if ParseStatus(v).Some? {
      var s := ParseStatus(v).value;
      var i := if s == Draft then 0 else if s == Unpublished then 1 else 2;
      assert ParseStatus(c[i].0) == Some(s);
      assert ChoiceValues()[i] == v;
    }
  }

  /** The submitted values of the three forms; a blog form's fields may be missing from the request. */
  datatype SignupForm = SignupForm(fullname: string, emailId: string, password: string)
  datatype SigninForm = SigninForm(emailId: string, password: string)
  datatype BlogForm = BlogForm(title: Option<string>, body: Option<string>, status: Option<string>)

  /** The values a blog form validates: each one submitted, or else the one the form started from. */
  datatype BlogData = BlogData(title: string, body: string, status: string)

  /**
   * A blog form built from nothing, as for a new post: a missing title or
   * body is empty and a missing status is the default "draft".
   */
  function CreateData(f: BlogForm): (d: BlogData)
    ensures f.title.Some? ==> d.title == f.title.value
    ensures f.title.None? ==> d.title == ""
    ensures f.body.Some? ==> d.body == f.body.value
    ensures f.body.None? ==> d.body == ""
    ensures f.status.Some? ==> d.status == f.status.value
    ensures f.status.None? ==> d.status == DefaultStatus
  {
    BlogData(f.title.GetOr(""), f.body.GetOr(""), f.status.GetOr(DefaultStatus))
  }

  /**
   * The select box's value when filled from a stored post: the library turns
   * the enumeration member into its string form, which is none of the choices.
   */
  function CoercedStatus(s: BlogStatus): (v: string)
    ensures Present(v)
    ensures v !in ChoiceValues()
  {
    var v := "BlogStatus." + StatusValue(s);
    assert !IsSpace(v[0]);
    ChoicesAreStatuses(v);
    v
  }

  /**
   * A blog form built from a stored post, as for an edit: a missing title or
   * body keeps the post's, and a missing status keeps the coerced stored one.
   */
  function EditData(f: BlogForm, post: Blog): (d: BlogData)
    ensures f.title.Some? ==> d.title == f.title.value
    ensures f.title.None? ==> d.title == post.title
    ensures f.body.Some? ==> d.body == f.body.value
    ensures f.body.None? ==> d.body == post.body
    ensures f.status.Some? ==> d.status == f.status.value
    ensures f.status.None? ==> d.status !in ChoiceValues()
  {
    BlogData(f.title.GetOr(post.title), f.body.GetOr(post.body), f.status.GetOr(CoercedStatus(post.status)))
  }

  /**
   * The signup form's errors, field by field in form order; a field reports
   * "required" exactly when it is blank.
   */
  function ValidateSignup(f: SignupForm, isEmail: string -> bool): (errs: seq<FieldError>)
    ensures forall e :: e in errs ==> e.field == Fullname || e.field == EmailId || e.field == Password
    ensures FieldError(Fullname, Required) in errs <==> !Present(f.fullname)
    ensures FieldError(EmailId, Required) in errs <==> !Present(f.emailId)
    ensures FieldError(Password, Required) in errs <==> !Present(f.password)
  {
    Tag(Fullname, RunChain(FullnameRules, f.fullname, isEmail, []))
    + Tag(EmailId, RunChain(EmailRules, f.emailId, isEmail, []))
    + Tag(Password, RunChain(SignupPasswordRules, f.password, isEmail, []))
  }

  /** The signin form's errors; a field reports "required" exactly when it is blank. */
  function ValidateSignin(f: SigninForm, isEmail: string -> bool): (errs: seq<FieldError>)
    ensures forall e :: e in errs ==> e.field == EmailId || e.field == Password
    ensures FieldError(EmailId, Required) in errs <==> !Present(f.emailId)
    ensures FieldError(Password, Required) in errs <==> !Present(f.password)
  {
    Tag(EmailId, RunChain(EmailRules, f.emailId, isEmail, []))
    + Tag(Password, RunChain(SigninPasswordRules, f.password, isEmail, []))
  }

  /**
   * The status field first checks that its value is one of the choices and
   * then runs its rule chain from that error; a missing value reports only
   * "required".
   */
  function StatusErrors(v: string): (errs: seq<Violation>)
    ensures !Present(v) ==> errs == [Required]
    ensures Present(v) ==> errs == if v in ChoiceValues() then [] else [NotAChoice]
  {
    var prior := if v in ChoiceValues() then [] else [NotAChoice];
    assert Present(v) ==> RunChain(StatusRules, v, NoEmail, prior) == RunChain([], v, NoEmail, prior);
    RunChain(StatusRules, v, NoEmail, prior)
  }

  /** The blog form has no email field, so its rules never consult an email check. */
  const NoEmail: string -> bool := (s: string) => false

  /**
   * The blog form's errors, field by field in form order; a field reports
   * "required" exactly when it is blank.
   */
  function ValidateBlog(d: BlogData): (errs: seq<FieldError>)
    ensures forall e :: e in errs ==> e.field == Title || e.field == Body || e.field == Status
    ensures FieldError(Title, Required) in errs <==> !Present(d.title)
    ensures FieldError(Body, Required) in errs <==> !Present(d.body)
    ensures FieldError(Status, Required) in errs <==> !Present(d.status)
  {
    Tag(Title, RunChain(TitleRules, d.title, NoEmail, []))
    + Tag(Body, RunChain(BodyRules, d.body, NoEmail, []))
    + Tag(Status, StatusErrors(d.status))
  }

  /** The status a valid blog form selects. */
  function FormStatus(d: BlogData): (s: BlogStatus)
    requires ValidateBlog(d) == []
    ensures StatusValue(s) == d.status
  {
    BlogFormValid(d);
    ChoicesAreStatuses(d.status);
    ParseStatus(d.status).value
  }

  /** A new post whose form sends no status is a draft. */
  lemma CreateDefaultsToDraft(f: BlogForm)
    requires f.status.None? && ValidateBlog(CreateData(f)) == []
    ensures FormStatus(CreateData(f)) == Draft
  {
  }

  /**
   * An edit whose form sends no status is refused: the value the form starts
   * from is not a choice.
   */
  lemma EditNeedsStatus(f: BlogForm, post: Blog)
    requires f.status.None?
    ensures FieldError(Status, NotAChoice) in ValidateBlog(EditData(f, post))
  {
    var d := EditData(f, post);
    var c := CoercedStatus(post.status);
    var e := StatusErrors(d.status);
    assert e == [NotAChoice];
    var a := Tag(Title, RunChain(TitleRules, d.title, NoEmail, []));
    var b := Tag(Body, RunChain(BodyRules, d.body, NoEmail, []));
    assert ValidateBlog(d)[|a| + |b|] == FieldError(Status, NotAChoice);
  }

  // What each form accepts, stated rule by rule.

  lemma SignupValid(f: SignupForm, isEmail: string -> bool)
    ensures ValidateSignup(f, isEmail) == [] <==>
      && Present(f.fullname) && 3 <= |f.fullname| <= 120
      && Present(f.emailId) && isEmail(f.emailId)
      && Present(f.password) && |f.password| >= 6
  {
  }

  lemma SigninValid(f: SigninForm, isEmail: string -> bool)
    ensures ValidateSignin(f, isEmail) == [] <==>
      Present(f.emailId) && isEmail(f.emailId) && Present(f.password)
  {
  }

  lemma BlogFormValid(d: BlogData)
    ensures ValidateBlog(d) == [] <==>
      && Present(d.title) && |d.title| <= 300
      && Present(d.body)
      && ParseStatus(d.status).Some?
  {
    var a := RunChain(TitleRules, d.title, NoEmail, []);
    var b := RunChain(BodyRules, d.body, NoEmail, []);
    var c := StatusErrors(d.status);
    assert |ValidateBlog(d)| == |a| + |b| + |c|;
    assert Holds(TitleRules[1], d.title, NoEmail) <==> |d.title| <= 300;
    ChoicesAreStatuses(d.status);
    StatusValuePresent(d.status);
  }

  /** A status value is never blank. */
  lemma StatusValuePresent(v: string)
    ensures ParseStatus(v).Some? ==> Present(v)
  {
    if ParseStatus(v).Some? {
      assert !IsSpace(v[0]);
    }
  }

  /** The form's length bounds agree with the declared column lengths. */
  lemma FormBoundsFitColumns(f: SignupForm, g: BlogData, isEmail: string -> bool)
    ensures ValidateSignup(f, isEmail) == [] ==> |f.fullname| <= FullnameLength
    ensures ValidateBlog(g) == [] ==> |g.title| <= TitleLength
  {
    SignupValid(f, isEmail);
    BlogFormValid(g);
  }
}
