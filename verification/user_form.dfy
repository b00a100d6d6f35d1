/** The sign-in form of `frontend/src/components/UserInfoForm.tsx`: the
    validation `handleSubmit` performs before handing the user's details to
    the chat, and the per-field update `handleChange` makes. */
module UserForm {
  import opened Common
  import opened Text

  datatype Field = Name | Email | Timezone

  datatype UserInfo = UserInfo(name: string, email: string, timezone: string) {
    function Value(f: Field): string {
      match f
      case Name => name
      case Email => email
      case Timezone => timezone
    }

    /** `{ ...prev, [field]: value }`. */
    function With(f: Field, v: string): (r: UserInfo)
      ensures r.Value(f) == v
      ensures forall g :: g != f ==> r.Value(g) == Value(g)
    {
      match f
      case Name => this.(name := v)
      case Email => this.(email := v)
      case Timezone => this.(timezone := v)
    }
  }

  /** The form's error state. A key set to `undefined` by `handleChange`
      stays in the object, so a present key may hold no message. */
  type ErrorState = map<Field, Option<string>>

  /** The form as the component holds it between events. */
  datatype Form = Form(info: UserInfo, errors: ErrorState)

  const NameRequired: string := "Name is required"
  const EmailRequired: string := "Email is required"
  const TimezoneRequired: string := "Timezone is required"
  const InvalidEmail: string := "Please enter a valid email address"

  /** Empty after `trim()`: every character is JavaScript whitespace. */
  predicate Blank(s: string) {
    AllSpace(s, JsIsSpace)
  }

  /** A character `[^\s@]` matches. */
  predicate PartChar(c: char) {
    !JsIsSpace(c) && c != '@'
  }

  /** A run of characters `[^\s@]*` matches. */
  predicate Clean(s: string) {
    forall i :: 0 <= i < |s| ==> PartChar(s[i])
  }

  /** `/^[^\s@]+@[^\s@]+\.[^\s@]+$/.test(s)`, read off the pattern: some `@`
      and some later `.` cut `s` into three non-empty runs of `[^\s@]`. */
  predicate EmailShaped(s: string) {
    exists at, dot :: 0 < at && at + 1 < dot < |s| - 1 && s[at] == '@' && s[dot] == '.'
                      && Clean(s[..at]) && Clean(s[at + 1..dot]) && Clean(s[dot + 1..])
  }

  /** The position of the first `c` in `s`, if any. */
  function IndexOf(s: string, c: char): (r: Option<nat>)
    ensures r.None? <==> c !in s
    ensures r.Some? ==> r.value < |s| && s[r.value] == c && c !in s[..r.value]
    decreases |s|
  {
    if |s| == 0 then None
    else if s[0] == c then Some(0)
    else
      match IndexOf(s[1..], c)
      case None => None
      case Some(k) =>
        assert s[..k + 1] == [s[0]] + s[1..][..k];
        Some(k + 1)
  }

  /** The check as a single pass would make it: the address splits at its
      first `@` into a non-empty local part and a domain, neither holding
      whitespace or another `@`, and the domain has a `.` strictly inside it. */
  predicate MatchesEmail(s: string) {
    var at := IndexOf(s, '@');
    && at.Some? && at.value > 0
    && var domain := s[at.value + 1..];
       && Clean(s[..at.value]) && Clean(domain)
       && |domain| >= 3 && '.' in domain[1..|domain| - 1]
  }

  lemma CleanSplit(a: string, b: string, c: string)
    requires |b| == 1 && Clean(a) && Clean(c) && PartChar(b[0])
    ensures Clean(a + b + c)
  {
    var s := a + b + c;
    forall i | 0 <= i < |s| ensures PartChar(s[i]) {
      if i < |a| { assert s[i] == a[i]; }
      else if i == |a| { assert s[i] == b[0]; }
      else { assert s[i] == c[i - |a| - 1]; }
    }
  }

  /** The single-pass check accepts exactly the addresses the pattern matches. */
  lemma EmailCheckMatchesPattern(s: string)
    ensures MatchesEmail(s) <==> EmailShaped(s)
  {
    if MatchesEmail(s) {
      CheckedEmailIsShaped(s);
    }
    if EmailShaped(s) {
      var at, dot :| 0 < at && at + 1 < dot < |s| - 1 && s[at] == '@' && s[dot] == '.'
                     && Clean(s[..at]) && Clean(s[at + 1..dot]) && Clean(s[dot + 1..]);
      ShapedEmailIsChecked(s, at, dot);
    }
  }

  lemma CheckedEmailIsShaped(s: string)
    requires MatchesEmail(s)
    ensures EmailShaped(s)
  {
    var at := IndexOf(s, '@').value;
    var domain := s[at + 1..];
    var inner := domain[1..|domain| - 1];
    var j :| 0 <= j < |inner| && inner[j] == '.';
    var dot := at + 2 + j;
    assert s[dot] == '.';
    assert s[at + 1..dot] == domain[..j + 1];
    assert s[dot + 1..] == domain[j + 2..];
    assert Clean(s[at + 1..dot]);
    assert Clean(s[dot + 1..]);
  }

  lemma ShapedEmailIsChecked(s: string, at: nat, dot: nat)
    requires 0 < at && at + 1 < dot < |s| - 1 && s[at] == '@' && s[dot] == '.'
    requires Clean(s[..at]) && Clean(s[at + 1..dot]) && Clean(s[dot + 1..])
    ensures MatchesEmail(s)
  {
    assert '@' !in s[..at] by {
      forall i | 0 <= i < at ensures s[..at][i] != '@' {
        assert PartChar(s[..at][i]);
      }
    }
    var first := IndexOf(s, '@');
    assert first == Some(at);
    var domain := s[at + 1..];
    assert domain == s[at + 1..dot] + [s[dot]] + s[dot + 1..];
    CleanSplit(s[at + 1..dot], [s[dot]], s[dot + 1..]);
    assert domain[1..|domain| - 1][dot - at - 2] == '.';
  }

  /** The messages `handleSubmit` collects: one per blank field, with the
      pattern's verdict on a non-empty email replacing its "required" one. */
  function Validate(info: UserInfo): (errors: map<Field, string>)
    ensures Name in errors <==> Blank(info.name)
    ensures Timezone in errors <==> Blank(info.timezone)
    ensures Email in errors <==> Blank(info.email) || (info.email != "" && !EmailShaped(info.email))
    ensures Name in errors ==> errors[Name] == NameRequired
    ensures Timezone in errors ==> errors[Timezone] == TimezoneRequired
    ensures Email in errors ==>
              errors[Email] == if info.email != "" && !EmailShaped(info.email) then InvalidEmail else EmailRequired
  {
    TrimBlank(info.name, JsIsSpace);
    TrimBlank(info.email, JsIsSpace);
    TrimBlank(info.timezone, JsIsSpace);
    EmailCheckMatchesPattern(info.email);
    var required :=
      (if JsTrim(info.name) == "" then map[Name := NameRequired] else map[])
      + (if JsTrim(info.email) == "" then map[Email := EmailRequired] else map[])
      + (if JsTrim(info.timezone) == "" then map[Timezone := TimezoneRequired] else map[]);
    if info.email != "" && !MatchesEmail(info.email) then required[Email := InvalidEmail] else required
  }

  /** A whitespace-only email is reported as malformed, not as missing: the
      pattern check runs on the untrimmed text and overrides. */
  lemma BlankEmailReportedInvalid(info: UserInfo)
    requires info.email != "" && Blank(info.email)
    ensures Validate(info)[Email] == InvalidEmail
  {
  }

  /** What `handleSubmit` leaves behind: the new error state, and the details
      passed to `onSubmit` if it was called. */
  datatype Submission = Submission(errors: ErrorState, submitted: Option<UserInfo>)

  function HandleSubmit(info: UserInfo): (r: Submission)
    ensures forall f :: f in r.errors <==> f in Validate(info)
    ensures forall f :: f in r.errors ==> r.errors[f] == Some(Validate(info)[f])
    ensures r.submitted.Some? <==> !Blank(info.name) && !Blank(info.timezone) && EmailShaped(info.email)
    ensures r.submitted.Some? ==> r.submitted.value == info
  {
    var errors := Validate(info);
    var state := map f | f in errors :: Some(errors[f]);
    if |errors| == 0 then
      Submission(state, Some(info))
    else
      assert errors.Keys != {};
      Submission(state, None)
  }

  /** The message shown under a field: `errors[field]` when it is truthy. */
  predicate Shown(errors: ErrorState, f: Field) {
    f in errors && errors[f].Some? && errors[f].value != ""
  }

  /** `handleChange(field, value)`: the field takes the new value and, if it
      was showing an error, that error is cleared. */
  function HandleChange(form: Form, f: Field, value: string): (r: Form)
    ensures r.info.Value(f) == value
    ensures forall g :: g != f ==> r.info.Value(g) == form.info.Value(g)
    ensures !Shown(r.errors, f)
    ensures forall g :: g != f ==> (g in r.errors <==> g in form.errors)
    ensures forall g :: g != f && g in r.errors ==> r.errors[g] == form.errors[g]
    ensures !Shown(form.errors, f) ==> r.errors == form.errors
  {
    var errors := if Shown(form.errors, f) then form.errors[f := None] else form.errors;
    Form(form.info.With(f, value), errors)
  }

  /** Retyping every field a failed submission flagged leaves no message on
      screen, and other fields' messages are never touched. */
  lemma {:induction false} RetypingClearsFlaggedFields(form: Form, edits: seq<(Field, string)>)
    ensures var after := ApplyEdits(form, edits);
            && (forall k :: 0 <= k < |edits| ==> !Shown(after.errors, edits[k].0))
            && (forall g :: (forall k :: 0 <= k < |edits| ==> edits[k].0 != g) ==>
                  (g in after.errors <==> g in form.errors)
                  && (g in after.errors ==> after.errors[g] == form.errors[g]))
    decreases |edits|
  {
    if |edits| > 0 {
      var next := HandleChange(form, edits[0].0, edits[0].1);
      RetypingClearsFlaggedFields(next, edits[1..]);
      var after := ApplyEdits(form, edits);
      assert after == ApplyEdits(next, edits[1..]);
      forall k | 0 <= k < |edits| ensures !Shown(after.errors, edits[k].0) {
        if k > 0 {
          assert edits[k] == edits[1..][k - 1];
        } else {
          NoErrorReappears(next, edits[1..], edits[0].0);
        }
      }
      forall g | forall k :: 0 <= k < |edits| ==> edits[k].0 != g
        ensures (g in after.errors <==> g in form.errors) && (g in after.errors ==> after.errors[g] == form.errors[g])
      {
        assert edits[0].0 != g;
        assert forall k :: 0 <= k < |edits[1..]| ==> edits[1..][k].0 != g by {
          forall k | 0 <= k < |edits[1..]| ensures edits[1..][k].0 != g {
            assert edits[1..][k] == edits[k + 1];
          }
        }
      }
    }
  }

  /** A series of `handleChange` events, in order. */
  function ApplyEdits(form: Form, edits: seq<(Field, string)>): Form
    decreases |edits|
  {
    if |edits| == 0 then form else ApplyEdits(HandleChange(form, edits[0].0, edits[0].1), edits[1..])
  }

  /** Editing never makes an error appear: a field showing no message keeps
      showing none. */
  lemma {:induction false} NoErrorReappears(form: Form, edits: seq<(Field, string)>, f: Field)
    requires !Shown(form.errors, f)
    ensures !Shown(ApplyEdits(form, edits).errors, f)
    decreases |edits|
  {
    if |edits| > 0 {
      NoErrorReappears(HandleChange(form, edits[0].0, edits[0].1), edits[1..], f);
    }
  }
}
