/** The sign-up form (`pages/SignUpPage.jsx`): the checks run before the
    registration request, in order, and the request they let through. */
module SignUp {
  import opened Common
  import opened Models
  import opened JsStrings
  import opened Store
  import opened AuthRouter

  datatype SignUpForm = SignUpForm(name: string, email: string, password: string, confirmPassword: string)

  datatype SignUpError = AllFieldsRequired | PasswordsDiffer | InvalidEmail | PasswordTooShort

  /** The message each refusal shows. */
  function Message(e: SignUpError): string {
    match e
    case AllFieldsRequired => "All fields are required"
    case PasswordsDiffer => "Passwords do not match"
    case InvalidEmail => "Please enter a valid email address"
    case PasswordTooShort => "Password must be at least 6 characters long"
  }

  /** One of the three parts of `[^\s@]+`: non-empty, with neither
      whitespace nor `@`. */
  ghost predicate EmailPart(x: string) {
    |x| > 0 && forall k :: 0 <= k < |x| ==> !IsWhitespace(x[k]) && x[k] != '@'
  }

  /** The language of `^[^\s@]+@[^\s@]+\.[^\s@]+$`. */
  ghost predicate MatchesEmailPattern(s: string) {
    exists a, b, c :: s == a + "@" + b + "." + c && EmailPart(a) && EmailPart(b) && EmailPart(c)
  }

  /** The pattern test by positions: no whitespace anywhere, exactly one `@`
      with something before it, and a `.` with something on both sides
      somewhere after the `@`. */
  predicate LooksLikeEmail(s: string) {
    && (forall k :: 0 <= k < |s| ==> !IsWhitespace(s[k]))
    && exists i, j :: 0 < i && i + 1 < j && j + 1 < |s| && s[i] == '@' && s[j] == '.'
                     && forall k :: 0 <= k < |s| && k != i ==> s[k] != '@'
  }

  /** The positional test accepts exactly the strings the pattern matches. */
  lemma LooksLikeEmailIsPattern(s: string)
    ensures LooksLikeEmail(s) <==> MatchesEmailPattern(s)
  {
    if LooksLikeEmail(s) {
      PositionsGivePattern(s);
    }
    if MatchesEmailPattern(s) {
      PatternGivesPositions(s);
    }
  }

  /** A string passing the positional test splits around its `@` and a
      later `.` into three parts of the pattern. */
  lemma PositionsGivePattern(s: string)
    requires LooksLikeEmail(s)
    ensures MatchesEmailPattern(s)
  {
    var i, j :| 0 < i && i + 1 < j && j + 1 < |s| && s[i] == '@' && s[j] == '.'
                && forall k :: 0 <= k < |s| && k != i ==> s[k] != '@';
    var a, b, c := s[..i], s[i + 1..j], s[j + 1..];
    assert s == a + "@" + b + "." + c;
    assert EmailPart(a) && EmailPart(c);
    forall k | 0 <= k < |b| ensures !IsWhitespace(b[k]) && b[k] != '@' {
      assert b[k] == s[i + 1 + k];
    }
    assert EmailPart(b);
  }

  /** A string the pattern matches passes the positional test, with the
      `@` and `.` the match uses. */
  lemma PatternGivesPositions(s: string)
    requires MatchesEmailPattern(s)
    ensures LooksLikeEmail(s)
  {
    var a, b, c :| s == a + "@" + b + "." + c && EmailPart(a) && EmailPart(b) && EmailPart(c);
    var i, j := |a|, |a| + 1 + |b|;
    assert s[i] == '@' && s[j] == '.';
    forall k | 0 <= k < |s| ensures !IsWhitespace(s[k]) && (k != i ==> s[k] != '@') {
      PartCharacter(s, a, b, c, k);
    }
    assert 0 < i && i + 1 < j && j + 1 < |s| && s[i] == '@' && s[j] == '.'
           && forall k :: 0 <= k < |s| && k != i ==> s[k] != '@';
  }

  /** Every character of `a@b.c` lies in one of the parts or is its `@` or
      its `.`. */
  lemma PartCharacter(s: string, a: string, b: string, c: string, k: int)
    requires s == a + "@" + b + "." + c && EmailPart(a) && EmailPart(b) && EmailPart(c)
    requires 0 <= k < |s|
    ensures !IsWhitespace(s[k]) && (k != |a| ==> s[k] != '@')
  {
    var i, j := |a|, |a| + 1 + |b|;
    if k < i {
      assert s[k] == a[k];
    } else if i < k < j {
      assert s[k] == b[k - i - 1];
    } else if j < k {
      assert s[k] == c[k - j - 1];
    }
  }

  /** What submitting does: a refusal, or the registration request. */
  datatype Outcome = Refused(error: SignUpError) | Sends(body: Registration)

  /** `handleSubmit`'s checks, then the request body, always as a patient. */
  function Submit(f: SignUpForm): Outcome {
    if f.name == "" || f.email == "" || f.password == "" || f.confirmPassword == "" then Refused(AllFieldsRequired)
    else if f.password != f.confirmPassword then Refused(PasswordsDiffer)
    else if !LooksLikeEmail(f.email) then Refused(InvalidEmail)
    else if |f.password| < 6 then Refused(PasswordTooShort)
    else Sends(Registration(Some(f.name), Some(f.email), Some(f.password), Some("patient")))
  }

  /** The checks run in order and only the first failing one is reported; a
      request is sent exactly when all pass, and it carries the form's
      name, email and password with the role "patient". */
  lemma SubmitChecksInOrder(f: SignUpForm)
    ensures var empty := f.name == "" || f.email == "" || f.password == "" || f.confirmPassword == "";
      && (Submit(f) == Refused(AllFieldsRequired) <==> empty)
      && (Submit(f) == Refused(PasswordsDiffer) <==> !empty && f.password != f.confirmPassword)
      && (Submit(f) == Refused(InvalidEmail) <==> !empty && f.password == f.confirmPassword && !MatchesEmailPattern(f.email))
      && (Submit(f) == Refused(PasswordTooShort) <==>
            !empty && f.password == f.confirmPassword && MatchesEmailPattern(f.email) && |f.password| < 6)
      && (Submit(f).Sends? <==> !empty && f.password == f.confirmPassword && MatchesEmailPattern(f.email) && |f.password| >= 6)
      && (Submit(f).Sends? ==> Submit(f).body == Registration(Some(f.name), Some(f.email), Some(f.password), Some("patient")))
  {
    LooksLikeEmailIsPattern(f.email);
  }

  /** A form the page sends, with an email no account holds yet, registers a
      patient account and creates its profile with the form's name and
      email. */
  lemma SignUpCreatesProfile(s: State, f: SignUpForm)
    requires Consistent(s)
    requires Submit(f).Sends? && !EmailTaken(s, f.email)
    ensures var r := RegisterStep(s, Submit(f).body);
      && r.reply.Ok?
      && r.state.users[r.reply.value].role == PatientRole
      && r.reply.value in r.state.patients
      && r.state.patients[r.reply.value].name == Some(f.name)
      && r.state.patients[r.reply.value].email == Some(f.email)
  {
    RegisterEffect(s, Submit(f).body);
  }
}
