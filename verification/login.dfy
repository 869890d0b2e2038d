/** The login page's client-side rules: the checks run before an
    authentication attempt, switching between user and administrator login,
    and the name the loading screen greets the user with. The authentication
    calls themselves go to the remote service and appear only as the request
    the page would make. */
module Login {
  import opened Wrappers
  import opened Text

  // ------------------------------------------------------- the email pattern

  /** No whitespace character (the class `\s` of JavaScript patterns). */
  predicate NoSpace(t: string) {
    forall k :: 0 <= k < |t| ==> !IsSpace(t[k])
  }

  /** The pattern `\S+@\S+\.\S+` matches the text from `i` to `j`, with its
      `@` at `at` and its `.` at `dot`. */
  predicate MatchAt(s: string, i: int, at: int, dot: int, j: int) {
    0 <= i < at && at + 1 < dot && dot + 1 < j <= |s| &&
    s[at] == '@' && s[dot] == '.' &&
    NoSpace(s[i..at]) && NoSpace(s[at + 1..dot]) && NoSpace(s[dot + 1..j])
  }

  /** The test `/\S+@\S+\.\S+/.test(s)`: the pattern is not anchored, so it
      matches anywhere inside the text. */
  ghost predicate EmailPattern(s: string) {
    exists i, at, dot, j :: MatchAt(s, i, at, dot, j)
  }

  /** A `.` at `k` or later, before the first whitespace after `at + 1`,
      that has a character before it other than the `@` and a non-space
      after it. */
  function DotFrom(s: string, at: nat, k: nat): bool
    decreases |s| - k
  {
    if k + 1 >= |s| then false
    else if IsSpace(s[k]) then false
    else if s[k] == '.' && k >= at + 2 && !IsSpace(s[k + 1]) then true
    else DotFrom(s, at, k + 1)
  }

  /** An `@` at `at` or later that has a non-space before it and a suitable
      `.` after it. */
  function AtFrom(s: string, at: nat): bool
    decreases |s| - at
  {
    if at >= |s| then false
    else if s[at] == '@' && at >= 1 && !IsSpace(s[at - 1]) && DotFrom(s, at, at + 1) then true
    else AtFrom(s, at + 1)
  }

  /** The executable email check. */
  function LooksLikeEmail(s: string): bool {
    AtFrom(s, 0)
  }

  /** The shortest match around a given `@` and `.`: one character on each
      side is enough. */
  predicate Core(s: string, at: int, dot: int) {
    MatchAt(s, at - 1, at, dot, dot + 2)
  }

  lemma CoreOfMatch(s: string, i: int, at: int, dot: int, j: int)
    requires MatchAt(s, i, at, dot, j)
    ensures Core(s, at, dot)
  {
    assert s[at - 1] == s[i..at][at - 1 - i];
    assert s[dot + 1] == s[dot + 1..j][0];
  }

  /** When a `.` right at `k` completes a match. */
  lemma CoreHere(s: string, at: nat, k: nat)
    requires 1 <= at && at + 1 <= k <= |s| && s[at] == '@' && !IsSpace(s[at - 1])
    requires NoSpace(s[at + 1..k])
    ensures Core(s, at, k) <==> k + 1 < |s| && s[k] == '.' && k >= at + 2 && !IsSpace(s[k + 1])
  {
    assert s[at - 1..at] == [s[at - 1]];
    if k + 2 <= |s| {
      assert s[k + 1..k + 2] == [s[k + 1]];
    }
  }

  /** A match whose `.` lies beyond `k` has non-space text up to and
      including `k`. */
  lemma CoreBeyond(s: string, at: nat, k: nat, dot: int)
    requires at + 1 <= k < dot && Core(s, at, dot)
    ensures k + 1 < |s| && !IsSpace(s[k]) && NoSpace(s[at + 1..k + 1])
  {
    assert s[k] == s[at + 1..dot][k - at - 1];
    assert s[at + 1..k + 1] == s[at + 1..dot][..k - at];
  }

  lemma NoSpaceExtend(s: string, lo: nat, k: nat)
    requires lo <= k < |s| && NoSpace(s[lo..k]) && !IsSpace(s[k])
    ensures NoSpace(s[lo..k + 1])
  {
    var t, u := s[lo..k + 1], s[lo..k];
    forall m | 0 <= m < |t|
      ensures !IsSpace(t[m])
    {
      if m < |u| {
        assert t[m] == u[m];
      }
    }
  }

  lemma {:induction false} DotFromSpec(s: string, at: nat, k: nat)
    requires 1 <= at && at + 1 <= k <= |s| && s[at] == '@' && !IsSpace(s[at - 1])
    requires NoSpace(s[at + 1..k])
    ensures DotFrom(s, at, k) <==> exists dot :: k <= dot && Core(s, at, dot)
    decreases |s| - k
  {
    CoreHere(s, at, k);
    forall dot | k < dot && Core(s, at, dot)
      ensures k + 1 < |s| && !IsSpace(s[k]) && NoSpace(s[at + 1..k + 1])
    {
      CoreBeyond(s, at, k, dot);
    }
    if k + 1 < |s| && !IsSpace(s[k]) && !(s[k] == '.' && k >= at + 2 && !IsSpace(s[k + 1])) {
      NoSpaceExtend(s, at + 1, k);
      DotFromSpec(s, at, k + 1);
    }
  }

  lemma {:induction false} AtFromSpec(s: string, a: nat)
    requires a <= |s|
    ensures AtFrom(s, a) <==> exists at, dot :: a <= at && Core(s, at, dot)
    decreases |s| - a
  {
    forall dot | Core(s, a, dot)
      ensures s[a] == '@' && a >= 1 && !IsSpace(s[a - 1]) && a + 1 <= dot
    {
      assert s[a - 1] == s[a - 1..a][0];
    }
    if a < |s| {
      AtFromSpec(s, a + 1);
      if s[a] == '@' && a >= 1 && !IsSpace(s[a - 1]) {
        assert s[a + 1..a + 1] == [];
        DotFromSpec(s, a, a + 1);
      }
    }
  }

  /** The executable check agrees with the pattern on every text. */
  lemma LooksLikeEmailMatchesPattern(s: string)
    ensures LooksLikeEmail(s) <==> EmailPattern(s)
  {
    AtFromSpec(s, 0);
    if EmailPattern(s) {
      var i, at, dot, j :| MatchAt(s, i, at, dot, j);
      CoreOfMatch(s, i, at, dot, j);
    }
    if LooksLikeEmail(s) {
      var at, dot :| 0 <= at && Core(s, at, dot);
      assert MatchAt(s, at - 1, at, dot, dot + 2);
    }
  }

  // ----------------------------------------------------------- the form

  datatype LoginType = UserLogin | AdminLogin

  datatype LoginForm = LoginForm(
    loginType: LoginType,
    isSignUp: bool,
    email: string,
    password: string,
    confirmPassword: string,
    fullName: string,
    securityCode: string)

  datatype LoginField = EmailField | PasswordField | FullNameField | ConfirmPasswordField | SecurityCodeField

  type LoginErrors = map<LoginField, string>

  const EmailRequired := "Email is required"
  const EmailInvalid := "Please enter a valid email address"
  const PasswordRequired := "Password is required"
  const PasswordTooShort := "Password must be at least 6 characters"
  const FullNameRequired := "Full name is required"
  const PasswordsDiffer := "Passwords do not match"
  const SecurityCodeRequired := "Security code is required for admin access"

  /** The checks `handleSubmit` runs before anything is sent. */
  function Validate(f: LoginForm): (errs: LoginErrors)
    ensures EmailField in errs <==> f.email == "" || !EmailPattern(f.email)
    ensures EmailField in errs ==> errs[EmailField] == (if f.email == "" then EmailRequired else EmailInvalid)
    ensures PasswordField in errs <==> Utf16Length(f.password) < 6
    ensures PasswordField in errs ==>
      errs[PasswordField] == (if f.password == "" then PasswordRequired else PasswordTooShort)
    ensures FullNameField in errs <==> f.isSignUp && Trim(f.fullName) == ""
    ensures ConfirmPasswordField in errs <==> f.isSignUp && f.password != f.confirmPassword
    ensures SecurityCodeField in errs <==> f.loginType == AdminLogin && f.securityCode == ""
    ensures FullNameField in errs ==> errs[FullNameField] == FullNameRequired
    ensures ConfirmPasswordField in errs ==> errs[ConfirmPasswordField] == PasswordsDiffer
    ensures SecurityCodeField in errs ==> errs[SecurityCodeField] == SecurityCodeRequired
  {
    LooksLikeEmailMatchesPattern(f.email);
    var e1: LoginErrors :=
      if f.email == "" then map[EmailField := EmailRequired]
      else if !LooksLikeEmail(f.email) then map[EmailField := EmailInvalid]
      else map[];
    var e2 :=
      if f.password == "" then e1[PasswordField := PasswordRequired]
      else if Utf16Length(f.password) < 6 then e1[PasswordField := PasswordTooShort]
      else e1;
    var e3 := if f.isSignUp && Trim(f.fullName) == "" then e2[FullNameField := FullNameRequired] else e2;
    var e4 := if f.isSignUp && f.password != f.confirmPassword then e3[ConfirmPasswordField := PasswordsDiffer] else e3;
    if f.loginType == AdminLogin && f.securityCode == "" then e4[SecurityCodeField := SecurityCodeRequired] else e4
  }

  /** The request sent to the authentication service. */
  datatype AuthRequest =
    | SignUp(email: string, password: string, fullName: string)
    | SignIn(email: string, password: string, securityCode: Option<string>)

  datatype SubmitResult = SubmitResult(errors: LoginErrors, request: Option<AuthRequest>)

  /** `handleSubmit`: the errors are shown, and a request is made only when
      there are none — a sign-up in sign-up mode, otherwise a sign-in that
      carries the security code only for an administrator login. */
  function HandleSubmit(f: LoginForm): (r: SubmitResult)
    ensures r.errors == Validate(f)
    ensures r.request.Some? <==> |r.errors| == 0
    ensures r.request.Some? ==> (r.request.value.SignUp? <==> f.isSignUp)
    ensures r.request.Some? && r.request.value.SignIn? ==>
      r.request.value.email == f.email && r.request.value.password == f.password &&
      (r.request.value.securityCode.Some? <==> f.loginType == AdminLogin)
    ensures r.request.Some? && f.isSignUp ==> r.request.value == SignUp(f.email, f.password, f.fullName)
    ensures r.request.Some? && !f.isSignUp && f.loginType == AdminLogin ==>
      r.request.value.securityCode == Some(f.securityCode)
  {
    var errs := Validate(f);
    if |errs| != 0 then SubmitResult(errs, None)
    else if f.isSignUp then SubmitResult(errs, Some(SignUp(f.email, f.password, f.fullName)))
    else SubmitResult(errs, Some(SignIn(f.email, f.password,
      if f.loginType == AdminLogin then Some(f.securityCode) else None)))
  }

  /** A request is made exactly for a well-formed email, a password of six
      or more UTF-16 code units and, in sign-up mode, a non-blank name and a
      matching confirmation, and for an administrator a security code. */
  lemma RequestIffValid(f: LoginForm)
    ensures HandleSubmit(f).request.Some? <==>
      f.email != "" && EmailPattern(f.email) && Utf16Length(f.password) >= 6 &&
      (f.isSignUp ==> Trim(f.fullName) != "" && f.password == f.confirmPassword) &&
      (f.loginType == AdminLogin ==> f.securityCode != "")
  {
    var errs := Validate(f);
    if |errs| != 0 {
      var k :| k in errs;
    }
  }

  /** The length rule counts UTF-16 code units: three emoji make a password
      long enough, three letters do not. */
  lemma PasswordLengthCountsCodeUnits(f: LoginForm)
    ensures f.password == "\U{1F600}\U{1F600}\U{1F600}" ==> PasswordField !in Validate(f)
    ensures f.password == "abc" ==> Validate(f)[PasswordField] == PasswordTooShort
  {
    var e := '\U{1F600}';
    assert [e, e, e][1..] == [e, e] && [e, e][1..] == [e];
    assert Utf16Length([e, e, e]) == 6;
  }

  /** A user login never needs a security code, whatever is typed there. */
  lemma UserLoginIgnoresCode(f: LoginForm, code: string)
    requires f.loginType == UserLogin
    ensures HandleSubmit(f.(securityCode := code)).request.Some? == HandleSubmit(f).request.Some?
  {
    RequestIffValid(f);
    RequestIffValid(f.(securityCode := code));
  }

  datatype LoginState = LoginState(form: LoginForm, errors: LoginErrors)

  /** `toggleLoginType`: switches the login type, clears every error and the
      security code, and keeps everything else typed so far. */
  function ToggleLoginType(st: LoginState, t: LoginType): (r: LoginState)
    ensures r.form.loginType == t && r.form.securityCode == "" && r.errors == map[]
    ensures r.form.(loginType := st.form.loginType, securityCode := st.form.securityCode) == st.form
  {
    LoginState(st.form.(loginType := t, securityCode := ""), map[])
  }

  /** Switching to administrator and back loses the security code but
      nothing else. */
  lemma ToggleBackLosesOnlyCode(st: LoginState)
    requires st.form.loginType == UserLogin
    ensures ToggleLoginType(ToggleLoginType(st, AdminLogin), UserLogin).form
         == st.form.(securityCode := "")
  {
  }

  /** The loading screen's name: the email up to its first `@`, and none
      for an empty email. */
  function UserName(email: string): (r: Option<string>)
    ensures r.None? <==> email == ""
    ensures r.Some? ==> r.value <= email && '@' !in r.value
    ensures r.Some? && '@' in email ==> email[|r.value|] == '@'
    ensures r.Some? && '@' !in email ==> r.value == email
  {
    if email == "" then None else Some(FirstPiece(email, '@'))
  }
}
