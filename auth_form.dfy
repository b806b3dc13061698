/**
 * The sign-in / sign-up form: field validation, and what a submit does with the
 * answer of the auth provider (an outcome parameter here).  A successful sign-in
 * goes to the path a protected page stored in the session, or to the dashboard.
 */
module AuthForm {
  import opened Maybe
  import opened Text
  import opened Session
  import ProtectedRoute

  datatype Mode = SignIn | SignUp

  /** The keys of the `errors` record. */
  datatype Field = Email | Password | DisplayName | ConfirmPassword

  const EmailRequired := "Email is required"
  const EmailInvalid := "Please enter a valid email"
  const PasswordRequired := "Password is required"
  const PasswordTooShort := "Password must be at least 8 characters"
  const DisplayNameRequired := "Display name is required"
  const PasswordsDiffer := "Passwords do not match"

  const MinPasswordLength := 8

  /** `/\S+@\S+\.\S+/` matches `s[i..j]` read as `X@Y.Z`, with the '@' at `at` and
      the '.' at `dot`, each of X, Y, Z a non-empty run of non-blank characters. */
  ghost predicate PatternMatchesAt(s: string, i: int, at: int, dot: int, j: int) {
    && 0 <= i < at && at + 1 < dot && dot + 1 < j <= |s|
    && NoSpace(s[i..at]) && s[at] == '@' && NoSpace(s[at + 1..dot]) && s[dot] == '.'
    && NoSpace(s[dot + 1..j])
  }

  /** `.test(s)`: the unanchored pattern matches some substring. */
  ghost predicate PatternMatches(s: string) {
    exists i, at, dot, j :: PatternMatchesAt(s, i, at, dot, j)
  }

  /** A direct check: some '@' with a non-blank character before it is followed by
      a non-blank run, a '.', and a non-blank character. */
  predicate LooksLikeEmail(s: string) {
    exists at, dot | 0 < at < |s| && at + 1 < dot < |s| - 1 :: EmailShapeAt(s, at, dot)
  }

  predicate EmailShapeAt(s: string, at: int, dot: int)
    requires 0 < at && at + 1 < dot && dot + 1 < |s|
  {
    !IsSpace(s[at - 1]) && s[at] == '@' && NoSpace(s[at + 1..dot]) && s[dot] == '.'
    && !IsSpace(s[dot + 1])
  }

  /** The direct check agrees with the regular expression on every string. */
  lemma LooksLikeEmailIsPattern(s: string)
    ensures LooksLikeEmail(s) <==> PatternMatches(s)
  {
    if LooksLikeEmail(s) {
      var at, dot :| 0 < at < |s| && at + 1 < dot < |s| - 1 && EmailShapeAt(s, at, dot);
      assert PatternMatchesAt(s, at - 1, at, dot, dot + 2);
    }
    if PatternMatches(s) {
      var i, at, dot, j :| PatternMatchesAt(s, i, at, dot, j);
      assert s[at - 1] == s[i..at][at - 1 - i];
      assert s[dot + 1] == s[dot + 1..j][0];
      assert EmailShapeAt(s, at, dot);
    }
  }

  /** The email rule: required (after trimming), then the pattern on the raw text. */
  function EmailError(email: string): Option<string> {
    if IsBlank(email) then Some(EmailRequired)
    else if !LooksLikeEmail(email) then Some(EmailInvalid)
    else None
  }

  /** Each outcome of the email rule, with the condition that produces it. */
  lemma EmailErrorCases(email: string)
    ensures EmailError(email) == Some(EmailRequired) <==> IsBlank(email)
    ensures EmailError(email) == Some(EmailInvalid) <==> !IsBlank(email) && !LooksLikeEmail(email)
    ensures EmailError(email) == None <==> !IsBlank(email) && LooksLikeEmail(email)
  {
    assert EmailRequired != EmailInvalid;
  }

  /** Stated with the regular expression itself: a non-blank email is rejected as
      invalid exactly when the pattern matches nowhere in it. */
  lemma EmailRuleIsPattern(email: string)
    ensures EmailError(email) == Some(EmailInvalid) <==> !IsBlank(email) && !PatternMatches(email)
    ensures EmailError(email) == None <==> !IsBlank(email) && PatternMatches(email)
  {
    EmailErrorCases(email);
    LooksLikeEmailIsPattern(email);
  }

  /** The password rule: required (not trimmed), then at least 8 characters, counted
      as JavaScript's `length` counts them, in UTF-16 code units. */
  function PasswordError(password: string): (r: Option<string>)
    ensures r == Some(PasswordRequired) <==> password == ""
    ensures r == Some(PasswordTooShort) <==> 0 < Utf16Length(password) < MinPasswordLength
    ensures r == None <==> Utf16Length(password) >= MinPasswordLength
  {
    if password == "" then Some(PasswordRequired)
    else if Utf16Length(password) < MinPasswordLength then Some(PasswordTooShort)
    else None
  }

  /** Four emoji are eight code units: long enough, although only four characters. */
  lemma AstralPasswordIsLongEnough()
    ensures PasswordError("\U{1F600}\U{1F600}\U{1F600}\U{1F600}") == None
  {
    var p := "\U{1F600}\U{1F600}\U{1F600}\U{1F600}";
    assert p[1..][1..][1..][1..] == [];
    assert Utf16Length(p[1..][1..][1..]) == 2;
    assert Utf16Length(p[1..]) == 6;
  }

  /** `validateForm`'s `newErrors`, filled one field after another.  Sign-in checks
      only email and password; sign-up adds the display name and the repeat. */
  function FormErrors(mode: Mode, email: string, password: string, confirmPassword: string,
                      displayName: string): (errors: map<Field, string>)
    ensures Email in errors <==> EmailError(email).Some?
    ensures Email in errors ==> errors[Email] == EmailError(email).value
    ensures Password in errors <==> PasswordError(password).Some?
    ensures Password in errors ==> errors[Password] == PasswordError(password).value
    ensures DisplayName in errors <==> mode == SignUp && IsBlank(displayName)
    ensures DisplayName in errors ==> errors[DisplayName] == DisplayNameRequired
    ensures ConfirmPassword in errors <==> mode == SignUp && password != confirmPassword
    ensures ConfirmPassword in errors ==> errors[ConfirmPassword] == PasswordsDiffer
  {
    var emailError := EmailError(email);
    var passwordError := PasswordError(password);
    var nameMissing := mode == SignUp && IsBlank(displayName);
    var mismatch := mode == SignUp && password != confirmPassword;
    var withEmail := if emailError.Some? then map[Email := emailError.value] else map[];
    var checked := if passwordError.Some? then withEmail[Password := passwordError.value]
                   else withEmail;
    var named := if nameMissing then checked[DisplayName := DisplayNameRequired] else checked;
    if mismatch then named[ConfirmPassword := PasswordsDiffer] else named
  }

  /** Every rule of the form passes. */
  predicate FieldsPass(mode: Mode, email: string, password: string, confirmPassword: string,
                       displayName: string)
  {
    && EmailError(email).None? && PasswordError(password).None?
    && (mode == SignUp ==> !IsBlank(displayName) && password == confirmPassword)
  }

  /** The form is valid exactly when every rule passes; in sign-in mode the display
      name and the repeated password play no part. */
  lemma ValidityIsConjunction(mode: Mode, email: string, password: string,
                              confirmPassword: string, displayName: string,
                              errors: map<Field, string>)
    requires Email in errors <==> EmailError(email).Some?
    requires Password in errors <==> PasswordError(password).Some?
    requires DisplayName in errors <==> mode == SignUp && IsBlank(displayName)
    requires ConfirmPassword in errors <==> mode == SignUp && password != confirmPassword
    ensures errors == map[] <==> FieldsPass(mode, email, password, confirmPassword, displayName)
  {
    if errors != map[] {
      var k :| k in errors;
      match k {
        case Email =>
        case Password =>
        case DisplayName =>
        case ConfirmPassword =>
      }
    }
  }

  /** The auth provider's answer: success, an `error` result, or a thrown error. */
  datatype AuthOutcome = AuthOk | AuthError(message: string) | AuthThrew(message: string)

  /** Where a successful submit goes, given the session storage before it. */
  function Destination(mode: Mode, storage: map<string, string>): string {
    if mode == SignUp then ProtectedRoute.SignInPath else RedirectTarget(storage)
  }

  class Form {
    const mode: Mode
    var email: string
    var password: string
    var confirmPassword: string
    var displayName: string
    var loading: bool
    var errors: map<Field, string>

    constructor (mode: Mode)
      ensures this.mode == mode && email == "" && password == "" && confirmPassword == ""
      ensures displayName == "" && !loading && errors == map[]
    {
      this.mode := mode;
      email, password, confirmPassword, displayName := "", "", "", "";
      loading := false;
      errors := map[];
    }

    /** `handleSubmit`.  An invalid form records its errors and makes no auth call.
        A valid one clears the errors and calls the provider; on success sign-up goes
        to the sign-in page, and sign-in goes to the stored redirect path (or the
        dashboard) and removes the key; on failure nothing is navigated.  `loading`
        is false at the end of every path past validation. */
    method HandleSubmit(b: Browser, outcome: AuthOutcome) returns (authCalled: bool)
      modifies this, b
      ensures authCalled <==> FieldsPass(mode, email, password, confirmPassword, displayName)
      ensures !authCalled ==>
        && errors != map[] && errors == FormErrors(mode, email, password, confirmPassword, displayName)
        && loading == old(loading)
        && b.storage == old(b.storage) && b.history == old(b.history)
      ensures authCalled ==> errors == map[] && !loading
      ensures authCalled && outcome == AuthOk && mode == SignUp ==>
        b.history == old(b.history) + [ProtectedRoute.SignInPath] && b.storage == old(b.storage)
      ensures authCalled && outcome == AuthOk && mode == SignIn ==>
        b.history == old(b.history) + [RedirectTarget(old(b.storage))]
        && b.storage == old(b.storage) - {RedirectKey}
      ensures authCalled && outcome != AuthOk ==>
        b.storage == old(b.storage) && b.history == old(b.history)
      ensures email == old(email) && password == old(password)
      ensures confirmPassword == old(confirmPassword) && displayName == old(displayName)
    {
      var newErrors := FormErrors(mode, email, password, confirmPassword, displayName);
      ValidityIsConjunction(mode, email, password, confirmPassword, displayName, newErrors);
      errors := newErrors;
      if newErrors != map[] {
        authCalled := false;
        return;
      }
      authCalled := true;
      Authenticate(b, outcome);
    }

    /** The `try`/`finally` past validation: loading while the provider answers,
        the navigation on success, and `loading` false at the end. */
    method Authenticate(b: Browser, outcome: AuthOutcome)
      modifies this, b
      ensures errors == map[] && !loading
      ensures outcome == AuthOk && mode == SignUp ==>
        b.history == old(b.history) + [ProtectedRoute.SignInPath] && b.storage == old(b.storage)
      ensures outcome == AuthOk && mode == SignIn ==>
        b.history == old(b.history) + [RedirectTarget(old(b.storage))]
        && b.storage == old(b.storage) - {RedirectKey}
      ensures outcome != AuthOk ==> b.storage == old(b.storage) && b.history == old(b.history)
      ensures email == old(email) && password == old(password)
      ensures confirmPassword == old(confirmPassword) && displayName == old(displayName)
    {
      loading := true;
      errors := map[];
      if outcome == AuthOk {
        NavigateAfterAuth(mode, b);
      }
      loading := false;
    }
  }

  /** The navigation after a successful call: sign-up goes to the sign-in page;
      sign-in reads the stored redirect path, removes the key and goes there. */
  method NavigateAfterAuth(mode: Mode, b: Browser)
    modifies b
    ensures mode == SignUp ==>
      b.history == old(b.history) + [ProtectedRoute.SignInPath] && b.storage == old(b.storage)
    ensures mode == SignIn ==>
      b.history == old(b.history) + [RedirectTarget(old(b.storage))]
      && b.storage == old(b.storage) - {RedirectKey}
  {
    if mode == SignUp {
      b.Navigate(ProtectedRoute.SignInPath);
    } else {
      var redirectPath := RedirectTarget(b.storage);
      b.RemoveItem(RedirectKey);
      b.Navigate(redirectPath);
    }
  }

  /** A non-empty path stored by the guard is exactly where sign-in leads. */
  lemma StoredPathIsDestination(storage: map<string, string>, pathname: string)
    requires pathname != ""
    ensures Destination(SignIn, storage[RedirectKey := pathname]) == pathname
  {
  }

  /** The round trip: a visitor without a session reaches a protected page, signs in
      successfully, and lands back on that page with the redirect key gone. */
  method RedirectRoundTrip(b: Browser, form: Form, pathname: string)
    requires form.mode == SignIn && pathname != ""
    requires EmailError(form.email).None? && PasswordError(form.password).None?
    modifies b, form
    ensures b.history == old(b.history) + [ProtectedRoute.SignInPath, pathname]
    ensures b.storage == old(b.storage) - {RedirectKey}
  {
    ghost var storage0, history0 := b.storage, b.history;
    ProtectedRoute.RunEffect(b, false, false, pathname);
    ghost var storage1 := b.storage;
    assert storage1 == storage0[RedirectKey := pathname];
    assert b.history == history0 + [ProtectedRoute.SignInPath];
    StoredPathIsDestination(storage0, pathname);
    var called := form.HandleSubmit(b, AuthOk);
    assert called;
    assert b.storage == storage1 - {RedirectKey};
    assert storage1 - {RedirectKey} == storage0 - {RedirectKey};
  }
}
