/**
 * The page reached from a password-reset email: it insists on both tokens in the
 * link, validates the new password and its repeat, and calls the provider's
 * `updatePassword` (an outcome parameter here).
 */
module ResetPasswordConfirm {
  import opened Maybe
  import opened Session
  import opened Text
  import AuthForm

  const ResetPasswordPath := "/reset-password"

  /** The keys of the `errors` record. */
  datatype Field = Password | ConfirmPassword

  /** `searchParams.get(key)` is truthy: present and non-empty. */
  predicate HasParam(params: map<string, string>, key: string) {
    key in params && params[key] != ""
  }

  /** The link check: where the page sends the visitor, if anywhere. */
  function ResetLinkRedirect(params: map<string, string>): (r: Option<string>)
    ensures r.Some? <==> !HasParam(params, "access_token") || !HasParam(params, "refresh_token")
    ensures r.Some? ==> r.value == ResetPasswordPath
  {
    if !HasParam(params, "access_token") || !HasParam(params, "refresh_token")
    then Some(ResetPasswordPath) else None
  }

  /** The effect that runs the link check. */
  method CheckResetLink(b: Browser, params: map<string, string>)
    modifies b
    ensures ResetLinkRedirect(params).Some? ==> b.history == old(b.history) + [ResetPasswordPath]
    ensures ResetLinkRedirect(params).None? ==> b.history == old(b.history)
    ensures b.storage == old(b.storage)
  {
    if !HasParam(params, "access_token") || !HasParam(params, "refresh_token") {
      b.Navigate(ResetPasswordPath);
    }
  }

  /** `validateForm`'s `newErrors`: the password rule, and, independently of it, the
      mismatch rule, so both errors can be present together. */
  function FormErrors(password: string, confirmPassword: string): (errors: map<Field, string>)
    ensures Password in errors <==> AuthForm.PasswordError(password).Some?
    ensures Password in errors ==> errors[Password] == AuthForm.PasswordError(password).value
    ensures ConfirmPassword in errors <==> password != confirmPassword
    ensures ConfirmPassword in errors ==> errors[ConfirmPassword] == AuthForm.PasswordsDiffer
    ensures errors == map[] <==>
      Utf16Length(password) >= AuthForm.MinPasswordLength && password == confirmPassword
  {
    var checked :=
      if password == "" then map[Password := AuthForm.PasswordRequired]
      else if Utf16Length(password) < AuthForm.MinPasswordLength
      then map[Password := AuthForm.PasswordTooShort]
      else map[];
    if password != confirmPassword then checked[ConfirmPassword := AuthForm.PasswordsDiffer]
    else checked
  }

  class Page {
    var password: string
    var confirmPassword: string
    var loading: bool
    var errors: map<Field, string>

    constructor ()
      ensures password == "" && confirmPassword == "" && !loading && errors == map[]
    {
      password, confirmPassword := "", "";
      loading := false;
      errors := map[];
    }

    /** `handleSubmit`: an invalid form records its errors and never calls
        `updatePassword`; a valid one clears them, calls it, goes to the dashboard on
        success, and ends with `loading` false either way. */
    method HandleSubmit(b: Browser, updateSucceeded: bool) returns (updateCalled: bool)
      modifies this, b
      ensures updateCalled <==>
        Utf16Length(password) >= AuthForm.MinPasswordLength && password == confirmPassword
      ensures !updateCalled ==>
        && errors != map[] && errors == FormErrors(password, confirmPassword)
        && loading == old(loading) && b.history == old(b.history)
      ensures updateCalled ==> errors == map[] && !loading
      ensures updateCalled && updateSucceeded ==> b.history == old(b.history) + [DefaultLanding]
      ensures updateCalled && !updateSucceeded ==> b.history == old(b.history)
      ensures b.storage == old(b.storage)
      ensures password == old(password) && confirmPassword == old(confirmPassword)
    {
      var newErrors := FormErrors(password, confirmPassword);
      errors := newErrors;
      if newErrors != map[] {
        updateCalled := false;
        return;
      }
      updateCalled := true;
      loading := true;
      errors := map[];
      if updateSucceeded {
        b.Navigate(DefaultLanding);
      }
      loading := false;
    }
  }
}
