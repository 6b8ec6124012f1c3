/** `UpdatePasswordView`: validating the new password, re-authenticating with the
    current one, and updating it.
 */
module UpdatePassword {
  import opened Wrappers

  /** The form's `@State`. */
  datatype PasswordForm = PasswordForm(
    currentPassword: string,
    newPassword: string,
    confirmPassword: string,
    errorMessage: string,
    isPasswordUpdated: bool)

  const MISMATCH: string := "New password and confirmation do not match."
  const TOO_SHORT: string := "Password must be at least 6 characters long."
  const WRONG_CURRENT: string := "Current password is incorrect."
  const UPDATE_FAILED_PREFIX: string := "Failed to update password: "

  /** Swift's `count` on the new password; characters stand in for grapheme clusters. */
  const MIN_PASSWORD_LENGTH: nat := 6

  /** A new password the form accepts. */
  predicate Acceptable(f: PasswordForm)
  {
    f.newPassword == f.confirmPassword && |f.newPassword| >= MIN_PASSWORD_LENGTH
  }

  /** `validatePasswords()`: the verdict and the form afterwards. A mismatch is reported
      before the length; a passing form is left untouched. */
  function ValidatePasswords(f: PasswordForm): (r: (bool, PasswordForm))
    ensures r.0 <==> Acceptable(f)
    ensures r.0 ==> r.1 == f
    ensures f.newPassword != f.confirmPassword ==> r.1 == f.(errorMessage := MISMATCH)
    ensures f.newPassword == f.confirmPassword && |f.newPassword| < MIN_PASSWORD_LENGTH ==> r.1 == f.(errorMessage := TOO_SHORT)
  {
    if f.newPassword != f.confirmPassword then (false, f.(errorMessage := MISMATCH))
    else if |f.newPassword| < MIN_PASSWORD_LENGTH then (false, f.(errorMessage := TOO_SHORT))
    else (true, f)
  }

  /** What the password-update callback receives. */
  datatype UpdateOutcome = UpdateFailure(description: string) | UpdateSuccess

  /** The effect of "Update Password": the form afterwards, the re-authentication sent
      (email and current password), and the new password sent. */
  datatype UpdateEffect = UpdateEffect(form: PasswordForm, reauth: Option<(string, string)>, update: Option<string>)

  /** `updatePassword()`. `userEmail` is the current user's email; without one,
      `reauthenticateUser` never calls its completion and nothing further happens.
      `reauthOk` is what re-authentication reports. */
  function UpdatePassword(f: PasswordForm, userEmail: Option<string>, reauthOk: bool, outcome: UpdateOutcome): (r: UpdateEffect)
    ensures !Acceptable(f) ==> r == UpdateEffect(ValidatePasswords(f).1, None, None)
    ensures Acceptable(f) ==> (r.reauth.Some? <==> userEmail.Some?)
    ensures r.reauth.Some? ==> r.reauth.value == (userEmail.value, f.currentPassword)
    ensures Acceptable(f) && userEmail.None? ==> r == UpdateEffect(f, None, None)
    ensures r.reauth.Some? && !reauthOk ==> r.form == f.(errorMessage := WRONG_CURRENT) && r.update.None?
    ensures r.update.Some? <==> r.reauth.Some? && reauthOk
    ensures r.update.Some? ==> r.update.value == f.newPassword
    ensures r.update.Some? && outcome.UpdateFailure? ==> r.form == f.(errorMessage := UPDATE_FAILED_PREFIX + outcome.description)
    ensures r.update.Some? && outcome.UpdateSuccess? ==> r.form == f.(isPasswordUpdated := true, errorMessage := "")
  {
    var (ok, checked) := ValidatePasswords(f);
    if !ok then UpdateEffect(checked, None, None)
    else match userEmail
      case None => UpdateEffect(f, None, None)
      case Some(email) =>
        var reauth := Some((email, f.currentPassword));
        if !reauthOk then UpdateEffect(f.(errorMessage := WRONG_CURRENT), reauth, None)
        else match outcome
          case UpdateFailure(d) => UpdateEffect(f.(errorMessage := UPDATE_FAILED_PREFIX + d), reauth, Some(f.newPassword))
          case UpdateSuccess => UpdateEffect(f.(isPasswordUpdated := true, errorMessage := ""), reauth, Some(f.newPassword))
  }

  /** The password only changes to a confirmed one of at least six characters, after
      re-authentication; and a form marked updated carries no error. */
  lemma UpdatedOnlyWhenAcceptable(f: PasswordForm, userEmail: Option<string>, reauthOk: bool, outcome: UpdateOutcome)
    requires !f.isPasswordUpdated
    ensures UpdatePassword(f, userEmail, reauthOk, outcome).form.isPasswordUpdated <==>
              Acceptable(f) && userEmail.Some? && reauthOk && outcome.UpdateSuccess?
    ensures UpdatePassword(f, userEmail, reauthOk, outcome).form.isPasswordUpdated ==>
              UpdatePassword(f, userEmail, reauthOk, outcome).form.errorMessage == ""
    ensures UpdatePassword(f, userEmail, reauthOk, outcome).update.Some? ==>
              |UpdatePassword(f, userEmail, reauthOk, outcome).update.value| >= MIN_PASSWORD_LENGTH
  {
  }
}
