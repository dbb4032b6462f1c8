/** The profile page's form: its field validators and the submit handler
    that decides between a profile update, a password change, both, or
    neither. */
module MyProfile {
  import opened Wrappers
  import opened Json
  import opened Http
  import opened AuthService
  import AuthContext

  datatype ProfileForm = ProfileForm(
    username: string,
    name: string,
    currentPassword: string,
    newPassword: string,
    confirmPassword: string)

  const CurrentRequiredMessage := "Current password is required to change password"
  const MinLengthMessage := "Password must be at least 6 characters"
  const ConfirmRequiredMessage := "Please confirm your new password"
  const MismatchMessage := "Passwords do not match"

  /** The current-password validator. */
  function CurrentPasswordError(f: ProfileForm): (e: Option<string>)
    ensures e.Some? <==> f.newPassword != "" && f.currentPassword == ""
    ensures e.Some? ==> e.value == CurrentRequiredMessage
  {
    if f.newPassword != "" && f.currentPassword == "" then Some(CurrentRequiredMessage) else None
  }

  /** The new-password rule `minLength: 6`, which an empty field passes. */
  function NewPasswordError(f: ProfileForm): (e: Option<string>)
    ensures e.Some? <==> 0 < |f.newPassword| < 6
    ensures e.Some? ==> e.value == MinLengthMessage
  {
    if f.newPassword != "" && |f.newPassword| < 6 then Some(MinLengthMessage) else None
  }

  /** The confirm-password validator. */
  function ConfirmPasswordError(f: ProfileForm): (e: Option<string>)
    ensures e.None? <==> f.newPassword == "" || f.confirmPassword == f.newPassword
    ensures f.newPassword != "" && f.confirmPassword == "" ==> e == Some(ConfirmRequiredMessage)
    ensures f.newPassword != "" && f.confirmPassword != "" && f.confirmPassword != f.newPassword ==> e == Some(MismatchMessage)
  {
    if f.newPassword != "" && f.confirmPassword == "" then Some(ConfirmRequiredMessage)
    else if f.newPassword != "" && f.confirmPassword != f.newPassword then Some(MismatchMessage)
    else None
  }

  /** The form is submitted only when every validator passes. */
  predicate FormValid(f: ProfileForm) {
    CurrentPasswordError(f).None? && NewPasswordError(f).None? && ConfirmPasswordError(f).None?
  }

  /** A valid form either leaves the password alone or carries a current
      password and a new one of at least 6 characters, confirmed. */
  lemma ValidFormShape(f: ProfileForm)
    requires FormValid(f)
    ensures f.newPassword == "" || (f.currentPassword != "" && |f.newPassword| >= 6 && f.confirmPassword == f.newPassword)
  {
  }

  /** The notifications the handler shows. */
  datatype Toast = Info(text: string) | Success(text: string) | Failure(error: Error)

  /** What a submit does: the user after the context's local profile
      update, the arguments `updatePassword` was called with (if it was),
      the notifications in order, and the form afterwards. */
  datatype Submitted = Submitted(
    user: Json,
    passwordCall: Option<(string, string)>,
    toasts: seq<Toast>,
    form: ProfileForm)

  /** `shouldUpdateProfile`: the name or username differs from the user's. */
  predicate ProfileChanged(user: Json, f: ProfileForm) {
    Member(user, "name") != Found(JStr(f.name)) || Member(user, "username") != Found(JStr(f.username))
  }

  /** `shouldUpdatePassword`: both the new and the current password are given. */
  predicate PasswordGiven(f: ProfileForm) {
    f.newPassword != "" && f.currentPassword != ""
  }

  /** The text of a failure toast: the error's message, or the fallback
      when that message is empty. */
  function FailureToast(e: Error): (t: Toast)
    ensures t.Failure?
    ensures e == Message("") ==> t == Failure(Message("Failed to update profile"))
    ensures e != Message("") ==> t == Failure(e)
  {
    if e == Message("") then Failure(Message("Failed to update profile")) else Failure(e)
  }

  /** `user.key || ''`. */
  function FieldOrEmpty(user: Json, key: string): (t: string)
    ensures Member(user, key).Found? && Member(user, key).value.JStr? ==> t == Member(user, key).value.s
    ensures !TruthyMember(user, key) ==> t == ""
  {
    if TruthyMember(user, key) then ToJsString(Member(user, key).value) else ""
  }

  /** The form the page's `useEffect([user])` resets to when the user
      changes: the user's username and name, and empty password fields. */
  function UserEffectReset(user: Json): (g: ProfileForm)
    ensures g.currentPassword == "" && g.newPassword == "" && g.confirmPassword == ""
    ensures g.username == FieldOrEmpty(user, "username") && g.name == FieldOrEmpty(user, "name")
  {
    ProfileForm(FieldOrEmpty(user, "username"), FieldOrEmpty(user, "name"), "", "", "")
  }

  /** When both names were typed, the effect's reset after a profile update
      and the handler's own reset after a password change give the same
      form. */
  lemma EffectAgreesWithSuccessReset(user: Json, f: ProfileForm)
    requires Truthy(user) && f.name != "" && f.username != ""
    ensures UserEffectReset(AuthContext.UpdateProfileLocal(user, f.name, f.username))
      == f.(currentPassword := "", newPassword := "", confirmPassword := "")
  {
    var u := AuthContext.UpdateProfileLocal(user, f.name, f.username);
    assert Member(u, "name") == Found(JStr(f.name));
    assert Member(u, "username") == Found(JStr(f.username));
  }

  /** `onSubmit` for the signed-in `user`, with `st` the storage and `r` the
      response a password request receives. The form is the one the page
      settles on: a profile update replaces the context's user, so the
      `useEffect([user])` reset runs as well. It runs while the password
      request is in flight, or after the handler returns when no request
      is sent, so only the handler's own success reset comes after it. */
  function OnSubmit(user: Json, f: ProfileForm, st: Storage, r: Response): (s: Submitted)
    ensures !Truthy(user) ==> s == Submitted(user, None, [Failure(Message("User not authenticated"))], f)
    ensures Truthy(user) && !ProfileChanged(user, f) && !PasswordGiven(f) ==>
      s == Submitted(user, None, [Info("No changes detected")], f)
    ensures Truthy(user) && ProfileChanged(user, f) ==>
      s.user == AuthContext.UpdateProfileLocal(user, f.name, f.username)
      && |s.toasts| >= 1 && s.toasts[0] == Success("Profile updated successfully")
    ensures Truthy(user) && !ProfileChanged(user, f) ==> s.user == user
    ensures s.passwordCall.Some? <==> Truthy(user) && PasswordGiven(f) && f.newPassword == f.confirmPassword
    ensures s.passwordCall.Some? ==> s.passwordCall.value == (f.currentPassword, f.newPassword)
    ensures Truthy(user) && PasswordGiven(f) && f.newPassword != f.confirmPassword ==>
      |s.toasts| >= 1 && s.toasts[|s.toasts| - 1] == Failure(Message("New password and confirm password do not match"))
      && s.form == (if ProfileChanged(user, f) then UserEffectReset(s.user) else f)
    ensures s.passwordCall.Some? && UpdatePassword(st, f.currentPassword, f.newPassword, r).Err? ==>
      |s.toasts| >= 1 && s.toasts[|s.toasts| - 1] == FailureToast(UpdatePassword(st, f.currentPassword, f.newPassword, r).error)
      && s.form == (if ProfileChanged(user, f) then UserEffectReset(s.user) else f)
    ensures Truthy(user) && ProfileChanged(user, f) && !PasswordGiven(f) ==>
      s.toasts == [Success("Profile updated successfully")] && s.form == UserEffectReset(s.user)
    ensures s.passwordCall.Some? && UpdatePassword(st, f.currentPassword, f.newPassword, r).Ok? ==>
      |s.toasts| >= 1 && s.toasts[|s.toasts| - 1] == Success("Password updated successfully")
      && s.form == f.(currentPassword := "", newPassword := "", confirmPassword := "")
  {
    if !Truthy(user) then Submitted(user, None, [Failure(Message("User not authenticated"))], f)
    else if ProfileChanged(user, f) then ProfileStep(user, f, st, r)
    else if !PasswordGiven(f) then Submitted(user, None, [Info("No changes detected")], f)
    else PasswordStep(user, [], f, st, r)
  }

  /** `onSubmit` once the name or username changed: the context's local
      profile update and its toast, then the password half if both
      passwords are given, and the effect's reset of the form unless a
      password change succeeded after it. */
  function ProfileStep(user: Json, f: ProfileForm, st: Storage, r: Response): (s: Submitted)
    requires Truthy(user)
    ensures s.user == AuthContext.UpdateProfileLocal(user, f.name, f.username)
    ensures |s.toasts| >= 1 && s.toasts[0] == Success("Profile updated successfully")
    ensures s.passwordCall.Some? <==> PasswordGiven(f) && f.newPassword == f.confirmPassword
    ensures s.passwordCall.Some? ==> s.passwordCall.value == (f.currentPassword, f.newPassword)
    ensures !PasswordGiven(f) ==> s.toasts == [Success("Profile updated successfully")] && s.form == UserEffectReset(s.user)
    ensures PasswordGiven(f) && f.newPassword != f.confirmPassword ==>
      s.toasts[|s.toasts| - 1] == Failure(Message("New password and confirm password do not match"))
      && s.form == UserEffectReset(s.user)
    ensures s.passwordCall.Some? && UpdatePassword(st, f.currentPassword, f.newPassword, r).Err? ==>
      s.toasts[|s.toasts| - 1] == FailureToast(UpdatePassword(st, f.currentPassword, f.newPassword, r).error)
      && s.form == UserEffectReset(s.user)
    ensures s.passwordCall.Some? && UpdatePassword(st, f.currentPassword, f.newPassword, r).Ok? ==>
      s.toasts[|s.toasts| - 1] == Success("Password updated successfully")
      && s.form == f.(currentPassword := "", newPassword := "", confirmPassword := "")
  {
    var user' := AuthContext.UpdateProfileLocal(user, f.name, f.username);
    var toasts := [Success("Profile updated successfully")];
    if !PasswordGiven(f) then Submitted(user', None, toasts, UserEffectReset(user'))
    else
      var s := PasswordStep(user', toasts, f, st, r);
      if s.passwordCall.Some? && UpdatePassword(st, f.currentPassword, f.newPassword, r).Ok? then s
      else s.(form := UserEffectReset(user'))
  }

  /** The password half of `onSubmit`, with the form as the handler itself
      leaves it: the mismatch check, then the request, one toast for its
      outcome, and the password fields cleared only on success. */
  function PasswordStep(user: Json, toasts: seq<Toast>, f: ProfileForm, st: Storage, r: Response): (s: Submitted)
    ensures s.user == user && |s.toasts| == |toasts| + 1 && s.toasts[..|toasts|] == toasts
    ensures s.passwordCall.Some? <==> f.newPassword == f.confirmPassword
    ensures s.passwordCall.Some? ==> s.passwordCall.value == (f.currentPassword, f.newPassword)
    ensures f.newPassword != f.confirmPassword ==>
      s.toasts[|toasts|] == Failure(Message("New password and confirm password do not match")) && s.form == f
    ensures s.passwordCall.Some? && UpdatePassword(st, f.currentPassword, f.newPassword, r).Err? ==>
      s.toasts[|toasts|] == FailureToast(UpdatePassword(st, f.currentPassword, f.newPassword, r).error) && s.form == f
    ensures s.passwordCall.Some? && UpdatePassword(st, f.currentPassword, f.newPassword, r).Ok? ==>
      s.toasts[|toasts|] == Success("Password updated successfully")
      && s.form == f.(currentPassword := "", newPassword := "", confirmPassword := "")
  {
    if f.newPassword != f.confirmPassword then
      Submitted(user, None, toasts + [Failure(Message("New password and confirm password do not match"))], f)
    else
      var call := (f.currentPassword, f.newPassword);
      match UpdatePassword(st, f.currentPassword, f.newPassword, r)
      case Ok(_) =>
        Submitted(user, Some(call), toasts + [Success("Password updated successfully")],
                  f.(currentPassword := "", newPassword := "", confirmPassword := ""))
      case Err(e) => Submitted(user, Some(call), toasts + [FailureToast(e)], f)
  }

  /** A form that passed validation never reaches the mismatch check's
      failure: a password change it carries is always sent. */
  lemma ValidFormNeverMismatches(user: Json, f: ProfileForm, st: Storage, r: Response)
    requires Truthy(user) && FormValid(f) && PasswordGiven(f)
    ensures OnSubmit(user, f, st, r).passwordCall.Some?
  {
  }

  /** After a profile update the password fields always end up empty, even
      when the password change fails or is refused. */
  lemma ProfileChangeClearsPasswords(user: Json, f: ProfileForm, st: Storage, r: Response)
    requires Truthy(user) && ProfileChanged(user, f)
    ensures var g := OnSubmit(user, f, st, r).form;
      g.currentPassword == "" && g.newPassword == "" && g.confirmPassword == ""
  {
  }

  /** Without a profile update, a typed password change is cleared exactly
      when it succeeds. */
  lemma OnlySuccessClearsWithoutProfileChange(user: Json, f: ProfileForm, st: Storage, r: Response)
    requires Truthy(user) && !ProfileChanged(user, f) && PasswordGiven(f)
    ensures OnSubmit(user, f, st, r).form.newPassword == "" <==>
      f.newPassword == f.confirmPassword && UpdatePassword(st, f.currentPassword, f.newPassword, r).Ok?
  {
  }

  /** The profile update happens before the mismatch check, so a mismatch
      still leaves the profile updated. */
  lemma ProfileUpdatedDespiteMismatch(user: Json, f: ProfileForm, st: Storage, r: Response)
    requires Truthy(user) && ProfileChanged(user, f) && PasswordGiven(f) && f.newPassword != f.confirmPassword
    ensures OnSubmit(user, f, st, r).user == AuthContext.UpdateProfileLocal(user, f.name, f.username)
    ensures OnSubmit(user, f, st, r).toasts ==
      [Success("Profile updated successfully"), Failure(Message("New password and confirm password do not match"))]
  {
  }
}
