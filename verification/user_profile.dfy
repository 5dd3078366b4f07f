/** The account form of components/user/UserProfileComp.tsx: the checks of
    `handleUpdatePassword` and what it does with the identity provider's
    answer, the same error-message fallback in `handleUpdateProfile`, and
    the initialisation of the name fields. The provider's `updatePassword`
    and `update` calls are given by their outcome. */
module UserProfile {
  import opened Wrappers
  import opened Text

  /** The names the provider reports for the signed-in user; either may be
      null. */
  datatype ProviderUser = ProviderUser(firstName: Option<string>, lastName: Option<string>)

  /** A rejection from the provider: an `errors` array whose entries may carry
      a `message`, or no array at all. */
  datatype ProviderErrorEntry = ProviderErrorEntry(message: Option<string>)
  datatype ProviderError = ProviderError(errors: Option<seq<ProviderErrorEntry>>)

  datatype Notice = ErrorNotice(text: string) | SuccessNotice(text: string)

  datatype ProfileState = ProfileState(
    firstName: string,
    lastName: string,
    currentPassword: string,
    password: string,
    confirmPassword: string,
    loading: bool,
    message: Option<Notice>)

  const MinPasswordLength: nat := 8

  const NoCurrentPassword: string := "Please enter your current password."
  const PasswordMismatch: string := "Passwords do not match."
  const PasswordTooShort: string := "Password must be at least 8 characters long."
  const PasswordUpdated: string := "Password updated successfully!"
  const PasswordFailed: string := "Failed to update password."
  const ProfileUpdated: string := "Profile updated successfully!"
  const ProfileFailed: string := "Failed to update profile."

  /** The effect that fills the name fields once the user is known: each
      falls back to "" when the provider has none. */
  function InitNames(s: ProfileState, user: Option<ProviderUser>): (s': ProfileState)
    ensures user.None? ==> s' == s
    ensures user.Some? ==> s'.(firstName := s.firstName, lastName := s.lastName) == s
    ensures user.Some? && user.value.firstName.Some? ==> s'.firstName == user.value.firstName.value
    ensures user.Some? && user.value.firstName.None? ==> s'.firstName == ""
    ensures user.Some? && user.value.lastName.Some? ==> s'.lastName == user.value.lastName.value
    ensures user.Some? && user.value.lastName.None? ==> s'.lastName == ""
  {
    match user
    case None => s
    case Some(u) => s.(firstName := u.firstName.GetOr(""), lastName := u.lastName.GetOr(""))
  }

  /** `error.errors?.[0]?.message || fallback`: the first entry's message when
      it exists and is non-empty, else the fallback. */
  function ErrorText(e: ProviderError, fallback: string): (t: string)
    ensures t == fallback || (e.errors.Some? && |e.errors.value| > 0 && Some(t) == e.errors.value[0].message)
    ensures t != fallback ==> t != ""
    ensures fallback != "" ==> t != ""
    ensures (e.errors.Some? && |e.errors.value| > 0 && e.errors.value[0].message.Some?
             && e.errors.value[0].message.value != "") ==> t == e.errors.value[0].message.value
  {
    match e.errors
    case Some(entries) =>
      if |entries| > 0 && entries[0].message.Some? && entries[0].message.value != "" then entries[0].message.value
      else fallback
    case None => fallback
  }

  /** The three checks of `handleUpdatePassword`, first failure wins. The
      length counts UTF-16 code units. */
  function CheckPassword(current: string, password: string, confirm: string): (r: Option<string>)
    ensures r.None? <==> current != "" && password == confirm && Utf16Length(password) >= MinPasswordLength
    ensures r == Some(NoCurrentPassword) <==> current == ""
    ensures r == Some(PasswordMismatch) <==> current != "" && password != confirm
    ensures r == Some(PasswordTooShort) <==>
      current != "" && password == confirm && Utf16Length(password) < MinPasswordLength
  {
    if current == "" then Some(NoCurrentPassword)
    else if password != confirm then Some(PasswordMismatch)
    else if Utf16Length(password) < MinPasswordLength then Some(PasswordTooShort)
    else None
  }

  /** The arguments of the provider's `updatePassword`. */
  datatype PasswordCall = PasswordCall(newPassword: string, currentPassword: string, signOutOfOtherSessions: bool)

  /** `handleUpdatePassword`, given whether a user is signed in and the
      outcome of `updatePassword`. Without a user nothing happens; a failed
      check shows its message and calls nothing; otherwise the provider is
      called, a success clears the three password fields, a failure shows
      the provider's message or the fallback, and loading ends false. */
  function UpdatePassword(s: ProfileState, signedIn: bool, outcome: Result<(), ProviderError>)
    : (r: (ProfileState, Option<PasswordCall>))
    ensures !signedIn ==> r == (s, None)
    ensures signedIn && CheckPassword(s.currentPassword, s.password, s.confirmPassword).Some? ==>
      r == (s.(message := Some(ErrorNotice(CheckPassword(s.currentPassword, s.password, s.confirmPassword).value))), None)
    ensures r.1.Some? <==> signedIn && CheckPassword(s.currentPassword, s.password, s.confirmPassword).None?
    ensures r.1.Some? ==>
      && r.1.value == PasswordCall(s.password, s.currentPassword, false)
      && !r.0.loading
      && r.0.firstName == s.firstName && r.0.lastName == s.lastName
    ensures r.1.Some? && outcome.Success? ==>
      && r.0.currentPassword == "" && r.0.password == "" && r.0.confirmPassword == ""
      && r.0.message == Some(SuccessNotice(PasswordUpdated))
    ensures r.1.Some? && outcome.Failure? ==>
      && r.0.currentPassword == s.currentPassword && r.0.password == s.password
      && r.0.confirmPassword == s.confirmPassword
      && r.0.message == Some(ErrorNotice(ErrorText(outcome.error, PasswordFailed)))
  {
    if !signedIn then (s, None)
    else match CheckPassword(s.currentPassword, s.password, s.confirmPassword)
      case Some(text) => (s.(message := Some(ErrorNotice(text))), None)
      case None =>
        var call := PasswordCall(s.password, s.currentPassword, false);
        match outcome
        case Success(_) =>
          (s.(currentPassword := "", password := "", confirmPassword := "", loading := false,
              message := Some(SuccessNotice(PasswordUpdated))), Some(call))
        case Failure(e) =>
          (s.(loading := false, message := Some(ErrorNotice(ErrorText(e, PasswordFailed)))), Some(call))
  }

  /** Whatever the provider answers, a call to it ends with a message shown
      and a non-empty one when it is an error. */
  lemma PasswordAttemptAlwaysReports(s: ProfileState, outcome: Result<(), ProviderError>)
    requires UpdatePassword(s, true, outcome).1.Some?
    ensures var m := UpdatePassword(s, true, outcome).0.message;
      m.Some? && m.value.text != "" && (m.value.SuccessNotice? <==> outcome.Success?)
  {
  }

  /** The arguments of the provider's `update`. */
  datatype ProfileCall = ProfileCall(firstName: string, lastName: string)

  /** `handleUpdateProfile`: no checks; the current names are sent, and the
      outcome decides the message with the same fallback rule. */
  function UpdateProfile(s: ProfileState, signedIn: bool, outcome: Result<(), ProviderError>)
    : (r: (ProfileState, Option<ProfileCall>))
    ensures !signedIn ==> r == (s, None)
    ensures signedIn ==>
      && r.1 == Some(ProfileCall(s.firstName, s.lastName))
      && !r.0.loading
      && r.0.(loading := s.loading, message := s.message) == s
      && r.0.message.Some? && r.0.message.value.text != ""
      && (r.0.message.value.SuccessNotice? <==> outcome.Success?)
      && (outcome.Success? ==> r.0.message == Some(SuccessNotice(ProfileUpdated)))
      && (outcome.Failure? ==> r.0.message == Some(ErrorNotice(ErrorText(outcome.error, ProfileFailed))))
  {
    if !signedIn then (s, None)
    else
      var notice := match outcome
        case Success(_) => SuccessNotice(ProfileUpdated)
        case Failure(e) => ErrorNotice(ErrorText(e, ProfileFailed));
      (s.(loading := false, message := Some(notice)), Some(ProfileCall(s.firstName, s.lastName)))
  }
}
