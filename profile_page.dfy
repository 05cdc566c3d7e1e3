/**
 * The profile editor of pages/ProfilePage.tsx: the avatar choice, and the
 * requests `handleUpdateProfile` sends (avatar upload, auth update,
 * profile row), in their order and with their guard on the password.
 */
module ProfilePage {
  import opened Wrappers
  import opened Text

  /** The chosen image: only its name matters here. */
  datatype ImageFile = ImageFile(name: string)

  /** The fields sent to `auth.updateUser`; a missing one is not sent. */
  datatype AuthUpdate = AuthUpdate(email: Option<string>, password: Option<string>)

  /** The `profiles` fields written (the update time is left out). */
  datatype ProfileRow = ProfileRow(name: string, email: string, avatarUrl: Option<string>)

  datatype Message = Succeeded(text: string) | Failed(text: string)

  /** The requests one submit sends, in order, and the message it ends with. */
  datatype Outcome = Outcome(uploaded: bool, auth: Option<AuthUpdate>, profile: Option<ProfileRow>, message: Message)

  const Mismatch: string := "As senhas não coincidem."

  /** The avatar URL written: the upload's when a file was chosen, else none if removed, else the current one. */
  function SavedAvatar(removed: bool, chosen: bool, current: Option<string>, uploadedUrl: string): (url: Option<string>)
    ensures chosen ==> url == Some(uploadedUrl)
    ensures !chosen && removed ==> url.None?
    ensures !chosen && !removed ==> url == current
  {
    if chosen then Some(uploadedUrl) else if removed then None else current
  }

  /** The auth update: only when the email changed or a password was typed, and only with those fields. */
  function AuthRequest(email: string, userEmail: Option<string>, password: string): (r: Option<AuthUpdate>)
    ensures r.None? <==> userEmail == Some(email) && password == ""
    ensures r.Some? ==> (r.value.email.Some? <==> userEmail != Some(email))
    ensures r.Some? && r.value.email.Some? ==> r.value.email.value == email
    ensures r.Some? ==> (r.value.password.Some? <==> password != "")
    ensures r.Some? && r.value.password.Some? ==> r.value.password.value == password
  {
    if userEmail == Some(email) && password == "" then None
    else Some(AuthUpdate(if userEmail != Some(email) then Some(email) else None,
                         if password != "" then Some(password) else None))
  }

  /** A typed password that differs from its confirmation. */
  predicate Mismatched(password: string, confirmation: string) {
    password != "" && password != confirmation
  }

  class ProfileEditor {
    var name: string
    var email: string
    var password: string
    var confirmPassword: string
    var avatarFile: Option<ImageFile>
    var avatarPreview: Option<string>
    var isAvatarRemoved: bool
    var message: Option<Message>

    constructor ()
      ensures name == email == password == confirmPassword == ""
      ensures avatarFile.None? && avatarPreview.None? && !isAvatarRemoved && message.None?
    {
      name, email, password, confirmPassword := "", "", "", "";
      avatarFile, avatarPreview, isAvatarRemoved, message := None, None, false, None;
    }

    /** The effect on a loaded profile: its name, its email or else the account's, its avatar as preview. */
    method Load(profileName: Option<string>, profileEmail: Option<string>, userEmail: Option<string>,
                profileAvatar: Option<string>)
      modifies this`name, this`email, this`avatarPreview
      ensures name == OrEmpty(profileName)
      ensures email == (if profileEmail.Some? && profileEmail.value != "" then profileEmail.value else OrEmpty(userEmail))
      ensures avatarPreview == profileAvatar
    {
      name := OrEmpty(profileName);
      email := if profileEmail.Some? && profileEmail.value != "" then profileEmail.value else OrEmpty(userEmail);
      avatarPreview := profileAvatar;
    }

    /** `handleAvatarChange`: the first chosen file, previewed under `objectUrl`; the removal is undone. */
    method ChooseAvatar(files: seq<ImageFile>, objectUrl: string)
      modifies this`avatarFile, this`avatarPreview, this`isAvatarRemoved
      ensures files != [] ==> avatarFile == Some(files[0]) && avatarPreview == Some(objectUrl) && !isAvatarRemoved
      ensures files == [] ==> (avatarFile == old(avatarFile) && avatarPreview == old(avatarPreview)
        && isAvatarRemoved == old(isAvatarRemoved))
    {
      if |files| > 0 {
        avatarFile := Some(files[0]);
        avatarPreview := Some(objectUrl);
        isAvatarRemoved := false;
      }
    }

    /** `handleRemoveAvatar`: no file, no preview, and the removal flag set. */
    method RemoveAvatar()
      modifies this`avatarFile, this`avatarPreview, this`isAvatarRemoved
      ensures avatarFile.None? && avatarPreview.None? && isAvatarRemoved
    {
      avatarFile := None;
      avatarPreview := None;
      isAvatarRemoved := true;
    }

    /**
     * `handleUpdateProfile` when the requests succeed. `currentAvatar` and
     * `userEmail` are the stored avatar and the account's email,
     * `uploadedUrl` the public URL of the uploaded file. A password that
     * differs from its confirmation stops the submit after the upload and
     * before the auth and profile updates; password fields are cleared
     * only on success.
     */
    method UpdateProfile(currentAvatar: Option<string>, userEmail: Option<string>, uploadedUrl: string)
      returns (outcome: Outcome)
      modifies this`message, this`password, this`confirmPassword
      ensures outcome.uploaded == old(avatarFile).Some?
      ensures Mismatched(old(password), old(confirmPassword)) ==> (
        outcome.auth.None? && outcome.profile.None? && outcome.message == Failed(Mismatch)
        && password == old(password) && confirmPassword == old(confirmPassword))
      ensures !Mismatched(old(password), old(confirmPassword)) ==> (
        outcome.auth == AuthRequest(email, userEmail, old(password))
        && outcome.profile == Some(ProfileRow(name, email,
             SavedAvatar(isAvatarRemoved, avatarFile.Some?, currentAvatar, uploadedUrl)))
        && outcome.message == Succeeded("Perfil atualizado com sucesso!")
        && password == "" && confirmPassword == "")
      ensures message == Some(outcome.message)
    {
      var updatedAvatarUrl := if isAvatarRemoved then None else currentAvatar;
      var uploaded := false;
      if avatarFile.Some? {
        uploaded := true;
        updatedAvatarUrl := Some(uploadedUrl);
      }
      var auth: Option<AuthUpdate> := None;
      if userEmail != Some(email) || password != "" {
        var update := AuthUpdate(None, None);
        if userEmail != Some(email) {
          update := update.(email := Some(email));
        }
        if password != "" {
          if password != confirmPassword {
            outcome := Outcome(uploaded, None, None, Failed(Mismatch));
            message := Some(outcome.message);
            return;
          }
          update := update.(password := Some(password));
        }
        auth := Some(update);
      }
      outcome := Outcome(uploaded, auth, Some(ProfileRow(name, email, updatedAvatarUrl)),
                         Succeeded("Perfil atualizado com sucesso!"));
      message := Some(outcome.message);
      password := "";
      confirmPassword := "";
    }
  }

  /** Removing and then choosing a file saves the upload; choosing and then removing saves no avatar. */
  lemma LastAvatarActionWins(current: Option<string>, uploadedUrl: string)
    ensures SavedAvatar(false, true, current, uploadedUrl) == Some(uploadedUrl)
    ensures SavedAvatar(true, false, current, uploadedUrl).None?
  {
  }
}
