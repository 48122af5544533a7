/**
 * The profile page: the optional password-change checks of its submit
 * handler and the update of the stored user's phone number.
 */
module ProfilePage {
  import opened Wrappers
  import opened Json

  const CurrentRequired: string := "L'ancien mot de passe est obligatoire"
  const NewMismatch: string := "Les nouveaux mots de passe ne correspondent pas"
  const NewTooShort: string := "Le nouveau mot de passe doit faire au moins 8 caractères"
  const Saved: string := "Modifications enregistrées avec succès"

  /** The password checks, first failure wins; None when they pass or do not apply. */
  function PasswordChangeError(current: string, newPassword: string, confirm: string): Option<string> {
    if newPassword == "" && confirm == "" && current == "" then None
    else if current == "" then Some(CurrentRequired)
    else if newPassword != confirm then Some(NewMismatch)
    else if |newPassword| < 8 then Some(NewTooShort)
    else None
  }

  /**
   * With all three fields empty nothing is checked; otherwise the change
   * passes exactly when the current password is given and the new one is
   * confirmed and at least 8 characters long, and the first failing check
   * names the error.
   */
  lemma PasswordChangeMeaning(current: string, newPassword: string, confirm: string)
    ensures PasswordChangeError("", "", "") == None
    ensures PasswordChangeError(current, newPassword, confirm).None? <==>
      (current == "" && newPassword == "" && confirm == "") || (current != "" && newPassword == confirm && |newPassword| >= 8)
    ensures (newPassword != "" || confirm != "") && current == "" ==> PasswordChangeError(current, newPassword, confirm) == Some(CurrentRequired)
    ensures current != "" && newPassword != confirm ==> PasswordChangeError(current, newPassword, confirm) == Some(NewMismatch)
  {
  }

  class ProfileState {
    /** The signed-in user as the page holds it, and as it is kept in browser storage. */
    var user: Object
    var storedUser: Object
    var phone: string
    var currentPassword: string
    var newPassword: string
    var confirmPassword: string
    var error: string
    var success: string

    constructor(stored: Object)
      ensures user == stored && storedUser == stored
      ensures phone == (if Get(stored, "phone").Truthy() && Get(stored, "phone").Str? then Get(stored, "phone").s else "")
      ensures currentPassword == "" && newPassword == "" && confirmPassword == "" && error == "" && success == ""
    {
      user := stored;
      storedUser := stored;
      phone := if Get(stored, "phone").Truthy() && Get(stored, "phone").Str? then Get(stored, "phone").s else "";
      currentPassword := "";
      newPassword := "";
      confirmPassword := "";
      error := "";
      success := "";
    }

    /**
     * `handleSubmit`: both messages are cleared; a failed password check
     * sets its message and changes nothing else; otherwise the user (and
     * its stored copy) gets the typed phone, and nothing else of it changes.
     */
    method Submit()
      modifies this
      ensures var failure := PasswordChangeError(old(currentPassword), old(newPassword), old(confirmPassword));
        if failure.Some? then
          error == failure.value && success == "" && user == old(user) && storedUser == old(storedUser)
        else
          && error == "" && success == Saved
          && user == old(user)["phone" := Str(old(phone))] && storedUser == user
      ensures phone == old(phone) && currentPassword == old(currentPassword)
      ensures newPassword == old(newPassword) && confirmPassword == old(confirmPassword)
    {
      error := "";
      success := "";
      var failure := PasswordChangeError(currentPassword, newPassword, confirmPassword);
      if failure.Some? {
        error := failure.value;
        return;
      }
      success := Saved;
      var updated := user["phone" := Str(phone)];
      storedUser := updated;
      user := updated;
    }
  }

  /** The phone update replaces the phone and keeps every other field of the user. */
  lemma PhoneUpdateKeepsTheRest(user: Object, phone: string)
    ensures Get(user["phone" := Str(phone)], "phone") == Str(phone)
    ensures forall k :: k != "phone" ==> Get(user["phone" := Str(phone)], k) == Get(user, k)
    ensures user["phone" := Str(phone)].Keys == user.Keys + {"phone"}
  {
  }
}
