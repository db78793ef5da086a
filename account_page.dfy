/** The account page: the form loaded from the stored user, the field edits, cancel,
    and saving the profile through the profile-update endpoint. */
module AccountPage {
  import opened Storefront
  import Server
  import UpdateUserController

  /** The `name` attribute of the seven inputs. */
  datatype Field = FirstName | LastName | Email | Address | CurrentPassword | NewPassword | ConfirmPassword

  function Get(f: AccountForm, field: Field): string {
    match field
    case FirstName => f.firstName
    case LastName => f.lastName
    case Email => f.email
    case Address => f.address
    case CurrentPassword => f.currentPassword
    case NewPassword => f.newPassword
    case ConfirmPassword => f.confirmPassword
  }

  /** `{ ...formData, [e.target.name]: e.target.value }`. */
  function WithField(f: AccountForm, field: Field, value: string): (r: AccountForm)
    ensures Get(r, field) == value
    ensures forall other :: other != field ==> Get(r, other) == Get(f, other)
  {
    match field
    case FirstName => f.(firstName := value)
    case LastName => f.(lastName := value)
    case Email => f.(email := value)
    case Address => f.(address := value)
    case CurrentPassword => f.(currentPassword := value)
    case NewPassword => f.(newPassword := value)
    case ConfirmPassword => f.(confirmPassword := value)
  }

  const EmptyForm := AccountForm("", "", "", "", "", "", "")

  /** The four profile fields of a user, a missing address as "". */
  function WithProfile(f: AccountForm, u: ProfileUser): (r: AccountForm)
    ensures r.firstName == u.firstName && r.lastName == u.lastName && r.email == u.email
    ensures r.address == OrEmpty(u.address)
    ensures r.currentPassword == f.currentPassword && r.newPassword == f.newPassword
    ensures r.confirmPassword == f.confirmPassword
  {
    f.(firstName := u.firstName, lastName := u.lastName, email := u.email, address := OrEmpty(u.address))
  }

  /** The form with its three password fields cleared. */
  function ClearPasswords(f: AccountForm): AccountForm {
    f.(currentPassword := "", newPassword := "", confirmPassword := "")
  }

  /** How the page reads the endpoint's JSON: `success` with the returned user, or a
      refusal with its `message` (a thrown fetch or undecodable body is `Unreadable`). */
  datatype SaveResult = Saved(user: Server.PublicUser) | Refused(message: string) | Unreadable

  /** The page's reading of a reply of the endpoint. */
  function ResultOf(r: Server.Reply): (result: SaveResult)
    ensures r.success && r.user.Some? ==> result == Saved(r.user.value)
    ensures !r.success ==> result == Refused(r.message)
  {
    if r.success && r.user.Some? then Saved(r.user.value) else Refused(r.message)
  }

  /** The user the page keeps after a save: the reply's profile fields. */
  function ProfileOf(p: Server.PublicUser): ProfileUser {
    ProfileUser(p.id, p.firstName, p.lastName, p.email, Some(p.address))
  }

  /** The request body: `userId: user?.id` and every form field. A missing id reaches the
      endpoint as "". */
  function BodyOf(userId: Option<string>, f: AccountForm): (body: UpdateUserController.UpdateBody)
    ensures body.userId == userId.GetOr("")
    ensures body.firstName == f.firstName && body.lastName == f.lastName && body.email == f.email
    ensures body.address == f.address
    ensures body.currentPassword == f.currentPassword && body.newPassword == f.newPassword
    ensures body.confirmPassword == f.confirmPassword
  {
    UpdateUserController.UpdateBody(userId.GetOr(""), f.firstName, f.lastName, f.email, f.address,
      f.currentPassword, f.newPassword, f.confirmPassword)
  }

  /** The page's state: `formData` and `user`. */
  class AccountView {
    var form: AccountForm
    var user: Option<ProfileUser>

    constructor ()
      ensures form == EmptyForm && user.None?
    {
      form, user := EmptyForm, None;
    }

    /** The greeting's name: the user's first name or "User". */
    function Welcome(): (name: string)
      reads this
      ensures name != ""
      ensures user.Some? && user.value.firstName != "" ==> name == user.value.firstName
      ensures !(user.Some? && user.value.firstName != "") ==> name == "User"
    {
      if user.Some? then OrDefault(user.value.firstName, "User") else "User"
    }

    /** The mount effect: with a stored user, the page keeps it and copies its profile
        fields into the form; without one nothing changes. */
    method Load(b: Browser)
      modifies this
      ensures b.storedUser.Some? ==> user == b.storedUser && form == WithProfile(old(form), b.storedUser.value)
      ensures b.storedUser.None? ==> user == old(user) && form == old(form)
    {
      if b.storedUser.Some? {
        user := b.storedUser;
        form := WithProfile(form, b.storedUser.value);
      }
    }

    /** `handleInputChange`. */
    method Change(field: Field, value: string)
      modifies this
      ensures form == WithField(old(form), field, value) && user == old(user)
    {
      form := WithField(form, field, value);
    }

    /** `handleCancel`: back to the kept user's profile with empty password fields, or
        nothing without a user. */
    method Cancel()
      modifies this
      ensures user == old(user)
      ensures user.Some? ==> form == ClearPasswords(WithProfile(old(form), user.value))
      ensures user.None? ==> form == old(form)
    {
      if user.Some? {
        form := ClearPasswords(WithProfile(form, user.value));
      }
    }

    /** `handleSaveChanges`, with how the request ended as an input. The form is sent with
        the kept user's id. A success replaces the stored and the kept user with the
        returned one and clears the password fields; a refusal shows its message; an
        unreadable reply changes nothing the user sees. */
    method SaveChanges(b: Browser, result: SaveResult)
      modifies this, b
      ensures b.storedOrders == old(b.storedOrders)
      ensures var sent := Send(PatchProfile(if old(user).Some? then Some(old(user).value.id) else None, old(form)));
        match result
        case Saved(u) =>
          && b.log == old(b.log) + [sent, Toast(Success("Profile updated successfully!"))]
          && b.storedUser == Some(ProfileOf(u)) && user == Some(ProfileOf(u))
          && form == ClearPasswords(old(form))
        case Refused(m) =>
          && b.log == old(b.log) + [sent, Toast(Error(OrDefault(m, "Failed to update profile")))]
          && b.storedUser == old(b.storedUser) && user == old(user) && form == old(form)
        case Unreadable =>
          && b.log == old(b.log) + [sent]
          && b.storedUser == old(b.storedUser) && user == old(user) && form == old(form)
    {
      var id := if user.Some? then Some(user.value.id) else None;
      b.log := b.log + [Send(PatchProfile(id, form))];
      match result {
        case Saved(u) =>
          b.log := b.log + [Toast(Success("Profile updated successfully!"))];
          b.storedUser := Some(ProfileOf(u));
          user := Some(ProfileOf(u));
          form := ClearPasswords(form);
        case Refused(m) =>
          b.log := b.log + [Toast(Error(OrDefault(m, "Failed to update profile")))];
        case Unreadable =>
      }
    }
  }

  /** Cancel after edits restores the loaded profile: whatever was typed, the form is the
      stored user's profile again with empty passwords. */
  method EditThenCancel(stored: ProfileUser, field: Field, value: string) returns (restored: AccountForm)
    ensures restored == AccountForm(stored.firstName, stored.lastName, stored.email, OrEmpty(stored.address), "", "", "")
  {
    var b := new Browser(Some(stored), None);
    var page := new AccountView();
    page.Load(b);
    page.Change(field, value);
    page.Cancel();
    restored := page.form;
  }

  /** Saving from the page, read against the endpoint: for a user the collection holds,
      the page sees a success exactly when the endpoint saves, and then keeps exactly
      the profile fields of the saved document under that user's id; any refusal shows
      the endpoint's own message, which is never empty. */
  lemma SaveAgreesWithEndpoint(users: seq<Server.User>, kept: ProfileUser, f: AccountForm,
                              crypto: Server.Crypto, saveOk: bool, i: nat)
    requires Server.IndexOfId(users, kept.id) == Some(i)
    ensures var out := UpdateUserController.Outcome(users, BodyOf(Some(kept.id), f), crypto, saveOk);
      && (ResultOf(out.1).Saved? <==> out.1.status == 200)
      && (ResultOf(out.1).Saved? ==>
            var doc := out.0[i];
            && ProfileOf(ResultOf(out.1).user) == ProfileUser(kept.id, doc.firstName, doc.lastName, doc.email, Some(doc.address))
            && doc == UpdateUserController.Updated(users[i], BodyOf(Some(kept.id), f), crypto))
      && (ResultOf(out.1).Refused? ==>
            out.0 == users && ResultOf(out.1).message != ""
            && OrDefault(ResultOf(out.1).message, "Failed to update profile") == out.1.message)
  {
    var body := BodyOf(Some(kept.id), f);
    var out := UpdateUserController.Outcome(users, body, crypto, saveOk);
    UpdateUserController.OutcomeFound(users, body, crypto, saveOk, i);
    var refusal := UpdateUserController.PasswordRefusal(users[i], body, crypto);
    var updated := UpdateUserController.Updated(users[i], body, crypto);
    if refusal.Some? {
      assert out == (users, refusal.value);
      assert ResultOf(out.1) == Refused(refusal.value.message);
    } else if !UpdateUserController.Saves(users, i, updated, saveOk) {
      assert out == (users, Server.Fail(500, "Something went wrong while updating profile"));
      assert ResultOf(out.1) == Refused("Something went wrong while updating profile");
    } else {
      assert out == (users[i := updated], Server.Reply(200, true, "Profile updated successfully", None,
        Some(UpdateUserController.PublicOf(updated))));
      assert ResultOf(out.1) == Saved(UpdateUserController.PublicOf(updated));
    }
  }
}
