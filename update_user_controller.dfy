/** The profile-update endpoint: the partial update of the four profile fields, the
    three-field password change, and the save. */
module UpdateUserController {
  import opened Storefront
  import opened Server
  import Text

  datatype UpdateBody = UpdateBody(
    userId: string, firstName: string, lastName: string, email: string, address: string,
    currentPassword: string, newPassword: string, confirmPassword: string)

  /** Each profile field is assigned the submitted value when it is truthy and the stored
      one otherwise; the schema's setters then normalise the email and the address. */
  function Merge(u: User, body: UpdateBody): User {
    u.(firstName := OrDefault(body.firstName, u.firstName),
       lastName := OrDefault(body.lastName, u.lastName),
       email := StoredEmail(OrDefault(body.email, u.email)),
       address := StoredAddress(OrDefault(body.address, u.address)))
  }

  /** A password change is attempted only when all three password fields are filled. */
  predicate WantsPasswordChange(body: UpdateBody) {
    body.currentPassword != "" && body.newPassword != "" && body.confirmPassword != ""
  }

  /** Saving fails on the unique email index when another user already has the email. */
  predicate EmailTakenByOther(users: seq<User>, i: nat, email: string) {
    exists j :: 0 <= j < |users| && j != i && users[j].email == email
  }

  /** `user.save()` succeeds: the database works, the required fields are filled, and no
      other user holds the email. */
  predicate Saves(users: seq<User>, i: nat, u: User, saveOk: bool) {
    saveOk && HasRequired(u) && !EmailTakenByOther(users, i, u.email)
  }

  function PublicOf(u: User): PublicUser {
    PublicUser(u.id, u.firstName, u.lastName, u.email, u.address)
  }

  /** The refusal of a requested password change, if any: the current password is
      checked before the confirmation. */
  function PasswordRefusal(u: User, body: UpdateBody, crypto: Crypto): Option<Reply> {
    if !WantsPasswordChange(body) then None
    else if !crypto.matches(body.currentPassword, u.password) then Some(Fail(400, "Current password is incorrect"))
    else if body.newPassword != body.confirmPassword then Some(Fail(400, "New passwords do not match"))
    else None
  }

  /** The document that is saved: the merged profile and, for a password change, the hash
      of the new password. */
  function Updated(u: User, body: UpdateBody, crypto: Crypto): User {
    if WantsPasswordChange(body) then Merge(u, body).(password := crypto.hash(body.newPassword)) else Merge(u, body)
  }

  /** What the endpoint does to the collection and what it replies: the reference the
      imperative handler below is proved against. */
  function Outcome(users: seq<User>, body: UpdateBody, crypto: Crypto, saveOk: bool): (seq<User>, Reply) {
    match IndexOfId(users, body.userId)
    case None => (users, Fail(404, "User not found"))
    case Some(i) =>
      if PasswordRefusal(users[i], body, crypto).Some? then (users, PasswordRefusal(users[i], body, crypto).value)
      else
        var updated := Updated(users[i], body, crypto);
        if !Saves(users, i, updated, saveOk) then
          (users, Fail(500, "Something went wrong while updating profile"))
        else
          (users[i := updated], Reply(200, true, "Profile updated successfully", None, Some(PublicOf(updated))))
  }

  /** `updateProfile`, updating the fetched document field by field before saving it. */
  method UpdateProfile(store: UserCollection, body: UpdateBody, crypto: Crypto, saveOk: bool) returns (reply: Reply)
    requires store.Valid()
    modifies store
    ensures (store.users, reply) == Outcome(old(store.users), body, crypto, saveOk)
    ensures store.Valid()
  {
    ghost var users := store.users;
    var found := IndexOfId(store.users, body.userId);
    if found.None? {
      return Fail(404, "User not found");
    }
    var i := found.value;
    ghost var stored := store.users[i];
    OutcomeFound(users, body, crypto, saveOk, i);
    var user := store.users[i];
    user := user.(firstName := OrDefault(body.firstName, user.firstName));
    user := user.(lastName := OrDefault(body.lastName, user.lastName));
    user := user.(email := StoredEmail(OrDefault(body.email, user.email)));
    user := user.(address := StoredAddress(OrDefault(body.address, user.address)));
    assert user == Merge(stored, body);

    if body.currentPassword != "" && body.newPassword != "" && body.confirmPassword != "" {
      if !crypto.matches(body.currentPassword, user.password) {
        return Fail(400, "Current password is incorrect");
      }
      if body.newPassword != body.confirmPassword {
        return Fail(400, "New passwords do not match");
      }
      user := user.(password := crypto.hash(body.newPassword));
    }
    assert PasswordRefusal(stored, body, crypto).None?;
    assert user == Updated(stored, body, crypto);

    if !saveOk || !HasRequired(user) || EmailTakenByOther(store.users, i, user.email) {
      return Fail(500, "Something went wrong while updating profile");
    }
    SavePreservesUnique(store.users, i, user);
    store.users := store.users[i := user];
    reply := Reply(200, true, "Profile updated successfully", None, Some(PublicOf(user)));
  }

  /** The outcome for a user that exists, case by case. */
  lemma OutcomeFound(users: seq<User>, body: UpdateBody, crypto: Crypto, saveOk: bool, i: nat)
    requires IndexOfId(users, body.userId) == Some(i)
    ensures var refusal := PasswordRefusal(users[i], body, crypto);
      var updated := Updated(users[i], body, crypto);
      && (refusal.Some? ==> Outcome(users, body, crypto, saveOk) == (users, refusal.value))
      && (refusal.None? && !Saves(users, i, updated, saveOk) ==>
           Outcome(users, body, crypto, saveOk) == (users, Fail(500, "Something went wrong while updating profile")))
      && (refusal.None? && Saves(users, i, updated, saveOk) ==>
           Outcome(users, body, crypto, saveOk) ==
             (users[i := updated], Reply(200, true, "Profile updated successfully", None, Some(PublicOf(updated)))))
  {
  }

  /** Replacing a user by one with the same id and an email no other user has keeps both
      unique indexes. */
  lemma SavePreservesUnique(users: seq<User>, i: nat, u: User)
    requires Unique(users) && i < |users| && u.id == users[i].id
    requires !EmailTakenByOther(users, i, u.email)
    ensures Unique(users[i := u])
  {
    var after := users[i := u];
    forall a, b | 0 <= a < b < |after|
      ensures after[a].id != after[b].id && after[a].email != after[b].email
    {
      if a == i {
        assert users[b].email != u.email;
      } else if b == i {
        assert users[a].email != u.email;
      }
    }
  }

  // ---------------------------------------------------------------------------
  // What the endpoint promises

  /** An unknown user id is answered with 404 and changes nothing. */
  lemma UnknownUserIsNotFound(users: seq<User>, body: UpdateBody, crypto: Crypto, saveOk: bool)
    requires forall i :: 0 <= i < |users| ==> users[i].id != body.userId
    ensures Outcome(users, body, crypto, saveOk) == (users, Fail(404, "User not found"))
  {
  }

  /** Every refusal leaves the collection as it was; only a 200 reply changes it. */
  lemma OnlySuccessWrites(users: seq<User>, body: UpdateBody, crypto: Crypto, saveOk: bool)
    ensures Outcome(users, body, crypto, saveOk).1.status != 200 ==> Outcome(users, body, crypto, saveOk).0 == users
    ensures Outcome(users, body, crypto, saveOk).1.status == 200 ==> saveOk
  {
  }

  /** A wrong current password is refused, whatever the new and confirmed passwords are:
      that check comes first. */
  lemma WrongCurrentPasswordFirst(users: seq<User>, body: UpdateBody, crypto: Crypto, saveOk: bool, i: nat)
    requires IndexOfId(users, body.userId) == Some(i)
    requires WantsPasswordChange(body) && !crypto.matches(body.currentPassword, users[i].password)
    ensures Outcome(users, body, crypto, saveOk) == (users, Fail(400, "Current password is incorrect"))
    ensures Outcome(users, body.(confirmPassword := body.newPassword), crypto, saveOk)
      == (users, Fail(400, "Current password is incorrect"))
  {
  }

  /** With the right current password, a confirmation that differs is refused. */
  lemma MismatchedConfirmationRefused(users: seq<User>, body: UpdateBody, crypto: Crypto, saveOk: bool, i: nat)
    requires IndexOfId(users, body.userId) == Some(i)
    requires WantsPasswordChange(body) && crypto.matches(body.currentPassword, users[i].password)
    requires body.newPassword != body.confirmPassword
    ensures Outcome(users, body, crypto, saveOk) == (users, Fail(400, "New passwords do not match"))
  {
  }

  /** A successful update changes only the user with that id. Each of its profile fields
      is the submitted value when that is non-empty and the old value otherwise; its id
      never changes; its password hash changes only with all three password fields filled,
      and then becomes the hash of the new password. The reply returns exactly the stored
      profile fields. */
  lemma SuccessfulUpdate(users: seq<User>, body: UpdateBody, crypto: Crypto, saveOk: bool, i: nat)
    requires IndexOfId(users, body.userId) == Some(i)
    requires Outcome(users, body, crypto, saveOk).1.status == 200
    ensures var after := Outcome(users, body, crypto, saveOk).0;
      && |after| == |users|
      && (forall j :: 0 <= j < |users| && j != i ==> after[j] == users[j])
      && after[i] == Updated(users[i], body, crypto)
    ensures var after := Outcome(users, body, crypto, saveOk).0;
      var reply := Outcome(users, body, crypto, saveOk).1;
      && reply.user == Some(PublicUser(after[i].id, after[i].firstName, after[i].lastName, after[i].email, after[i].address))
      && reply.token.None?
  {
    OutcomeFound(users, body, crypto, saveOk, i);
  }

  /** Each profile field of the saved document is the submitted value when that is
      non-empty and the old value otherwise, with the email lowercased and trimmed and the
      address trimmed; the id never changes; the password hash changes only with all three
      password fields filled, and then becomes the hash of the new password. The saved
      email and address are normal forms: setting them again changes nothing. */
  lemma UpdatedFields(u: User, body: UpdateBody, crypto: Crypto)
    ensures var v := Updated(u, body, crypto);
      && v.id == u.id
      && v.firstName == (if body.firstName != "" then body.firstName else u.firstName)
      && v.lastName == (if body.lastName != "" then body.lastName else u.lastName)
      && v.email == Text.Trim(Text.Lower(if body.email != "" then body.email else u.email))
      && v.address == Text.Trim(if body.address != "" then body.address else u.address)
      && v.password == (if WantsPasswordChange(body) then crypto.hash(body.newPassword) else u.password)
    ensures var v := Updated(u, body, crypto);
      StoredEmail(v.email) == v.email && StoredAddress(v.address) == v.address
  {
    StoredEmailIdempotent(OrDefault(body.email, u.email));
    Text.TrimIdempotent(OrDefault(body.address, u.address));
  }

  /** An update that changes nothing but the profile fields is decided by the save alone:
      with all password fields empty the password checks never run. */
  lemma ProfileOnlyUpdate(users: seq<User>, body: UpdateBody, crypto: Crypto, i: nat)
    requires IndexOfId(users, body.userId) == Some(i)
    requires body.currentPassword == "" || body.newPassword == "" || body.confirmPassword == ""
    ensures Outcome(users, body, crypto, true).1.status == 200 <==> Saves(users, i, Merge(users[i], body), true)
    ensures Outcome(users, body, crypto, true).1.status == 200 ==>
      Outcome(users, body, crypto, true).0[i].password == users[i].password
  {
  }
}
