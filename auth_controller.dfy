/** The signup and login endpoints. A request field that is missing arrives as "" here:
    both fail the same truthiness test. */
module AuthController {
  import opened Storefront
  import opened Server

  datatype SignupBody = SignupBody(firstName: string, lastName: string, email: string, password: string, address: string)

  /** The document signup creates: the hash of the password, never the password, and the
      address or "". */
  function NewUser(body: SignupBody, crypto: Crypto, id: string): User {
    User(id, body.firstName, body.lastName, body.email, crypto.hash(body.password), OrDefault(body.address, ""))
  }

  /** The stored document keeps the submitted names and email, stores the hash of the
      password, and keeps the address when one was given. */
  lemma NewUserSpec(body: SignupBody, crypto: Crypto, id: string)
    ensures var u := NewUser(body, crypto, id);
      && u.id == id && u.firstName == body.firstName && u.lastName == body.lastName
      && u.email == body.email && u.password == crypto.hash(body.password)
      && (body.address != "" ==> u.address == body.address)
      && (body.address == "" ==> u.address == "")
  {
  }

  /** `Signup`, with the generated id of the new document, whether the email lookup
      completes and whether saving succeeds as inputs. The four required fields are checked
      first, then the email; a lookup or save that throws is a 500; only a successful save
      adds the user, and the reply carries the token but no user. */
  method Signup(store: UserCollection, body: SignupBody, crypto: Crypto, newId: string,
                lookupOk: bool, saveOk: bool)
    returns (reply: Reply)
    requires store.Valid() && IndexOfId(store.users, newId).None?
    modifies store
    ensures store.Valid()
    ensures body.firstName == "" || body.lastName == "" || body.email == "" || body.password == "" ==>
      reply == Fail(400, "All fields are required") && store.users == old(store.users)
    ensures body.firstName != "" && body.lastName != "" && body.email != "" && body.password != "" ==>
      if !lookupOk then
        reply == Fail(500, "Internal Server Error") && store.users == old(store.users)
      else if IndexOfEmail(old(store.users), body.email).Some? then
        reply == Fail(400, "Email is already in use") && store.users == old(store.users)
      else if !saveOk then
        reply == Fail(500, "Internal Server Error") && store.users == old(store.users)
      else
        && store.users == old(store.users) + [NewUser(body, crypto, newId)]
        && reply == Reply(201, true, "Signup successful", Some(ClaimsOf(NewUser(body, crypto, newId))), None)
  {
    if body.firstName == "" || body.lastName == "" || body.email == "" || body.password == "" {
      return Fail(400, "All fields are required");
    }
    if !lookupOk {
      return Fail(500, "Internal Server Error");
    }
    if IndexOfEmail(store.users, body.email).Some? {
      return Fail(400, "Email is already in use");
    }
    var hashed := crypto.hash(body.password);
    var user := User(newId, body.firstName, body.lastName, body.email, hashed,
      if body.address != "" then body.address else "");
    if !saveOk {
      return Fail(500, "Internal Server Error");
    }
    ghost var before := store.users;
    store.users := store.users + [user];
    forall i, j | 0 <= i < j < |store.users|
      ensures store.users[i].id != store.users[j].id && store.users[i].email != store.users[j].email
    {
      if j == |before| {
        assert store.users[i] == before[i];
      }
    }
    reply := Reply(201, true, "Signup successful", Some(ClaimsOf(user)), None);
  }

  /** The user projection a login reply carries: the address or "". */
  function PublicOf(u: User): (p: PublicUser)
    ensures p.id == u.id && p.email == u.email && p.firstName == u.firstName && p.lastName == u.lastName
    ensures p.address == OrDefault(u.address, "")
  {
    PublicUser(u.id, u.firstName, u.lastName, u.email, OrDefault(u.address, ""))
  }

  /** `Login`: a lookup that never writes, with whether the database lookup and the
      password comparison complete as an input. Missing fields are refused first; a lookup
      or comparison that throws is caught as a 500; then an unknown email and a wrong
      password are refused in that order; otherwise the reply carries the token and the
      user's public fields. */
  function Login(users: seq<User>, email: string, password: string, crypto: Crypto, lookupOk: bool): (reply: Reply)
    ensures email == "" || password == "" ==> reply == Fail(400, "All fields are required")
    ensures email != "" && password != "" && !lookupOk ==> reply == Fail(500, "Internal server error")
    ensures email != "" && password != "" && lookupOk && IndexOfEmail(users, email).None? ==>
      reply == Fail(404, "User not found")
    ensures email != "" && password != "" && lookupOk && IndexOfEmail(users, email).Some? ==>
      var u := users[IndexOfEmail(users, email).value];
      if crypto.matches(password, u.password) then
        reply == Reply(200, true, "Login successful", Some(ClaimsOf(u)), Some(PublicOf(u)))
      else reply == Fail(400, "Invalid email or password")
  {
    if email == "" || password == "" then Fail(400, "All fields are required")
    else if !lookupOk then Fail(500, "Internal server error")
    else match IndexOfEmail(users, email)
      case None => Fail(404, "User not found")
      case Some(i) =>
        if !crypto.matches(password, users[i].password) then Fail(400, "Invalid email or password")
        else Reply(200, true, "Login successful", Some(ClaimsOf(users[i])), Some(PublicOf(users[i])))
  }

  /** The reply's token and user describe the same user, the one with the given email. */
  lemma LoginReplyIsConsistent(users: seq<User>, email: string, password: string, crypto: Crypto, lookupOk: bool)
    requires Login(users, email, password, crypto, lookupOk).status == 200
    ensures var r := Login(users, email, password, crypto, lookupOk);
      && r.token.Some? && r.user.Some?
      && r.token.value.id == r.user.value.id && r.user.value.email == email
      && r.token.value.expiresIn == "12h"
  {
  }

  /** A user who has just signed up can log in with the same email and password, and gets
      back the fields they signed up with. */
  lemma SignupThenLogin(users: seq<User>, body: SignupBody, crypto: Crypto, newId: string)
    requires Sound(crypto)
    requires body.email != "" && body.password != ""
    requires IndexOfEmail(users, body.email).None?
    ensures var u := NewUser(body, crypto, newId);
      Login(users + [u], body.email, body.password, crypto, true)
        == Reply(200, true, "Login successful", Some(ClaimsOf(u)), Some(PublicOf(u)))
  {
    var u := NewUser(body, crypto, newId);
    assert (users + [u])[|users|] == u;
    assert crypto.matches(body.password, crypto.hash(body.password));
  }

  /** Without a user with that email, no password logs in. */
  lemma UnknownEmailNeverLogsIn(users: seq<User>, email: string, password: string, crypto: Crypto, lookupOk: bool)
    requires forall i :: 0 <= i < |users| ==> users[i].email != email
    ensures Login(users, email, password, crypto, lookupOk).status != 200
  {
  }
}
