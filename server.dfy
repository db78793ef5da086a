/** What the server endpoints share: the JSON reply, and for the account endpoints the
    stored user document, the password hashing, the token claims and the user collection. */
module Server {
  import opened Storefront
  import Text

  /** A stored user document; `password` holds the hash. */
  datatype User = User(
    id: string, firstName: string, lastName: string, email: string, password: string, address: string)

  /** bcrypt as the endpoints use it: `hash(password)` and `matches(password, hash)`. The
      salt is not modelled, so `hash` is a function. */
  datatype Crypto = Crypto(hash: string -> string, matches: (string, string) -> bool)

  /** Checking a password against its own hash succeeds. */
  ghost predicate Sound(c: Crypto) {
    forall p: string :: c.matches(p, c.hash(p))
  }

  /** The schema's setters, run whenever the field is assigned: `email` is lowercased and
      trimmed, `address` is trimmed. */
  function StoredEmail(s: string): string {
    Text.Trim(Text.Lower(s))
  }

  function StoredAddress(s: string): string {
    Text.Trim(s)
  }

  /** Setting an email that is already stored leaves it as it is: the setter is
      idempotent, so the stored text never has capitals or surrounding white space. */
  lemma StoredEmailIdempotent(s: string)
    ensures StoredEmail(StoredEmail(s)) == StoredEmail(s)
    ensures forall i :: 0 <= i < |StoredEmail(s)| ==> !Text.IsUpper(StoredEmail(s)[i])
    ensures Text.Trim(StoredEmail(s)) == StoredEmail(s)
  {
    var low := Text.Lower(s);
    var t := Text.Trim(low);
    var start := Text.TrimIsSlice(low);
    assert forall i :: 0 <= i < |t| ==> t[i] == low[start + i];
    Text.LowerOfLower(t);
    Text.TrimIdempotent(low);
  }

  /** The fields the schema marks `required`: a document with one of them empty is not
      saved. */
  predicate HasRequired(u: User) {
    u.firstName != "" && u.lastName != "" && u.email != "" && u.password != ""
  }

  /** The claims of a signed token. Signing itself is not modelled. */
  datatype Claims = Claims(id: string, firstName: string, lastName: string, email: string, expiresIn: string)

  /** The user fields a reply may carry: never the password. */
  datatype PublicUser = PublicUser(id: string, firstName: string, lastName: string, email: string, address: string)

  /** A JSON reply: its status, `success` (absent on the contact endpoint), `message`
      (the `error` text on the contact endpoint), and the token and user it may carry. */
  datatype Reply = Reply(status: int, success: bool, message: string, token: Option<Claims>, user: Option<PublicUser>)

  function Fail(status: int, message: string): Reply {
    Reply(status, false, message, None, None)
  }

  /** The claims the account endpoints sign for a user, valid for 12 hours. */
  function ClaimsOf(u: User): (c: Claims)
    ensures c.id == u.id && c.firstName == u.firstName && c.lastName == u.lastName
    ensures c.email == u.email && c.expiresIn == "12h"
  {
    Claims(u.id, u.firstName, u.lastName, u.email, "12h")
  }

  /** `findOne({ email })`: the position of the first user, in the collection's order,
      with the given email, if any. */
  function IndexOfEmail(users: seq<User>, email: string): (r: Option<nat>)
    ensures r.None? ==> forall i :: 0 <= i < |users| ==> users[i].email != email
    ensures r.Some? ==> r.value < |users| && users[r.value].email == email
    ensures r.Some? ==> forall i :: 0 <= i < r.value ==> users[i].email != email
  {
    if users == [] then None
    else if users[0].email == email then Some(0)
    else match IndexOfEmail(users[1..], email)
      case None => None
      case Some(i) => Some(i + 1)
  }

  /** `findById(id)`: the position of the first user with the given id, if any. */
  function IndexOfId(users: seq<User>, id: string): (r: Option<nat>)
    ensures r.None? ==> forall i :: 0 <= i < |users| ==> users[i].id != id
    ensures r.Some? ==> r.value < |users| && users[r.value].id == id
    ensures r.Some? ==> forall i :: 0 <= i < r.value ==> users[i].id != id
  {
    if users == [] then None
    else if users[0].id == id then Some(0)
    else match IndexOfId(users[1..], id)
      case None => None
      case Some(i) => Some(i + 1)
  }

  /** The unique indexes of the collection: no two users share an id or an email. */
  predicate Unique(users: seq<User>) {
    forall i, j :: 0 <= i < j < |users| ==> users[i].id != users[j].id && users[i].email != users[j].email
  }

  /** In a collection without duplicates, a lookup finds the one user with that key. */
  lemma LookupIsTheUser(users: seq<User>, i: nat)
    requires Unique(users) && i < |users|
    ensures IndexOfEmail(users, users[i].email) == Some(i)
    ensures IndexOfId(users, users[i].id) == Some(i)
  {
  }

  /** The collection, updated in place by the endpoints. */
  class UserCollection {
    var users: seq<User>

    constructor (initial: seq<User>)
      ensures users == initial
    {
      users := initial;
    }

    predicate Valid()
      reads this
    {
      Unique(users)
    }
  }
}
