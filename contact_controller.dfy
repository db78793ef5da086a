/** The contact endpoint: the presence check on the four message fields and the save. */
module ContactController {
  import opened Storefront

  /** The JSON body of a reply: refusals carry an `error` field, the success a `message`. */
  datatype ContactBody = ErrorBody(error: string) | MessageBody(message: string)

  datatype ContactReply = ContactReply(status: int, body: ContactBody)

  /** `!name || !email || !phone || !message`. */
  predicate AnyMissing(form: ContactForm) {
    form.name == "" || form.email == "" || form.phone == "" || form.message == ""
  }

  /** The collection of contact messages. */
  class ContactStore {
    var contacts: seq<ContactForm>

    constructor (initial: seq<ContactForm>)
      ensures contacts == initial
    {
      contacts := initial;
    }
  }

  /** `createContact`, with whether saving succeeds as an input: a request with a missing
      field is refused before anything is built, a failed save is a 500, and only a
      successful save adds the message, exactly once and with the four submitted fields. */
  method CreateContact(store: ContactStore, form: ContactForm, saveOk: bool) returns (reply: ContactReply)
    modifies store
    ensures AnyMissing(form) ==>
      reply == ContactReply(400, ErrorBody("All fields are required.")) && store.contacts == old(store.contacts)
    ensures !AnyMissing(form) && !saveOk ==>
      reply == ContactReply(500, ErrorBody("Internal server error.")) && store.contacts == old(store.contacts)
    ensures !AnyMissing(form) && saveOk ==>
      && reply == ContactReply(201, MessageBody("Contact message sent successfully."))
      && store.contacts == old(store.contacts) + [form]
  {
    if AnyMissing(form) {
      return ContactReply(400, ErrorBody("All fields are required."));
    }
    if !saveOk {
      return ContactReply(500, ErrorBody("Internal server error."));
    }
    store.contacts := store.contacts + [form];
    reply := ContactReply(201, MessageBody("Contact message sent successfully."));
  }

  /** How the contact page sees a reply: `res.ok` for a 2xx status, and otherwise the
      body's `message` field, which a refusal does not have. */
  function PageOutcome(reply: ContactReply): (o: Outcome<()>)
    ensures 200 <= reply.status < 300 <==> o.Ok?
    ensures o.NotOk? ==> o.message == (if reply.body.MessageBody? then reply.body.message else "")
  {
    if 200 <= reply.status < 300 then Ok(())
    else NotOk(if reply.body.MessageBody? then reply.body.message else "")
  }

  /** Every reply the endpoint sends that is not a success reaches the page without a
      `message`: the page never sees the server's reason. */
  method RefusalHasNoMessage(form: ContactForm, saveOk: bool, initial: seq<ContactForm>) returns (seen: Outcome<()>)
    ensures seen.Ok? <==> !AnyMissing(form) && saveOk
    ensures seen.NotOk? ==> seen.message == ""
  {
    var store := new ContactStore(initial);
    var reply := CreateContact(store, form, saveOk);
    seen := PageOutcome(reply);
  }
}
