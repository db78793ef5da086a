/** The contact page: the controlled form, the presence check, the request and the
    toast and reset that follow it. */
module ContactPage {
  import opened Storefront
  import ContactController

  /** The `name` attribute of the four inputs. */
  datatype Field = Name | Email | Phone | Message

  /** `{ ...prev, [name]: value }`. */
  function WithField(form: ContactForm, field: Field, value: string): (r: ContactForm)
    ensures Get(r, field) == value
    ensures forall other :: other != field ==> Get(r, other) == Get(form, other)
  {
    match field
    case Name => form.(name := value)
    case Email => form.(email := value)
    case Phone => form.(phone := value)
    case Message => form.(message := value)
  }

  function Get(form: ContactForm, field: Field): string {
    match field
    case Name => form.name
    case Email => form.email
    case Phone => form.phone
    case Message => form.message
  }

  const EmptyForm := ContactForm("", "", "", "")

  /** The page sends a form only when every field is non-empty. */
  predicate Complete(form: ContactForm) {
    form.name != "" && form.email != "" && form.phone != "" && form.message != ""
  }

  /** The error toast for a failed request: a response without `ok` throws its body's
      `message` or "Something went wrong", and the catch shows the thrown message or
      "Failed to send message.". */
  function FailureText(response: Outcome<()>): (text: string)
    requires !response.Ok?
    ensures text != ""
    ensures response.NotOk? ==> text == OrDefault(response.message, "Something went wrong")
    ensures response.Throws? ==> text == OrDefault(response.message, "Failed to send message.")
  {
    var thrown := if response.NotOk? then OrDefault(response.message, "Something went wrong") else response.message;
    OrDefault(thrown, "Failed to send message.")
  }

  /** The page's state: `formData` and `loading`. */
  class ContactView {
    var form: ContactForm
    var loading: bool

    constructor ()
      ensures form == EmptyForm && !loading
    {
      form, loading := EmptyForm, false;
    }

    /** The submit button's text. */
    function ButtonText(): (text: string)
      reads this
      ensures text == "Sending..." <==> loading
    {
      if loading then "Sending..." else "Send Message"
    }

    /** `handleChange`: one field takes the input's value. */
    method Change(field: Field, value: string)
      modifies this
      ensures form == WithField(old(form), field, value) && loading == old(loading)
    {
      form := WithField(form, field, value);
    }

    /** `handleSubmit` up to its `await`: an incomplete form only raises an error;
        otherwise the page is loading and the form is posted. */
    method Submit(b: Browser) returns (sent: bool)
      modifies this, b
      ensures sent <==> Complete(old(form))
      ensures form == old(form)
      ensures b.storedUser == old(b.storedUser) && b.storedOrders == old(b.storedOrders)
      ensures !sent ==> loading == old(loading) && b.log == old(b.log) + [Toast(Error("Please fill in all fields."))]
      ensures sent ==> loading && b.log == old(b.log) + [Send(PostContact(old(form)))]
    {
      if !Complete(form) {
        b.log := b.log + [Toast(Error("Please fill in all fields."))];
        return false;
      }
      loading := true;
      b.log := b.log + [Send(PostContact(form))];
      sent := true;
    }

    /** `handleSubmit` after its `await`, with how the request ended as an input: a
        success clears the form, a failure keeps it, and loading is over either way. */
    method Settle(b: Browser, response: Outcome<()>)
      modifies this, b
      ensures !loading
      ensures b.storedUser == old(b.storedUser) && b.storedOrders == old(b.storedOrders)
      ensures response.Ok? ==> form == EmptyForm && b.log == old(b.log) + [Toast(Success("Message sent successfully!"))]
      ensures !response.Ok? ==> form == old(form) && b.log == old(b.log) + [Toast(Error(FailureText(response)))]
    {
      if response.Ok? {
        b.log := b.log + [Toast(Success("Message sent successfully!"))];
        form := EmptyForm;
      } else {
        b.log := b.log + [Toast(Error(FailureText(response)))];
      }
      loading := false;
    }
  }

  /** The whole exchange on a fresh page after the four fields are typed in: a form the
      page sends is never refused by the endpoint for a missing field; a successful save
      clears the form, and a failed one shows "Something went wrong" (the endpoint's
      reason is in a field the page does not read) and keeps what was typed. */
  method SendMessage(name: string, email: string, phone: string, message: string, saveOk: bool,
                     initial: seq<ContactForm>)
    returns (reply: Option<ContactController.ContactReply>, saved: seq<ContactForm>, toast: Notice, left: ContactForm)
    ensures var typed := ContactForm(name, email, phone, message);
      && (reply.None? <==> !Complete(typed))
      && (reply.None? ==> saved == initial && toast == Error("Please fill in all fields.") && left == typed)
      && (reply.Some? ==> reply.value.status != 400)
      && (reply.Some? && saveOk ==>
            saved == initial + [typed] && toast == Success("Message sent successfully!") && left == EmptyForm)
      && (reply.Some? && !saveOk ==>
            saved == initial && toast == Error("Something went wrong") && left == typed)
  {
    var b := new Browser(None, None);
    var page := new ContactView();
    page.Change(Name, name);
    page.Change(Email, email);
    page.Change(Phone, phone);
    page.Change(Message, message);
    assert page.form == ContactForm(name, email, phone, message);
    var store := new ContactController.ContactStore(initial);
    var sent := page.Submit(b);
    if !sent {
      reply, saved, toast, left := None, initial, b.log[|b.log| - 1].notice, page.form;
      return;
    }
    var r := ContactController.CreateContact(store, page.form, saveOk);
    page.Settle(b, ContactController.PageOutcome(r));
    reply, saved, toast, left := Some(r), store.contacts, b.log[|b.log| - 1].notice, page.form;
  }
}
