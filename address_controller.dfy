/** The checkout-details endpoint: the presence check on the five billing fields, and
    what happens to the record. */
module AddressController {
  import opened Storefront
  import opened Server
  import Text
  import CheckoutPage

  /** `!firstName || !streetAddress || !town_city || !phone || !email`. */
  predicate AnyMissing(body: BillingForm) {
    body.firstName == "" || body.streetAddress == "" || body.townCity == "" || body.phone == "" || body.email == ""
  }

  /** `addressDetails` as written, with whether building the record throws as an input:
      the record is built and dropped, so the collection it returns is the one it was
      given, while the reply claims the details were stored. */
  function AddressDetailsAsWritten(records: seq<BillingForm>, body: BillingForm, constructionThrows: bool)
    : (r: (seq<BillingForm>, Reply))
    ensures r.0 == records
    ensures AnyMissing(body) ==> r.1 == Fail(400, "All fields are required")
    ensures !AnyMissing(body) && constructionThrows ==> r.1 == Fail(500, "Internal server Error")
    ensures !AnyMissing(body) && !constructionThrows ==>
      r.1 == Reply(201, true, "Checkout Details stored in DB", None, None)
  {
    if AnyMissing(body) then (records, Fail(400, "All fields are required"))
    else if constructionThrows then (records, Fail(500, "Internal server Error"))
    else (records, Reply(201, true, "Checkout Details stored in DB", None, None))
  }

  /** As written, a successful reply that says the details were stored in the database
      leaves a new record out of the collection. */
  lemma AsWrittenDropsTheRecord(records: seq<BillingForm>, body: BillingForm)
    requires !AnyMissing(body) && body !in records
    ensures AddressDetailsAsWritten(records, body, false).1.message == "Checkout Details stored in DB"
    ensures body !in AddressDetailsAsWritten(records, body, false).0
  {
  }

  /** The checkout-details collection, with the model's unique index on `email`. */
  class DetailsCollection {
    var records: seq<BillingForm>

    constructor (initial: seq<BillingForm>)
      ensures records == initial
    {
      records := initial;
    }
  }

  predicate EmailTaken(records: seq<BillingForm>, email: string) {
    exists i :: 0 <= i < |records| && records[i].email == email
  }

  /** `addressDetails` with the record saved, as its reply says: the same presence check,
      then the save, which fails on a taken email or a failing database, and a 201 reply
      only once the record is stored. */
  method AddressDetails(store: DetailsCollection, body: BillingForm, saveOk: bool) returns (reply: Reply)
    modifies store
    ensures AnyMissing(body) ==> reply == Fail(400, "All fields are required") && store.records == old(store.records)
    ensures !AnyMissing(body) && (!saveOk || EmailTaken(old(store.records), body.email)) ==>
      reply == Fail(500, "Internal server Error") && store.records == old(store.records)
    ensures !AnyMissing(body) && saveOk && !EmailTaken(old(store.records), body.email) ==>
      && reply == Reply(201, true, "Checkout Details stored in DB", None, None)
      && store.records == old(store.records) + [body]
    ensures reply.status == 201 ==> body in store.records
  {
    if AnyMissing(body) {
      return Fail(400, "All fields are required");
    }
    if !saveOk || EmailTaken(store.records, body.email) {
      return Fail(500, "Internal server Error");
    }
    store.records := store.records + [body];
    assert store.records[|store.records| - 1] == body;
    reply := Reply(201, true, "Checkout Details stored in DB", None, None);
  }

  /** A form the checkout page accepts always passes the server's presence check. */
  lemma ClientValidPassesServer(f: BillingForm)
    requires CheckoutPage.IsFormValid(f)
    ensures !AnyMissing(f)
  {
    Text.TrimNonEmpty(f.firstName);
    Text.TrimNonEmpty(f.streetAddress);
    Text.TrimNonEmpty(f.townCity);
    Text.TrimNonEmpty(f.phone);
    Text.TrimNonEmpty(f.email);
  }

  /** The server's check is weaker: a field of spaces passes it but not the page's. */
  lemma BlankFieldPassesOnlyServer()
    ensures var f := BillingForm(" ", "1 Road", "Town", "123", "a@b.c");
      !AnyMissing(f) && !CheckoutPage.IsFormValid(f)
  {
    var f := BillingForm(" ", "1 Road", "Town", "123", "a@b.c");
    Text.TrimEmptyIff(" ");
  }
}
