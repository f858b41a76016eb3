/** The checkout page of the storefront (PlaceOrder.jsx): the delivery
    form, its required-field check, and the order of the two requests it
    sends when the order is placed. */
module Checkout {
  import opened Seqs
  import opened CartModel
  import opened CartTotals
  import opened OrderModel
  import opened CartPage

  datatype Field =
    FirstName | LastName | Email | Street | Apartment | City | State | Zipcode | Country | Phone | DeliveryNotes

  function FieldValue(form: Address, field: Field): string {
    match field
    case FirstName => form.firstName
    case LastName => form.lastName
    case Email => form.email
    case Street => form.street
    case Apartment => form.apartment
    case City => form.city
    case State => form.state
    case Zipcode => form.zipcode
    case Country => form.country
    case Phone => form.phone
    case DeliveryNotes => form.deliveryNotes
  }

  /** `handleInputChange`: one field takes the typed value. */
  function SetField(form: Address, field: Field, value: string): (r: Address)
    ensures FieldValue(r, field) == value
    ensures forall other :: other != field ==> FieldValue(r, other) == FieldValue(form, other)
  {
    match field
    case FirstName => form.(firstName := value)
    case LastName => form.(lastName := value)
    case Email => form.(email := value)
    case Street => form.(street := value)
    case Apartment => form.(apartment := value)
    case City => form.(city := value)
    case State => form.(state := value)
    case Zipcode => form.(zipcode := value)
    case Country => form.(country := value)
    case Phone => form.(phone := value)
    case DeliveryNotes => form.(deliveryNotes := value)
  }

  /** The form as the page first shows it: every field empty except the
      country, which starts as India. */
  function InitialForm(): (form: Address)
    ensures forall field :: FieldValue(form, field) == (if field == Country then "India" else "")
  {
    Address("", "", "", "", "", "", "", "", "India", "", "")
  }

  const RequiredFields: seq<Field> := [FirstName, LastName, Email, Street, City, Zipcode, Country, Phone]

  function Blank(form: Address): Field -> bool {
    (field: Field) => FieldValue(form, field) == ""
  }

  /** `missingFields`: the required fields left empty, in list order. */
  function MissingFields(form: Address): seq<Field> {
    Filter(RequiredFields, Blank(form))
  }

  /** A field is reported missing exactly when it is required and empty. */
  lemma MissingFieldsExact(form: Address)
    ensures forall field :: field in MissingFields(form) <==> field in RequiredFields && FieldValue(form, field) == ""
  {
    forall field ensures field in MissingFields(form) <==> field in RequiredFields && FieldValue(form, field) == "" {
      FilterMembership(RequiredFields, Blank(form), field);
    }
  }

  /** The form passes exactly when all eight required fields are filled. */
  lemma FormCompleteIff(form: Address)
    ensures MissingFields(form) == [] <==>
      form.firstName != "" && form.lastName != "" && form.email != "" && form.street != ""
      && form.city != "" && form.zipcode != "" && form.country != "" && form.phone != ""
  {
    MissingFieldsExact(form);
    if MissingFields(form) != [] {
      assert MissingFields(form)[0] in MissingFields(form);
    }
  }

  /** The optional fields do not change the outcome of the check. */
  lemma OptionalFieldsIgnored(form: Address, apartment: string, state: string, notes: string)
    ensures MissingFields(form.(apartment := apartment, state := state, deliveryNotes := notes)) == MissingFields(form)
  {
    var form' := form.(apartment := apartment, state := state, deliveryNotes := notes);
    assert forall field :: field in RequiredFields ==> FieldValue(form', field) == FieldValue(form, field);
    FilterSameOnRequired(RequiredFields, form, form');
  }

  lemma {:induction false} FilterSameOnRequired(fields: seq<Field>, a: Address, b: Address)
    requires forall field :: field in fields ==> FieldValue(a, field) == FieldValue(b, field)
    ensures Filter(fields, Blank(a)) == Filter(fields, Blank(b))
  {
    if fields != [] {
      assert fields[0] in fields;
      FilterSameOnRequired(fields[1..], a, b);
    }
  }

  /** An untouched form misses every required field but the country. */
  lemma UntouchedFormMissesAllButCountry()
    ensures MissingFields(InitialForm()) == [FirstName, LastName, Email, Street, City, Zipcode, Phone]
  {
    var f := InitialForm();
    var rf := RequiredFields;
    assert rf[1..] == [LastName, Email, Street, City, Zipcode, Country, Phone];
    assert rf[1..][1..] == [Email, Street, City, Zipcode, Country, Phone];
    assert rf[1..][1..][1..] == [Street, City, Zipcode, Country, Phone];
    assert rf[1..][1..][1..][1..] == [City, Zipcode, Country, Phone];
    assert rf[1..][1..][1..][1..][1..] == [Zipcode, Country, Phone];
    assert rf[1..][1..][1..][1..][1..][1..] == [Country, Phone];
    assert rf[1..][1..][1..][1..][1..][1..][1..] == [Phone];
    assert rf[1..][1..][1..][1..][1..][1..][1..][1..] == [];
  }

  /** The outcome of the order request: resolved with the server's
      `success` flag, or rejected (an error status or no answer). */
  datatype OrderReply = Answered(success: bool) | Failed

  /** The body of the order request. */
  datatype OrderPayload = OrderPayload(address: Address, items: seq<Entry>, amount: real)

  datatype Request = CreateRequest(payload: OrderPayload) | ClearCartRequest

  class PlaceOrderPage {
    var form: Address
    var cart: seq<Entry>
    var totalPrice: real
    var placingOrder: bool
    var loading: bool

    /** `cart` and `totalPrice` are shared with the other pages. */
    constructor (cart0: seq<Entry>, total0: real)
      ensures form == InitialForm() && cart == cart0 && totalPrice == total0 && !placingOrder && loading
    {
      form, cart, totalPrice := InitialForm(), cart0, total0;
      placingOrder, loading := false, true;
    }

    /** The fetch on page load. */
    method FetchCart(reply: CartReply)
      modifies this
      ensures reply.Resolved? ==> cart == reply.cartData && totalPrice == Total(reply.cartData)
      ensures reply.Rejected? ==> cart == old(cart) && totalPrice == old(totalPrice)
      ensures form == old(form) && placingOrder == old(placingOrder) && !loading
    {
      if reply.Resolved? {
        cart := reply.cartData;
        totalPrice := Total(reply.cartData);
      }
      loading := false;
    }

    method HandleInputChange(field: Field, value: string)
      modifies this`form
      ensures form == SetField(old(form), field, value)
    {
      form := SetField(form, field, value);
    }

    /** `handlePlaceOrder`: `createReply` and `clearReply` are the answers
        to the two requests, when they are sent. Clearing is requested only
        after the order succeeded, the local cart is emptied only after both
        requests went through, and the total is left as it was. */
    method HandlePlaceOrder(createReply: OrderReply, clearReply: CartReply) returns (sent: seq<Request>)
      modifies this
      ensures MissingFields(old(form)) != [] ==> sent == []
      ensures MissingFields(old(form)) == [] ==>
        sent == [CreateRequest(OrderPayload(old(form), old(cart), old(totalPrice)))]
                + (if createReply == Answered(true) then [ClearCartRequest] else [])
      ensures cart == if MissingFields(old(form)) == [] && createReply == Answered(true) && clearReply.Resolved?
                      then [] else old(cart)
      ensures !placingOrder
      ensures form == old(form) && totalPrice == old(totalPrice) && loading == old(loading)
    {
      placingOrder := true;
      var missing := MissingFields(form);
      if |missing| > 0 {
        placingOrder := false;
        return [];
      }
      sent := [CreateRequest(OrderPayload(form, cart, totalPrice))];
      if createReply.Answered? && createReply.success {
        sent := sent + [ClearCartRequest];
        if clearReply.Resolved? {
          cart := [];
        }
      }
      placingOrder := false;
    }
  }
}
