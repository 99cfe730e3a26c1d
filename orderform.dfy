// The checkout form (`OrderForm`): its form data, replaced field by field
// as the customer types, the summary of the cart beside it, and the rule
// that enables its submit button.

module OrderForm {
  import opened Optional
  import opened Collections
  import opened Domain
  import Cart
  import Invoice
  import WhatsApp

  /** The form as it first renders: a pickup order with every text empty, no address and no date. */
  const InitialForm := OrderData("", "", "", Pickup, None, None, "")

  /** `cartItems.length === 0`: the submit button is disabled. */
  predicate SubmitDisabled(cart: Cart.Entries, products: seq<Product>)
    requires Cart.Resolves(cart, products)
  {
    |Cart.CartItems(cart, products)| == 0
  }

  /**
   * The summary lists exactly the positive entries, in entry order; its
   * total is price times quantity summed over the entries, 0 for an empty
   * cart.
   */
  lemma FormSummary(cart: Cart.Entries, products: seq<Product>)
    requires Cart.Resolves(cart, products)
    ensures MapSeq(Cart.CartItems(cart, products), Cart.ItemEntry) == Filter(cart, Cart.IsPositive)
    ensures Cart.Total(Cart.CartItems(cart, products)) == Cart.SumOver(cart, Cart.Contribution(products))
    ensures cart == [] ==> Cart.Total(Cart.CartItems(cart, products)) == 0
  {
    Cart.CartItemsArePositiveEntries(cart, products);
    Cart.TotalIsSumOver(cart, products);
  }

  /**
   * The button is disabled exactly when no entry is positive, which for a
   * cart the storefront keeps means exactly when it is empty.
   */
  lemma SubmitRule(cart: Cart.Entries, products: seq<Product>)
    requires Cart.Resolves(cart, products)
    ensures SubmitDisabled(cart, products) <==> forall i :: 0 <= i < |cart| ==> cart[i].1 <= 0
    ensures Cart.Valid(cart) ==> (SubmitDisabled(cart, products) <==> cart == [])
  {
    Cart.CartItemsArePositiveEntries(cart, products);
    var pos := Filter(cart, Cart.IsPositive);
    if !SubmitDisabled(cart, products) {
      assert MapSeq(Cart.CartItems(cart, products), Cart.ItemEntry)[0] in pos;
    } else {
      forall i | 0 <= i < |cart| ensures cart[i].1 <= 0 {
        assert cart[i] !in pos;
      }
    }
    if Cart.Valid(cart) {
      Cart.CartItemsOfValid(cart, products);
    }
  }

  /** The address input is rendered only for a delivery, the date picker only for a pickup. */
  function VisibleInputs(d: OrderData): (r: (bool, bool))
    ensures r.0 <==> d.orderType == Delivery
    ensures r.1 <==> d.orderType == Pickup
    ensures r.0 != r.1
  {
    (d.orderType == Delivery, d.orderType == Pickup)
  }

  /**
   * An address typed for a delivery, then hidden by switching to a pickup,
   * stays in the form data: the invoice still prints it (its address line
   * only asks for a non-empty address), while the WhatsApp message leaves it
   * out (its address line also asks for a delivery).
   */
  lemma HiddenAddressStillInvoiced(d: OrderData, items: seq<LineItem>, orderNumber: string, formatDate: DateFormat)
    requires d.address.Some? && d.address.value != ""
    ensures var p := d.(orderType := Pickup);
      !VisibleInputs(p).0 && p.address == d.address
      && Invoice.Label(d.address.value, 20, 72) in Invoice.CustomerOps(p)
      && Filter(WhatsApp.Pieces(p, items, orderNumber, formatDate), WhatsApp.Tagged(WhatsApp.AddressTag)) == []
  {
    var p := d.(orderType := Pickup);
    WhatsApp.AddressLineShown(p, items, orderNumber, formatDate);
  }

  /**
   * A pickup date chosen, then hidden by switching to a delivery, stays in
   * the form data, and both the invoice and the WhatsApp message still show it.
   */
  lemma HiddenDateStillSent(d: OrderData, items: seq<LineItem>, orderNumber: string, formatDate: DateFormat)
    requires d.pickupDate.Some?
    ensures var p := d.(orderType := Delivery);
      !VisibleInputs(p).1 && p.pickupDate == d.pickupDate
      && (exists op :: op in Invoice.OrderTypeOps(p, formatDate) && op.Text? && op.y == 87)
      && Filter(WhatsApp.Pieces(p, items, orderNumber, formatDate), WhatsApp.Tagged(WhatsApp.DateTag))
         == [WhatsApp.DateLine(formatDate(d.pickupDate.value))]
  {
    var p := d.(orderType := Delivery);
    Invoice.PickupDateLine(p, formatDate);
    WhatsApp.DateLineShown(p, items, orderNumber, formatDate);
  }

  class Form {
    var formData: OrderData

    constructor()
      ensures formData == InitialForm
    {
      formData := InitialForm;
    }

    /** `handleSubmit`: the form data goes to `onSubmitOrder` as it stands. */
    method HandleSubmit() returns (submitted: OrderData)
      ensures submitted == formData
    {
      submitted := formData;
    }

    method SetName(v: string)
      modifies this
      ensures formData == old(formData).(name := v)
    {
      formData := formData.(name := v);
    }

    method SetEmail(v: string)
      modifies this
      ensures formData == old(formData).(email := v)
    {
      formData := formData.(email := v);
    }

    method SetPhone(v: string)
      modifies this
      ensures formData == old(formData).(phone := v)
    {
      formData := formData.(phone := v);
    }

    /** Switching the order type keeps an address or a date already entered. */
    method SetOrderType(t: OrderType)
      modifies this
      ensures formData == old(formData).(orderType := t)
      ensures formData.address == old(formData).address && formData.pickupDate == old(formData).pickupDate
    {
      formData := formData.(orderType := t);
    }

    method SetAddress(v: string)
      modifies this
      ensures formData == old(formData).(address := Some(v))
    {
      formData := formData.(address := Some(v));
    }

    /** The calendar's `onSelect`, which passes `undefined` when a selected day is clicked again. */
    method SetPickupDate(date: Option<Date>)
      modifies this
      ensures formData == old(formData).(pickupDate := date)
    {
      formData := formData.(pickupDate := date);
    }

    method SetNotes(v: string)
      modifies this
      ensures formData == old(formData).(notes := v)
    {
      formData := formData.(notes := v);
    }
  }
}
