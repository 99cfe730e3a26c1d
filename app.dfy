// The storefront's own state (`App`): the cart and its three updaters, the
// product and category lists it loads, the category merge the admin panel
// triggers, and the order submission that persists, writes the invoice,
// sends the notification and empties the cart.

module Storefront {
  import opened Optional
  import opened Collections
  import opened Domain
  import opened JsValue
  import opened JsText
  import opened UriEncoding
  import Cart
  import Invoice
  import WhatsApp

  // ------------------------------------------------------------ the order payload

  /** One line of the saved order: a snapshot of the product at ordering time. */
  datatype OrderItem = OrderItem(productId: string, productName: string, quantity: int, price: int)

  /** The body posted to `/orders`. */
  datatype OrderPayload = OrderPayload(orderNumber: string, customer: OrderData, items: seq<OrderItem>, total: int)

  /** `CMD${Date.now()}`, with the clock reading passed in. */
  function OrderNumber(now: nat): string {
    "CMD" + NatToString(now)
  }

  function Snapshot(item: LineItem): OrderItem {
    OrderItem(item.product.id, item.product.name, item.quantity, item.product.price)
  }

  function OrderItemEntry(it: OrderItem): (string, int) { (it.productId, it.quantity) }

  function BuildOrderPayload(orderNumber: string, d: OrderData, items: seq<LineItem>): OrderPayload {
    OrderPayload(orderNumber, d, MapSeq(items, Snapshot), Cart.Total(items))
  }

  /** The sum of price times quantity over the saved lines themselves. */
  function ItemsTotal(items: seq<OrderItem>): int {
    if items == [] then 0 else items[0].price * items[0].quantity + ItemsTotal(items[1..])
  }

  /** Two submissions at different instants get different order numbers. */
  lemma OrderNumbersDiffer(a: nat, b: nat)
    requires a != b
    ensures OrderNumber(a) != OrderNumber(b)
  {
    PrefixedNumbersDiffer("CMD", a, b);
  }

  lemma {:induction false} ItemsTotalOfSnapshots(items: seq<LineItem>)
    ensures ItemsTotal(MapSeq(items, Snapshot)) == Cart.Total(items)
  {
    if items != [] {
      ItemsTotalOfSnapshots(items[1..]);
      assert MapSeq(items, Snapshot)[1..] == MapSeq(items[1..], Snapshot);
    }
  }

  /**
   * The saved lines are the cart's positive entries, one for one and in
   * entry order, each with the catalogue's name and price for its id; the
   * saved total is the sum of price times quantity over those lines.
   */
  lemma PayloadFromCart(e: Cart.Entries, catalog: seq<Product>, orderNumber: string, d: OrderData)
    requires Cart.Resolves(e, catalog)
    ensures var p := BuildOrderPayload(orderNumber, d, Cart.CartItems(e, catalog));
      && MapSeq(p.items, OrderItemEntry) == Filter(e, Cart.IsPositive)
      && (forall i :: 0 <= i < |p.items| ==>
            FindProduct(catalog, p.items[i].productId).Some?
            && FindProduct(catalog, p.items[i].productId).value.name == p.items[i].productName
            && FindProduct(catalog, p.items[i].productId).value.price == p.items[i].price)
      && p.total == ItemsTotal(p.items)
      && p.orderNumber == orderNumber && p.customer == d
  {
    var items := Cart.CartItems(e, catalog);
    var p := BuildOrderPayload(orderNumber, d, items);
    Cart.CartItemsArePositiveEntries(e, catalog);
    assert MapSeq(p.items, OrderItemEntry) == MapSeq(items, Cart.ItemEntry);
    ItemsTotalOfSnapshots(items);
  }

  // ------------------------------------------------------------ categories

  /**
   * The name `loadCategories` takes from one raw entry: a non-empty string
   * as it is, an object's string `name`, else its string `label`; anything
   * else (falsy values, numbers, arrays, objects without either) gives none.
   */
  function CategoryName(v: Json): (r: Option<string>)
    ensures v.Str? ==> r == (if v.s == "" then None else Some(v.s))
    ensures v.Obj? && "name" in v.fields && v.fields["name"].Str? ==> r == Some(v.fields["name"].s)
    ensures v.Obj? && !("name" in v.fields && v.fields["name"].Str?) ==>
              r == (if "label" in v.fields && v.fields["label"].Str? then Some(v.fields["label"].s) else None)
    ensures !v.Str? && !v.Obj? ==> r.None?
  {
    if !Truthy(v) then None
    else if v.Str? then Some(v.s)
    else if StringField(v, "name").Some? then StringField(v, "name")
    else StringField(v, "label")
  }

  /** `data.categories ?? data ?? []` for a body that is not `null`. */
  function RawCategories(data: Json): Json
    requires !data.Null?
  {
    match Field(data, "categories")
    case Read(v) => Coalesce(v, data)
  }

  /** The names of an array of raw entries, in order; a value that is not an array gives none. */
  function CategoryNames(raw: Json): seq<string> {
    if raw.Arr? then Present(MapSeq(raw.items, CategoryName)) else []
  }

  /**
   * The loaded list is duplicate-free, holds exactly the names some raw
   * entry gives, and keeps them in the order of their first occurrence.
   */
  lemma LoadedCategoryList(raw: Json)
    ensures var r := Distinct(CategoryNames(raw));
      && NoDuplicates(r)
      && (forall x :: x in r <==> raw.Arr? && Some(x) in MapSeq(raw.items, CategoryName))
      && (forall i, j :: 0 <= i < j < |r| ==>
            FirstIndex(CategoryNames(raw), r[i]) < FirstIndex(CategoryNames(raw), r[j]))
  {
    var names := CategoryNames(raw);
    forall i, j | 0 <= i < j < |Distinct(names)|
      ensures FirstIndex(names, Distinct(names)[i]) < FirstIndex(names, Distinct(names)[j])
    {
      DistinctFirstOccurrenceOrder(names, i, j);
    }
  }

  // ------------------------------------------------------------ products

  /**
   * `getDefaultProducts()`: the catalogue shown when none can be loaded.
   * Prices are in cents; each image is its Unsplash photo id.
   */
  function DefaultProducts(): (r: seq<Product>)
    ensures |r| == 6
  {
    seq(6, i requires 0 <= i < 6 => DefaultProduct(i + 1))
  }

  /** The default products' ids, `product:1` to `product:6`. */
  function DefaultId(k: nat): string {
    "product:" + NatToString(k)
  }

  /** The `k`-th default product. */
  function DefaultProduct(k: nat): (p: Product)
    requires 1 <= k <= 6
  {
    match k
    case 1 =>
      Product(DefaultId(1), "Éclair au Chocolat",
        "Pâte à choux garnie de crème pâtissière au chocolat",
        450,
        "photo-1643733029149-f5b72338c7bf",
        "Éclairs")
    case 2 =>
      Product(DefaultId(2), "Tarte aux Fruits",
        "Pâte sablée avec crème pâtissière et fruits de saison",
        2800,
        "photo-1682313052653-afda6f9eb5f6",
        "Tartes")
    case 3 =>
      Product(DefaultId(3), "Macarons Assortis",
        "Boîte de 12 macarons aux saveurs variées",
        2400,
        "photo-1702745573186-abd6f7b6443c",
        "Macarons")
    case 4 =>
      Product(DefaultId(4), "Croissant au Beurre",
        "Croissant pur beurre feuilleté à la perfection",
        180,
        "photo-1733754348873-feeb45df3bab",
        "Viennoiseries")
    case 5 =>
      Product(DefaultId(5), "Gâteau au Chocolat",
        "Fondant au chocolat noir 70% avec ganache",
        3500,
        "photo-1644158776192-2d24ce35da1d",
        "Gâteaux")
    case _ =>
      Product(DefaultId(6), "Pain au Chocolat",
        "Viennoiserie feuilletée avec deux barres de chocolat",
        200,
        "photo-1733754348873-feeb45df3bab",
        "Viennoiseries")
  }

  lemma DefaultIdsDiffer(k: nat, l: nat)
    requires k != l
    ensures DefaultId(k) != DefaultId(l)
  {
    PrefixedNumbersDiffer("product:", k, l);
  }

  lemma DefaultIdOf(i: nat)
    requires i < 6
    ensures DefaultProducts()[i].id == DefaultId(i + 1)
  {
  }

  /** The six default products have six different ids. */
  lemma DefaultIdsDistinct(i: nat, j: nat)
    requires i < j < 6
    ensures DefaultProducts()[i].id != DefaultProducts()[j].id
  {
    DefaultIdOf(i);
    DefaultIdOf(j);
    DefaultIdsDiffer(i + 1, j + 1);
  }

  // ------------------------------------------------------------ the storefront

  /** How `handleSubmitOrder` ends. */
  datatype Submission =
    | NotSent                    // a cart line had no product: the payload could not be built
    | SaveFailed(payload: OrderPayload)
    | Sent(payload: OrderPayload, invoice: seq<Invoice.Op>, fileName: string, url: string)

  /**
   * What `handleSubmitOrder` comes to for a cart, a catalogue and the
   * order data: no payload when a line has no product, a failed save, or a
   * saved order with its invoice and its notification link.
   */
  function Submit(cart: Cart.Entries, catalog: seq<Product>, d: OrderData, now: nat, persisted: bool,
                  today: string, formatDate: DateFormat, split: Invoice.Splitter): Submission
  {
    if !Cart.Resolves(cart, catalog) then NotSent
    else
      var items := Cart.CartItems(cart, catalog);
      var orderNumber := OrderNumber(now);
      var payload := BuildOrderPayload(orderNumber, d, items);
      if !persisted then SaveFailed(payload)
      else Sent(payload, Invoice.InvoiceOps(d, items, orderNumber, today, formatDate, split),
                Invoice.FileName(orderNumber, d.name),
                WhatsApp.WhatsAppUrl(WhatsApp.Message(d, items, orderNumber, formatDate)))
  }

  /**
   * Nothing goes out unless every cart line resolves and the save
   * succeeded; a saved order is the cart's payload, and its link, once
   * decoded, is exactly the notification text for the same lines.
   */
  lemma SubmitOutcomes(cart: Cart.Entries, catalog: seq<Product>, d: OrderData, now: nat, persisted: bool,
                       today: string, formatDate: DateFormat, split: Invoice.Splitter)
    ensures var r := Submit(cart, catalog, d, now, persisted, today, formatDate, split);
      && (r.NotSent? <==> !Cart.Resolves(cart, catalog))
      && (r.Sent? <==> Cart.Resolves(cart, catalog) && persisted)
      && (!r.NotSent? ==>
            Cart.Resolves(cart, catalog)
            && r.payload == BuildOrderPayload(OrderNumber(now), d, Cart.CartItems(cart, catalog)))
      && (r.Sent? ==>
            Cart.Resolves(cart, catalog)
            && |WhatsApp.UrlPrefix| <= |r.url| && r.url[..|WhatsApp.UrlPrefix|] == WhatsApp.UrlPrefix
            && DecodeUriComponent(r.url[|WhatsApp.UrlPrefix|..])
               == Some(WhatsApp.Message(d, Cart.CartItems(cart, catalog), OrderNumber(now), formatDate)))
  {
    if Cart.Resolves(cart, catalog) && persisted {
      WhatsApp.LinkCarriesMessage(WhatsApp.Message(d, Cart.CartItems(cart, catalog), OrderNumber(now), formatDate));
    }
  }

  class App {
    var cart: Cart.Entries
    var products: seq<Product>
    var categories: seq<string>

    /** Every stored quantity is at least 1, and the category list has no duplicates. */
    predicate Valid()
      reads this
    {
      Cart.Valid(cart) && NoDuplicates(categories)
    }

    constructor()
      ensures Valid()
      ensures cart == [] && products == [] && categories == []
    {
      cart := [];
      products := [];
      categories := [];
    }

    /** `cartCount`: the sum of the quantities; zero exactly for an empty cart. */
    function CartCount(): (n: int)
      reads this
      requires Valid()
      ensures n >= |cart|
      ensures n == 0 <==> cart == []
    {
      Cart.CountOfValid(cart);
      Cart.Count(cart)
    }

    /** `addToCart(id)`: one more of `id`, every other entry as it was. */
    method AddToCart(id: string)
      requires Valid()
      modifies this
      ensures Valid()
      ensures cart == Cart.AddedTo(old(cart), id)
      ensures products == old(products) && categories == old(categories)
    {
      Cart.AddedToValid(cart, id);
      cart := Cart.Put(cart, id, Cart.QuantityOf(cart, id) + 1);
    }

    /** `removeFromCart(id)`: one fewer of `id`, the entry deleted when one was left. */
    method RemoveFromCart(id: string)
      requires Valid()
      modifies this
      ensures Valid()
      ensures cart == Cart.RemovedFrom(old(cart), id)
      ensures products == old(products) && categories == old(categories)
    {
      Cart.RemovedFromValid(cart, id);
      var newCart := cart;
      if Cart.QuantityOf(newCart, id) > 1 {
        newCart := Cart.Put(newCart, id, Cart.QuantityOf(newCart, id) - 1);
      } else {
        newCart := Cart.Delete(newCart, id);
      }
      cart := newCart;
    }

    /** `clearItemFromCart(id)`: the entry for `id` goes, whatever its quantity. */
    method ClearItemFromCart(id: string)
      requires Valid()
      modifies this
      ensures Valid()
      ensures cart == Cart.ClearedOf(old(cart), id)
      ensures products == old(products) && categories == old(categories)
    {
      Cart.ClearedOfValid(cart, id);
      var newCart := cart;
      newCart := Cart.Delete(newCart, id);
      cart := newCart;
    }

    /**
     * `handleSubmitOrder(orderData)`, with `now` the clock reading,
     * `persisted` whether the POST to `/orders` answered ok, and `today`,
     * `formatDate` and `split` what the invoice needs. The outcome is
     * `Submit`'s; the cart is emptied exactly when the order went out.
     */
    method HandleSubmitOrder(d: OrderData, now: nat, persisted: bool, today: string,
                             formatDate: DateFormat, split: Invoice.Splitter)
      returns (outcome: Submission)
      requires Valid()
      modifies this
      ensures Valid()
      ensures products == old(products) && categories == old(categories)
      ensures outcome == Submit(old(cart), products, d, now, persisted, today, formatDate, split)
      ensures cart == if outcome.Sent? then [] else old(cart)
    {
      if !Cart.Resolves(cart, products) {
        return NotSent;
      }
      var items := Cart.CartItems(cart, products);
      var orderNumber := OrderNumber(now);
      var payload := BuildOrderPayload(orderNumber, d, items);
      if !persisted {
        return SaveFailed(payload);
      }
      outcome := Dispatch(payload, d, items, today, formatDate, split);
      cart := [];
    }

    /** Once the order is saved: the invoice, then the notification. */
    static method Dispatch(payload: OrderPayload, d: OrderData, items: seq<LineItem>, today: string,
                           formatDate: DateFormat, split: Invoice.Splitter)
      returns (outcome: Submission)
      ensures outcome == Sent(payload, Invoice.InvoiceOps(d, items, payload.orderNumber, today, formatDate, split),
                              Invoice.FileName(payload.orderNumber, d.name),
                              WhatsApp.WhatsAppUrl(WhatsApp.Message(d, items, payload.orderNumber, formatDate)))
    {
      var doc, fileName, total := Invoice.GenerateInvoicePdf(d, items, payload.orderNumber, today, formatDate, split);
      var message, url := WhatsApp.SendWhatsAppNotification(d, items, payload.orderNumber, formatDate);
      outcome := Sent(payload, doc, fileName, url);
    }

    /**
     * `loadCategories()`, with `response` the parsed body (`None` when the
     * request or the parse failed). A `null` body throws on `data.categories`;
     * like a failure it leaves the list as it was.
     */
    method LoadCategories(response: Option<Json>)
      requires Valid()
      modifies this
      ensures Valid()
      ensures cart == old(cart) && products == old(products)
      ensures categories == match response
        case Some(data) => if data.Null? then old(categories) else Distinct(CategoryNames(RawCategories(data)))
        case None => old(categories)
    {
      if response.Some? && !response.value.Null? {
        var raw := RawCategories(response.value);
        var names := CategoryNames(raw);
        categories := Distinct(names);
      }
    }

    /** The admin panel's `onCategoryAdded(name)`: the name joins the list unless it is already there. */
    method OnCategoryAdded(name: string)
      requires Valid()
      modifies this
      ensures Valid()
      ensures cart == old(cart) && products == old(products)
      ensures categories == if name in old(categories) then old(categories) else old(categories) + [name]
    {
      DistinctAddOne(categories, name);
      categories := Distinct(categories + [name]);
    }

    /**
     * `loadProducts()`, with `fetched` the `products` array of the reply as
     * products and nulls; `None` stands for a failed request, a `null` body
     * or a `products` field that is not an array. A non-empty array gives
     * its non-null entries in order (possibly none); anything else gives the
     * default catalogue.
     */
    method LoadProducts(fetched: Option<seq<Option<Product>>>)
      requires Valid()
      modifies this
      ensures Valid()
      ensures cart == old(cart) && categories == old(categories)
      ensures products == if fetched.Some? && |fetched.value| > 0 then Present(fetched.value) else DefaultProducts()
    {
      if fetched.Some? && |fetched.value| > 0 {
        products := Present(fetched.value);
      } else {
        products := DefaultProducts();
      }
    }
  }
}
