// Values as the storefront sees them after `response.json()` or
// `c.req.json()`, with JavaScript's truthiness and property reads.

module JsValue {
  import opened Optional

  /**
   * A parsed JSON value. Objects are maps from field name to value: a parsed
   * object never holds the same name twice, and nothing in the storefront
   * depends on the order of an object's fields.
   */
  datatype Json =
    | Null
    | Bool(b: bool)
    | Num(n: real)
    | Str(s: string)
    | Arr(items: seq<Json>)
    | Obj(fields: map<string, Json>)

  /** JavaScript truthiness: `null`, `false`, `0` and `""` are falsy; arrays and objects are truthy. */
  predicate Truthy(v: Json) {
    match v
    case Null => false
    case Bool(b) => b
    case Num(n) => n != 0.0
    case Str(s) => s != ""
    case Arr(_) => true
    case Obj(_) => true
  }

  /** `v !== null && v !== undefined` for a value that is there. */
  predicate NonNull(v: Json) { !v.Null? }

  /** The outcome of a property read `v.k`: a TypeError on `null`, else the value or `undefined` (`None`). */
  datatype Read = TypeError | Read(value: Option<Json>)

  /**
   * `v.k` for one of the data fields the storefront reads (`categories`,
   * `name`, `label`, `id`, `products`): only objects carry such a field.
   */
  function Field(v: Json, k: string): (r: Read)
    ensures r.TypeError? <==> v.Null?
    ensures r.Read? && r.value.Some? <==> v.Obj? && k in v.fields
    ensures r.Read? && r.value.Some? ==> r.value.value == v.fields[k]
  {
    match v
    case Null => TypeError
    case Obj(f) => Read(if k in f then Some(f[k]) else None)
    case _ => Read(None)
  }

  /** `typeof v.k === "string" ? v.k : undefined` for a value that is not `null`. */
  function StringField(v: Json, k: string): (r: Option<string>)
    ensures r.Some? <==> v.Obj? && k in v.fields && v.fields[k].Str?
    ensures r.Some? ==> r.value == v.fields[k].s
  {
    if v.Obj? && k in v.fields && v.fields[k].Str? then Some(v.fields[k].s) else None
  }

  /** `a ?? b` for a possibly undefined value: `b` when `a` is `null` or `undefined`. */
  function Coalesce(a: Option<Json>, b: Json): (r: Json)
    ensures a.Some? && !a.value.Null? ==> r == a.value
    ensures a.None? || a.value.Null? ==> r == b
  {
    if a.Some? && !a.value.Null? then a.value else b
  }
}

module Domain {
  import opened Optional

  /** A catalogue product. Prices are integer cents. */
  datatype Product = Product(
    id: string,
    name: string,
    description: string,
    price: int,
    image: string,
    category: string)

  datatype OrderType = Delivery | Pickup

  /** A date chosen in the calendar, as its time value (milliseconds). */
  type Date = int

  /** `new Date(d).toLocaleDateString("fr-FR")`, which the model takes as given. */
  type DateFormat = Date -> string

  /** The checkout form's data (`OrderData`). */
  datatype OrderData = OrderData(
    name: string,
    email: string,
    phone: string,
    orderType: OrderType,
    address: Option<string>,
    pickupDate: Option<Date>,
    notes: string)

  /** One derived cart line: a catalogue product and its quantity. */
  datatype LineItem = LineItem(product: Product, quantity: int)

  /** `item.product.price * item.quantity`. */
  function LineTotal(item: LineItem): int {
    item.product.price * item.quantity
  }

  /** `products.find(p => p.id === id)`: the first product with that id. */
  function FindProduct(catalog: seq<Product>, id: string): (r: Option<Product>)
    ensures r.Some? ==> r.value in catalog && r.value.id == id
    ensures r.None? <==> forall i :: 0 <= i < |catalog| ==> catalog[i].id != id
    ensures r.Some? ==> exists i :: 0 <= i < |catalog| && catalog[i] == r.value
                          && forall j :: 0 <= j < i ==> catalog[j].id != id
  {
    if catalog == [] then None
    else if catalog[0].id == id then Some(catalog[0])
    else
      var r := FindProduct(catalog[1..], id);
      assert r.Some? ==> exists i :: 0 <= i < |catalog| && catalog[i] == r.value
                          && forall j :: 0 <= j < i ==> catalog[j].id != id by {
        if r.Some? {
          var i :| 0 <= i < |catalog[1..]| && catalog[1..][i] == r.value
                     && forall j :: 0 <= j < i ==> catalog[1..][j].id != id;
          assert catalog[i + 1] == r.value;
          assert forall j :: 0 < j < i + 1 ==> catalog[j] == catalog[1..][j - 1];
        }
      }
      r
  }
}
