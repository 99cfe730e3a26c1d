// The storefront's server (`supabase/functions/server/index.tsx`): the
// routes over the key-value store, which is a map from key to JSON value.
// Each route's clock reading, the ISO text of `new Date()`, the parsed
// request body and the outcome of the admin check are parameters.

module Server {
  import opened Optional
  import opened Collections
  import opened JsValue
  import opened JsText

  /** A route's answer: its HTTP status and its JSON body. */
  datatype Reply = Reply(status: int, body: Json)

  type Store = map<string, Json>

  const Unauthorized := Reply(401, Obj(map["error" := Str("Unauthorized")]))

  function Success(fields: map<string, Json>): Reply {
    Reply(200, Obj(map["success" := Bool(true)] + fields))
  }

  function Failure(message: string): Reply {
    Reply(500, Obj(map["error" := Str(message)]))
  }

  // ------------------------------------------------------------ keys and ids

  function CategoryKey(t: nat): string { "category:" + NatToString(t) }
  function CategoryId(t: nat): string { "cat_" + NatToString(t) }
  function ProductKey(t: nat): string { "product:" + NatToString(t) }
  function ProductId(t: nat): string { "prod_" + NatToString(t) }
  function OrderKey(t: nat): string { "order:" + NatToString(t) }

  predicate HasPrefix(s: string, p: string) {
    |p| <= |s| && s[..|p|] == p
  }

  /** Records added at different instants get different keys, and each key lies in its kind's range. */
  lemma KeysOfInstants(t: nat, u: nat)
    ensures HasPrefix(CategoryKey(t), "category:") && HasPrefix(ProductKey(t), "product:") && HasPrefix(OrderKey(t), "order:")
    ensures t != u ==> CategoryKey(t) != CategoryKey(u) && ProductKey(t) != ProductKey(u) && OrderKey(t) != OrderKey(u)
  {
    if t != u {
      PrefixedNumbersDiffer("category:", t, u);
      PrefixedNumbersDiffer("product:", t, u);
      PrefixedNumbersDiffer("order:", t, u);
    }
  }

  // ------------------------------------------------------------ listing

  /**
   * `keys` is what `kv.getByPrefix(prefix)` lists: every stored key with
   * that prefix, once. The order the store lists them in is its own.
   */
  ghost predicate Listing(kv: Store, prefix: string, keys: seq<string>) {
    NoDuplicates(keys) && forall k :: k in keys <==> k in kv && HasPrefix(k, prefix)
  }

  /** The values stored under `keys`, in that order. */
  function ValuesAt(kv: Store, keys: seq<string>): (r: seq<Json>)
    requires forall k :: k in keys ==> k in kv
    ensures |r| == |keys|
    ensures forall i :: 0 <= i < |keys| ==> r[i] == kv[keys[i]]
  {
    if keys == [] then [] else [kv[keys[0]]] + ValuesAt(kv, keys[1..])
  }

  lemma ValuesAtListing(kv: Store, prefix: string, keys: seq<string>, x: Json)
    requires Listing(kv, prefix, keys)
    ensures x in ValuesAt(kv, keys) <==> exists k :: k in kv && HasPrefix(k, prefix) && kv[k] == x
  {
    var vs := ValuesAt(kv, keys);
    if x in vs {
      var i :| 0 <= i < |vs| && vs[i] == x;
      assert keys[i] in keys;
    }
    if exists k :: k in kv && HasPrefix(k, prefix) && kv[k] == x {
      var k :| k in kv && HasPrefix(k, prefix) && kv[k] == x;
      var i :| 0 <= i < |keys| && keys[i] == k;
      assert vs[i] == x;
    }
  }

  /** The keys whose stored value is not `null`. */
  function HoldsValue(kv: Store): string -> bool {
    k => k in kv && !kv[k].Null?
  }

  /** Dropping the `null` values of a listing is listing only the keys that hold a value. */
  lemma {:induction false} FilterValuesAt(kv: Store, keys: seq<string>)
    requires forall k :: k in keys ==> k in kv
    ensures Filter(ValuesAt(kv, keys), NonNull) == ValuesAt(kv, Filter(keys, HoldsValue(kv)))
  {
    if keys != [] {
      var rest := Filter(keys[1..], HoldsValue(kv));
      FilterValuesAt(kv, keys[1..]);
      assert ValuesAt(kv, keys)[1..] == ValuesAt(kv, keys[1..]);
      if HoldsValue(kv)(keys[0]) {
        assert Filter(keys, HoldsValue(kv)) == [keys[0]] + rest;
        assert ([keys[0]] + rest)[1..] == rest;
      } else {
        assert Filter(keys, HoldsValue(kv)) == rest;
      }
    }
  }

  /**
   * `GET /categories`: the stored categories with the nulls taken out, one
   * per key that holds a value, in the store's listing order.
   */
  function CategoriesReply(kv: Store, keys: seq<string>): (r: Reply)
    requires Listing(kv, "category:", keys)
    ensures r.status == 200 && r.body.Obj? && r.body.fields.Keys == {"categories"}
    ensures var list := r.body.fields["categories"];
      list.Arr? && |list.items| <= |keys|
      && forall x :: x in list.items <==> !x.Null? && exists k :: k in kv && HasPrefix(k, "category:") && kv[k] == x
    ensures var list := r.body.fields["categories"]; var held := Filter(keys, HoldsValue(kv));
      list.Arr? && |list.items| == |held| && forall i :: 0 <= i < |held| ==> list.items[i] == kv[held[i]]
  {
    var list := Filter(ValuesAt(kv, keys), NonNull);
    FilterValuesAt(kv, keys);
    assert forall x :: x in list <==> !x.Null? && exists k :: k in kv && HasPrefix(k, "category:") && kv[k] == x by {
      forall x ensures x in list <==> !x.Null? && exists k :: k in kv && HasPrefix(k, "category:") && kv[k] == x {
        ValuesAtListing(kv, "category:", keys, x);
      }
    }
    Reply(200, Obj(map["categories" := Arr(list)]))
  }

  /** `GET /products`: every stored product value, nulls included, in listing order. */
  function ProductsReply(kv: Store, keys: seq<string>): (r: Reply)
    requires Listing(kv, "product:", keys)
    ensures r.status == 200 && r.body.Obj? && r.body.fields.Keys == {"products"}
    ensures var list := r.body.fields["products"];
      list.Arr? && |list.items| == |keys| && forall i :: 0 <= i < |keys| ==> list.items[i] == kv[keys[i]]
  {
    Reply(200, Obj(map["products" := Arr(ValuesAt(kv, keys))]))
  }

  // ------------------------------------------------------------ records

  /** A destructured field that JSON keeps: an `undefined` one is not written at all. */
  function Defined(k: string, v: Option<Json>): (m: map<string, Json>)
    ensures v.None? ==> m == map[]
    ensures v.Some? ==> m == map[k := v.value]
  {
    if v.Some? then map[k := v.value] else map[]
  }

  /** `v || ''`. */
  function OrEmpty(v: Option<Json>): (r: Json)
    ensures v.Some? && Truthy(v.value) ==> r == v.value
    ensures !(v.Some? && Truthy(v.value)) ==> r == Str("")
  {
    if v.Some? && Truthy(v.value) then v.value else Str("")
  }

  /** `{id: "cat_t", name, createdAt}`. */
  function CategoryRecord(t: nat, name: Option<Json>, createdAt: string): (r: map<string, Json>)
    ensures r.Keys == {"id", "createdAt"} + (if name.Some? then {"name"} else {})
    ensures r["id"] == Str(CategoryId(t)) && r["createdAt"] == Str(createdAt)
    ensures name.Some? ==> r["name"] == name.value
  {
    map["id" := Str(CategoryId(t)), "createdAt" := Str(createdAt)] + Defined("name", name)
  }

  /** `parseFloat(price)`, `None` standing for `NaN` (which JSON writes as `null`). */
  type ParseFloat = Option<Json> -> Option<real>

  function NumberValue(p: Option<real>): Json {
    match p
    case Some(x) => Num(x)
    case None => Null
  }

  /** The fields of a request body that the product route destructures. */
  datatype ProductFields = ProductFields(
    name: Option<Json>, description: Option<Json>, price: Option<Json>, image: Option<Json>, category: Option<Json>)

  function ProductFieldsOf(body: Json): ProductFields
    requires !body.Null?
  {
    ProductFields(Field(body, "name").value, Field(body, "description").value, Field(body, "price").value,
                  Field(body, "image").value, Field(body, "category").value)
  }

  /**
   * `{id: "prod_t", name, description: description || '', price:
   * parseFloat(price), image: image || '', category, createdAt}`.
   */
  function ProductRecord(t: nat, f: ProductFields, parseFloat: ParseFloat, createdAt: string): (r: map<string, Json>)
    ensures r.Keys == {"id", "description", "price", "image", "createdAt"}
                      + (if f.name.Some? then {"name"} else {}) + (if f.category.Some? then {"category"} else {})
    ensures r["id"] == Str(ProductId(t)) && r["createdAt"] == Str(createdAt)
    ensures r["description"] == OrEmpty(f.description) && r["image"] == OrEmpty(f.image)
    ensures r["price"] == NumberValue(parseFloat(f.price))
    ensures f.name.Some? ==> r["name"] == f.name.value
    ensures f.category.Some? ==> r["category"] == f.category.value
  {
    map["id" := Str(ProductId(t)), "description" := OrEmpty(f.description),
        "price" := NumberValue(parseFloat(f.price)), "image" := OrEmpty(f.image),
        "createdAt" := Str(createdAt)]
    + Defined("name", f.name) + Defined("category", f.category)
  }

  /** The own fields `...orderData` copies; a body that is not an object is taken to copy none. */
  function Spread(body: Json): map<string, Json> {
    if body.Obj? then body.fields else map[]
  }

  /**
   * `{id: key, ...orderData, createdAt, status: 'pending'}`: a later field
   * overrides an earlier one of the same name, so the body may replace the
   * id but never the date or the status.
   */
  function OrderRecord(key: string, body: Json, createdAt: string): (r: map<string, Json>)
    ensures r.Keys == {"id", "createdAt", "status"} + Spread(body).Keys
    ensures r["status"] == Str("pending") && r["createdAt"] == Str(createdAt)
    ensures r["id"] == if "id" in Spread(body) then Spread(body)["id"] else Str(key)
    ensures forall k :: k in Spread(body) && k != "createdAt" && k != "status" ==> r[k] == Spread(body)[k]
  {
    map["id" := Str(key)] + Spread(body) + map["createdAt" := Str(createdAt), "status" := Str("pending")]
  }

  // ------------------------------------------------------------ newest first

  /** `new Date(o.createdAt).getTime()`, which the model takes as given. */
  type TimeOf = Json -> int

  predicate NewestFirst(xs: seq<Json>, time: TimeOf) {
    forall i, j :: 0 <= i < j < |xs| ==> time(xs[i]) >= time(xs[j])
  }

  /** Places `x` before the first element that is strictly older. */
  function Insert(x: Json, s: seq<Json>, time: TimeOf): (r: seq<Json>)
    ensures multiset(r) == multiset(s) + multiset{x}
  {
    if s == [] || time(x) >= time(s[0]) then [x] + s
    else
      assert s == [s[0]] + s[1..];
      [s[0]] + Insert(x, s[1..], time)
  }

  lemma NewestFirstTail(s: seq<Json>, time: TimeOf)
    requires s != [] && NewestFirst(s, time)
    ensures NewestFirst(s[1..], time)
    ensures forall y :: y in s[1..] ==> time(s[0]) >= time(y)
  {
    forall i, j | 0 <= i < j < |s[1..]| ensures time(s[1..][i]) >= time(s[1..][j]) {
      assert s[1..][i] == s[i + 1] && s[1..][j] == s[j + 1];
    }
  }

  lemma NewestFirstCons(y: Json, s: seq<Json>, time: TimeOf)
    requires NewestFirst(s, time)
    requires forall z :: z in s ==> time(y) >= time(z)
    ensures NewestFirst([y] + s, time)
  {
    forall i, j | 0 <= i < j < |s| + 1 ensures time(([y] + s)[i]) >= time(([y] + s)[j]) {
      assert ([y] + s)[j] == s[j - 1] && s[j - 1] in s;
      if i > 0 {
        assert ([y] + s)[i] == s[i - 1];
      }
    }
  }

  /** Inserting into a newest-first list keeps it newest first. */
  lemma {:induction false} InsertKeepsOrder(x: Json, s: seq<Json>, time: TimeOf)
    requires NewestFirst(s, time)
    ensures NewestFirst(Insert(x, s, time), time)
  {
    if s == [] || time(x) >= time(s[0]) {
      if s != [] {
        NewestFirstTail(s, time);
      }
      NewestFirstCons(x, s, time);
    } else {
      NewestFirstTail(s, time);
      InsertKeepsOrder(x, s[1..], time);
      var rest := Insert(x, s[1..], time);
      forall z | z in rest ensures time(s[0]) >= time(z) {
        assert z in multiset(rest);
      }
      NewestFirstCons(s[0], rest, time);
    }
  }

  /**
   * `orders.sort((a, b) => time(b) - time(a))`: newest first, holding the
   * same orders.
   */
  function SortNewestFirst(xs: seq<Json>, time: TimeOf): (r: seq<Json>)
    ensures NewestFirst(r, time)
    ensures multiset(r) == multiset(xs)
  {
    if xs == [] then []
    else
      assert xs == [xs[0]] + xs[1..];
      InsertKeepsOrder(xs[0], SortNewestFirst(xs[1..], time), time);
      Insert(xs[0], SortNewestFirst(xs[1..], time), time)
  }

  /** `GET /orders` once authorised: every stored order, newest first. */
  function OrdersReply(kv: Store, keys: seq<string>, time: TimeOf): (r: Reply)
    requires Listing(kv, "order:", keys)
    ensures r.status == 200 && r.body.Obj? && r.body.fields.Keys == {"orders"}
    ensures var list := r.body.fields["orders"];
      list.Arr? && NewestFirst(list.items, time) && multiset(list.items) == multiset(ValuesAt(kv, keys))
  {
    Reply(200, Obj(map["orders" := Arr(SortNewestFirst(ValuesAt(kv, keys), time))]))
  }

  // ------------------------------------------------------------ deleting products

  /** `kv.del(c.req.param('id'))`: the path parameter is the key, verbatim. */
  function Deleted(kv: Store, param: string): (r: Store)
    ensures param !in r
    ensures forall k :: k in kv && k != param ==> k in r && r[k] == kv[k]
    ensures r.Keys == kv.Keys - {param}
  {
    kv - {param}
  }

  /**
   * As written, deleting a product the product route added does nothing:
   * the admin panel deletes by the record's `id`, `prod_t`, and the record
   * is kept under `product:t`.
   */
  lemma DeleteMissesPostedProduct(kv: Store, t: nat, f: ProductFields, parseFloat: ParseFloat, createdAt: string)
    ensures var record := ProductRecord(t, f, parseFloat, createdAt);
      var stored := kv[ProductKey(t) := Obj(record)];
      var after := Deleted(stored, record["id"].s);
      ProductKey(t) in after && after[ProductKey(t)] == Obj(record)
  {
    assert ProductKey(t)[4] == 'u' && ProductId(t)[4] == '_';
  }

  /** The key a product's id is stored under: `prod_t` lives at `product:t`; any other id is its own key. */
  function ProductKeyOfId(id: string): string {
    if HasPrefix(id, "prod_") then "product:" + id[5..] else id
  }

  /** The delete that was meant: the record a product id names is the one removed. */
  function DeletedProduct(kv: Store, id: string): (r: Store)
    ensures ProductKeyOfId(id) !in r
    ensures forall k :: k in kv && k != ProductKeyOfId(id) ==> k in r && r[k] == kv[k]
  {
    Deleted(kv, ProductKeyOfId(id))
  }

  /** With the corrected delete, removing a product by the id it was given removes its record and nothing else. */
  lemma DeleteRemovesPostedProduct(kv: Store, t: nat, f: ProductFields, parseFloat: ParseFloat, createdAt: string)
    ensures var record := ProductRecord(t, f, parseFloat, createdAt);
      var after := DeletedProduct(kv[ProductKey(t) := Obj(record)], record["id"].s);
      ProductKey(t) !in after && forall k :: k in kv && k != ProductKey(t) ==> k in after && after[k] == kv[k]
  {
    assert ProductId(t)[..5] == "prod_" && ProductId(t)[5..] == NatToString(t);
    assert ProductKeyOfId(ProductId(t)) == ProductKey(t);
  }

  // ------------------------------------------------------------ the routes

  class Kv {
    var kv: Store

    constructor(initial: Store)
      ensures kv == initial
    {
      kv := initial;
    }

    /** `GET /categories`, with `keys` what the store lists under `category:`. */
    method GetCategories(keys: seq<string>) returns (reply: Reply)
      requires Listing(kv, "category:", keys)
      ensures reply == CategoriesReply(kv, keys)
    {
      var values := ValuesAt(kv, keys);
      reply := Reply(200, Obj(map["categories" := Arr(Filter(values, NonNull))]));
    }

    /** `GET /products`, with `keys` what the store lists under `product:`. */
    method GetProducts(keys: seq<string>) returns (reply: Reply)
      requires Listing(kv, "product:", keys)
      ensures reply == ProductsReply(kv, keys)
    {
      reply := Reply(200, Obj(map["products" := Arr(ValuesAt(kv, keys))]));
    }

    /**
     * `POST /categories`, with `authorized` the outcome of the admin
     * check, `body` the parsed body (`None` when it is not JSON) and `t`
     * the clock reading.
     */
    method PostCategory(authorized: bool, body: Option<Json>, t: nat, createdAt: string) returns (reply: Reply)
      modifies this
      ensures !authorized ==> reply == Unauthorized && kv == old(kv)
      ensures authorized && (body.None? || body.value.Null?) ==> reply == Failure("Failed to add category") && kv == old(kv)
      ensures authorized && body.Some? && !body.value.Null? ==>
                var record := CategoryRecord(t, Field(body.value, "name").value, createdAt);
                kv == old(kv)[CategoryKey(t) := Obj(record)]
                && reply == Success(map["category" := Obj(record)])
    {
      if !authorized {
        return Unauthorized;
      }
      if body.None? {
        return Failure("Failed to add category");
      }
      match Field(body.value, "name")
      case TypeError =>
        return Failure("Failed to add category");
      case Read(name) =>
        var category := CategoryRecord(t, name, createdAt);
        kv := kv[CategoryKey(t) := Obj(category)];
        reply := Success(map["category" := Obj(category)]);
    }

    /** `POST /products`, with the same parameters and `parseFloat` as given. */
    method PostProduct(authorized: bool, body: Option<Json>, t: nat, createdAt: string, parseFloat: ParseFloat)
      returns (reply: Reply)
      modifies this
      ensures !authorized ==> reply == Unauthorized && kv == old(kv)
      ensures authorized && (body.None? || body.value.Null?) ==> reply == Failure("Failed to add product") && kv == old(kv)
      ensures authorized && body.Some? && !body.value.Null? ==>
                var record := ProductRecord(t, ProductFieldsOf(body.value), parseFloat, createdAt);
                kv == old(kv)[ProductKey(t) := Obj(record)]
                && reply == Success(map["product" := Obj(record)])
    {
      if !authorized {
        return Unauthorized;
      }
      if body.None? || body.value.Null? {
        return Failure("Failed to add product");
      }
      var product := ProductRecord(t, ProductFieldsOf(body.value), parseFloat, createdAt);
      kv := kv[ProductKey(t) := Obj(product)];
      reply := Success(map["product" := Obj(product)]);
    }

    /** `DELETE /products/:id`. */
    method DeleteProduct(authorized: bool, param: string) returns (reply: Reply)
      modifies this
      ensures !authorized ==> reply == Unauthorized && kv == old(kv)
      ensures authorized ==> kv == Deleted(old(kv), param) && reply == Success(map[])
    {
      if !authorized {
        return Unauthorized;
      }
      kv := kv - {param};
      reply := Success(map[]);
    }

    /** `POST /orders`: open to everyone, the order stored under `order:t`. */
    method PostOrder(body: Option<Json>, t: nat, createdAt: string) returns (reply: Reply)
      modifies this
      ensures body.None? ==> reply == Failure("Failed to save order") && kv == old(kv)
      ensures body.Some? ==>
                var order := OrderRecord(OrderKey(t), body.value, createdAt);
                kv == old(kv)[OrderKey(t) := Obj(order)] && reply == Success(map["order" := Obj(order)])
    {
      if body.None? {
        return Failure("Failed to save order");
      }
      var orderId := OrderKey(t);
      var order := OrderRecord(orderId, body.value, createdAt);
      kv := kv[orderId := Obj(order)];
      reply := Success(map["order" := Obj(order)]);
    }

    /** `GET /orders`, with `keys` what the store lists under `order:`. */
    method GetOrders(authorized: bool, keys: seq<string>, time: TimeOf) returns (reply: Reply)
      requires Listing(kv, "order:", keys)
      ensures !authorized ==> reply == Unauthorized
      ensures authorized ==> reply == OrdersReply(kv, keys, time)
    {
      if !authorized {
        return Unauthorized;
      }
      var orders := ValuesAt(kv, keys);
      reply := Reply(200, Obj(map["orders" := Arr(SortNewestFirst(orders, time))]));
    }
  }
}
