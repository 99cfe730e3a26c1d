// The shopping cart: the object `{ [productId]: quantity }` held in the
// storefront's state, the three updaters that replace it, and the values
// derived from it (the item count in the header, the resolved cart lines
// and their total).

module Cart {
  import opened Optional
  import opened Collections
  import opened Domain

  /**
   * The cart object as `Object.entries(cart)` lists it: pairs of product id
   * and quantity, in insertion order. Product ids are never integer-like
   * strings, so JavaScript's own key ordering is plain insertion order.
   */
  type Entries = seq<(string, int)>

  function EntryKey(x: (string, int)): string { x.0 }

  function EntryQuantity(x: (string, int)): int { x.1 }

  /** An object never holds two properties with the same name. */
  predicate WellFormed(e: Entries) {
    NoDuplicates(MapSeq(e, EntryKey))
  }

  /** What the three updaters keep: distinct ids, and every stored quantity at least 1. */
  predicate Valid(e: Entries) {
    WellFormed(e) && forall i :: 0 <= i < |e| ==> e[i].1 >= 1
  }

  /** `cart[id]`, `None` standing for `undefined`. */
  function Lookup(e: Entries, id: string): (r: Option<int>)
    ensures r.Some? <==> exists i :: 0 <= i < |e| && e[i].0 == id
    ensures r.Some? ==> exists i :: 0 <= i < |e| && e[i] == (id, r.value)
  {
    var i := IndexOfKey(e, EntryKey, id);
    if i < |e| then Some(e[i].1) else None
  }

  /** `cart[id] || 0`. */
  function QuantityOf(e: Entries, id: string): int {
    match Lookup(e, id)
    case Some(q) => q
    case None => 0
  }

  /** `{ ...cart, [id]: q }`: an id already present keeps its place, a new one goes last. */
  function Put(e: Entries, id: string, q: int): Entries {
    MapInsert(e, EntryKey, (id, q))
  }

  /** The entries that survive `delete cart[id]`. */
  function KeyIsNot(id: string): ((string, int)) -> bool {
    (x: (string, int)) => x.0 != id
  }

  /** `delete cart[id]`. */
  function Delete(e: Entries, id: string): Entries {
    Filter(e, KeyIsNot(id))
  }

  /** `addToCart`'s updater: one more of `id`. */
  function AddedTo(e: Entries, id: string): Entries {
    Put(e, id, QuantityOf(e, id) + 1)
  }

  /** `removeFromCart`'s updater: one fewer of `id`, and the entry goes once it would reach 0. */
  function RemovedFrom(e: Entries, id: string): Entries {
    if Lookup(e, id).Some? && Lookup(e, id).value > 1 then Put(e, id, Lookup(e, id).value - 1)
    else Delete(e, id)
  }

  /** `clearItemFromCart`'s updater: the entry for `id` goes whatever its quantity. */
  function ClearedOf(e: Entries, id: string): Entries {
    Delete(e, id)
  }

  /** `f` summed over the entries, in order. */
  function SumOver(e: Entries, f: ((string, int)) -> int): int {
    if e == [] then 0 else f(e[0]) + SumOver(e[1..], f)
  }

  /** `cartCount`: the quantities summed (`Object.values(cart).reduce(...)`). */
  function Count(e: Entries): int {
    SumOver(e, EntryQuantity)
  }

  // ---------------------------------------------------------------- lookups

  lemma LookupAt(e: Entries, i: nat)
    requires WellFormed(e) && i < |e|
    ensures Lookup(e, e[i].0) == Some(e[i].1)
  {
    var ks := MapSeq(e, EntryKey);
    forall j | 0 <= j < i ensures EntryKey(e[j]) != e[i].0 {
      assert ks[j] != ks[i];
    }
    IndexOfKeyUnique(e, EntryKey, e[i].0, i);
  }

  /** Reading back after `{ ...cart, [id]: q }`. */
  lemma {:induction false} LookupPut(e: Entries, id: string, q: int, j: string)
    ensures Lookup(Put(e, id, q), j) == if j == id then Some(q) else Lookup(e, j)
  {
    var i := IndexOfKey(e, EntryKey, id);
    var p := Put(e, id, q);
    var n := IndexOfKey(e, EntryKey, j);
    if i < |e| {
      assert p == e[i := (id, q)];
      if j == id {
        IndexOfKeyUnique(p, EntryKey, j, i);
      } else {
        forall k | 0 <= k < n ensures EntryKey(p[k]) != j {
          assert k != i ==> p[k] == e[k];
        }
        IndexOfKeyUnique(p, EntryKey, j, n);
      }
    } else {
      assert p == e + [(id, q)];
      if j == id {
        IndexOfKeyUnique(p, EntryKey, j, |e|);
      } else {
        assert forall k :: 0 <= k < |e| ==> p[k] == e[k];
        if n < |e| {
          IndexOfKeyUnique(p, EntryKey, j, n);
        } else {
          IndexOfKeyUnique(p, EntryKey, j, |p|);
        }
      }
    }
  }

  /** Reading back after `delete cart[id]`. */
  lemma {:induction false} LookupDelete(e: Entries, id: string, j: string)
    ensures Lookup(Delete(e, id), j) == if j == id then None else Lookup(e, j)
  {
    var d := Delete(e, id);
    if j == id {
      assert forall i :: 0 <= i < |d| ==> d[i].0 != id by {
        forall i | 0 <= i < |d| ensures d[i].0 != id {
          assert d[i] in d;
        }
      }
    } else if e != [] {
      var p := KeyIsNot(id);
      LookupDelete(e[1..], id, j);
      var rest := Delete(e[1..], id);
      assert d == (if p(e[0]) then [e[0]] else []) + rest;
      assert Lookup(e, j) == (if e[0].0 == j then Some(e[0].1) else Lookup(e[1..], j)) by {
        LookupCons(e, j);
      }
      if p(e[0]) {
        assert d == [e[0]] + rest;
        assert d[1..] == rest;
        LookupCons(d, j);
      } else {
        assert d == rest;
        assert e[0].0 != j;
      }
    }
  }

  /** Unfolding `Lookup` at the first entry. */
  lemma LookupCons(e: Entries, j: string)
    requires e != []
    ensures Lookup(e, j) == if e[0].0 == j then Some(e[0].1) else Lookup(e[1..], j)
  {
  }

  // --------------------------------------------------- the cart's invariant

  lemma {:induction false} PutWellFormed(e: Entries, id: string, q: int)
    requires WellFormed(e)
    ensures WellFormed(Put(e, id, q))
    ensures forall x :: x in Put(e, id, q) ==> x in e || x == (id, q)
  {
    var i := IndexOfKey(e, EntryKey, id);
    var p := Put(e, id, q);
    var ks := MapSeq(e, EntryKey);
    var kp := MapSeq(p, EntryKey);
    if i < |e| {
      assert kp == ks;
    } else {
      assert kp == ks + [id];
      assert id !in ks;
    }
  }

  lemma {:induction false} DeleteWellFormed(e: Entries, id: string)
    requires WellFormed(e)
    ensures WellFormed(Delete(e, id))
  {
    if e != [] {
      var p := KeyIsNot(id);
      var ks := MapSeq(e, EntryKey);
      assert MapSeq(e[1..], EntryKey) == ks[1..];
      DeleteWellFormed(e[1..], id);
      var rest := Delete(e[1..], id);
      if p(e[0]) {
        var d := [e[0]] + rest;
        forall i | 0 <= i < |rest| ensures rest[i].0 != e[0].0 {
          assert rest[i] in e[1..];
          var k :| 0 <= k < |e[1..]| && e[1..][k] == rest[i];
          assert ks[k + 1] != ks[0];
        }
        var kd := MapSeq(d, EntryKey);
        assert forall a, b :: 0 <= a < b < |kd| ==> kd[a] != kd[b] by {
          forall a, b | 0 <= a < b < |kd| ensures kd[a] != kd[b] {
            if a == 0 {
              assert kd[b] == rest[b - 1].0;
            } else {
              assert kd[a] == MapSeq(rest, EntryKey)[a - 1];
              assert kd[b] == MapSeq(rest, EntryKey)[b - 1];
            }
          }
        }
      }
    }
  }

  /** `addToCart` keeps the cart valid. */
  lemma AddedToValid(e: Entries, id: string)
    requires Valid(e)
    ensures Valid(AddedTo(e, id))
  {
    var q := QuantityOf(e, id);
    PutWellFormed(e, id, q + 1);
    var r := AddedTo(e, id);
    forall i | 0 <= i < |r| ensures r[i].1 >= 1 {
      assert r[i] in r;
    }
  }

  /** `removeFromCart` keeps the cart valid: the decrement never stores 0. */
  lemma RemovedFromValid(e: Entries, id: string)
    requires Valid(e)
    ensures Valid(RemovedFrom(e, id))
  {
    var r := RemovedFrom(e, id);
    if Lookup(e, id).Some? && Lookup(e, id).value > 1 {
      PutWellFormed(e, id, Lookup(e, id).value - 1);
      forall i | 0 <= i < |r| ensures r[i].1 >= 1 {
        assert r[i] in r;
      }
    } else {
      DeleteWellFormed(e, id);
      forall i | 0 <= i < |r| ensures r[i].1 >= 1 {
        assert r[i] in r;
      }
    }
  }

  /** `clearItemFromCart` keeps the cart valid. */
  lemma ClearedOfValid(e: Entries, id: string)
    requires Valid(e)
    ensures Valid(ClearedOf(e, id))
  {
    DeleteWellFormed(e, id);
    var r := ClearedOf(e, id);
    forall i | 0 <= i < |r| ensures r[i].1 >= 1 {
      assert r[i] in r;
    }
  }

  /** Adding then removing the same product gives back exactly the cart one started with. */
  lemma {:induction false} AddThenRemove(e: Entries, id: string)
    requires Valid(e)
    ensures RemovedFrom(AddedTo(e, id), id) == e
  {
    var a := AddedTo(e, id);
    var i := IndexOfKey(e, EntryKey, id);
    LookupPut(e, id, QuantityOf(e, id) + 1, id);
    if i < |e| {
      var q := e[i].1;
      assert a == e[i := (id, q + 1)];
      IndexOfKeyUnique(a, EntryKey, id, i);
      assert Put(a, id, q) == a[i := (id, q)];
      assert a[i := (id, q)] == e;
    } else {
      assert a == e + [(id, 1)];
      var p := KeyIsNot(id);
      FilterConcat(e, [(id, 1)], p);
      FilterKeepsAll(e, p);
      assert Filter([(id, 1)], p) == [];
    }
  }

  /** Removing a product that is not in the cart leaves the cart as it was. */
  lemma RemoveAbsent(e: Entries, id: string)
    requires Lookup(e, id).None?
    ensures RemovedFrom(e, id) == e
    ensures ClearedOf(e, id) == e
  {
    FilterKeepsAll(e, KeyIsNot(id));
  }

  // ------------------------------------------------------------------- sums

  lemma {:induction false} SumOverAppend(e: Entries, x: (string, int), f: ((string, int)) -> int)
    ensures SumOver(e + [x], f) == SumOver(e, f) + f(x)
  {
    if e != [] {
      assert (e + [x])[1..] == e[1..] + [x];
      SumOverAppend(e[1..], x, f);
    }
  }

  lemma {:induction false} SumOverUpdate(e: Entries, i: nat, x: (string, int), f: ((string, int)) -> int)
    requires i < |e|
    ensures SumOver(e[i := x], f) == SumOver(e, f) - f(e[i]) + f(x)
  {
    if i > 0 {
      assert e[i := x][1..] == e[1..][i - 1 := x];
      SumOverUpdate(e[1..], i - 1, x, f);
    } else {
      assert e[i := x][1..] == e[1..];
    }
  }

  /** `f` of the entry stored for `id`, or 0 when there is none. */
  function AtKey(e: Entries, id: string, f: ((string, int)) -> int): int {
    match Lookup(e, id)
    case Some(q) => f((id, q))
    case None => 0
  }

  lemma {:induction false} SumOverDelete(e: Entries, id: string, f: ((string, int)) -> int)
    requires WellFormed(e)
    ensures SumOver(Delete(e, id), f) == SumOver(e, f) - AtKey(e, id, f)
  {
    if e != [] {
      var p := KeyIsNot(id);
      var ks := MapSeq(e, EntryKey);
      assert MapSeq(e[1..], EntryKey) == ks[1..];
      LookupCons(e, id);
      var rest := Delete(e[1..], id);
      assert Delete(e, id) == (if p(e[0]) then [e[0]] else []) + rest;
      if p(e[0]) {
        SumOverDelete(e[1..], id, f);
        assert ([e[0]] + rest)[1..] == rest;
      } else {
        forall k | 0 <= k < |e[1..]| ensures p(e[1..][k]) {
          assert ks[k + 1] != ks[0];
        }
        FilterKeepsAll(e[1..], p);
        assert Delete(e, id) == e[1..];
        assert e[0] == (id, e[0].1);
        assert AtKey(e, id, f) == f(e[0]);
      }
    }
  }

  lemma SumOverPut(e: Entries, id: string, q: int, f: ((string, int)) -> int)
    requires WellFormed(e)
    ensures SumOver(Put(e, id, q), f) == SumOver(e, f) - AtKey(e, id, f) + f((id, q))
  {
    var i := IndexOfKey(e, EntryKey, id);
    if i < |e| {
      SumOverUpdate(e, i, (id, q), f);
    } else {
      SumOverAppend(e, (id, q), f);
    }
  }

  /** The header's count goes up by one on `addToCart`. */
  lemma CountAfterAdd(e: Entries, id: string)
    requires WellFormed(e)
    ensures Count(AddedTo(e, id)) == Count(e) + 1
  {
    SumOverPut(e, id, QuantityOf(e, id) + 1, EntryQuantity);
  }

  /** The count goes down by one on `removeFromCart` of a product in a valid cart, and stays when absent. */
  lemma CountAfterRemove(e: Entries, id: string)
    requires Valid(e)
    ensures Count(RemovedFrom(e, id)) == Count(e) - (if Lookup(e, id).Some? then 1 else 0)
  {
    if Lookup(e, id).Some? && Lookup(e, id).value > 1 {
      SumOverPut(e, id, Lookup(e, id).value - 1, EntryQuantity);
    } else {
      SumOverDelete(e, id, EntryQuantity);
      if Lookup(e, id).Some? {
        var i :| 0 <= i < |e| && e[i] == (id, Lookup(e, id).value);
        assert e[i].1 >= 1;
      }
    }
  }

  /** The count loses the product's whole quantity on `clearItemFromCart`. */
  lemma CountAfterClear(e: Entries, id: string)
    requires WellFormed(e)
    ensures Count(ClearedOf(e, id)) == Count(e) - QuantityOf(e, id)
  {
    SumOverDelete(e, id, EntryQuantity);
  }

  /** In a valid cart the count is at least the number of distinct products, and 0 only when empty. */
  lemma {:induction false} CountOfValid(e: Entries)
    requires Valid(e)
    ensures Count(e) >= |e|
    ensures Count(e) == 0 <==> e == []
  {
    if e != [] {
      assert MapSeq(e[1..], EntryKey) == MapSeq(e, EntryKey)[1..];
      CountOfValid(e[1..]);
    }
  }

  // ------------------------------------------------------------- cart lines

  /** Every positive entry names a product of the catalogue (`products.find(...)!` finds one). */
  predicate Resolves(e: Entries, catalog: seq<Product>) {
    forall i :: 0 <= i < |e| && e[i].1 > 0 ==> FindProduct(catalog, e[i].0).Some?
  }

  function IsPositive(x: (string, int)): bool { x.1 > 0 }

  function ItemEntry(li: LineItem): (string, int) { (li.product.id, li.quantity) }

  /**
   * `cartItems` in `App`, `CartSheet` and `OrderForm`: the positive entries,
   * in order, each joined with its product.
   */
  function CartItems(e: Entries, catalog: seq<Product>): (r: seq<LineItem>)
    requires Resolves(e, catalog)
    ensures |r| <= |e|
    ensures forall i :: 0 <= i < |r| ==> r[i].quantity > 0 && r[i].product in catalog
    ensures forall i :: 0 <= i < |r| ==> FindProduct(catalog, r[i].product.id) == Some(r[i].product)
  {
    if e == [] then []
    else
      var rest := CartItems(e[1..], catalog);
      if e[0].1 > 0 then [LineItem(FindProduct(catalog, e[0].0).value, e[0].1)] + rest else rest
  }

  /** The lines are the positive entries, one for one and in the same order. */
  lemma {:induction false} CartItemsArePositiveEntries(e: Entries, catalog: seq<Product>)
    requires Resolves(e, catalog)
    ensures MapSeq(CartItems(e, catalog), ItemEntry) == Filter(e, IsPositive)
  {
    if e != [] {
      CartItemsArePositiveEntries(e[1..], catalog);
      var rest := CartItems(e[1..], catalog);
      var mr := MapSeq(rest, ItemEntry);
      if e[0].1 > 0 {
        var li := LineItem(FindProduct(catalog, e[0].0).value, e[0].1);
        assert CartItems(e, catalog) == [li] + rest;
        assert MapSeq([li] + rest, ItemEntry) == [ItemEntry(li)] + mr;
        assert ItemEntry(li) == e[0];
        assert Filter(e, IsPositive) == [e[0]] + Filter(e[1..], IsPositive);
      } else {
        assert CartItems(e, catalog) == rest;
        assert Filter(e, IsPositive) == Filter(e[1..], IsPositive);
      }
    }
  }

  /** In a valid cart every entry is a line: nothing is dropped. */
  lemma CartItemsOfValid(e: Entries, catalog: seq<Product>)
    requires Valid(e) && Resolves(e, catalog)
    ensures MapSeq(CartItems(e, catalog), ItemEntry) == e
    ensures CartItems(e, catalog) == [] <==> e == []
  {
    CartItemsArePositiveEntries(e, catalog);
    FilterKeepsAll(e, IsPositive);
  }

  /** `cartItems.reduce((sum, item) => sum + item.product.price * item.quantity, 0)`. */
  function Total(items: seq<LineItem>): int {
    if items == [] then 0 else LineTotal(items[0]) + Total(items[1..])
  }

  /** The running total of a `forEach` over the lines ends at `Total`. */
  lemma {:induction false} TotalAppend(items: seq<LineItem>, x: LineItem)
    ensures Total(items + [x]) == Total(items) + LineTotal(x)
  {
    if items != [] {
      assert (items + [x])[1..] == items[1..] + [x];
      TotalAppend(items[1..], x);
    }
  }

  /** The price the catalogue gives `id`, 0 for an unknown product. */
  function PriceOf(catalog: seq<Product>, id: string): int {
    match FindProduct(catalog, id)
    case Some(p) => p.price
    case None => 0
  }

  /** The running total after the first `i + 1` lines. */
  lemma TotalOfPrefix(items: seq<LineItem>, i: nat)
    requires i < |items|
    ensures Total(items[..i + 1]) == Total(items[..i]) + LineTotal(items[i])
  {
    assert items[..i + 1] == items[..i] + [items[i]];
    TotalAppend(items[..i], items[i]);
  }

  /** What one entry adds to the total. */
  function Contribution(catalog: seq<Product>): ((string, int)) -> int {
    (x: (string, int)) => if x.1 > 0 && FindProduct(catalog, x.0).Some? then FindProduct(catalog, x.0).value.price * x.1 else 0
  }

  lemma {:induction false} TotalIsSumOver(e: Entries, catalog: seq<Product>)
    requires Resolves(e, catalog)
    ensures Total(CartItems(e, catalog)) == SumOver(e, Contribution(catalog))
  {
    if e != [] {
      TotalIsSumOver(e[1..], catalog);
      var rest := CartItems(e[1..], catalog);
      if e[0].1 > 0 {
        assert ([LineItem(FindProduct(catalog, e[0].0).value, e[0].1)] + rest)[1..] == rest;
      }
    }
  }

  /** Adding a catalogue product keeps the cart resolvable and raises the total by its price. */
  lemma TotalAfterAdd(e: Entries, catalog: seq<Product>, id: string)
    requires Valid(e) && Resolves(e, catalog) && FindProduct(catalog, id).Some?
    ensures Resolves(AddedTo(e, id), catalog)
    ensures Total(CartItems(AddedTo(e, id), catalog))
         == Total(CartItems(e, catalog)) + PriceOf(catalog, id)
  {
    var a := AddedTo(e, id);
    var q := QuantityOf(e, id);
    PutWellFormed(e, id, q + 1);
    forall i | 0 <= i < |a| && a[i].1 > 0 ensures FindProduct(catalog, a[i].0).Some? {
      assert a[i] in a;
    }
    TotalIsSumOver(e, catalog);
    TotalIsSumOver(a, catalog);
    SumOverPut(e, id, q + 1, Contribution(catalog));
    if Lookup(e, id).Some? {
      var i :| 0 <= i < |e| && e[i] == (id, Lookup(e, id).value);
      assert e[i].1 >= 1;
    }
  }

  /** An update whose entries are old ones or entries for a catalogue product keeps the cart resolvable. */
  lemma ResolvesSubset(e: Entries, r: Entries, catalog: seq<Product>, id: string)
    requires Resolves(e, catalog)
    requires forall x :: x in r ==> x in e || x.0 == id
    requires FindProduct(catalog, id).Some?
    ensures Resolves(r, catalog)
  {
    forall i | 0 <= i < |r| && r[i].1 > 0 ensures FindProduct(catalog, r[i].0).Some? {
      assert r[i] in r;
    }
  }

  /** Removing one of a product lowers the total by its price, and by nothing when it is absent. */
  lemma TotalAfterRemove(e: Entries, catalog: seq<Product>, id: string)
    requires Valid(e) && Resolves(e, catalog)
    ensures Resolves(RemovedFrom(e, id), catalog)
    ensures Total(CartItems(RemovedFrom(e, id), catalog))
         == Total(CartItems(e, catalog))
            - (if Lookup(e, id).Some? then PriceOf(catalog, id) else 0)
  {
    if Lookup(e, id).Some? && Lookup(e, id).value > 1 {
      TotalAfterDecrement(e, catalog, id);
    } else {
      TotalAfterDeleteLast(e, catalog, id);
    }
  }

  /** Deleting an entry of quantity 1, or a missing one, lowers the total by one price or nothing. */
  lemma TotalAfterDeleteLast(e: Entries, catalog: seq<Product>, id: string)
    requires Valid(e) && Resolves(e, catalog)
    requires Lookup(e, id).None? || Lookup(e, id).value <= 1
    ensures Resolves(Delete(e, id), catalog)
    ensures Total(CartItems(Delete(e, id), catalog))
         == Total(CartItems(e, catalog)) - (if Lookup(e, id).Some? then PriceOf(catalog, id) else 0)
  {
    TotalAfterDelete(e, catalog, id);
    if Lookup(e, id).Some? {
      var i :| 0 <= i < |e| && e[i] == (id, Lookup(e, id).value);
      assert e[i].1 == 1;
      assert FindProduct(catalog, e[i].0).Some?;
      assert AtKey(e, id, Contribution(catalog)) == PriceOf(catalog, id) * 1;
    }
  }

  lemma TotalAfterDecrement(e: Entries, catalog: seq<Product>, id: string)
    requires Valid(e) && Resolves(e, catalog)
    requires Lookup(e, id).Some? && Lookup(e, id).value > 1
    ensures Resolves(Put(e, id, Lookup(e, id).value - 1), catalog)
    ensures Total(CartItems(Put(e, id, Lookup(e, id).value - 1), catalog))
         == Total(CartItems(e, catalog)) - PriceOf(catalog, id)
  {
    var q := Lookup(e, id).value;
    var r := Put(e, id, q - 1);
    var i :| 0 <= i < |e| && e[i] == (id, q);
    assert FindProduct(catalog, e[i].0).Some?;
    PutWellFormed(e, id, q - 1);
    ResolvesSubset(e, r, catalog, id);
    TotalIsSumOver(e, catalog);
    TotalIsSumOver(r, catalog);
    SumOverPut(e, id, q - 1, Contribution(catalog));
    ContributionStep(catalog, id, q);
  }

  /** One fewer of a catalogue product contributes one price less. */
  lemma ContributionStep(catalog: seq<Product>, id: string, q: int)
    requires FindProduct(catalog, id).Some? && q > 1
    ensures Contribution(catalog)((id, q)) == Contribution(catalog)((id, q - 1)) + PriceOf(catalog, id)
  {
    var price := PriceOf(catalog, id);
    assert price * q == price * (q - 1) + price;
  }

  /** Deleting an entry lowers the total by what that entry contributed. */
  lemma TotalAfterDelete(e: Entries, catalog: seq<Product>, id: string)
    requires Valid(e) && Resolves(e, catalog)
    ensures Resolves(Delete(e, id), catalog)
    ensures Total(CartItems(Delete(e, id), catalog))
         == Total(CartItems(e, catalog)) - AtKey(e, id, Contribution(catalog))
  {
    var r := Delete(e, id);
    TotalIsSumOver(e, catalog);
    SumOverDelete(e, id, Contribution(catalog));
    forall i | 0 <= i < |r| && r[i].1 > 0 ensures FindProduct(catalog, r[i].0).Some? {
      assert r[i] in r;
    }
    TotalIsSumOver(r, catalog);
  }

  /** Clearing a product lowers the total by its price times its quantity. */
  lemma TotalAfterClear(e: Entries, catalog: seq<Product>, id: string)
    requires Valid(e) && Resolves(e, catalog)
    ensures Resolves(ClearedOf(e, id), catalog)
    ensures Total(CartItems(ClearedOf(e, id), catalog))
         == Total(CartItems(e, catalog))
            - (if Lookup(e, id).Some? then PriceOf(catalog, id) * QuantityOf(e, id) else 0)
  {
    TotalAfterDelete(e, catalog, id);
    if Lookup(e, id).Some? {
      var i :| 0 <= i < |e| && e[i] == (id, Lookup(e, id).value);
      assert FindProduct(catalog, e[i].0).Some?;
    }
  }
}
