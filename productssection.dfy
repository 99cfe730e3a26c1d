// The product section (`ProductsSection`): the list of category tabs and
// the products each tab shows, with the quantity shown on each card.

module ProductsSection {
  import opened Optional
  import opened Collections
  import opened Domain
  import Cart

  /** The tab that lists everything. */
  const AllTab := "Tous"

  /** `p && p.category`: the product carries a non-empty category. */
  predicate HasCategory(p: Product) { p.category != "" }

  function CategoryOf(p: Product): string { p.category }

  /** `computedFromProducts`: the products' non-empty categories through a Set. */
  function ComputedFromProducts(products: seq<Product>): seq<string> {
    Distinct(MapSeq(Filter(products, HasCategory), CategoryOf))
  }

  /** `providedCategories || []`. */
  function Provided(provided: Option<seq<string>>): seq<string> {
    match provided
    case Some(c) => c
    case None => []
  }

  /** `["Tous", ...Array.from(new Set([...provided, ...computedFromProducts]))]`. */
  function Tabs(products: seq<Product>, provided: Option<seq<string>>): seq<string> {
    [AllTab] + Distinct(Provided(provided) + ComputedFromProducts(products))
  }

  /** The categories products carry, without the empty one. */
  lemma ProductCategories(products: seq<Product>, c: string)
    ensures c in MapSeq(Filter(products, HasCategory), CategoryOf) <==> c != "" && exists p :: p in products && p.category == c
  {
    var f := Filter(products, HasCategory);
    var m := MapSeq(f, CategoryOf);
    if c in m {
      var k :| 0 <= k < |m| && m[k] == c;
      assert f[k] in f;
    }
    if c != "" && exists p :: p in products && p.category == c {
      var p :| p in products && p.category == c;
      assert p in f;
      var k :| 0 <= k < |f| && f[k] == p;
      assert m[k] == c;
    }
  }

  /**
   * The tab list starts with "Tous"; after it come the given categories and
   * then the products' own, each once, in first-occurrence order, the given
   * ones first. "Tous" itself takes no part in the de-duplication, so a
   * category of that name shows a second "Tous" tab.
   */
  lemma TabList(products: seq<Product>, provided: Option<seq<string>>)
    ensures |Tabs(products, provided)| >= 1 && Tabs(products, provided)[0] == AllTab
    ensures Tabs(products, provided)[1..]
         == Distinct(Provided(provided) + MapSeq(Filter(products, HasCategory), CategoryOf))
    ensures NoDuplicates(Tabs(products, provided)[1..])
    ensures |Distinct(Provided(provided))| < |Tabs(products, provided)|
    ensures Tabs(products, provided)[1..][..|Distinct(Provided(provided))|] == Distinct(Provided(provided))
    ensures forall c :: c in Tabs(products, provided)[1..] <==>
              c in Provided(provided) || (c != "" && exists p :: p in products && p.category == c)
  {
    var given := Provided(provided);
    var cats := MapSeq(Filter(products, HasCategory), CategoryOf);
    var t := Tabs(products, provided);
    assert t[1..] == Distinct(given + Distinct(cats));
    DistinctAbsorbsInner(given, cats);
    DistinctKeepsPrefix(given, cats);
    forall c ensures c in t[1..] <==> c in given || (c != "" && exists p :: p in products && p.category == c) {
      ProductCategories(products, c);
    }
  }

  /** Whether a product appears under a tab (`category === "Tous" || p.category === category`). */
  function InTab(tab: string): Product -> bool {
    (p: Product) => tab == AllTab || p.category == tab
  }

  /** The products a tab lists, in catalogue order. */
  function ProductsForTab(products: seq<Product>, tab: string): seq<Product> {
    Filter(products, InTab(tab))
  }

  /** "Tous" lists every product in order; any other tab exactly the products of its category. */
  lemma TabContents(products: seq<Product>, tab: string)
    ensures tab == AllTab ==> ProductsForTab(products, tab) == products
    ensures tab != AllTab ==> forall p :: p in ProductsForTab(products, tab) <==> p in products && p.category == tab
  {
    if tab == AllTab {
      FilterKeepsAll(products, InTab(tab));
    }
  }

  /** Every product with a category has a tab, and that tab lists it. */
  lemma EveryProductHasItsTab(products: seq<Product>, provided: Option<seq<string>>, p: Product)
    requires p in products && p.category != ""
    ensures p.category in Tabs(products, provided)
    ensures p in ProductsForTab(products, p.category)
  {
    TabList(products, provided);
    assert p.category in Tabs(products, provided)[1..];
  }

  /**
   * The card's quantity is `cart[product.id] || 0`, that is
   * `Cart.QuantityOf`: in a valid cart it is 0 exactly for a product not
   * in the cart, "+" shows one more and "−" one fewer, never below 0.
   */
  lemma CardQuantity(cart: Cart.Entries, id: string)
    requires Cart.Valid(cart)
    ensures Cart.QuantityOf(cart, id) >= 0
    ensures Cart.QuantityOf(cart, id) == 0 <==> Cart.Lookup(cart, id).None?
    ensures Cart.QuantityOf(Cart.AddedTo(cart, id), id) == Cart.QuantityOf(cart, id) + 1
    ensures Cart.QuantityOf(Cart.RemovedFrom(cart, id), id)
         == if Cart.QuantityOf(cart, id) > 0 then Cart.QuantityOf(cart, id) - 1 else 0
  {
    if Cart.Lookup(cart, id).Some? {
      var i :| 0 <= i < |cart| && cart[i] == (id, Cart.Lookup(cart, id).value);
      assert cart[i].1 >= 1;
    }
    Cart.LookupPut(cart, id, Cart.QuantityOf(cart, id) + 1, id);
    if Cart.Lookup(cart, id).Some? && Cart.Lookup(cart, id).value > 1 {
      Cart.LookupPut(cart, id, Cart.Lookup(cart, id).value - 1, id);
    } else {
      Cart.LookupDelete(cart, id, id);
    }
  }
}
