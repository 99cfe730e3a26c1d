// The admin panel (`AdminPanel`): its own reading of the category list,
// de-duplicated by name through a `Map`, its product list with the nulls
// taken out, and the three handlers that guard their input before any
// request is made.

module AdminPanel {
  import opened Optional
  import opened Collections
  import opened JsValue
  import opened JsText
  import Storefront

  /** A category as the panel holds it. */
  datatype Category = Category(id: string, name: string)

  function CategoryKey(c: Category): string { c.name }

  /** `typeof v.name === "string" ? v.name : typeof v.label === "string" ? v.label : undefined`. */
  function DisplayName(v: Json): Option<string> {
    if StringField(v, "name").Some? then StringField(v, "name") else StringField(v, "label")
  }

  /**
   * One raw entry of `loadCategories`: a non-empty string `s` stands for
   * `{id: s, name: s}`; an object takes its string `name`, else its string
   * `label`, and is dropped when that is missing or empty; its id is its
   * string `id`, else the name. Anything else is dropped.
   */
  function NormalizeCategory(v: Json): (r: Option<Category>)
    ensures v.Str? ==> r == (if v.s == "" then None else Some(Category(v.s, v.s)))
    ensures r.Some? ==> r.value.name != ""
    ensures v.Obj? && r.Some? ==>
              DisplayName(v).Some? && r.value.name == DisplayName(v).value
              && r.value.id == (if StringField(v, "id").Some? then StringField(v, "id").value else r.value.name)
    ensures v.Obj? ==>
              (r.Some? <==> if StringField(v, "name").Some? then v.fields["name"].s != ""
                            else StringField(v, "label").Some? && v.fields["label"].s != "")
    ensures !v.Str? && !v.Obj? ==> r.None?
  {
    if !Truthy(v) then None
    else if v.Str? then Some(Category(v.s, v.s))
    else
      var name := DisplayName(v);
      if name.None? || name.value == "" then None
      else Some(Category(if StringField(v, "id").Some? then StringField(v, "id").value else name.value, name.value))
  }

  /** The normalised entries of a raw value, in order; a value that is not an array gives none. */
  function Normalized(raw: Json): seq<Category> {
    if raw.Arr? then Present(MapSeq(raw.items, NormalizeCategory)) else []
  }

  /** `Array.from(new Map(normalized.map(c => [c.name, c])).values())`. */
  function AdminCategories(raw: Json): seq<Category> {
    DedupeByKey(Normalized(raw), CategoryKey)
  }

  /**
   * The panel's category list: empty for a value that is not an array; one
   * category per name, names in the order of their first occurrence, and
   * for each name the last entry that carried it; no empty name.
   */
  lemma AdminCategoryList(raw: Json)
    ensures !raw.Arr? ==> AdminCategories(raw) == []
    ensures NoDuplicates(MapSeq(AdminCategories(raw), CategoryKey))
    ensures MapSeq(AdminCategories(raw), CategoryKey) == Distinct(MapSeq(Normalized(raw), CategoryKey))
    ensures forall i, j :: 0 <= i < j < |AdminCategories(raw)| ==>
              FirstIndex(MapSeq(Normalized(raw), CategoryKey), AdminCategories(raw)[i].name)
              < FirstIndex(MapSeq(Normalized(raw), CategoryKey), AdminCategories(raw)[j].name)
    ensures forall i :: 0 <= i < |AdminCategories(raw)| ==>
              AdminCategories(raw)[i].name != ""
              && exists k :: 0 <= k < |Normalized(raw)| && Normalized(raw)[k].name == AdminCategories(raw)[i].name
  {
    var n := Normalized(raw);
    var r := AdminCategories(raw);
    DedupeByKeyKeys(n, CategoryKey);
    var names := MapSeq(n, CategoryKey);
    forall i, j | 0 <= i < j < |r|
      ensures FirstIndex(names, r[i].name) < FirstIndex(names, r[j].name)
    {
      assert MapSeq(r, CategoryKey)[i] == r[i].name && MapSeq(r, CategoryKey)[j] == r[j].name;
      DistinctFirstOccurrenceOrder(names, i, j);
    }
    forall i | 0 <= i < |r|
      ensures r[i].name != "" && exists k :: 0 <= k < |n| && n[k].name == r[i].name
    {
      assert r[i] in n;
      assert Some(r[i]) in MapSeq(raw.items, NormalizeCategory);
    }
  }

  /** For each name the panel keeps the last entry that carried it. */
  lemma AdminCategoryLastWins(raw: Json, i: nat)
    requires i < |AdminCategories(raw)|
    ensures exists k :: 0 <= k < |Normalized(raw)| && Normalized(raw)[k].name == AdminCategories(raw)[i].name
    ensures AdminCategories(raw)[i] == LastWithKey(Normalized(raw), CategoryKey, AdminCategories(raw)[i].name)
  {
    DedupeByKeyLastWins(Normalized(raw), CategoryKey, i);
  }

  /**
   * The panel and the storefront read names alike, except that the panel
   * drops an object whose string `name` is empty, which the storefront keeps
   * as the name `""`.
   */
  lemma NamesAgree(v: Json)
    ensures NormalizeCategory(v).Some? ==> Storefront.CategoryName(v) == Some(NormalizeCategory(v).value.name)
    ensures Storefront.CategoryName(v).Some? && Storefront.CategoryName(v).value != "" ==> NormalizeCategory(v).Some?
    ensures NormalizeCategory(v).None? && Storefront.CategoryName(v).Some? ==> Storefront.CategoryName(v) == Some("")
  {
  }

  // ------------------------------------------------------------ products

  /**
   * `(data.products || []).filter(p => p !== null && p !== undefined)`;
   * `None` where it throws: on a `null` body, and on a truthy `products`
   * that is not an array (it has no `filter` to call).
   */
  function LoadedProducts(data: Json): (r: Option<seq<Json>>)
    ensures data.Null? ==> r.None?
    ensures r.Some? ==> forall x :: x in r.value ==> !x.Null?
    ensures !data.Null? ==>
              match Field(data, "products").value
              case None => r == Some([])
              case Some(p) =>
                if !Truthy(p) then r == Some([])
                else if p.Arr? then r.Some? && forall x :: x in r.value <==> x in p.items && !x.Null?
                else r.None?
  {
    match Field(data, "products")
    case TypeError => None
    case Read(v) =>
      var p := if v.Some? && Truthy(v.value) then v.value else Arr([]);
      if p.Arr? then Some(Filter(p.items, NonNull)) else None
  }

  /** A list without nulls comes through whole and in order. */
  lemma LoadedProductsKeepOrder(items: seq<Json>)
    requires forall i :: 0 <= i < |items| ==> !items[i].Null?
    ensures LoadedProducts(Obj(map["products" := Arr(items)])) == Some(items)
  {
    FilterKeepsAll(items, NonNull);
  }

  /**
   * A `null` in the listing is dropped where it stands: what comes before
   * it and what comes after it keep their order and every entry.
   */
  lemma LoadedProductsDropNull(a: seq<Json>, b: seq<Json>)
    ensures LoadedProducts(Obj(map["products" := Arr(a + [Null] + b)])) == Some(Filter(a, NonNull) + Filter(b, NonNull))
  {
    var d := Obj(map["products" := Arr(a + [Null] + b)]);
    assert Field(d, "products") == Read(Some(Arr(a + [Null] + b)));
    FilterSkipsNull(a, b);
  }

  /** Filtering out nulls around a `null` filters each side on its own. */
  lemma FilterSkipsNull(a: seq<Json>, b: seq<Json>)
    ensures Filter(a + [Null] + b, NonNull) == Filter(a, NonNull) + Filter(b, NonNull)
  {
    FilterConcat(a + [Null], b, NonNull);
    FilterConcat(a, [Null], NonNull);
    assert Filter([Null], NonNull) == [];
    assert Filter(a + [Null], NonNull) == Filter(a, NonNull);
  }

  /** Two null-free runs with a `null` between them load as the two runs joined. */
  lemma LoadedProductsJoinRuns(a: seq<Json>, b: seq<Json>)
    requires forall i :: 0 <= i < |a| ==> !a[i].Null?
    requires forall i :: 0 <= i < |b| ==> !b[i].Null?
    ensures LoadedProducts(Obj(map["products" := Arr(a + [Null] + b)])) == Some(a + b)
  {
    LoadedProductsDropNull(a, b);
    FilterKeepsAll(a, NonNull);
    FilterKeepsAll(b, NonNull);
  }

  // ------------------------------------------------------------ the requests

  /** The new-product form: every field as typed. */
  datatype ProductDraft = ProductDraft(name: string, description: string, price: string, image: string, category: string)

  const EmptyDraft := ProductDraft("", "", "", "", "")

  /** `parseFloat` of the typed price, `None` standing for `NaN` (which `JSON.stringify` writes as `null`). */
  type ParseFloat = string -> Option<real>

  /**
   * The body `handleAddCategory` posts, if it posts one: none when the
   * typed name is white space only, else `{name}` with the trimmed name.
   */
  function CategoryRequest(input: string): (r: Option<Json>)
    ensures r.None? <==> AllWhiteSpace(input)
    ensures r.Some? ==> r.value == Obj(map["name" := Str(Trim(input))]) && Trim(input) != ""
                        && !IsWhiteSpace(Trim(input)[0]) && !IsWhiteSpace(Trim(input)[|Trim(input)| - 1])
  {
    TrimEmptyIff(input);
    TrimShape(input);
    if Trim(input) == "" then None else Some(Obj(map["name" := Str(Trim(input))]))
  }

  /** The JSON value of a parsed price. */
  function PriceValue(p: Option<real>): Json {
    match p
    case Some(x) => Num(x)
    case None => Null
  }

  /**
   * The body `handleAddProduct` posts, if it posts one: none when the name,
   * the price or the category is empty; else every field as typed, but the
   * price parsed.
   */
  function ProductRequest(draft: ProductDraft, parseFloat: ParseFloat): (r: Option<Json>)
    ensures r.None? <==> draft.name == "" || draft.price == "" || draft.category == ""
    ensures r.Some? ==>
              r.value.Obj? && r.value.fields.Keys == {"name", "description", "price", "image", "category"}
              && r.value.fields["name"] == Str(draft.name)
              && r.value.fields["description"] == Str(draft.description)
              && r.value.fields["price"] == PriceValue(parseFloat(draft.price))
              && r.value.fields["image"] == Str(draft.image)
              && r.value.fields["category"] == Str(draft.category)
  {
    if draft.name == "" || draft.price == "" || draft.category == "" then None
    else
      Some(Obj(map["name" := Str(draft.name), "description" := Str(draft.description),
                   "price" := PriceValue(parseFloat(draft.price)), "image" := Str(draft.image),
                   "category" := Str(draft.category)]))
  }

  /** The path `handleDeleteProduct` sends its DELETE to. */
  function DeletePath(productId: string): (r: string)
    ensures |r| == |"/products/"| + |productId|
    ensures r[..|"/products/"|] == "/products/" && r[|"/products/"|..] == productId
  {
    "/products/" + productId
  }

  // ------------------------------------------------------------ the panel

  class Panel {
    var categories: seq<Category>
    var products: seq<Json>
    var isAddCategoryOpen: bool
    var isAddProductOpen: bool
    var newCategory: string
    var newProduct: ProductDraft

    /** The panel as it mounts, before its two loads. */
    constructor()
      ensures categories == [] && products == []
      ensures !isAddCategoryOpen && !isAddProductOpen
      ensures newCategory == "" && newProduct == EmptyDraft
    {
      categories := [];
      products := [];
      isAddCategoryOpen := false;
      isAddProductOpen := false;
      newCategory := "";
      newProduct := EmptyDraft;
    }

    /**
     * `loadCategories()`, with `response` the parsed body (`None` when the
     * request or the parse failed); a `null` body throws, and a failure
     * leaves the list as it was.
     */
    method LoadCategories(response: Option<Json>)
      modifies this
      ensures categories == match response
        case Some(data) => if data.Null? then old(categories) else AdminCategories(Storefront.RawCategories(data))
        case None => old(categories)
      ensures products == old(products) && newCategory == old(newCategory) && newProduct == old(newProduct)
      ensures isAddCategoryOpen == old(isAddCategoryOpen) && isAddProductOpen == old(isAddProductOpen)
    {
      if response.Some? && !response.value.Null? {
        var raw := Storefront.RawCategories(response.value);
        var normalized := Normalized(raw);
        categories := DedupeByKey(normalized, CategoryKey);
      }
    }

    /** `loadProducts()`: the list without its nulls, or the old list when the request or the filter failed. */
    method LoadProducts(response: Option<Json>)
      modifies this
      ensures products == match response
        case Some(data) => if LoadedProducts(data).Some? then LoadedProducts(data).value else old(products)
        case None => old(products)
      ensures categories == old(categories) && newCategory == old(newCategory) && newProduct == old(newProduct)
      ensures isAddCategoryOpen == old(isAddCategoryOpen) && isAddProductOpen == old(isAddProductOpen)
    {
      if response.Some? {
        var valid := LoadedProducts(response.value);
        if valid.Some? {
          products := valid.value;
        }
      }
    }

    /**
     * `handleAddCategory()`, with `ok` whether the POST succeeded and
     * `reloaded` the reply of the reload that follows. It returns the body
     * posted and the name handed to `onCategoryAdded`, both the trimmed
     * input; a blank input posts nothing and changes nothing.
     */
    method HandleAddCategory(ok: bool, reloaded: Option<Json>) returns (request: Option<Json>, added: Option<string>)
      modifies this
      ensures request == CategoryRequest(old(newCategory))
      ensures added == if request.Some? && ok then Some(Trim(old(newCategory))) else None
      ensures added.Some? ==> request == Some(Obj(map["name" := Str(added.value)]))
      ensures products == old(products) && newProduct == old(newProduct) && isAddProductOpen == old(isAddProductOpen)
      ensures added.None? ==>
                categories == old(categories) && newCategory == old(newCategory) && isAddCategoryOpen == old(isAddCategoryOpen)
      ensures added.Some? ==> newCategory == "" && !isAddCategoryOpen
      ensures added.Some? ==> categories == match reloaded
        case Some(data) => if data.Null? then old(categories) else AdminCategories(Storefront.RawCategories(data))
        case None => old(categories)
    {
      request := CategoryRequest(newCategory);
      added := None;
      if request.None? || !ok {
        return;
      }
      added := Some(Trim(newCategory));
      newCategory := "";
      isAddCategoryOpen := false;
      LoadCategories(reloaded);
    }

    /**
     * `handleAddProduct()`, with `ok` whether the POST succeeded and
     * `reloaded` the reply of the reload that follows. It returns the body
     * posted; an incomplete form posts nothing and changes nothing.
     */
    method HandleAddProduct(parseFloat: ParseFloat, ok: bool, reloaded: Option<Json>) returns (request: Option<Json>)
      modifies this
      ensures request == ProductRequest(old(newProduct), parseFloat)
      ensures categories == old(categories) && newCategory == old(newCategory) && isAddCategoryOpen == old(isAddCategoryOpen)
      ensures !(request.Some? && ok) ==>
                products == old(products) && newProduct == old(newProduct) && isAddProductOpen == old(isAddProductOpen)
      ensures request.Some? && ok ==> newProduct == EmptyDraft && !isAddProductOpen
      ensures request.Some? && ok ==> products == match reloaded
        case Some(data) => if LoadedProducts(data).Some? then LoadedProducts(data).value else old(products)
        case None => old(products)
    {
      request := ProductRequest(newProduct, parseFloat);
      if request.None? || !ok {
        return;
      }
      newProduct := EmptyDraft;
      isAddProductOpen := false;
      LoadProducts(reloaded);
    }

    /**
     * `handleDeleteProduct(productId)`, with `confirmed` the answer to the
     * confirmation dialog and `ok` whether the DELETE succeeded. It returns
     * the path the DELETE went to; nothing is sent unless confirmed.
     */
    method HandleDeleteProduct(productId: string, confirmed: bool, ok: bool, reloaded: Option<Json>)
      returns (path: Option<string>)
      modifies this
      ensures path == if confirmed then Some(DeletePath(productId)) else None
      ensures categories == old(categories) && newCategory == old(newCategory) && newProduct == old(newProduct)
      ensures isAddCategoryOpen == old(isAddCategoryOpen) && isAddProductOpen == old(isAddProductOpen)
      ensures !(confirmed && ok) ==> products == old(products)
      ensures confirmed && ok ==> products == match reloaded
        case Some(data) => if LoadedProducts(data).Some? then LoadedProducts(data).value else old(products)
        case None => old(products)
    {
      if !confirmed {
        return None;
      }
      path := Some(DeletePath(productId));
      if ok {
        LoadProducts(reloaded);
      }
    }
  }
}
