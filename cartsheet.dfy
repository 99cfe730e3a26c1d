// The cart drawer (`CartSheet`): one line per resolved cart entry with its
// subtotal and its remove button, the total, and the empty-cart message.

module CartSheet {
  import opened Optional
  import opened Collections
  import opened Domain
  import Cart

  /** What one line of the drawer shows, and the id its remove button hands on. */
  datatype SheetLine = SheetLine(name: string, quantity: int, unitPrice: int, subtotal: int, removeTarget: string)

  function LineView(item: LineItem): SheetLine {
    SheetLine(item.product.name, item.quantity, item.product.price, LineTotal(item), item.product.id)
  }

  /** The drawer's lines, one per `cartItems` entry, in order. */
  function Lines(cart: Cart.Entries, products: seq<Product>): seq<SheetLine>
    requires Cart.Resolves(cart, products)
  {
    MapSeq(Cart.CartItems(cart, products), LineView)
  }

  /** `cartItems.length === 0`: whether "Votre panier est vide" is shown. */
  predicate ShowsEmptyMessage(cart: Cart.Entries, products: seq<Product>)
    requires Cart.Resolves(cart, products)
  {
    |Cart.CartItems(cart, products)| == 0
  }

  /** The subtotals summed. */
  function SumOfSubtotals(lines: seq<SheetLine>): int {
    if lines == [] then 0 else lines[0].subtotal + SumOfSubtotals(lines[1..])
  }

  /**
   * Each line shows a positive entry of the cart, in entry order, with the
   * catalogue's name and price for its id and price times quantity as its
   * subtotal; the subtotals add up to the total; the empty message shows
   * exactly when no entry is positive.
   */
  lemma {:induction false} SheetShowsCart(cart: Cart.Entries, products: seq<Product>)
    requires Cart.Resolves(cart, products)
    ensures |Lines(cart, products)| == |Filter(cart, Cart.IsPositive)|
    ensures forall i :: 0 <= i < |Lines(cart, products)| ==>
              var l := Lines(cart, products)[i];
              Filter(cart, Cart.IsPositive)[i] == (l.removeTarget, l.quantity)
              && FindProduct(products, l.removeTarget).Some?
              && FindProduct(products, l.removeTarget).value.name == l.name
              && FindProduct(products, l.removeTarget).value.price == l.unitPrice
              && l.subtotal == l.unitPrice * l.quantity
    ensures SumOfSubtotals(Lines(cart, products)) == Cart.Total(Cart.CartItems(cart, products))
    ensures ShowsEmptyMessage(cart, products) <==> forall i :: 0 <= i < |cart| ==> cart[i].1 <= 0
  {
    var items := Cart.CartItems(cart, products);
    Cart.CartItemsArePositiveEntries(cart, products);
    var pos := Filter(cart, Cart.IsPositive);
    assert MapSeq(items, Cart.ItemEntry) == pos;
    SubtotalsAddUp(items);
    if !ShowsEmptyMessage(cart, products) {
      assert pos[0] in pos;
    } else {
      forall i | 0 <= i < |cart| ensures cart[i].1 <= 0 {
        assert cart[i] !in pos;
      }
    }
  }

  lemma {:induction false} SubtotalsAddUp(items: seq<LineItem>)
    ensures SumOfSubtotals(MapSeq(items, LineView)) == Cart.Total(items)
  {
    if items != [] {
      SubtotalsAddUp(items[1..]);
      assert MapSeq(items, LineView)[1..] == MapSeq(items[1..], LineView);
    }
  }

  /**
   * The remove button of a line hands on the line's product id, so in a
   * valid cart `clearItemFromCart` takes exactly that line away: its entry
   * is gone and the total drops by its subtotal.
   */
  lemma RemoveButton(cart: Cart.Entries, products: seq<Product>, i: nat)
    requires Cart.Valid(cart) && Cart.Resolves(cart, products)
    requires i < |Lines(cart, products)|
    ensures Cart.Lookup(Cart.ClearedOf(cart, Lines(cart, products)[i].removeTarget), Lines(cart, products)[i].removeTarget).None?
    ensures Cart.Resolves(Cart.ClearedOf(cart, Lines(cart, products)[i].removeTarget), products)
    ensures Cart.Total(Cart.CartItems(Cart.ClearedOf(cart, Lines(cart, products)[i].removeTarget), products))
         == Cart.Total(Cart.CartItems(cart, products)) - Lines(cart, products)[i].subtotal
  {
    var items := Cart.CartItems(cart, products);
    var l := Lines(cart, products)[i];
    var id := l.removeTarget;
    Cart.CartItemsOfValid(cart, products);
    assert MapSeq(items, Cart.ItemEntry)[i] == cart[i] && cart[i] == (id, l.quantity);
    Cart.LookupAt(cart, i);
    Cart.LookupDelete(cart, id, id);
    Cart.TotalAfterClear(cart, products, id);
    assert FindProduct(products, items[i].product.id) == Some(items[i].product);
  }
}
