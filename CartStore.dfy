/**
 * The script's global cart: the `cart` array that `addToCart`,
 * `handleCartAction` and the checkout handler change in place, and the
 * local-storage snapshot that `saveCart` writes. Each mutating method is
 * proved against the reference definitions of CartModel.
 */
module CartStore {
  import opened Wrappers
  import opened PriceParser
  import opened CartModel

  /**
   * `cart.find(item => item.id === id)`, giving the position of the item it
   * finds.
   */
  method FindById(items: seq<LineItem>, id: string) returns (found: Option<nat>)
    ensures found.Some? ==> IsFirstWithId(items, id, found.value)
    ensures found.None? <==> !HasId(items, id)
  {
    var i := 0;
    while i < |items|
      invariant 0 <= i <= |items|
      invariant forall j :: 0 <= j < i ==> items[j].id != id
    {
      if items[i].id == id {
        return Some(i);
      }
      i := i + 1;
    }
    return None;
  }

  class Cart {
    /** The line items, in the order they were first added. */
    var items: seq<LineItem>
    /** What local storage holds under the key 'cart'; None when nothing is stored. */
    ghost var stored: Option<seq<LineItem>>
    /** The engine's conversion of a number to text, used to build item ids. */
    const numberText: real -> string

    ghost predicate Valid()
      reads this
    {
      WellFormed(items)
    }

    /** `JSON.parse(localStorage.getItem('cart')) || []`. */
    constructor (snapshot: Option<seq<LineItem>>, numberText: real -> string)
      ensures items == (if snapshot.Some? then snapshot.value else [])
      ensures stored == snapshot
      ensures this.numberText == numberText
    {
      items := if snapshot.Some? then snapshot.value else [];
      stored := snapshot;
      this.numberText := numberText;
    }

    /** `saveCart()`: the snapshot becomes a copy of the cart. */
    method SaveCart()
      modifies this`stored
      ensures stored == Some(items)
    {
      stored := Some(items);
    }

    /**
     * `addToCart(product)`: rejects a missing product, title or image and a
     * price that does not parse to a positive amount, leaving everything as
     * it was; otherwise adds one of the product to the cart, saves it, and
     * returns the line that holds the product.
     */
    method AddToCart(product: Option<Product>) returns (added: Option<LineItem>)
      modifies this`items, this`stored
      ensures !Accepts(product) ==> added == None && items == old(items) && stored == old(stored)
      ensures Accepts(product) ==>
        var line := NewLine(product.value, numberText);
        && items == AddLine(old(items), line)
        && stored == Some(items)
        && exists k :: IsFirstWithId(items, line.id, k) && added == Some(items[k])
      ensures old(Valid()) ==> Valid()
    {
      if product.None? || product.value.title == "" || product.value.image == "" {
        return None;
      }
      var p := product.value;
      var price := ParsePrice(p.price);
      if price <= 0.0 {
        return None;
      }
      var id := ItemId(p.title, price, numberText);
      ghost var line := NewLine(p, numberText);
      ghost var before := items;
      var existing := FindById(items, id);
      if existing.Some? {
        var k := existing.value;
        AddLineAtFirstMatch(items, line, k);
        items := items[k := Incremented(items[k])];
        assert items[k].id == id;
      } else {
        AddLineWithoutMatch(items, line);
        items := items + [LineItem(id, p.title, Number(price), p.image, 1)];
        assert items[|items| - 1].id == id;
      }
      if WellFormed(before) {
        AddLinePreservesWellFormed(before, line);
      }
      SaveCart();
      var found := FindById(items, id);
      added := if found.Some? then Some(items[found.value]) else None;
      assert found.Some? && IsFirstWithId(items, line.id, found.value);
    }

    /**
     * `handleCartAction(action, index)`: an index with no item returns at
     * once; otherwise the action is applied to the item at `index` and the
     * cart is saved.
     */
    method HandleCartAction(action: string, index: int)
      modifies this`items, this`stored
      ensures !(0 <= index < |old(items)|) ==> items == old(items) && stored == old(stored)
      ensures 0 <= index < |old(items)| ==>
        items == ApplyAction(old(items), action, index) && stored == Some(items)
      ensures old(Valid()) ==> Valid()
    {
      if !(0 <= index < |items|) {
        return;
      }
      ghost var before := items;
      var item := items[index];
      if action == "increase" {
        items := items[index := Incremented(item)];
      } else if action == "decrease" {
        var q := Quantity(item) - 1;
        items := items[index := item.(quantity := q)];
        if q <= 0 {
          items := items[..index] + items[index + 1..];
        }
      } else if action == "remove" {
        items := items[..index] + items[index + 1..];
      }
      if WellFormed(before) {
        ActionPreservesWellFormed(before, action, index);
      }
      SaveCart();
    }

    /**
     * The subtotal `renderCartPage` accumulates over the cart's lines; None
     * when the cart is empty and the page shows its empty state instead.
     */
    method RenderedSubtotal() returns (subtotal: Option<real>)
      ensures subtotal.None? <==> items == []
      ensures subtotal.Some? ==> subtotal.value == OrderTotal(items)
    {
      if |items| == 0 {
        return None;
      }
      var sum := 0.0;
      var i := 0;
      while i < |items|
        invariant 0 <= i <= |items|
        invariant sum == OrderTotal(items[..i])
      {
        var price := ParsePrice(items[i].price);
        var quantity := Quantity(items[i]);
        var itemTotal := price * quantity as real;
        sum := sum + itemTotal;
        assert items[..i + 1][..i] == items[..i];
        i := i + 1;
      }
      assert items[..i] == items;
      return Some(sum);
    }

    /**
     * The checkout handler: the order carries the cart's total; when the
     * order is accepted the cart is emptied and saved, otherwise it is kept
     * for another try.
     */
    method Checkout(orderAccepted: bool) returns (totalAmount: real)
      modifies this`items, this`stored
      ensures totalAmount == OrderTotal(old(items))
      ensures orderAccepted ==> items == [] && stored == Some([]) && !CounterShown(items)
      ensures !orderAccepted ==> items == old(items) && stored == old(stored)
    {
      totalAmount := OrderTotal(items);
      if orderAccepted {
        items := [];
        SaveCart();
      }
    }
  }
}
