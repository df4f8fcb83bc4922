/**
 * The cart of the storefront script as values: its line items, the totals
 * derived from them, and reference definitions of what adding a product and
 * the quantity controls do to the list. The class in CartStore.dfy is
 * proved against these definitions.
 */
module CartModel {
  import opened Wrappers
  import opened PriceParser

  /**
   * One entry of the global `cart` array. `quantity` 0 stands for a missing
   * or zero quantity, both of which the script counts as 1. `price` is kept
   * as the JavaScript value it holds, since totals re-parse it.
   */
  datatype LineItem = LineItem(id: string, title: string, price: PriceValue, image: string, quantity: int)

  /** The product read from a product card; an empty title or image stands for a missing one. */
  datatype Product = Product(title: string, price: PriceValue, image: string)

  /** `item.quantity || 1`. */
  function Quantity(item: LineItem): int {
    if item.quantity == 0 then 1 else item.quantity
  }

  /**
   * The line-item id `${title}_${price}`. `numberText` is the engine's
   * conversion of a number to text.
   */
  function ItemId(title: string, price: real, numberText: real -> string): string {
    title + "_" + numberText(price)
  }

  ghost predicate UniqueIds(items: seq<LineItem>) {
    forall i, j :: 0 <= i < j < |items| ==> items[i].id != items[j].id
  }

  ghost predicate PositiveQuantities(items: seq<LineItem>) {
    forall i :: 0 <= i < |items| ==> items[i].quantity >= 1
  }

  /**
   * Every quantity is missing or zero (stored as 0, counted as 1) or
   * positive; only a negative quantity is excluded.
   */
  ghost predicate NonNegativeQuantities(items: seq<LineItem>) {
    forall i :: 0 <= i < |items| ==> items[i].quantity >= 0
  }

  /** The cart's invariant: ids are unique and every quantity is at least 1. */
  ghost predicate WellFormed(items: seq<LineItem>) {
    UniqueIds(items) && PositiveQuantities(items)
  }

  /** `k` is where `cart.find(item => item.id === id)` stops. */
  predicate IsFirstWithId(items: seq<LineItem>, id: string, k: int) {
    && 0 <= k < |items|
    && items[k].id == id
    && forall j :: 0 <= j < k ==> items[j].id != id
  }

  predicate HasId(items: seq<LineItem>, id: string) {
    exists j :: 0 <= j < |items| && items[j].id == id
  }

  // ---------------------------------------------------------------------------
  // Totals

  /** `cart.reduce((sum, item) => sum + (item.quantity || 1), 0)`: the counter total. */
  function TotalQuantity(items: seq<LineItem>): int {
    if items == [] then 0
    else TotalQuantity(items[..|items| - 1]) + Quantity(items[|items| - 1])
  }

  /** The counter is shown exactly when its total is positive. */
  predicate CounterShown(items: seq<LineItem>) {
    TotalQuantity(items) > 0
  }

  /** `parsePrice(item.price) * (item.quantity || 1)`. */
  function LineTotal(item: LineItem): real {
    ParsePrice(item.price) * Quantity(item) as real
  }

  /** The checkout `totalAmount`: the sum of the line totals, left to right. */
  function OrderTotal(items: seq<LineItem>): real {
    if items == [] then 0.0
    else OrderTotal(items[..|items| - 1]) + LineTotal(items[|items| - 1])
  }

  /** One more or one fewer of an item moves its line total by one unit price. */
  lemma LineTotalStep(item: LineItem, d: int)
    requires d == 1 || d == -1
    requires Quantity(item) + d != 0
    ensures LineTotal(item.(quantity := Quantity(item) + d)) == LineTotal(item) + d as real * ParsePrice(item.price)
  {
    var p, q := ParsePrice(item.price), Quantity(item);
    assert LineTotal(item.(quantity := q + d)) == p * (q + d) as real;
    assert p * (q + d) as real == p * q as real + d as real * p;
  }

  lemma {:induction false} TotalQuantityConcat(a: seq<LineItem>, b: seq<LineItem>)
    ensures TotalQuantity(a + b) == TotalQuantity(a) + TotalQuantity(b)
  {
    if b == [] {
      assert a + b == a;
    } else {
      assert (a + b)[..|a + b| - 1] == a + b[..|b| - 1];
      TotalQuantityConcat(a, b[..|b| - 1]);
    }
  }

  lemma {:induction false} OrderTotalConcat(a: seq<LineItem>, b: seq<LineItem>)
    ensures OrderTotal(a + b) == OrderTotal(a) + OrderTotal(b)
  {
    if b == [] {
      assert a + b == a;
    } else {
      assert (a + b)[..|a + b| - 1] == a + b[..|b| - 1];
      OrderTotalConcat(a, b[..|b| - 1]);
    }
  }

  /** The totals of a cart split around position `i`. */
  lemma TotalsAround(items: seq<LineItem>, i: int)
    requires 0 <= i < |items|
    ensures TotalQuantity(items)
         == TotalQuantity(items[..i]) + Quantity(items[i]) + TotalQuantity(items[i + 1..])
    ensures OrderTotal(items)
         == OrderTotal(items[..i]) + LineTotal(items[i]) + OrderTotal(items[i + 1..])
  {
    assert items == items[..i] + [items[i]] + items[i + 1..];
    TotalQuantityConcat(items[..i] + [items[i]], items[i + 1..]);
    TotalQuantityConcat(items[..i], [items[i]]);
    OrderTotalConcat(items[..i] + [items[i]], items[i + 1..]);
    OrderTotalConcat(items[..i], [items[i]]);
    assert [items[i]][..0] == [];
  }

  /** Replacing the item at `i` changes each total by the difference of the two items. */
  lemma TotalsOfUpdate(items: seq<LineItem>, i: int, x: LineItem)
    requires 0 <= i < |items|
    ensures TotalQuantity(items[i := x]) == TotalQuantity(items) - Quantity(items[i]) + Quantity(x)
    ensures OrderTotal(items[i := x]) == OrderTotal(items) - LineTotal(items[i]) + LineTotal(x)
  {
    var r := items[i := x];
    assert r[..i] == items[..i] && r[i + 1..] == items[i + 1..];
    TotalsAround(items, i);
    TotalsAround(r, i);
  }

  /** Deleting the item at `i` takes its share off each total. */
  lemma TotalsOfRemoval(items: seq<LineItem>, i: int)
    requires 0 <= i < |items|
    ensures TotalQuantity(RemoveAt(items, i)) == TotalQuantity(items) - Quantity(items[i])
    ensures OrderTotal(RemoveAt(items, i)) == OrderTotal(items) - LineTotal(items[i])
  {
    TotalsAround(items, i);
    TotalQuantityConcat(items[..i], items[i + 1..]);
    OrderTotalConcat(items[..i], items[i + 1..]);
  }

  /** With no negative quantity, every line adds at least 1 to the counter. */
  lemma {:induction false} TotalQuantityAtLeastLength(items: seq<LineItem>)
    requires NonNegativeQuantities(items)
    ensures TotalQuantity(items) >= |items|
  {
    if items != [] {
      TotalQuantityAtLeastLength(items[..|items| - 1]);
    }
  }

  /** With no negative quantity, the counter is shown exactly when the cart has items. */
  lemma CounterShownIffNonEmpty(items: seq<LineItem>)
    requires NonNegativeQuantities(items)
    ensures CounterShown(items) <==> items != []
  {
    TotalQuantityAtLeastLength(items);
  }

  /** Two lines, 10 x 2 and 5 x 1: the subtotal is 25 and the counter shows 3. */
  lemma TotalsExample(a: LineItem, b: LineItem)
    requires a.price == Number(10.0) && a.quantity == 2
    requires b.price == Number(5.0) && b.quantity == 1
    ensures OrderTotal([a, b]) == 25.0
    ensures TotalQuantity([a, b]) == 3
  {
    assert [a, b][..1] == [a];
    assert [a][..0] == [];
    assert LineTotal(a) == 20.0 && LineTotal(b) == 5.0;
    assert OrderTotal([a]) == 20.0;
    assert TotalQuantity([a]) == 2;
  }

  // ---------------------------------------------------------------------------
  // Adding a product

  /** The checks `addToCart` makes before touching the cart. */
  predicate Accepts(product: Option<Product>) {
    && product.Some?
    && product.value.title != ""
    && product.value.image != ""
    && ParsePrice(product.value.price) > 0.0
  }

  /** The line `addToCart` pushes for a product that is not in the cart yet. */
  function NewLine(p: Product, numberText: real -> string): LineItem {
    var price := ParsePrice(p.price);
    LineItem(ItemId(p.title, price, numberText), p.title, Number(price), p.image, 1)
  }

  /** `item.quantity = (item.quantity || 1) + 1`. */
  function Incremented(item: LineItem): LineItem {
    item.(quantity := Quantity(item) + 1)
  }

  /**
   * Reference definition of adding `line` to the cart: the first item with
   * its id gets one more, and when there is none `line` goes at the end.
   */
  function AddLine(items: seq<LineItem>, line: LineItem): seq<LineItem> {
    if items == [] then [line]
    else if items[0].id == line.id then [Incremented(items[0])] + items[1..]
    else [items[0]] + AddLine(items[1..], line)
  }

  /** Every id in a cart has a first occurrence. */
  lemma {:induction false} FirstWithId(items: seq<LineItem>, id: string) returns (k: nat)
    requires HasId(items, id)
    ensures IsFirstWithId(items, id, k)
  {
    if items[0].id == id {
      k := 0;
    } else {
      var j :| 0 <= j < |items| && items[j].id == id;
      assert items[1..][j - 1].id == id;
      var k' := FirstWithId(items[1..], id);
      k := k' + 1;
    }
  }

  /** When an item has the line's id, adding increments the first such item in place. */
  lemma {:induction false} AddLineAtFirstMatch(items: seq<LineItem>, line: LineItem, k: int)
    requires IsFirstWithId(items, line.id, k)
    ensures AddLine(items, line) == items[k := Incremented(items[k])]
  {
    if k == 0 {
      assert items == [items[0]] + items[1..];
    } else {
      AddLineAtFirstMatch(items[1..], line, k - 1);
      assert items == [items[0]] + items[1..];
    }
  }

  /** When no item has the line's id, adding appends the line. */
  lemma {:induction false} AddLineWithoutMatch(items: seq<LineItem>, line: LineItem)
    requires !HasId(items, line.id)
    ensures AddLine(items, line) == items + [line]
  {
    if items != [] {
      assert !HasId(items[1..], line.id) by {
        forall j | 0 <= j < |items[1..]| ensures items[1..][j].id != line.id {
          assert items[1..][j] == items[j + 1];
        }
      }
      AddLineWithoutMatch(items[1..], line);
      assert items == [items[0]] + items[1..];
    }
  }

  /**
   * Adding a line with an id already present changes only that item: one
   * more of it, same length, same order, everything else equal.
   */
  lemma AddExisting(items: seq<LineItem>, line: LineItem, k: int)
    requires IsFirstWithId(items, line.id, k)
    ensures |AddLine(items, line)| == |items|
    ensures AddLine(items, line)[k].quantity == Quantity(items[k]) + 1
    ensures AddLine(items, line)[k] == items[k].(quantity := AddLine(items, line)[k].quantity)
    ensures forall j :: 0 <= j < |items| && j != k ==> AddLine(items, line)[j] == items[j]
  {
    AddLineAtFirstMatch(items, line, k);
  }

  /** Adding a line with a new id appends exactly that line. */
  lemma AddNew(items: seq<LineItem>, line: LineItem)
    requires !HasId(items, line.id)
    ensures |AddLine(items, line)| == |items| + 1
    ensures AddLine(items, line)[..|items|] == items
    ensures AddLine(items, line)[|items|] == line
  {
    AddLineWithoutMatch(items, line);
  }

  /** Adding keeps ids unique and quantities positive. */
  lemma AddLinePreservesWellFormed(items: seq<LineItem>, line: LineItem)
    requires WellFormed(items) && line.quantity >= 1
    ensures WellFormed(AddLine(items, line))
  {
    if HasId(items, line.id) {
      var k := FirstWithId(items, line.id);
      AddLineAtFirstMatch(items, line, k);
    } else {
      AddLineWithoutMatch(items, line);
    }
  }

  /** Adding raises the counter by exactly one. */
  lemma AddLineTotalQuantity(items: seq<LineItem>, line: LineItem)
    requires NonNegativeQuantities(items) && line.quantity == 1
    ensures TotalQuantity(AddLine(items, line)) == TotalQuantity(items) + 1
  {
    if HasId(items, line.id) {
      var k := FirstWithId(items, line.id);
      AddLineAtFirstMatch(items, line, k);
      TotalsOfUpdate(items, k, Incremented(items[k]));
    } else {
      AddLineWithoutMatch(items, line);
      TotalQuantityConcat(items, [line]);
      assert [line][..0] == [];
    }
  }

  /** Adding a line with a new id raises the order total by that line's unit price. */
  lemma AddNewOrderTotal(items: seq<LineItem>, line: LineItem)
    requires !HasId(items, line.id) && line.quantity == 1
    ensures OrderTotal(AddLine(items, line)) == OrderTotal(items) + ParsePrice(line.price)
  {
    AddLineWithoutMatch(items, line);
    OrderTotalConcat(items, [line]);
    assert [line][..0] == [];
  }

  /** Adding a line whose id is present raises the order total by the matched item's unit price. */
  lemma AddExistingOrderTotal(items: seq<LineItem>, line: LineItem, k: int)
    requires IsFirstWithId(items, line.id, k) && items[k].quantity >= 0
    ensures OrderTotal(AddLine(items, line)) == OrderTotal(items) + ParsePrice(items[k].price)
  {
    AddLineAtFirstMatch(items, line, k);
    TotalsOfUpdate(items, k, Incremented(items[k]));
    LineTotalStep(items[k], 1);
  }

  /**
   * The same product added twice to a cart that does not hold it gives one
   * new line with quantity 2, not two lines.
   */
  lemma AddTwiceMerges(items: seq<LineItem>, p: Product, numberText: real -> string)
    requires !HasId(items, NewLine(p, numberText).id)
    ensures var line := NewLine(p, numberText);
            AddLine(AddLine(items, line), line) == items + [line.(quantity := 2)]
  {
    var line := NewLine(p, numberText);
    AddLineWithoutMatch(items, line);
    assert IsFirstWithId(items + [line], line.id, |items|);
    AddLineAtFirstMatch(items + [line], line, |items|);
  }

  /** The characters of `t + "_" + a` past the underscore are those of `a`. */
  lemma CharAfterUnderscore(t: string, a: string, m: int)
    requires |t| < m < |t| + 1 + |a|
    ensures (t + "_" + a)[m] == a[m - |t| - 1] && (t + "_" + a)[|t|] == '_'
  {
  }

  /**
   * Two ids are equal exactly when titles and prices are, as long as the
   * engine writes neither price with an underscore and writes the two prices
   * differently when they differ: two product cards with the same title and
   * price share one line, and different ones get different lines.
   */
  lemma ItemIdsEqualIff(t1: string, p1: real, t2: string, p2: real, numberText: real -> string)
    requires '_' !in numberText(p1) && '_' !in numberText(p2)
    requires numberText(p1) == numberText(p2) ==> p1 == p2
    ensures ItemId(t1, p1, numberText) == ItemId(t2, p2, numberText) <==> t1 == t2 && p1 == p2
  {
    var a, b := numberText(p1), numberText(p2);
    var s1, s2 := ItemId(t1, p1, numberText), ItemId(t2, p2, numberText);
    if s1 == s2 {
      if |a| < |b| {
        CharAfterUnderscore(t2, b, |t1|);
        assert false;
      } else if |b| < |a| {
        CharAfterUnderscore(t1, a, |t2|);
        assert false;
      }
      assert a == s1[|s1| - |a|..] == b;
      assert t1 == s1[..|t1|] == t2;
    }
  }

  // ---------------------------------------------------------------------------
  // The quantity controls

  /** `cart.splice(index, 1)`. */
  function RemoveAt(items: seq<LineItem>, index: int): (r: seq<LineItem>)
    requires 0 <= index < |items|
  {
    items[..index] + items[index + 1..]
  }

  /**
   * Reference definition of a cart action on the item at `index`:
   * "increase" adds one, "decrease" takes one off and deletes the item when
   * nothing is left, "remove" deletes it; an index with no item and any
   * other action change nothing.
   */
  function ApplyAction(items: seq<LineItem>, action: string, index: int): seq<LineItem> {
    if !(0 <= index < |items|) then items
    else if action == "increase" then items[index := Incremented(items[index])]
    else if action == "decrease" then
      var q := Quantity(items[index]) - 1;
      if q <= 0 then RemoveAt(items, index) else items[index := items[index].(quantity := q)]
    else if action == "remove" then RemoveAt(items, index)
    else items
  }

  /** Deleting an item keeps the others in their order, shifting later ones down by one. */
  lemma RemoveAtShifts(items: seq<LineItem>, index: int)
    requires 0 <= index < |items|
    ensures |RemoveAt(items, index)| == |items| - 1
    ensures forall j :: 0 <= j < index ==> RemoveAt(items, index)[j] == items[j]
    ensures forall j :: index <= j < |items| - 1 ==> RemoveAt(items, index)[j] == items[j + 1]
  {
  }

  /** "increase" and "decrease" touch only the quantity of the item at `index`. */
  lemma StepChangesOnlyTarget(items: seq<LineItem>, action: string, index: int)
    requires 0 <= index < |items|
    requires action == "increase" || (action == "decrease" && Quantity(items[index]) > 1)
    ensures var r := ApplyAction(items, action, index);
      && |r| == |items|
      && r[index] == items[index].(quantity := r[index].quantity)
      && r[index].quantity == Quantity(items[index]) + (if action == "increase" then 1 else -1)
      && forall j :: 0 <= j < |items| && j != index ==> r[j] == items[j]
  {
  }

  /** A decrease deletes the item exactly when its quantity (missing counts as 1) is at most 1. */
  lemma DecreaseRemovesIff(items: seq<LineItem>, index: int)
    requires 0 <= index < |items|
    ensures |ApplyAction(items, "decrease", index)| == |items| - 1 <==> Quantity(items[index]) <= 1
    ensures Quantity(items[index]) <= 1 ==>
      ApplyAction(items, "decrease", index) == ApplyAction(items, "remove", index)
  {
  }

  /** Every action keeps ids unique and quantities positive. */
  lemma ActionPreservesWellFormed(items: seq<LineItem>, action: string, index: int)
    requires WellFormed(items)
    ensures WellFormed(ApplyAction(items, action, index))
  {
    if 0 <= index < |items| && (action == "remove" || (action == "decrease" && Quantity(items[index]) <= 1)) {
      var r := RemoveAt(items, index);
      RemoveAtShifts(items, index);
      forall i, j | 0 <= i < j < |r| ensures r[i].id != r[j].id {
        var i' := if i < index then i else i + 1;
        var j' := if j < index then j else j + 1;
        assert r[i] == items[i'] && r[j] == items[j'];
      }
    }
  }

  /** "increase" adds one to the counter and one unit price to the order total. */
  lemma IncreaseTotals(items: seq<LineItem>, index: int)
    requires 0 <= index < |items| && items[index].quantity >= 0
    ensures TotalQuantity(ApplyAction(items, "increase", index)) == TotalQuantity(items) + 1
    ensures OrderTotal(ApplyAction(items, "increase", index))
         == OrderTotal(items) + ParsePrice(items[index].price)
  {
    var item := items[index];
    assert Incremented(item) == item.(quantity := Quantity(item) + 1);
    assert ApplyAction(items, "increase", index) == items[index := Incremented(item)];
    TotalsOfUpdate(items, index, Incremented(item));
    LineTotalStep(item, 1);
  }

  /**
   * "decrease" takes one off the counter and one unit price off the order
   * total, whether the item stays or goes.
   */
  lemma DecreaseTotals(items: seq<LineItem>, index: int)
    requires 0 <= index < |items| && items[index].quantity >= 0
    ensures TotalQuantity(ApplyAction(items, "decrease", index)) == TotalQuantity(items) - 1
    ensures OrderTotal(ApplyAction(items, "decrease", index))
         == OrderTotal(items) - ParsePrice(items[index].price)
  {
    if Quantity(items[index]) <= 1 {
      DecreaseLast(items, index);
    } else {
      DecreaseStep(items, index);
    }
  }

  lemma DecreaseLast(items: seq<LineItem>, index: int)
    requires 0 <= index < |items| && Quantity(items[index]) == 1
    ensures TotalQuantity(ApplyAction(items, "decrease", index)) == TotalQuantity(items) - 1
    ensures OrderTotal(ApplyAction(items, "decrease", index))
         == OrderTotal(items) - ParsePrice(items[index].price)
  {
    assert ApplyAction(items, "decrease", index) == RemoveAt(items, index);
    TotalsOfRemoval(items, index);
    assert LineTotal(items[index]) == ParsePrice(items[index].price) * 1.0;
  }

  lemma DecreaseStep(items: seq<LineItem>, index: int)
    requires 0 <= index < |items| && Quantity(items[index]) > 1
    ensures TotalQuantity(ApplyAction(items, "decrease", index)) == TotalQuantity(items) - 1
    ensures OrderTotal(ApplyAction(items, "decrease", index))
         == OrderTotal(items) - ParsePrice(items[index].price)
  {
    var item := items[index];
    var q := Quantity(item);
    assert ApplyAction(items, "decrease", index) == items[index := item.(quantity := q - 1)];
    TotalsOfUpdate(items, index, item.(quantity := q - 1));
    LineTotalStep(item, -1);
  }

  /** "remove" takes the item's whole quantity and line total off the totals. */
  lemma RemoveTotals(items: seq<LineItem>, index: int)
    requires 0 <= index < |items|
    ensures TotalQuantity(ApplyAction(items, "remove", index)) == TotalQuantity(items) - Quantity(items[index])
    ensures OrderTotal(ApplyAction(items, "remove", index)) == OrderTotal(items) - LineTotal(items[index])
  {
    assert ApplyAction(items, "remove", index) == RemoveAt(items, index);
    TotalsOfRemoval(items, index);
  }

  /** Any other action string leaves the cart as it is. */
  lemma UnknownActionChangesNothing(items: seq<LineItem>, action: string, index: int)
    requires action != "increase" && action != "decrease" && action != "remove"
    ensures ApplyAction(items, action, index) == items
  {
  }
}
