/**
 * The point-of-sale cart: the process-wide `currentSale` record of the worker
 * console, its line merging, line removal, discount handling and the
 * recomputation of subtotal, discount amount and total.
 */
module PosSale {
  import opened Wrappers
  import Seqs

  datatype ItemType = Product | Service

  /** A catalogue row handed to `addToSale`: a product or a service. */
  datatype CatalogItem = CatalogItem(id: string, name: string, price: real)

  /** One line of the cart; `quantity` only ever grows for products. */
  datatype Line = Line(id: string, name: string, price: real, quantity: int, subtotal: real, kind: ItemType)

  /** The discount selector: `'percentage'`, or anything else, which is a flat amount. */
  datatype DiscountKind = Percentage | Flat

  datatype Discount = Discount(kind: DiscountKind, value: real)

  /** The cart as a value, as it is written into a transaction record. */
  datatype SaleView = SaleView(items: seq<Line>, subtotal: real, discount: Option<Discount>, discountAmount: real, total: real)

  predicate SameKey(l: Line, id: string, kind: ItemType) {
    l.id == id && l.kind == kind
  }

  /** At most one line per (id, type) pair. */
  ghost predicate UniqueKeys(items: seq<Line>) {
    forall i, j :: 0 <= i < j < |items| ==> !SameKey(items[j], items[i].id, items[i].kind)
  }

  /** A line's subtotal is its quantity times its unit price, with quantity at least 1. */
  ghost predicate Consistent(l: Line) {
    l.quantity >= 1 && l.subtotal == l.quantity as real * l.price
  }

  ghost predicate AllConsistent(items: seq<Line>) {
    forall i :: 0 <= i < |items| ==> Consistent(items[i])
  }

  /** `items.find(i => i.id === id && i.type === type)`, as an index. */
  function FindLine(items: seq<Line>, id: string, kind: ItemType): (r: Option<nat>)
    ensures r.Some? ==> r.value < |items| && SameKey(items[r.value], id, kind)
    ensures r.Some? ==> forall j :: 0 <= j < r.value ==> !SameKey(items[j], id, kind)
    ensures r.None? ==> forall j :: 0 <= j < |items| ==> !SameKey(items[j], id, kind)
    decreases |items|
  {
    if items == [] then None
    else if SameKey(items[0], id, kind) then Some(0)
    else match FindLine(items[1..], id, kind)
      case Some(k) => Some(k + 1)
      case None => None
  }

  function NewLine(item: CatalogItem, kind: ItemType): Line {
    Line(item.id, item.name, item.price, 1, item.price, kind)
  }

  /** `existingItem.quantity++` followed by `subtotal = quantity * price`. */
  function Bump(l: Line): Line {
    l.(quantity := l.quantity + 1, subtotal := (l.quantity + 1) as real * l.price)
  }

  /** The lines after `addToSale(item, type)`. */
  function AddLine(items: seq<Line>, item: CatalogItem, kind: ItemType): seq<Line> {
    match FindLine(items, item.id, kind)
    case Some(k) => if kind == Product then items[k := Bump(items[k])] else items
    case None => items + [NewLine(item, kind)]
  }

  /** The lines after `removeFromSale(index)`: `splice(index, 1)`, a no-op past the end. */
  function RemoveAt(items: seq<Line>, index: nat): (r: seq<Line>)
    ensures index < |items| ==> |r| == |items| - 1
    ensures index < |items| ==> forall j :: 0 <= j < index ==> r[j] == items[j]
    ensures index < |items| ==> forall j :: index <= j < |r| ==> r[j] == items[j + 1]
    ensures index >= |items| ==> r == items
  {
    if index < |items| then items[..index] + items[index + 1..] else items
  }

  /** Sum of the line subtotals, accumulated in order. */
  function Subtotal(items: seq<Line>): real
    decreases |items|
  {
    if items == [] then 0.0 else Subtotal(items[..|items| - 1]) + items[|items| - 1].subtotal
  }

  /** The discount amount for a subtotal: `subtotal * v / 100`, the flat `v`, or 0 without a discount. */
  function DiscountAmount(d: Option<Discount>, subtotal: real): real {
    match d
    case None => 0.0
    case Some(Discount(Percentage, v)) => subtotal * v / 100.0
    case Some(Discount(Flat, v)) => v
  }

  /** The cart totals as `updateSaleDisplay` leaves them. */
  ghost predicate TotalsConsistent(v: SaleView) {
    && v.subtotal == Subtotal(v.items)
    && v.discountAmount == DiscountAmount(v.discount, v.subtotal)
    && v.total == v.subtotal - v.discountAmount
  }

  // ---------------------------------------------------------------------------
  // Properties of the cart functions
  // ---------------------------------------------------------------------------

  /** Adding a product that is already in the cart raises its quantity by exactly one and nothing else changes. */
  lemma AddExistingProduct(items: seq<Line>, item: CatalogItem, k: nat)
    requires UniqueKeys(items)
    requires k < |items| && SameKey(items[k], item.id, Product)
    ensures |AddLine(items, item, Product)| == |items|
    ensures AddLine(items, item, Product)[k] == items[k].(quantity := items[k].quantity + 1,
                                                         subtotal := (items[k].quantity + 1) as real * items[k].price)
    ensures forall j :: 0 <= j < |items| && j != k ==> AddLine(items, item, Product)[j] == items[j]
  {
  }

  /** Bumping a consistent line keeps it consistent and raises its subtotal by one unit price. */
  lemma BumpAddsPrice(l: Line)
    requires Consistent(l)
    ensures Consistent(Bump(l)) && Bump(l).subtotal == l.subtotal + l.price
  {
    var a := l.quantity as real;
    assert (l.quantity + 1) as real == a + 1.0;
    assert (a + 1.0) * l.price == a * l.price + l.price;
  }

  /** Adding a service that is already in the cart changes nothing. */
  lemma AddExistingService(items: seq<Line>, item: CatalogItem, k: nat)
    requires k < |items| && SameKey(items[k], item.id, Service)
    ensures AddLine(items, item, Service) == items
  {
  }

  /** An item that is not yet in the cart gets a new last line with quantity 1 and subtotal equal to its price. */
  lemma AddAbsent(items: seq<Line>, item: CatalogItem, kind: ItemType)
    requires forall j :: 0 <= j < |items| ==> !SameKey(items[j], item.id, kind)
    ensures AddLine(items, item, kind) == items + [Line(item.id, item.name, item.price, 1, item.price, kind)]
  {
  }

  /** `addToSale` keeps at most one line per (id, type) and keeps every line's subtotal equal to quantity times price. */
  lemma {:induction false} AddLinePreservesInvariant(items: seq<Line>, item: CatalogItem, kind: ItemType)
    requires UniqueKeys(items) && AllConsistent(items)
    ensures UniqueKeys(AddLine(items, item, kind)) && AllConsistent(AddLine(items, item, kind))
  {
    var r := AddLine(items, item, kind);
    match FindLine(items, item.id, kind)
    case Some(k) =>
      if kind == Product {
        assert forall j :: 0 <= j < |r| ==> r[j].id == items[j].id && r[j].kind == items[j].kind;
        BumpAddsPrice(items[k]);
      }
    case None =>
      forall i, j | 0 <= i < j < |r| ensures !SameKey(r[j], r[i].id, r[i].kind) {
        if j == |items| {
          assert r[j] == NewLine(item, kind);
          assert !SameKey(items[i], item.id, kind);
        }
      }
  }

  /** `removeFromSale` keeps at most one line per (id, type) and consistent line subtotals. */
  lemma RemovePreservesInvariant(items: seq<Line>, index: nat)
    requires UniqueKeys(items) && AllConsistent(items)
    ensures UniqueKeys(RemoveAt(items, index)) && AllConsistent(RemoveAt(items, index))
  {
    var r := RemoveAt(items, index);
    if index < |items| {
      forall i, j | 0 <= i < j < |r| ensures !SameKey(r[j], r[i].id, r[i].kind) {
        var i' := if i < index then i else i + 1;
        var j' := if j < index then j else j + 1;
        assert r[i] == items[i'] && r[j] == items[j'] && i' < j';
      }
      forall i | 0 <= i < |r| ensures Consistent(r[i]) {
        assert r[i] == items[if i < index then i else i + 1];
      }
    }
  }

  /** The subtotal of a concatenation is the sum of the subtotals. */
  lemma {:induction false} SubtotalAppend(a: seq<Line>, b: seq<Line>)
    ensures Subtotal(a + b) == Subtotal(a) + Subtotal(b)
    decreases |b|
  {
    if b == [] {
      assert a + b == a;
    } else {
      var b' := b[..|b| - 1];
      assert (a + b)[..|a + b| - 1] == a + b';
      SubtotalAppend(a, b');
    }
  }

  /** Replacing one line changes the subtotal by the difference of the two line subtotals. */
  lemma SubtotalUpdate(items: seq<Line>, k: nat, l: Line)
    requires k < |items|
    ensures Subtotal(items[k := l]) == Subtotal(items) - items[k].subtotal + l.subtotal
  {
    var pre, post := items[..k], items[k + 1..];
    assert items == pre + [items[k]] + post;
    assert items[k := l] == pre + [l] + post;
    SubtotalAppend(pre + [items[k]], post);
    SubtotalAppend(pre + [l], post);
    SubtotalAppend(pre, [items[k]]);
    SubtotalAppend(pre, [l]);
  }

  /** With consistent lines, `addToSale` raises the cart subtotal by one unit price, except for a service already present. */
  lemma AddLineSubtotal(items: seq<Line>, item: CatalogItem, kind: ItemType)
    requires AllConsistent(items)
    ensures FindLine(items, item.id, kind).None? ==>
      Subtotal(AddLine(items, item, kind)) == Subtotal(items) + item.price
    ensures FindLine(items, item.id, kind).Some? && kind == Product ==>
      Subtotal(AddLine(items, item, kind)) == Subtotal(items) + items[FindLine(items, item.id, kind).value].price
    ensures FindLine(items, item.id, kind).Some? && kind == Service ==>
      Subtotal(AddLine(items, item, kind)) == Subtotal(items)
  {
    match FindLine(items, item.id, kind)
    case Some(k) =>
      if kind == Product {
        SubtotalUpdate(items, k, Bump(items[k]));
        BumpAddsPrice(items[k]);
      }
    case None =>
      SubtotalAppend(items, [NewLine(item, kind)]);
  }

  /** Removing line `index` lowers the cart subtotal by exactly that line's subtotal. */
  lemma RemoveAtSubtotal(items: seq<Line>, index: nat)
    requires index < |items|
    ensures Subtotal(RemoveAt(items, index)) == Subtotal(items) - items[index].subtotal
  {
    Seqs.SplitAround(items, index);
    SubtotalSplice(items[..index], items[index], items[index + 1..]);
  }

  /** One line between two runs of lines adds its own subtotal to theirs. */
  lemma SubtotalSplice(pre: seq<Line>, l: Line, post: seq<Line>)
    ensures Subtotal(pre + [l] + post) == Subtotal(pre) + l.subtotal + Subtotal(post)
    ensures Subtotal(pre + post) == Subtotal(pre) + Subtotal(post)
  {
    SubtotalAppend(pre + [l], post);
    SubtotalAppend(pre, [l]);
    SubtotalAppend(pre, post);
    assert [l][..0] == [];
  }

  /** With no discount the total equals the subtotal. */
  lemma NoDiscountTotal(v: SaleView)
    requires TotalsConsistent(v) && v.discount.None?
    ensures v.discountAmount == 0.0 && v.total == v.subtotal
  {
  }

  /** The total is not clamped: a discount above the subtotal yields a negative total. */
  lemma NegativeTotalPossible()
    ensures exists v: SaleView :: TotalsConsistent(v) && v.total < 0.0
  {
    var l := Line("p1", "pen", 5.0, 1, 5.0, Product);
    var v := SaleView([l], 5.0, Some(Discount(Flat, 10.0)), 10.0, -5.0);
    assert [l][..0] == [];
    assert Subtotal([l]) == 5.0;
    assert TotalsConsistent(v);
  }

  /** The worked example: two units of a product at 500 and a service at 1500, flat discount 200. */
  lemma WorkedExample()
    ensures var items := [Line("A", "A", 500.0, 2, 1000.0, Product), Line("B", "B", 1500.0, 1, 1500.0, Service)];
            Subtotal(items) == 2500.0 &&
            DiscountAmount(Some(Discount(Flat, 200.0)), 2500.0) == 200.0 &&
            Subtotal(items) - DiscountAmount(Some(Discount(Flat, 200.0)), Subtotal(items)) == 2300.0
  {
    var items := [Line("A", "A", 500.0, 2, 1000.0, Product), Line("B", "B", 1500.0, 1, 1500.0, Service)];
    assert items[..1] == [items[0]];
    assert items[..1][..0] == [];
  }

  // ---------------------------------------------------------------------------
  // The mutable cart
  // ---------------------------------------------------------------------------

  /** The process-wide `currentSale` object, whose fields the cart functions overwrite in place. */
  class Sale {
    var items: seq<Line>
    var subtotal: real
    var discount: Option<Discount>
    var discountAmount: real
    var total: real

    function View(): SaleView
      reads this
    {
      SaleView(items, subtotal, discount, discountAmount, total)
    }

    /** The state every cart operation leaves behind (each ends by recomputing the totals). */
    ghost predicate Valid()
      reads this
    {
      && UniqueKeys(items)
      && AllConsistent(items)
      && TotalsConsistent(View())
    }

    /** `{ items: [], subtotal: 0, discount: null, discountAmount: 0, total: 0 }`. */
    constructor ()
      ensures Valid()
      ensures items == [] && subtotal == 0.0 && discount == None && discountAmount == 0.0 && total == 0.0
    {
      items := [];
      subtotal := 0.0;
      discount := None;
      discountAmount := 0.0;
      total := 0.0;
      new;
      assert UniqueKeys(items) && AllConsistent(items);
      assert TotalsConsistent(View());
    }

    /** The totals part of `updateSaleDisplay`: sum the line subtotals in order, then apply the discount. */
    method UpdateSaleDisplay()
      modifies this
      ensures items == old(items) && discount == old(discount)
      ensures TotalsConsistent(View())
    {
      subtotal := 0.0;
      var i := 0;
      while i < |items|
        invariant items == old(items) && discount == old(discount)
        invariant 0 <= i <= |items|
        invariant subtotal == Subtotal(items[..i])
      {
        assert items[..i + 1][..i] == items[..i];
        subtotal := subtotal + items[i].subtotal;
        i := i + 1;
      }
      assert items[..|items|] == items;
      match discount {
        case None =>
          discountAmount := 0.0;
        case Some(d) =>
          if d.kind == Percentage {
            discountAmount := (subtotal * d.value) / 100.0;
          } else {
            discountAmount := d.value;
          }
      }
      total := subtotal - discountAmount;
    }

    /** `addToSale(item, type)`. */
    method AddToSale(item: CatalogItem, kind: ItemType)
      requires Valid()
      modifies this
      ensures Valid()
      ensures items == AddLine(old(items), item, kind) && discount == old(discount)
    {
      var found := FindLine(items, item.id, kind);
      match found {
        case Some(k) =>
          if kind == Product {
            items := items[k := Bump(items[k])];
          }
        case None =>
          items := items + [NewLine(item, kind)];
      }
      AddLinePreservesInvariant(old(items), item, kind);
      UpdateSaleDisplay();
    }

    /** `removeFromSale(index)`. */
    method RemoveFromSale(index: nat)
      requires Valid()
      modifies this
      ensures Valid()
      ensures items == RemoveAt(old(items), index) && discount == old(discount)
    {
      RemovePreservesInvariant(items, index);
      if index < |items| {
        items := items[..index] + items[index + 1..];
      }
      UpdateSaleDisplay();
    }

    /**
     * `applyDiscount()` with the selected kind and the parsed value; `None`
     * stands for a value that did not parse (`NaN`). A missing or negative
     * value leaves the cart as it was.
     */
    method ApplyDiscount(kind: DiscountKind, value: Option<real>)
      requires Valid()
      modifies this
      ensures Valid()
      ensures value.None? || value.value < 0.0 ==> View() == old(View())
      ensures value.Some? && value.value >= 0.0 ==>
        items == old(items) && discount == Some(Discount(kind, value.value))
    {
      if value.None? || value.value < 0.0 {
        return;
      }
      discount := Some(Discount(kind, value.value));
      UpdateSaleDisplay();
    }

    /** `clearDiscount()`: drops the discount, so the total becomes the subtotal. */
    method ClearDiscount()
      requires Valid()
      modifies this
      ensures Valid()
      ensures items == old(items) && discount == None
      ensures discountAmount == 0.0 && total == subtotal
    {
      discount := None;
      UpdateSaleDisplay();
    }

    /** The reset at the end of a completed sale: a fresh empty cart, then the totals recomputed. */
    method Reset()
      modifies this
      ensures Valid()
      ensures items == [] && subtotal == 0.0 && discount == None && discountAmount == 0.0 && total == 0.0
    {
      items, subtotal, discount, discountAmount, total := [], 0.0, None, 0.0, 0.0;
      assert UniqueKeys(items) && AllConsistent(items);
      UpdateSaleDisplay();
    }
  }
}
