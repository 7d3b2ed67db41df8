/** The shopping-cart rules of `EcommerceApp` (js/app.js), as functions over the cart's
    sequence of lines: lookup, adding a unit, removing a product, changing a quantity,
    the two reductions (item count and total) and the category filter of the catalog.
    Prices are integer cents. */
module CartModel {
  import opened Common

  type ProductId = int

  /** A catalog product as the product data lists it. */
  datatype Product = Product(
    id: ProductId,
    name: string,
    category: string,
    price: nat,
    image: string,
    rating: real,
    inStock: bool)

  /** A cart line: the copy of the product taken when it was first added, plus a quantity. */
  datatype CartLine = CartLine(product: Product, quantity: int)

  /** The cart invariant: every quantity is at least one and no product has two lines. */
  predicate WellFormed(cart: seq<CartLine>)
  {
    && (forall i :: 0 <= i < |cart| ==> cart[i].quantity >= 1)
    && (forall i, j :: 0 <= i < j < |cart| ==> cart[i].product.id != cart[j].product.id)
  }

  // ---------------------------------------------------------------- lookups

  /** `products.find(p => p.id === id)`, as the index of the first match. */
  function IndexOfProduct(products: seq<Product>, id: ProductId): (r: Option<nat>)
    ensures r.Some? ==> r.value < |products| && products[r.value].id == id
    ensures r.Some? ==> forall j :: 0 <= j < r.value ==> products[j].id != id
    ensures r.None? <==> forall j :: 0 <= j < |products| ==> products[j].id != id
  {
    if products == [] then None
    else if products[0].id == id then Some(0)
    else match IndexOfProduct(products[1..], id)
      case None => None
      case Some(k) => Some(k + 1)
  }

  /** `cart.find(item => item.id === id)`, as the index of the first match. */
  function IndexOfLine(cart: seq<CartLine>, id: ProductId): (r: Option<nat>)
    ensures r.Some? ==> r.value < |cart| && cart[r.value].product.id == id
    ensures r.Some? ==> forall j :: 0 <= j < r.value ==> cart[j].product.id != id
    ensures r.None? <==> forall j :: 0 <= j < |cart| ==> cart[j].product.id != id
  {
    if cart == [] then None
    else if cart[0].product.id == id then Some(0)
    else match IndexOfLine(cart[1..], id)
      case None => None
      case Some(k) => Some(k + 1)
  }

  /** The number of lines of `cart` that belong to product `id`. */
  function LinesWith(cart: seq<CartLine>, id: ProductId): nat
  {
    if cart == [] then 0
    else (if cart[0].product.id == id then 1 else 0) + LinesWith(cart[1..], id)
  }

  /** The summed quantity of the lines of `cart` that belong to product `id`. */
  function QuantityOf(cart: seq<CartLine>, id: ProductId): int
  {
    if cart == [] then 0
    else (if cart[0].product.id == id then cart[0].quantity else 0) + QuantityOf(cart[1..], id)
  }

  // ---------------------------------------------------------------- reductions

  /** `cart.reduce((sum, item) => sum + item.quantity, 0)`. */
  function ItemCount(cart: seq<CartLine>): (r: int)
    ensures (forall i :: 0 <= i < |cart| ==> cart[i].quantity >= 1) ==> r >= |cart|
  {
    if cart == [] then 0 else cart[0].quantity + ItemCount(cart[1..])
  }

  /** The price shown for one line: unit price times quantity. */
  function LineTotal(line: CartLine): int
  {
    line.product.price * line.quantity
  }

  /** `cart.reduce((sum, item) => sum + item.price * item.quantity, 0)`. */
  function CartTotal(cart: seq<CartLine>): (r: int)
    ensures (forall i :: 0 <= i < |cart| ==> cart[i].quantity >= 0) ==> r >= 0
  {
    if cart == [] then 0 else LineTotal(cart[0]) + CartTotal(cart[1..])
  }

  // ---------------------------------------------------------------- cart operations

  /** The cart after one unit of the in-stock product `p` is added: an existing line for
      `p.id` gains one unit in place, otherwise a line with quantity one is appended. */
  function AddLine(cart: seq<CartLine>, p: Product): seq<CartLine>
  {
    match IndexOfLine(cart, p.id)
    case Some(i) => cart[i := cart[i].(quantity := cart[i].quantity + 1)]
    case None => cart + [CartLine(p, 1)]
  }

  /** `cart.filter(item => item.id !== id)`. */
  function Removed(cart: seq<CartLine>, id: ProductId): (r: seq<CartLine>)
    ensures forall l :: l in r <==> l in cart && l.product.id != id
    ensures forall l :: multiset(r)[l] == if l.product.id != id then multiset(cart)[l] else 0
    ensures IsSubsequence(r, cart)
  {
    if cart == [] then []
    else
      assert cart == [cart[0]] + cart[1..];
      if cart[0].product.id != id then [cart[0]] + Removed(cart[1..], id)
      else Removed(cart[1..], id)
  }

  /** The cart after `updateQuantity(id, change)`: no line, no change; a quantity that
      drops to zero or below removes the product; otherwise the line takes the new quantity. */
  function Updated(cart: seq<CartLine>, id: ProductId, change: int): seq<CartLine>
  {
    match IndexOfLine(cart, id)
    case None => cart
    case Some(i) =>
      if cart[i].quantity + change <= 0 then Removed(cart, id)
      else cart[i := cart[i].(quantity := cart[i].quantity + change)]
  }

  /** `products.filter(p => p.category === category)`. */
  function InCategory(products: seq<Product>, category: string): (r: seq<Product>)
    ensures forall p :: p in r <==> p in products && p.category == category
    ensures forall p :: multiset(r)[p] == if p.category == category then multiset(products)[p] else 0
    ensures IsSubsequence(r, products)
  {
    if products == [] then []
    else
      assert products == [products[0]] + products[1..];
      if products[0].category == category then [products[0]] + InCategory(products[1..], category)
      else InCategory(products[1..], category)
  }

  // ---------------------------------------------------------------- sums over pieces

  lemma {:induction false} ItemCountAppend(s: seq<CartLine>, t: seq<CartLine>)
    ensures ItemCount(s + t) == ItemCount(s) + ItemCount(t)
  {
    if s != [] {
      assert (s + t)[1..] == s[1..] + t;
      ItemCountAppend(s[1..], t);
    } else {
      assert s + t == t;
    }
  }

  lemma {:induction false} CartTotalAppend(s: seq<CartLine>, t: seq<CartLine>)
    ensures CartTotal(s + t) == CartTotal(s) + CartTotal(t)
  {
    if s != [] {
      assert (s + t)[1..] == s[1..] + t;
      CartTotalAppend(s[1..], t);
    } else {
      assert s + t == t;
    }
  }

  lemma {:induction false} LinesWithAppend(s: seq<CartLine>, t: seq<CartLine>, id: ProductId)
    ensures LinesWith(s + t, id) == LinesWith(s, id) + LinesWith(t, id)
  {
    if s != [] {
      assert (s + t)[1..] == s[1..] + t;
      LinesWithAppend(s[1..], t, id);
    } else {
      assert s + t == t;
    }
  }

  /** Replacing line `i` changes the sums by the difference between the two lines. */
  lemma {:induction false} SumsUpdate(s: seq<CartLine>, i: nat, l: CartLine)
    requires i < |s|
    ensures ItemCount(s[i := l]) == ItemCount(s) - s[i].quantity + l.quantity
    ensures CartTotal(s[i := l]) == CartTotal(s) - LineTotal(s[i]) + LineTotal(l)
    ensures LinesWith(s[i := l], l.product.id) ==
            LinesWith(s, l.product.id) - (if s[i].product.id == l.product.id then 1 else 0) + 1
  {
    if i == 0 {
      assert s[i := l][1..] == s[1..];
    } else {
      assert s[i := l][1..] == s[1..][i - 1 := l];
      SumsUpdate(s[1..], i - 1, l);
    }
  }

  /** A product's lines account for exactly what removing it takes off the sums. */
  lemma {:induction false} RemovedSums(cart: seq<CartLine>, id: ProductId)
    ensures ItemCount(cart) == ItemCount(Removed(cart, id)) + QuantityOf(cart, id)
    ensures LinesWith(Removed(cart, id), id) == 0
  {
    if cart != [] {
      RemovedSums(cart[1..], id);
    }
  }

  /** The price × quantity summed over the lines of product `id`. */
  function TotalOf(cart: seq<CartLine>, id: ProductId): int
  {
    if cart == [] then 0
    else (if cart[0].product.id == id then LineTotal(cart[0]) else 0) + TotalOf(cart[1..], id)
  }

  /** Removal takes exactly the product's line totals off the cart total. */
  lemma {:induction false} RemovedTotal(cart: seq<CartLine>, id: ProductId)
    ensures CartTotal(cart) == CartTotal(Removed(cart, id)) + TotalOf(cart, id)
  {
    if cart != [] {
      RemovedTotal(cart[1..], id);
    }
  }

  /** In a well-formed cart the only line of a product holds all of its quantity. */
  lemma {:induction false} QuantityOfUnique(cart: seq<CartLine>, i: nat)
    requires WellFormed(cart) && i < |cart|
    ensures QuantityOf(cart, cart[i].product.id) == cart[i].quantity
    ensures TotalOf(cart, cart[i].product.id) == LineTotal(cart[i])
    ensures LinesWith(cart, cart[i].product.id) == 1
  {
    if i == 0 {
      NoLinesNoQuantity(cart[1..], cart[0].product.id);
    } else {
      assert WellFormed(cart[1..]);
      QuantityOfUnique(cart[1..], i - 1);
    }
  }

  lemma {:induction false} NoLinesNoQuantity(cart: seq<CartLine>, id: ProductId)
    requires forall j :: 0 <= j < |cart| ==> cart[j].product.id != id
    ensures QuantityOf(cart, id) == 0 && TotalOf(cart, id) == 0 && LinesWith(cart, id) == 0
  {
    if cart != [] {
      NoLinesNoQuantity(cart[1..], id);
    }
  }

  /** Dropping lines keeps a well-formed cart well formed. */
  lemma {:induction false} RemovedWellFormed(cart: seq<CartLine>, id: ProductId)
    requires WellFormed(cart)
    ensures WellFormed(Removed(cart, id))
  {
    if cart != [] {
      WellFormedSplit(cart);
      RemovedWellFormed(cart[1..], id);
      if cart[0].product.id != id {
        var tail := Removed(cart[1..], id);
        forall j | 0 <= j < |tail| ensures tail[j].product.id != cart[0].product.id {
          assert tail[j] in cart[1..];
        }
        WellFormedCons(cart[0], tail);
      }
    }
  }

  /** The tail of a well-formed cart is well formed and holds no line of the head's product. */
  lemma WellFormedSplit(cart: seq<CartLine>)
    requires WellFormed(cart) && cart != []
    ensures WellFormed(cart[1..])
    ensures forall l :: l in cart[1..] ==> l.product.id != cart[0].product.id
  {
    forall l | l in cart[1..] ensures l.product.id != cart[0].product.id {
      var k :| 0 <= k < |cart[1..]| && cart[1..][k] == l;
      assert cart[k + 1] == l;
    }
  }

  /** A line in front of a well-formed cart that has no line of its product. */
  lemma WellFormedCons(x: CartLine, t: seq<CartLine>)
    requires WellFormed(t) && x.quantity >= 1
    requires forall j :: 0 <= j < |t| ==> t[j].product.id != x.product.id
    ensures WellFormed([x] + t)
  {
    var r := [x] + t;
    forall i, j | 0 <= i < j < |r| ensures r[i].product.id != r[j].product.id {
      assert r[j] == t[j - 1];
      if i > 0 {
        assert r[i] == t[i - 1];
      }
    }
  }

  /** A filter that matches nothing returns the cart as it is. */
  lemma {:induction false} RemovedAbsent(cart: seq<CartLine>, id: ProductId)
    requires forall j :: 0 <= j < |cart| ==> cart[j].product.id != id
    ensures Removed(cart, id) == cart
  {
    if cart != [] {
      RemovedAbsent(cart[1..], id);
      assert cart == [cart[0]] + cart[1..];
    }
  }

  /** Removing a product is indifferent to what its line held. */
  lemma {:induction false} RemovedIgnoresLine(cart: seq<CartLine>, i: nat, l: CartLine)
    requires i < |cart| && cart[i].product.id == l.product.id
    ensures Removed(cart[i := l], l.product.id) == Removed(cart, l.product.id)
  {
    if i > 0 {
      assert cart[i := l][1..] == cart[1..][i - 1 := l];
      RemovedIgnoresLine(cart[1..], i - 1, l);
    } else {
      assert cart[i := l][1..] == cart[1..];
    }
  }

  // ---------------------------------------------------------------- properties

  /** Adding a unit keeps the cart well formed and leaves exactly one line for the product. */
  lemma AddLineWellFormed(cart: seq<CartLine>, p: Product)
    requires WellFormed(cart)
    ensures WellFormed(AddLine(cart, p))
    ensures LinesWith(AddLine(cart, p), p.id) == 1
  {
    match IndexOfLine(cart, p.id)
    case Some(i) =>
      SumsUpdate(cart, i, cart[i].(quantity := cart[i].quantity + 1));
      QuantityOfUnique(cart, i);
    case None =>
      LinesWithAppend(cart, [CartLine(p, 1)], p.id);
      NoLinesNoQuantity(cart, p.id);
  }

  /** Adding a unit raises the item count by exactly one. */
  lemma AddLineCount(cart: seq<CartLine>, p: Product)
    ensures ItemCount(AddLine(cart, p)) == ItemCount(cart) + 1
  {
    match IndexOfLine(cart, p.id)
    case Some(i) =>
      SumsUpdate(cart, i, cart[i].(quantity := cart[i].quantity + 1));
    case None =>
      ItemCountAppend(cart, [CartLine(p, 1)]);
  }

  /** One more unit on a line costs one more unit price. */
  lemma LineTotalOneMore(l: CartLine)
    ensures LineTotal(l.(quantity := l.quantity + 1)) == LineTotal(l) + l.product.price
  {
    calc {
      LineTotal(l.(quantity := l.quantity + 1));
      l.product.price * (l.quantity + 1);
      l.product.price * l.quantity + l.product.price;
    }
  }

  /** Adding a unit raises the total by the unit price of the line that received it: for
      an existing line, the price copied when that line was created, not the current one. */
  lemma AddLineTotal(cart: seq<CartLine>, p: Product)
    ensures CartTotal(AddLine(cart, p)) ==
            CartTotal(cart) + match IndexOfLine(cart, p.id)
                              case Some(i) => cart[i].product.price
                              case None => p.price
  {
    match IndexOfLine(cart, p.id)
    case Some(i) =>
      var l := cart[i].(quantity := cart[i].quantity + 1);
      SumsUpdate(cart, i, l);
      LineTotalOneMore(cart[i]);
    case None =>
      CartTotalAppend(cart, [CartLine(p, 1)]);
  }

  /** Adding a unit of `p` touches no other product's lines. */
  lemma AddLineOthers(cart: seq<CartLine>, p: Product, i: nat)
    requires i < |cart| && cart[i].product.id != p.id
    ensures i < |AddLine(cart, p)| && AddLine(cart, p)[i] == cart[i]
  {
  }

  /** After removal no line of the product is left; in a well-formed cart the item count
      and the total drop by exactly what the product's line held; a second removal is a no-op. */
  lemma RemovedEffect(cart: seq<CartLine>, id: ProductId)
    ensures LinesWith(Removed(cart, id), id) == 0
    ensures Removed(Removed(cart, id), id) == Removed(cart, id)
    ensures WellFormed(cart) && IndexOfLine(cart, id).Some? ==>
              var i := IndexOfLine(cart, id).value;
              && ItemCount(Removed(cart, id)) == ItemCount(cart) - cart[i].quantity
              && CartTotal(Removed(cart, id)) == CartTotal(cart) - LineTotal(cart[i])
              && |Removed(cart, id)| == |cart| - 1
    ensures IndexOfLine(cart, id).None? ==> Removed(cart, id) == cart
  {
    RemovedSums(cart, id);
    RemovedTotal(cart, id);
    var r := Removed(cart, id);
    forall j | 0 <= j < |r| ensures r[j].product.id != id {
      assert r[j] in r;
    }
    RemovedAbsent(r, id);
    if IndexOfLine(cart, id).None? {
      RemovedAbsent(cart, id);
    } else if WellFormed(cart) {
      var i := IndexOfLine(cart, id).value;
      QuantityOfUnique(cart, i);
      RemovedLength(cart, id);
    }
  }

  lemma {:induction false} RemovedLength(cart: seq<CartLine>, id: ProductId)
    ensures |Removed(cart, id)| == |cart| - LinesWith(cart, id)
  {
    if cart != [] {
      RemovedLength(cart[1..], id);
    }
  }

  /** `updateQuantity` ends in one of three ways: no line and no change; the quantity
      drops to zero or below and the line is gone; or the line holds old + change and
      every other line is as it was. */
  lemma UpdatedCases(cart: seq<CartLine>, id: ProductId, change: int)
    ensures var r := Updated(cart, id, change);
      || (IndexOfLine(cart, id).None? && r == cart)
      || (IndexOfLine(cart, id).Some? &&
          cart[IndexOfLine(cart, id).value].quantity + change <= 0 &&
          LinesWith(r, id) == 0 && r == Removed(cart, id))
      || (IndexOfLine(cart, id).Some? &&
          var i := IndexOfLine(cart, id).value;
          |r| == |cart| && r[i].product == cart[i].product &&
          r[i].quantity == cart[i].quantity + change && r[i].quantity >= 1 &&
          forall j :: 0 <= j < |cart| && j != i ==> r[j] == cart[j])
  {
    RemovedSums(cart, id);
  }

  /** `updateQuantity` keeps the cart well formed. */
  lemma UpdatedWellFormed(cart: seq<CartLine>, id: ProductId, change: int)
    requires WellFormed(cart)
    ensures WellFormed(Updated(cart, id, change))
  {
    match IndexOfLine(cart, id)
    case None =>
    case Some(i) =>
      if cart[i].quantity + change >= 1 {
        WellFormedUpdate(cart, i, cart[i].(quantity := cart[i].quantity + change));
      } else {
        RemovedWellFormed(cart, id);
      }
  }

  /** Giving a line a new positive quantity keeps a cart well formed. */
  lemma WellFormedUpdate(cart: seq<CartLine>, i: nat, l: CartLine)
    requires WellFormed(cart) && i < |cart|
    requires l.product.id == cart[i].product.id && l.quantity >= 1
    ensures WellFormed(cart[i := l])
  {
    var r := cart[i := l];
    forall a, b | 0 <= a < b < |r| ensures r[a].product.id != r[b].product.id {
      assert r[a].product.id == cart[a].product.id && r[b].product.id == cart[b].product.id;
    }
  }

  /** When the line stays, `updateQuantity` moves the item count by exactly `change`. */
  lemma UpdatedCount(cart: seq<CartLine>, id: ProductId, change: int)
    ensures IndexOfLine(cart, id).None? ==> Updated(cart, id, change) == cart
    ensures IndexOfLine(cart, id).Some? && cart[IndexOfLine(cart, id).value].quantity + change >= 1 ==>
              ItemCount(Updated(cart, id, change)) == ItemCount(cart) + change
  {
    var found := IndexOfLine(cart, id);
    if found.Some? && cart[found.value].quantity + change >= 1 {
      var i := found.value;
      var l := cart[i].(quantity := cart[i].quantity + change);
      assert Updated(cart, id, change) == cart[i := l];
      SumsUpdate(cart, i, l);
    }
  }

  /** In a well-formed cart "no lines" and "no items" say the same. The second clause,
      an empty cart totals 0, holds by the definition of `CartTotal`. */
  lemma EmptyIffNoItems(cart: seq<CartLine>)
    requires WellFormed(cart)
    ensures cart == [] <==> ItemCount(cart) == 0
    ensures cart == [] ==> CartTotal(cart) == 0
  {
  }
}
