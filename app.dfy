/** `EcommerceApp` (js/app.js): the storefront's state (catalog, selected category, cart and
    the browser storage slot that keeps the cart) and the operations that change it, plus
    the star-count rule used when a product's rating is drawn. */
module App {
  import opened Common
  import opened CartModel

  /** What the catalog fetch delivers when it succeeds. */
  datatype Catalog = Catalog(products: seq<Product>, categories: seq<string>)

  /** How a checkout ended; the two counts are the ones the confirmation dialog shows. */
  datatype CheckoutOutcome =
    | EmptyCart
    | Declined(itemCount: int, total: int)
    | Placed(itemCount: int, total: int)

  class EcommerceApp {
    var products: seq<Product>
    var categories: seq<string>
    var currentCategory: string
    var cart: seq<CartLine>
    /** The browser storage slot `'cart'`; `None` when nothing was ever saved. */
    var storedCart: Option<seq<CartLine>>

    /** The app starts with an empty catalog, category `'All'` and the stored cart. */
    constructor (storage: Option<seq<CartLine>>)
      ensures products == [] && categories == [] && currentCategory == "All"
      ensures storedCart == storage
      ensures storage.None? ==> cart == []
      ensures storage.Some? ==> cart == storage.value
    {
      products := [];
      // `this.categories` stays undefined in the app until a fetch succeeds; the model
      // starts it as the empty list.
      categories := [];
      currentCategory := "All";
      storedCart := storage;
      cart := [];
      new;
      cart := LoadCart();
    }

    /** The cart kept in storage, or an empty one when nothing is stored. */
    function LoadCart(): (r: seq<CartLine>)
      reads this
      ensures storedCart.None? ==> r == []
      ensures storedCart.Some? ==> r == storedCart.value
    {
      match storedCart
      case None => []
      case Some(saved) => saved
    }

    /** Writes the cart to storage, so that loading it again yields the same cart. */
    method SaveCart()
      modifies this`storedCart
      ensures storedCart == Some(cart)
      ensures LoadCart() == cart
    {
      storedCart := Some(cart);
    }

    /** Installs a fetched catalog; a failed fetch leaves the catalog as it was. */
    method LoadProducts(fetched: Option<Catalog>)
      modifies this`products, this`categories
      ensures fetched.Some? ==> products == fetched.value.products && categories == fetched.value.categories
      ensures fetched.None? ==> products == old(products) && categories == old(categories)
    {
      if fetched.Some? {
        products := fetched.value.products;
        categories := fetched.value.categories;
      }
    }

    method FilterByCategory(category: string)
      modifies this`currentCategory
      ensures currentCategory == category
    {
      currentCategory := category;
    }

    /** The products shown for the current category: all of them for `'All'`, otherwise
        exactly those of that category, in catalog order. */
    function FilteredProducts(): (r: seq<Product>)
      reads this
      ensures currentCategory == "All" ==> r == products
      ensures currentCategory != "All" ==>
                && (forall p :: p in r <==> p in products && p.category == currentCategory)
                && (forall p :: multiset(r)[p] ==
                      if p.category == currentCategory then multiset(products)[p] else 0)
                && IsSubsequence(r, products)
    {
      if currentCategory == "All" then products else InCategory(products, currentCategory)
    }

    /** Adds one unit of a known, in-stock product; an unknown or out-of-stock product
        changes nothing, not even the stored cart. */
    method AddToCart(productId: ProductId)
      modifies this`cart, this`storedCart
      ensures match IndexOfProduct(products, productId)
              case None => cart == old(cart) && storedCart == old(storedCart)
              case Some(k) =>
                if products[k].inStock then cart == AddLine(old(cart), products[k]) && storedCart == Some(cart)
                else cart == old(cart) && storedCart == old(storedCart)
      ensures WellFormed(old(cart)) ==> WellFormed(cart)
    {
      var k := IndexOfProduct(products, productId);
      if k.None? || !products[k.value].inStock {
        return;
      }
      var product := products[k.value];
      var found := IndexOfLine(cart, productId);
      if found.Some? {
        var i := found.value;
        cart := cart[i := cart[i].(quantity := cart[i].quantity + 1)];
      } else {
        cart := cart + [CartLine(product, 1)];
      }
      SaveCart();
      if WellFormed(old(cart)) {
        AddLineWellFormed(old(cart), product);
      }
    }

    /** Drops every line of the product and stores the result. */
    method RemoveFromCart(productId: ProductId)
      modifies this`cart, this`storedCart
      ensures cart == Removed(old(cart), productId) && storedCart == Some(cart)
      ensures WellFormed(old(cart)) ==> WellFormed(cart)
    {
      cart := Removed(cart, productId);
      SaveCart();
      if WellFormed(old(cart)) {
        RemovedWellFormed(old(cart), productId);
      }
    }

    /** Changes the product's line by a signed `change`, removing it once its quantity is
        zero or less; without a line for the product nothing happens and nothing is stored. */
    method UpdateQuantity(productId: ProductId, change: int)
      modifies this`cart, this`storedCart
      ensures cart == Updated(old(cart), productId, change)
      ensures storedCart == if IndexOfLine(old(cart), productId).Some? then Some(cart) else old(storedCart)
      ensures WellFormed(old(cart)) ==> WellFormed(cart)
    {
      var found := IndexOfLine(cart, productId);
      if found.None? {
        return;
      }
      var i := found.value;
      var line := cart[i].(quantity := cart[i].quantity + change);
      cart := cart[i := line];
      if cart[i].quantity <= 0 {
        RemovedIgnoresLine(old(cart), i, line);
        RemoveFromCart(productId);
      } else {
        SaveCart();
      }
      if WellFormed(old(cart)) {
        UpdatedWellFormed(old(cart), productId, change);
      }
    }

    /** An empty cart is refused and nothing changes. Otherwise the item count and total
        are shown; if the shopper confirms, the cart is emptied and stored empty, and if
        not, the cart stays as it was. */
    method Checkout(confirmed: bool) returns (outcome: CheckoutOutcome)
      modifies this`cart, this`storedCart
      ensures old(cart) == [] ==> outcome == EmptyCart && cart == old(cart) && storedCart == old(storedCart)
      ensures old(cart) != [] && confirmed ==>
                && outcome == Placed(ItemCount(old(cart)), CartTotal(old(cart)))
                && cart == [] && storedCart == Some([])
      ensures old(cart) != [] && !confirmed ==>
                && outcome == Declined(ItemCount(old(cart)), CartTotal(old(cart)))
                && cart == old(cart) && storedCart == old(storedCart)
      ensures outcome.Placed? ==> ItemCount(cart) == 0 && CartTotal(cart) == 0
      ensures WellFormed(old(cart)) ==> WellFormed(cart)
    {
      if |cart| == 0 {
        return EmptyCart;
      }
      var total := CartTotal(cart);
      var itemCount := ItemCount(cart);
      if confirmed {
        cart := [];
        SaveCart();
        outcome := Placed(itemCount, total);
      } else {
        outcome := Declined(itemCount, total);
      }
    }
  }

  // ---------------------------------------------------------------- rating stars

  /** A drawn star: orange (checked) or grey. A half star is drawn orange as well. */
  datatype Star = Filled | Grey

  /** JavaScript's `Math.ceil`. */
  function Ceil(x: real): (r: int)
    ensures r as real - 1.0 < x <= r as real
  {
    -((-x).Floor)
  }

  /** JavaScript's `x % 1`: the remainder of a division truncated toward zero, so it takes
      the sign of `x`. */
  function ModOne(x: real): (r: real)
    ensures x >= 0.0 ==> 0.0 <= r < 1.0
    ensures x < 0.0 ==> -1.0 < r <= 0.0
    ensures (x - r).Floor as real == x - r
  {
    if x >= 0.0 then x - x.Floor as real else x - Ceil(x) as real
  }

  function HasHalfStar(rating: real): bool
  {
    ModOne(rating) >= 0.5
  }

  /** `n` copies of `s`; none when `n` is not positive, as a counting loop would give. */
  function Repeat(s: Star, n: int): (r: seq<Star>)
    ensures |r| == if n > 0 then n else 0
    ensures forall i :: 0 <= i < |r| ==> r[i] == s
  {
    if n <= 0 then [] else Repeat(s, n - 1) + [s]
  }

  /** The stars `renderStars` draws: `floor(rating)` orange, one more orange when the
      fraction is at least one half, then `5 - ceil(rating)` grey. */
  function Stars(rating: real): seq<Star>
  {
    Repeat(Filled, rating.Floor)
      + (if HasHalfStar(rating) then [Filled] else [])
      + Repeat(Grey, 5 - Ceil(rating))
  }

  method RenderStars(rating: real) returns (stars: seq<Star>)
    ensures stars == Stars(rating)
  {
    var fullStars := rating.Floor;
    var hasHalfStar := HasHalfStar(rating);
    stars := [];
    var i := 0;
    while i < fullStars
      invariant 0 <= i <= if fullStars > 0 then fullStars else 0
      invariant stars == Repeat(Filled, i)
    {
      stars := stars + [Filled];
      i := i + 1;
    }
    if hasHalfStar {
      stars := stars + [Filled];
    }
    ghost var drawn := stars;
    var remainingStars := 5 - Ceil(rating);
    i := 0;
    while i < remainingStars
      invariant 0 <= i <= if remainingStars > 0 then remainingStars else 0
      invariant stars == drawn + Repeat(Grey, i)
    {
      stars := stars + [Grey];
      i := i + 1;
    }
  }

  /** A whole-number rating `r` from 0 to 5 draws `r` orange stars followed by `5 - r` grey. */
  lemma WholeRatingStars(r: int)
    requires 0 <= r <= 5
    ensures var row := Stars(r as real);
      |row| == 5 && forall i :: 0 <= i < |row| ==> (row[i] == Filled <==> i < r)
  {
    assert (r as real).Floor == r;
    assert Ceil(r as real) == r;
    assert !HasHalfStar(r as real);
  }

  /** For a rating between 0 and 5 the row has five stars, except when the fraction lies
      strictly between 0 and one half: then one star is missing. */
  lemma StarsAsWritten(rating: real)
    requires 0.0 <= rating <= 5.0
    ensures |Stars(rating)| == if 0.0 < ModOne(rating) < 0.5 then 4 else 5
  {
    if ModOne(rating) == 0.0 {
      assert Ceil(rating) == rating.Floor;
    } else {
      assert Ceil(rating) == rating.Floor + 1;
    }
  }

  /** A rating of 4.2 is drawn as four orange stars and no grey one. */
  lemma FourPointTwoDrawsFourStars()
    ensures Stars(4.2) == [Filled, Filled, Filled, Filled]
  {
    assert (4.2).Floor == 4;
    assert Ceil(4.2) == 5;
    assert !HasHalfStar(4.2);
  }

  /** The evidently intended row: the grey stars fill whatever the orange ones leave of five. */
  function PaddedStars(rating: real): seq<Star>
  {
    var orange := rating.Floor + (if HasHalfStar(rating) then 1 else 0);
    Repeat(Filled, orange) + Repeat(Grey, 5 - orange)
  }

  /** The padded row always has five stars for ratings from 0 to 5, and it differs from
      the drawn row only where the drawn row is a star short. */
  lemma PaddedStarsHasFive(rating: real)
    requires 0.0 <= rating <= 5.0
    ensures |PaddedStars(rating)| == 5
    ensures !(0.0 < ModOne(rating) < 0.5) ==> PaddedStars(rating) == Stars(rating)
  {
    StarsAsWritten(rating);
    var half := if HasHalfStar(rating) then [Filled] else [];
    var orange := rating.Floor + |half|;
    if !(0.0 < ModOne(rating) < 0.5) {
      assert 5 - Ceil(rating) == 5 - orange;
      RepeatSplit(Filled, rating.Floor, |half|);
    }
  }

  lemma RepeatSplit(s: Star, m: int, n: nat)
    requires m >= 0
    ensures Repeat(s, m) + Repeat(s, n) == Repeat(s, m + n)
  {
  }
}
