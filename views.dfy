/** The request handlers that read or change a signed-in user's cart and
    wishlist. Each handler is a method on the store, pinned by its `ensures`
    to an "effect" function of the tables before the request; the lemmas
    beside each effect state what the shop promises about it. */
module Views {
  import opened Models
  import CartService
  import WishlistService
  import opened Shop

  /** Every line of a valid store names a product of its catalog, so every
      cart's total is defined. */
  lemma ValidIsPriced(t: Tables, cart: CartId)
    requires t.Valid()
    ensures CartService.PricedFor(t.items, cart, t.products)
  {
  }

  // ---------------------------------------------------------------------
  // Add to cart

  datatype AddToCartOutcome = ProductNotFound | AddedToCart | QuantityUpdated

  /** Nothing happens for an unknown product; otherwise the cart is fetched
      or created, and the parsed quantity is merged into the line for
      (cart, product). */
  function AddToCartEffect(t: Tables, u: UserId, product: ProductId, posted: Option<int>): (Tables, AddToCartOutcome)
  {
    if product !in t.products then (t, ProductNotFound)
    else
      var t1 := WithCart(t, u);
      var r := CartService.AddLine(t1.items, t1.carts[u].id, product, CartService.ParseQuantity(posted), t1.nextItemId);
      (t1.(items := r.rows, nextItemId := r.nextId), if r.merged then QuantityUpdated else AddedToCart)
  }

  /** Adding raises the quantity held for (cart, product) by the parsed
      quantity and no other line's; it reports an update exactly when the
      line already existed. */
  lemma AddToCartAddsQuantity(t: Tables, u: UserId, product: ProductId, posted: Option<int>, c: CartId, p: ProductId)
    requires product in t.products
    ensures var (r, outcome) := AddToCartEffect(t, u, product, posted);
            var cart := WithCart(t, u).carts[u].id;
            && r.carts == WithCart(t, u).carts
            && CartService.Quantity(r.items, c, p)
               == CartService.Quantity(t.items, c, p) + (if c == cart && p == product then CartService.ParseQuantity(posted) else 0)
            && (outcome == QuantityUpdated <==> CartService.HasLine(t.items, cart, product))
            && (outcome == AddedToCart <==> !CartService.HasLine(t.items, cart, product))
  {
    var t1 := WithCart(t, u);
    CartService.AddLineQuantity(t1.items, t1.carts[u].id, product, CartService.ParseQuantity(posted), t1.nextItemId, c, p);
  }

  /** A user's first add goes into a brand-new cart, so it creates a line. */
  lemma FirstAddCreatesLine(t: Tables, u: UserId, product: ProductId, posted: Option<int>)
    requires t.Valid() && product in t.products && u !in t.carts
    ensures AddToCartEffect(t, u, product, posted).1 == AddedToCart
  {
    NewCartIdIsFresh(t);
    assert !CartService.HasLine(t.items, t.nextCartId, product) by {
      forall x | x in t.items ensures x.cart != t.nextCartId {
        assert x.cart in t.CartIds();
      }
    }
  }

  /** Adding q units of a product raises the cart's total by the product's
      current price times q. */
  lemma AddToCartRaisesTotal(t: Tables, u: UserId, product: ProductId, posted: Option<int>)
    requires t.Valid() && product in t.products
    ensures var r := AddToCartEffect(t, u, product, posted).0;
            var cart := r.carts[u].id;
            && CartService.PricedFor(t.items, cart, t.products)
            && CartService.PricedFor(r.items, cart, r.products)
            && CartService.CartTotal(r.items, cart, r.products)
               == CartService.CartTotal(t.items, cart, t.products) + t.products[product].price * CartService.ParseQuantity(posted)
  {
    var t1 := WithCart(t, u);
    ValidIsPriced(t, t1.carts[u].id);
    CartService.TotalAfterAdd(t1.items, t1.carts[u].id, product, CartService.ParseQuantity(posted), t1.nextItemId, t1.products);
  }

  lemma AddToCartKeepsValid(t: Tables, u: UserId, product: ProductId, posted: Option<int>)
    requires t.Valid() && u in t.users
    ensures AddToCartEffect(t, u, product, posted).0.Valid()
  {
    if product in t.products {
      WithCartKeepsValid(t, u);
      var t1 := WithCart(t, u);
      assert t1.carts[u].id in t1.CartIds();
      CartService.AddLineKeepsRowsValid(t1.items, t1.carts[u].id, product, CartService.ParseQuantity(posted),
                                         t1.nextItemId, t1.CartIds(), t1.products.Keys);
      var r := CartService.AddLine(t1.items, t1.carts[u].id, product, CartService.ParseQuantity(posted), t1.nextItemId);
      ItemsUpdateKeepsValid(t1, r.rows, r.nextId);
    }
  }

  /** The add-to-cart view: product lookup, cart fetch-or-create, quantity
      parse, then get-or-create of the line and an increment if it existed. */
  method AddToCart(s: Store, u: UserId, product: ProductId, posted: Option<int>) returns (outcome: AddToCartOutcome)
    requires s.Valid() && u in s.users
    modifies s
    ensures s.Valid()
    ensures (s.State(), outcome) == AddToCartEffect(old(s.State()), u, product, posted)
  {
    if product !in s.products {
      return ProductNotFound;
    }
    var cart, created := s.GetOrCreateCart(u);
    var quantity := CartService.ParseQuantity(posted);
    assert cart.id in s.State().CartIds();
    CartService.AddLineKeepsRowsValid(s.items, cart.id, product, quantity, s.nextItemId, s.State().CartIds(), s.products.Keys);
    var r := CartService.AddLine(s.items, cart.id, product, quantity, s.nextItemId);
    s.SaveItems(r.rows, r.nextId);
    outcome := if r.merged then QuantityUpdated else AddedToCart;
  }

  // ---------------------------------------------------------------------
  // The cart page and its quantity form

  /** A successful form post redirects; otherwise the page lists the cart's
      lines and their total. */
  datatype CartResponse = RedirectToCart | CartPage(lines: seq<CartItem>, total: int)

  /** A posted quantity form: the cart is fetched or created, then its
      lines are updated in table order until a value fails to parse; the
      flag says whether all of them parsed. */
  function CartPostEffect(t: Tables, u: UserId, posted: map<ItemId, Option<int>>): (Tables, bool)
  {
    var t1 := WithCart(t, u);
    var r := CartService.BulkApply(t1.items, t1.carts[u].id, posted);
    (t1.(items := r.rows), r.ok)
  }

  /** The form post keeps every table invariant, touches no other user's
      lines, and succeeds exactly when every line of the user's cart has a
      value that parses. */
  lemma CartPostScope(t: Tables, u: UserId, posted: map<ItemId, Option<int>>)
    requires t.Valid() && u in t.users
    ensures var (r, ok) := CartPostEffect(t, u, posted);
            var cart := r.carts[u].id;
            && r.Valid()
            && CartService.RowsOutside(r.items, cart) == CartService.RowsOutside(t.items, cart)
            && (ok <==> forall x :: x in t.items && x.cart == cart ==> CartService.Requested(x, posted).Some?)
  {
    WithCartKeepsValid(t, u);
    var t1 := WithCart(t, u);
    var cart := t1.carts[u].id;
    CartService.BulkKeepsRowsValid(t1.items, cart, posted, t1.nextItemId, t1.CartIds(), t1.products.Keys);
    ItemsUpdateKeepsValid(t1, CartService.BulkApply(t1.items, cart, posted).rows, t1.nextItemId);
    CartService.BulkOthersUntouched(t1.items, cart, posted);
    CartService.BulkOkIff(t1.items, cart, posted);
  }

  /** One step of the bulk update, seen from position k of the table and
      stated in the shape of the loop invariant below: `done` is what the
      loop has written so far, `y` what this step writes (nothing when the
      line is deleted). */
  lemma BulkStep(rows: seq<CartItem>, k: nat, cart: CartId, posted: map<ItemId, Option<int>>,
                 done: seq<CartItem>, y: seq<CartItem>)
    requires k < |rows|
    requires rows[k].cart != cart ==> y == [rows[k]]
    requires rows[k].cart == cart ==> CartService.Requested(rows[k], posted).Some?
    requires rows[k].cart == cart ==>
               var n := CartService.Requested(rows[k], posted).value;
               y == if n > 0 then [rows[k].(quantity := n)] else []
    ensures rows[k..] == [rows[k]] + rows[k + 1..]
    ensures var here := CartService.BulkApply(rows[k..], cart, posted);
            var rest := CartService.BulkApply(rows[k + 1..], cart, posted);
            done + here.rows == (done + y) + rest.rows && here.ok == rest.ok
  {
    assert rows[k..][0] == rows[k] && rows[k..][1..] == rows[k + 1..];
  }

  /** The step at a line whose value does not parse. */
  lemma BulkStop(rows: seq<CartItem>, k: nat, cart: CartId, posted: map<ItemId, Option<int>>)
    requires k < |rows| && rows[k].cart == cart && CartService.Requested(rows[k], posted).None?
    ensures CartService.BulkApply(rows[k..], cart, posted) == CartService.BulkResult(rows[k..], false)
  {
    assert rows[k..][0] == rows[k];
  }

  /** The loop over the cart's lines: a positive value is saved, any other
      number deletes the line, and the first value that does not parse ends
      the loop with the lines before it already written. */
  method ApplyQuantities(items: seq<CartItem>, cart: CartId, posted: map<ItemId, Option<int>>)
    returns (rows: seq<CartItem>, ok: bool)
    ensures CartService.BulkResult(rows, ok) == CartService.BulkApply(items, cart, posted)
  {
    rows := [];
    var i := 0;
    while i < |items|
      invariant 0 <= i <= |items|
      invariant CartService.BulkApply(items, cart, posted)
             == CartService.BulkResult(rows + CartService.BulkApply(items[i..], cart, posted).rows,
                                       CartService.BulkApply(items[i..], cart, posted).ok)
    {
      var x := items[i];
      if x.cart != cart {
        BulkStep(items, i, cart, posted, rows, [x]);
        rows := rows + [x];
      } else {
        match CartService.Requested(x, posted)
        case None =>
          BulkStop(items, i, cart, posted);
          return rows + items[i..], false;
        case Some(n) =>
          if n > 0 {
            var y := x.(quantity := n);
            BulkStep(items, i, cart, posted, rows, [y]);
            rows := rows + [y];
          } else {
            BulkStep(items, i, cart, posted, rows, []);
            assert rows + [] == rows;
          }
      }
      i := i + 1;
    }
    ok := true;
  }

  /** The cart view: fetch-or-create the cart; on a posted form run the
      quantity loop and redirect when it completes. Otherwise the page shows
      the cart's lines and their total; after a value did not parse, those
      are the lines the loop iterated over as it left them, deleted ones
      included. */
  method CartView(s: Store, u: UserId, form: Option<map<ItemId, Option<int>>>) returns (response: CartResponse)
    requires s.Valid() && u in s.users
    modifies s
    ensures s.Valid()
    ensures form.None? ==> s.State() == WithCart(old(s.State()), u) && response.CartPage?
    ensures form.Some? ==> (s.State(), response == RedirectToCart) == CartPostEffect(old(s.State()), u, form.value)
    ensures response.CartPage? ==> u in s.carts
    ensures response.CartPage? && form.None? ==>
              && response.lines == CartService.LinesOf(s.items, s.carts[u].id)
              && CartService.PricedFor(s.items, s.carts[u].id, s.products)
              && response.total == CartService.CartTotal(s.items, s.carts[u].id, s.products)
    ensures response.CartPage? && form.Some? ==>
              && response.lines == CartService.CachedLines(old(s.items), s.carts[u].id, form.value)
              && CartService.PricedFor(response.lines, s.carts[u].id, s.products)
              && response.total == CartService.CartTotal(response.lines, s.carts[u].id, s.products)
  {
    var cart, created := s.GetOrCreateCart(u);
    ValidIsPriced(s.State(), cart.id);
    if form.Some? {
      var cartItems := s.items;
      CartService.BulkKeepsRowsValid(s.items, cart.id, form.value, s.nextItemId, s.State().CartIds(), s.products.Keys);
      var rows, ok := ApplyQuantities(s.items, cart.id, form.value);
      s.SaveItems(rows, s.nextItemId);
      if ok {
        return RedirectToCart;
      }
      CartService.CachedPriced(cartItems, cart.id, form.value, s.products);
      var lines := CartService.CachedLines(cartItems, cart.id, form.value);
      return CartPage(lines, CartService.CartTotal(lines, cart.id, s.products));
    }
    response := CartPage(CartService.LinesOf(s.items, cart.id), CartService.CartTotal(s.items, cart.id, s.products));
  }

  // ---------------------------------------------------------------------
  // Remove from cart

  datatype RemoveFromCartOutcome = ItemRemoved(product: ProductId) | RemoveFailed

  /** The line must have the given id and belong to the requester's cart;
      a requester without a cart owns no line. Any failure is caught and
      changes nothing. */
  function RemoveFromCartEffect(t: Tables, u: UserId, id: ItemId): (Tables, RemoveFromCartOutcome)
  {
    if u !in t.carts then (t, RemoveFailed)
    else match CartService.OwnedIndex(t.items, t.carts[u].id, id)
      case None => (t, RemoveFailed)
      case Some(i) => (t.(items := CartService.RemoveAt(t.items, i)), ItemRemoved(t.items[i].product))
  }

  /** A line is removed exactly when it is in the requester's own cart; the
      removed line is the one with that id, and no other cart loses a line. */
  lemma RemoveFromCartOwnership(t: Tables, u: UserId, id: ItemId)
    requires t.Valid()
    ensures var (r, outcome) := RemoveFromCartEffect(t, u, id);
            && (outcome.ItemRemoved? <==> u in t.carts && exists x :: x in t.items && x.id == id && x.cart == t.carts[u].id)
            && (outcome == RemoveFailed ==> r == t)
            && (outcome.ItemRemoved? ==>
                  && r.Valid()
                  && CartService.ItemById(t.items, id).Some?
                  && outcome.product == CartService.ItemById(t.items, id).value.product
                  && CartService.ItemById(r.items, id).None?
                  && |r.items| == |t.items| - 1
                  && CartService.RowsOutside(r.items, t.carts[u].id) == CartService.RowsOutside(t.items, t.carts[u].id))
  {
    if u in t.carts {
      var cart := t.carts[u].id;
      match CartService.OwnedIndex(t.items, cart, id)
      case None =>
      case Some(i) =>
        assert t.items[i] in t.items;
        CartService.RemoveOwnedLine(t.items, i, t.nextItemId, t.CartIds(), t.products.Keys);
        assert CartService.ItemById(t.items, id).value == t.items[i];
        assert (t.(items := CartService.RemoveAt(t.items, i))).CartIds() == t.CartIds();
    }
  }

  /** The remove-from-cart view. */
  method RemoveFromCart(s: Store, u: UserId, id: ItemId) returns (outcome: RemoveFromCartOutcome)
    requires s.Valid()
    modifies s
    ensures s.Valid()
    ensures (s.State(), outcome) == RemoveFromCartEffect(old(s.State()), u, id)
  {
    if u !in s.carts {
      return RemoveFailed;
    }
    match CartService.OwnedIndex(s.items, s.carts[u].id, id)
    case None =>
      outcome := RemoveFailed;
    case Some(i) =>
      outcome := ItemRemoved(s.items[i].product);
      CartService.RemoveOwnedLine(s.items, i, s.nextItemId, s.State().CartIds(), s.products.Keys);
      s.SaveItems(s.items[..i] + s.items[i + 1..], s.nextItemId);
  }

  // ---------------------------------------------------------------------
  // Wishlist

  datatype AddToWishlistOutcome = UnknownProduct | AddedToWishlist | AlreadyInWishlist

  datatype RemoveFromWishlistOutcome = RemovedFromWishlist | NotInWishlist | WishlistRemoveFailed

  /** Nothing happens for an unknown product; otherwise the wishlist is
      fetched or created and the product added if it is not there. */
  function AddToWishlistEffect(t: Tables, u: UserId, product: ProductId): (Tables, AddToWishlistOutcome)
  {
    if product !in t.products then (t, UnknownProduct)
    else
      var t1 := WithWishlist(t, u);
      var r := WishlistService.AddProduct(t1.wishlists[u], product);
      (t1.(wishlists := t1.wishlists[u := r.wishlist]),
       if r.outcome == WishlistService.AlreadyPresent then AlreadyInWishlist else AddedToWishlist)
  }

  /** An unknown product is caught and reported as a failure; otherwise the
      wishlist is fetched or created and the product removed if it is there. */
  function RemoveFromWishlistEffect(t: Tables, u: UserId, product: ProductId): (Tables, RemoveFromWishlistOutcome)
  {
    if product !in t.products then (t, WishlistRemoveFailed)
    else
      var t1 := WithWishlist(t, u);
      var r := WishlistService.RemoveProduct(t1.wishlists[u], product);
      (t1.(wishlists := t1.wishlists[u := r.wishlist]),
       if r.outcome == WishlistService.Removed then RemovedFromWishlist else NotInWishlist)
  }

  /** After an add of a known product it is in the user's wishlist, which
      otherwise keeps what it had; "already in" exactly when it was there;
      no other user's wishlist changes. */
  lemma AddToWishlistFacts(t: Tables, u: UserId, product: ProductId)
    requires t.Valid() && u in t.users
    ensures var (r, outcome) := AddToWishlistEffect(t, u, product);
            var before := if u in t.wishlists then t.wishlists[u].products else {};
            && r.Valid()
            && (outcome == UnknownProduct <==> product !in t.products)
            && (outcome == UnknownProduct ==> r == t)
            && (product in t.products ==>
                  && u in r.wishlists && r.wishlists[u].products == before + {product}
                  && (outcome == AlreadyInWishlist <==> product in before))
            && (forall v :: v in t.wishlists && v != u ==> v in r.wishlists && r.wishlists[v] == t.wishlists[v])
  {
    if product in t.products {
      WithWishlistKeepsValid(t, u);
      var t1 := WithWishlist(t, u);
      WishlistUpdateKeepsValid(t1, u, WishlistService.AddProduct(t1.wishlists[u], product).wishlist);
    }
  }

  /** After a remove of a known product it is not in the user's wishlist,
      which otherwise keeps what it had; "not in" exactly when it was not
      there; no other user's wishlist changes. */
  lemma RemoveFromWishlistFacts(t: Tables, u: UserId, product: ProductId)
    requires t.Valid() && u in t.users
    ensures var (r, outcome) := RemoveFromWishlistEffect(t, u, product);
            var before := if u in t.wishlists then t.wishlists[u].products else {};
            && r.Valid()
            && (outcome == WishlistRemoveFailed <==> product !in t.products)
            && (outcome == WishlistRemoveFailed ==> r == t)
            && (product in t.products ==>
                  && u in r.wishlists && r.wishlists[u].products == before - {product}
                  && (outcome == RemovedFromWishlist <==> product in before))
            && (forall v :: v in t.wishlists && v != u ==> v in r.wishlists && r.wishlists[v] == t.wishlists[v])
  {
    if product in t.products {
      WithWishlistKeepsValid(t, u);
      var t1 := WithWishlist(t, u);
      WishlistUpdateKeepsValid(t1, u, WishlistService.RemoveProduct(t1.wishlists[u], product).wishlist);
    }
  }

  /** Removing a product just added (one that was not there) leaves the
      tables as the fetch-or-create alone would have. */
  lemma WishlistRemoveUndoesAdd(t: Tables, u: UserId, product: ProductId)
    requires product in t.products
    requires u !in t.wishlists || product !in t.wishlists[u].products
    ensures var (r1, o1) := AddToWishlistEffect(t, u, product);
            var (r2, o2) := RemoveFromWishlistEffect(r1, u, product);
            o1 == AddedToWishlist && o2 == RemovedFromWishlist && r2 == WithWishlist(t, u)
  {
    var t1 := WithWishlist(t, u);
    WishlistService.RemoveUndoesAdd(t1.wishlists[u], product);
    assert t1.wishlists[u := t1.wishlists[u]] == t1.wishlists;
  }

  /** The add-to-wishlist view. */
  method AddToWishlist(s: Store, u: UserId, product: ProductId) returns (outcome: AddToWishlistOutcome)
    requires s.Valid() && u in s.users
    modifies s
    ensures s.Valid()
    ensures (s.State(), outcome) == AddToWishlistEffect(old(s.State()), u, product)
  {
    if product !in s.products {
      return UnknownProduct;
    }
    var wishlist, created := s.GetOrCreateWishlist(u);
    if product in wishlist.products {
      assert s.wishlists[u := wishlist] == s.wishlists;
      outcome := AlreadyInWishlist;
    } else {
      s.SaveWishlist(u, Wishlist(wishlist.products + {product}));
      outcome := AddedToWishlist;
    }
  }

  /** The remove-from-wishlist view. */
  method RemoveFromWishlist(s: Store, u: UserId, product: ProductId) returns (outcome: RemoveFromWishlistOutcome)
    requires s.Valid() && u in s.users
    modifies s
    ensures s.Valid()
    ensures (s.State(), outcome) == RemoveFromWishlistEffect(old(s.State()), u, product)
  {
    if product !in s.products {
      return WishlistRemoveFailed;
    }
    var wishlist, created := s.GetOrCreateWishlist(u);
    if product in wishlist.products {
      s.SaveWishlist(u, Wishlist(wishlist.products - {product}));
      outcome := RemovedFromWishlist;
    } else {
      assert s.wishlists[u := wishlist] == s.wishlists;
      outcome := NotInWishlist;
    }
  }
}
