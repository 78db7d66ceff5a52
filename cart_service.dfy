/** The cart-item table as a sequence of rows in primary-key order, and the
    cart operations of the views over it: quantity parsing for "add to
    cart", merge-on-add, the bulk quantity update, ownership-scoped removal
    and the live total. */
module CartService {
  import opened Models

  // ---------------------------------------------------------------------
  // Table shape

  predicate OnLine(x: CartItem, cart: CartId, product: ProductId)
  {
    x.cart == cart && x.product == product
  }

  predicate HasLine(rows: seq<CartItem>, cart: CartId, product: ProductId)
  {
    exists x :: x in rows && OnLine(x, cart, product)
  }

  function Ids(rows: seq<CartItem>): set<ItemId>
  {
    set x | x in rows :: x.id
  }

  /** Item ids are keys, and no cart holds two lines for one product. */
  predicate UniqueRows(rows: seq<CartItem>)
  {
    forall i, j :: 0 <= i < j < |rows| ==>
      rows[i].id != rows[j].id && !OnLine(rows[j], rows[i].cart, rows[i].product)
  }

  /** What the views keep true of the table: ids below the next id to hand
      out, every line at least 1, every line in an existing cart and for an
      existing product, and the two uniqueness facts. */
  predicate RowsValid(rows: seq<CartItem>, next: ItemId, carts: set<CartId>, products: set<ProductId>)
  {
    && (forall x :: x in rows ==>
          x.id < next && x.quantity >= 1 && x.cart in carts && x.product in products)
    && UniqueRows(rows)
  }

  /** Total quantity the table holds for one (cart, product) line. */
  function Quantity(rows: seq<CartItem>, cart: CartId, product: ProductId): nat
  {
    if rows == [] then 0
    else (if OnLine(rows[0], cart, product) then rows[0].quantity else 0)
         + Quantity(rows[1..], cart, product)
  }

  /** The row with the given id, if any. */
  function ItemById(rows: seq<CartItem>, id: ItemId): (r: Option<CartItem>)
    ensures r.Some? ==> r.value in rows && r.value.id == id
    ensures r.None? <==> id !in Ids(rows)
  {
    if rows == [] then None
    else if rows[0].id == id then Some(rows[0])
    else ItemById(rows[1..], id)
  }

  /** The rows of every cart other than the given one, in table order. */
  function RowsOutside(rows: seq<CartItem>, cart: CartId): (r: seq<CartItem>)
    ensures forall x :: x in r <==> x in rows && x.cart != cart
  {
    if rows == [] then []
    else if rows[0].cart != cart then [rows[0]] + RowsOutside(rows[1..], cart)
    else RowsOutside(rows[1..], cart)
  }

  lemma UniqueTail(rows: seq<CartItem>)
    requires rows != [] && UniqueRows(rows)
    ensures UniqueRows(rows[1..])
    ensures rows[0].id !in Ids(rows[1..])
    ensures forall x :: x in rows[1..] ==> !OnLine(x, rows[0].cart, rows[0].product)
  {
    forall x | x in rows[1..]
      ensures x.id != rows[0].id && !OnLine(x, rows[0].cart, rows[0].product)
    {
      var j :| 0 <= j < |rows[1..]| && rows[1..][j] == x;
      assert rows[j + 1] == x;
    }
  }

  lemma UniqueCons(h: CartItem, rows: seq<CartItem>)
    requires UniqueRows(rows)
    requires h.id !in Ids(rows)
    requires forall x :: x in rows ==> !OnLine(x, h.cart, h.product)
    ensures UniqueRows([h] + rows)
  {
    var s := [h] + rows;
    forall i, j | 0 <= i < j < |s|
      ensures s[i].id != s[j].id && !OnLine(s[j], s[i].cart, s[i].product)
    {
      if i == 0 {
        assert s[j] in rows;
      } else {
        assert s[i] == rows[i - 1] && s[j] == rows[j - 1];
      }
    }
  }

  // ---------------------------------------------------------------------
  // Add to cart

  /** The quantity "add to cart" uses: the posted number when it parses to a
      positive integer, 1 when it is missing, does not parse, or is <= 0. */
  function ParseQuantity(posted: Option<int>): (q: nat)
    ensures q >= 1
    ensures posted.Some? && posted.value > 0 ==> q == posted.value
    ensures posted.None? || posted.value <= 0 ==> q == 1
  {
    match posted
    case None => DefaultQuantity
    case Some(n) => if n <= 0 then DefaultQuantity else n
  }

  /** The lookup half of get_or_create on (cart, product). */
  function FindLine(rows: seq<CartItem>, cart: CartId, product: ProductId): (r: Option<nat>)
    ensures r.Some? ==> r.value < |rows| && OnLine(rows[r.value], cart, product)
    ensures r.None? <==> !HasLine(rows, cart, product)
  {
    if rows == [] then None
    else if OnLine(rows[0], cart, product) then Some(0)
    else match FindLine(rows[1..], cart, product)
      case Some(i) => Some(i + 1)
      case None => None
  }

  datatype AddResult = AddResult(rows: seq<CartItem>, nextId: ItemId, merged: bool)

  /** Merge-on-add: an existing (cart, product) line grows by q, otherwise a
      new line with quantity q and the next id is appended. */
  function AddLine(rows: seq<CartItem>, cart: CartId, product: ProductId, q: nat, next: ItemId): (r: AddResult)
    ensures r.merged <==> HasLine(rows, cart, product)
    ensures r.merged ==> |r.rows| == |rows| && r.nextId == next
    ensures !r.merged ==> r.rows == rows + [CartItem(next, cart, product, q)] && r.nextId == next + 1
  {
    match FindLine(rows, cart, product)
    case Some(i) => AddResult(rows[i := rows[i].(quantity := rows[i].quantity + q)], next, true)
    case None => AddResult(rows + [CartItem(next, cart, product, q)], next + 1, false)
  }

  lemma {:induction false} QuantityAppend(rows: seq<CartItem>, x: CartItem, cart: CartId, product: ProductId)
    ensures Quantity(rows + [x], cart, product)
         == Quantity(rows, cart, product) + (if OnLine(x, cart, product) then x.quantity else 0)
  {
    if rows != [] {
      assert (rows + [x])[1..] == rows[1..] + [x];
      QuantityAppend(rows[1..], x, cart, product);
    }
  }

  lemma {:induction false} QuantityUpdate(rows: seq<CartItem>, i: nat, x: CartItem, cart: CartId, product: ProductId)
    requires i < |rows|
    ensures Quantity(rows[i := x], cart, product)
         == Quantity(rows, cart, product)
            - (if OnLine(rows[i], cart, product) then rows[i].quantity else 0)
            + (if OnLine(x, cart, product) then x.quantity else 0)
  {
    if i > 0 {
      assert rows[i := x][1..] == rows[1..][i - 1 := x];
      QuantityUpdate(rows[1..], i - 1, x, cart, product);
    }
  }

  /** Adding q to (cart, product) raises that line's total by exactly q and
      leaves every other line's total as it was. */
  lemma AddLineQuantity(rows: seq<CartItem>, cart: CartId, product: ProductId, q: nat, next: ItemId,
                        c: CartId, p: ProductId)
    ensures Quantity(AddLine(rows, cart, product, q, next).rows, c, p)
         == Quantity(rows, c, p) + (if c == cart && p == product then q else 0)
  {
    match FindLine(rows, cart, product)
    case Some(i) =>
      QuantityUpdate(rows, i, rows[i].(quantity := rows[i].quantity + q), c, p);
    case None =>
      QuantityAppend(rows, CartItem(next, cart, product, q), c, p);
  }

  /** On an existing line the merge is an in-place increment of that very
      row; the row count and the next id do not change. */
  lemma AddLineExisting(rows: seq<CartItem>, cart: CartId, product: ProductId, q: nat, next: ItemId, i: nat)
    requires UniqueRows(rows)
    requires i < |rows| && OnLine(rows[i], cart, product)
    ensures AddLine(rows, cart, product, q, next)
         == AddResult(rows[i := rows[i].(quantity := rows[i].quantity + q)], next, true)
  {
    var found := FindLine(rows, cart, product);
    assert found.Some?;
    assert found.value == i;
  }

  /** Merge-on-add keeps the table valid, in particular at most one line per
      (cart, product). */
  lemma AddLineKeepsRowsValid(rows: seq<CartItem>, cart: CartId, product: ProductId, q: nat, next: ItemId,
                              carts: set<CartId>, products: set<ProductId>)
    requires RowsValid(rows, next, carts, products)
    requires cart in carts && product in products && q >= 1
    ensures var r := AddLine(rows, cart, product, q, next);
            RowsValid(r.rows, r.nextId, carts, products)
  {
    var r := AddLine(rows, cart, product, q, next);
    match FindLine(rows, cart, product)
    case Some(i) =>
      forall a, b | 0 <= a < b < |r.rows|
        ensures r.rows[a].id != r.rows[b].id && !OnLine(r.rows[b], r.rows[a].cart, r.rows[a].product)
      {
        assert r.rows[a].id == rows[a].id && r.rows[a].cart == rows[a].cart && r.rows[a].product == rows[a].product;
        assert r.rows[b].id == rows[b].id && r.rows[b].cart == rows[b].cart && r.rows[b].product == rows[b].product;
      }
      forall x | x in r.rows
        ensures x.id < r.nextId && x.quantity >= 1 && x.cart in carts && x.product in products
      {
        var k :| 0 <= k < |r.rows| && r.rows[k] == x;
        assert rows[k] in rows;
      }
    case None =>
      var h := CartItem(next, cart, product, q);
      forall a, b | 0 <= a < b < |r.rows|
        ensures r.rows[a].id != r.rows[b].id && !OnLine(r.rows[b], r.rows[a].cart, r.rows[a].product)
      {
        if b == |rows| {
          assert r.rows[a] in rows;
        }
      }
  }

  /** Two adds of the same product: one line, holding both quantities
      (the line count grows by one at most, and not at all if the line
      already existed). */
  lemma AddTwice(rows: seq<CartItem>, cart: CartId, product: ProductId, q1: nat, q2: nat, next: ItemId)
    ensures var r1 := AddLine(rows, cart, product, q1, next);
            var r2 := AddLine(r1.rows, cart, product, q2, r1.nextId);
            && Quantity(r2.rows, cart, product) == Quantity(rows, cart, product) + q1 + q2
            && r2.merged
            && |r2.rows| == (if HasLine(rows, cart, product) then |rows| else |rows| + 1)
  {
    var r1 := AddLine(rows, cart, product, q1, next);
    AddLineQuantity(rows, cart, product, q1, next, cart, product);
    AddLineQuantity(r1.rows, cart, product, q2, r1.nextId, cart, product);
    if !r1.merged {
      assert r1.rows[|rows|] in r1.rows;
    } else {
      var i := FindLine(rows, cart, product).value;
      assert r1.rows[i] in r1.rows && OnLine(r1.rows[i], cart, product);
    }
  }

  // ---------------------------------------------------------------------
  // Bulk quantity update

  /** The quantity requested for a line: int() of the value posted under its
      key (None when that does not parse), or the line's own quantity when
      nothing is posted for it. */
  function Requested(x: CartItem, posted: map<ItemId, Option<int>>): Option<int>
  {
    if x.id in posted then posted[x.id] else Some(x.quantity)
  }

  datatype BulkResult = BulkResult(rows: seq<CartItem>, ok: bool)

  /** The bulk update, walking the table in key order and touching only the
      rows of `cart`: a positive request sets the quantity, any other number
      deletes the row, and the first request that does not parse stops the
      walk; rows written before it stay written, the rest stay as they were. */
  function BulkApply(rows: seq<CartItem>, cart: CartId, posted: map<ItemId, Option<int>>): (r: BulkResult)
    ensures !r.ok ==> |r.rows| <= |rows|
  {
    if rows == [] then BulkResult([], true)
    else if rows[0].cart != cart then
      var rest := BulkApply(rows[1..], cart, posted);
      BulkResult([rows[0]] + rest.rows, rest.ok)
    else match Requested(rows[0], posted)
      case None => BulkResult(rows, false)
      case Some(n) =>
        var rest := BulkApply(rows[1..], cart, posted);
        if n > 0 then BulkResult([rows[0].(quantity := n)] + rest.rows, rest.ok)
        else BulkResult(rest.rows, rest.ok)
  }

  /** The update succeeds exactly when every line of the cart has a request
      that parses. */
  lemma {:induction false} BulkOkIff(rows: seq<CartItem>, cart: CartId, posted: map<ItemId, Option<int>>)
    ensures BulkApply(rows, cart, posted).ok
        <==> forall x :: x in rows && x.cart == cart ==> Requested(x, posted).Some?
  {
    if rows != [] {
      BulkOkIff(rows[1..], cart, posted);
      assert forall x :: x in rows <==> x == rows[0] || x in rows[1..];
    }
  }

  /** Whatever is posted, the rows of every other cart come out unchanged
      and in the same order. */
  lemma {:induction false} BulkOthersUntouched(rows: seq<CartItem>, cart: CartId, posted: map<ItemId, Option<int>>)
    ensures RowsOutside(BulkApply(rows, cart, posted).rows, cart) == RowsOutside(rows, cart)
  {
    if rows != [] {
      BulkOthersUntouched(rows[1..], cart, posted);
      var rest := BulkApply(rows[1..], cart, posted);
      if rows[0].cart != cart {
        assert ([rows[0]] + rest.rows)[1..] == rest.rows;
      } else if Requested(rows[0], posted).Some? && Requested(rows[0], posted).value > 0 {
        var n := Requested(rows[0], posted).value;
        assert ([rows[0].(quantity := n)] + rest.rows)[1..] == rest.rows;
      }
    }
  }

  /** The walk never invents an id, and every row it leaves is an old row
      with at most its quantity changed; with the table valid before, it is
      valid after. */
  lemma {:induction false} BulkKeepsRowsValid(rows: seq<CartItem>, cart: CartId, posted: map<ItemId, Option<int>>,
                                               next: ItemId, carts: set<CartId>, products: set<ProductId>)
    requires RowsValid(rows, next, carts, products)
    ensures RowsValid(BulkApply(rows, cart, posted).rows, next, carts, products)
    ensures Ids(BulkApply(rows, cart, posted).rows) <= Ids(rows)
    ensures forall y :: y in BulkApply(rows, cart, posted).rows ==>
              exists x :: x in rows && y == x.(quantity := y.quantity)
  {
    if rows != [] {
      var h := rows[0];
      UniqueTail(rows);
      BulkKeepsRowsValid(rows[1..], cart, posted, next, carts, products);
      var rest := BulkApply(rows[1..], cart, posted);
      var r := BulkApply(rows, cart, posted);
      forall x | x in rest.rows ensures !OnLine(x, h.cart, h.product) {
        var z :| z in rows[1..] && x == z.(quantity := x.quantity);
        assert OnLine(z, x.cart, x.product);
      }
      if h.cart != cart {
        UniqueCons(h, rest.rows);
      } else if Requested(h, posted).Some? && Requested(h, posted).value > 0 {
        var n := Requested(h, posted).value;
        UniqueCons(h.(quantity := n), rest.rows);
      }
      BulkIdsWithin(rows, cart, posted);
      forall y | y in r.rows ensures exists x :: x in rows && y == x.(quantity := y.quantity) {
        if y in rest.rows {
          var z :| z in rows[1..] && y == z.(quantity := y.quantity);
          assert z in rows;
        } else if y !in rows {
          assert y == h.(quantity := y.quantity);
        } else {
          assert y == y.(quantity := y.quantity);
        }
      }
    }
  }

  /** After a successful update every line of the cart is found by its id
      with the requested quantity when that was positive, and is gone
      otherwise. */
  lemma {:induction false} BulkSuccessLookup(rows: seq<CartItem>, cart: CartId, posted: map<ItemId, Option<int>>,
                                              x: CartItem)
    requires UniqueRows(rows)
    requires x in rows && x.cart == cart
    requires BulkApply(rows, cart, posted).ok
    ensures Requested(x, posted).Some?
    ensures var n := Requested(x, posted).value;
            ItemById(BulkApply(rows, cart, posted).rows, x.id)
              == if n > 0 then Some(x.(quantity := n)) else None
  {
    BulkOkIff(rows, cart, posted);
    UniqueTail(rows);
    var rest := BulkApply(rows[1..], cart, posted);
    if x == rows[0] {
      if Requested(x, posted).value <= 0 {
        BulkIdsWithin(rows[1..], cart, posted);
      }
    } else {
      assert x in rows[1..];
      assert x.id != rows[0].id;
      BulkSuccessLookup(rows[1..], cart, posted, x);
    }
  }

  lemma {:induction false} BulkIdsWithin(rows: seq<CartItem>, cart: CartId, posted: map<ItemId, Option<int>>)
    ensures Ids(BulkApply(rows, cart, posted).rows) <= Ids(rows)
  {
    if rows != [] {
      BulkIdsWithin(rows[1..], cart, posted);
      forall id | id in Ids(BulkApply(rows, cart, posted).rows) ensures id in Ids(rows) {
        var y :| y in BulkApply(rows, cart, posted).rows && y.id == id;
        if y in BulkApply(rows[1..], cart, posted).rows {
          assert id in Ids(BulkApply(rows[1..], cart, posted).rows);
          assert id in Ids(rows[1..]);
          var z :| z in rows[1..] && z.id == id;
          assert z in rows;
        } else {
          assert rows[0] in rows;
        }
      }
    }
  }

  /** A line of the cart for which nothing was posted keeps its quantity. */
  lemma BulkUnlistedKept(rows: seq<CartItem>, cart: CartId, posted: map<ItemId, Option<int>>, x: CartItem)
    requires UniqueRows(rows)
    requires x in rows && x.cart == cart && x.id !in posted && x.quantity >= 1
    requires BulkApply(rows, cart, posted).ok
    ensures ItemById(BulkApply(rows, cart, posted).rows, x.id) == Some(x)
  {
    BulkSuccessLookup(rows, cart, posted, x);
  }

  /** The first line of the cart whose request does not parse ends the walk:
      the rows before it hold the update of that prefix, the rows from it
      on are exactly as they were, and the update reports failure. */
  lemma {:induction false} BulkFailureKeepsEarlierWrites(rows: seq<CartItem>, cart: CartId,
                                                          posted: map<ItemId, Option<int>>, k: nat)
    requires k < |rows| && rows[k].cart == cart && Requested(rows[k], posted).None?
    requires forall j :: 0 <= j < k && rows[j].cart == cart ==> Requested(rows[j], posted).Some?
    ensures BulkApply(rows[..k], cart, posted).ok
    ensures BulkApply(rows, cart, posted)
         == BulkResult(BulkApply(rows[..k], cart, posted).rows + rows[k..], false)
  {
    if k > 0 {
      assert rows[1..][..k - 1] == rows[..k][1..];
      assert rows[1..][k - 1..] == rows[k..];
      BulkFailureKeepsEarlierWrites(rows[1..], cart, posted, k - 1);
      assert rows[..k][0] == rows[0];
    }
  }

  /** The cart's lines as the page's cached query holds them after the
      walk: a line whose request was positive shows the new quantity, a
      deleted line still shows with its old one, and from the first request
      that does not parse on the lines are as they were. */
  function CachedLines(rows: seq<CartItem>, cart: CartId, posted: map<ItemId, Option<int>>): (r: seq<CartItem>)
    ensures |r| == |LinesOf(rows, cart)|
    ensures forall y :: y in r ==> exists x :: x in rows && x.cart == cart && y == x.(quantity := y.quantity)
  {
    if rows == [] then []
    else if rows[0].cart != cart then CachedLines(rows[1..], cart, posted)
    else match Requested(rows[0], posted)
      case None => LinesOf(rows, cart)
      case Some(n) => [if n > 0 then rows[0].(quantity := n) else rows[0]] + CachedLines(rows[1..], cart, posted)
  }

  /** Every line the cart still has after the walk is among the cached
      lines the page shows. */
  lemma {:induction false} CachedShowsLiveLines(rows: seq<CartItem>, cart: CartId, posted: map<ItemId, Option<int>>)
    ensures forall y :: y in BulkApply(rows, cart, posted).rows && y.cart == cart ==> y in CachedLines(rows, cart, posted)
  {
    if rows != [] {
      CachedShowsLiveLines(rows[1..], cart, posted);
    }
  }

  /** The cached lines name only products the cart's rows name. */
  lemma CachedPriced(rows: seq<CartItem>, cart: CartId, posted: map<ItemId, Option<int>>, catalog: map<ProductId, Product>)
    requires PricedFor(rows, cart, catalog)
    ensures PricedFor(CachedLines(rows, cart, posted), cart, catalog)
  {
    forall y | y in CachedLines(rows, cart, posted)
      ensures y.product in catalog
    {
      var x :| x in rows && x.cart == cart && y == x.(quantity := y.quantity);
    }
  }

  // ---------------------------------------------------------------------
  // Remove from cart

  /** The lookup "id = item_id and cart of the requester". */
  function OwnedIndex(rows: seq<CartItem>, cart: CartId, id: ItemId): (r: Option<nat>)
    ensures r.Some? ==> r.value < |rows| && rows[r.value].id == id && rows[r.value].cart == cart
    ensures r.None? <==> forall x :: x in rows ==> !(x.id == id && x.cart == cart)
  {
    if rows == [] then None
    else if rows[0].id == id && rows[0].cart == cart then Some(0)
    else match OwnedIndex(rows[1..], cart, id)
      case Some(i) => Some(i + 1)
      case None => None
  }

  function RemoveAt(rows: seq<CartItem>, i: nat): seq<CartItem>
    requires i < |rows|
  {
    rows[..i] + rows[i + 1..]
  }

  lemma RemoveAtIndex(rows: seq<CartItem>, i: nat, a: nat)
    requires i < |rows| && a < |rows| - 1
    ensures RemoveAt(rows, i)[a] == rows[if a < i then a else a + 1]
  {
  }

  lemma {:induction false} RemoveKeepsOutside(rows: seq<CartItem>, i: nat)
    requires i < |rows|
    ensures RowsOutside(RemoveAt(rows, i), rows[i].cart) == RowsOutside(rows, rows[i].cart)
  {
    if i == 0 {
      assert RemoveAt(rows, 0) == rows[1..];
    } else {
      RemoveKeepsOutside(rows[1..], i - 1);
      assert rows[1..][i - 1] == rows[i];
      assert rows[..i] == [rows[0]] + rows[1..][..i - 1];
      assert rows[i + 1..] == rows[1..][i..];
      var r := RemoveAt(rows, i);
      assert r == [rows[0]] + RemoveAt(rows[1..], i - 1);
      assert r[0] == rows[0] && r[1..] == RemoveAt(rows[1..], i - 1);
    }
  }

  /** Deleting one line of a cart removes that id from the table, keeps
      every other line (of this cart or another), leaves every other cart's
      rows as they were, and keeps the table valid. */
  lemma RemoveOwnedLine(rows: seq<CartItem>, i: nat, next: ItemId, carts: set<CartId>, products: set<ProductId>)
    requires i < |rows| && RowsValid(rows, next, carts, products)
    ensures |RemoveAt(rows, i)| == |rows| - 1
    ensures ItemById(RemoveAt(rows, i), rows[i].id).None?
    ensures forall x :: x in rows && x.id != rows[i].id ==> x in RemoveAt(rows, i)
    ensures RowsOutside(RemoveAt(rows, i), rows[i].cart) == RowsOutside(rows, rows[i].cart)
    ensures RowsValid(RemoveAt(rows, i), next, carts, products)
  {
    var r := RemoveAt(rows, i);
    forall a, b | 0 <= a < b < |r|
      ensures r[a].id != r[b].id && !OnLine(r[b], r[a].cart, r[a].product)
    {
      RemoveAtIndex(rows, i, a);
      RemoveAtIndex(rows, i, b);
    }
    forall x | x in r
      ensures x.id < next && x.quantity >= 1 && x.cart in carts && x.product in products
      ensures x.id != rows[i].id
    {
      var a :| 0 <= a < |r| && r[a] == x;
      RemoveAtIndex(rows, i, a);
      assert x in rows;
    }
    forall x | x in rows && x.id != rows[i].id
      ensures x in r
    {
      var a :| 0 <= a < |rows| && rows[a] == x;
      if a < i {
        RemoveAtIndex(rows, i, a);
      } else {
        RemoveAtIndex(rows, i, a - 1);
      }
    }
    RemoveKeepsOutside(rows, i);
  }

  // ---------------------------------------------------------------------
  // Live total

  /** The lines of one cart, in table order. */
  function LinesOf(rows: seq<CartItem>, cart: CartId): (r: seq<CartItem>)
    ensures forall x :: x in r <==> x in rows && x.cart == cart
  {
    if rows == [] then []
    else (if rows[0].cart == cart then [rows[0]] else []) + LinesOf(rows[1..], cart)
  }

  predicate PricedFor(rows: seq<CartItem>, cart: CartId, catalog: map<ProductId, Product>)
  {
    forall x :: x in rows && x.cart == cart ==> x.product in catalog
  }

  /** Sum over the cart's lines of the product's current price times the
      line's quantity. */
  function CartTotal(rows: seq<CartItem>, cart: CartId, catalog: map<ProductId, Product>): int
    requires PricedFor(rows, cart, catalog)
  {
    if rows == [] then 0
    else (if rows[0].cart == cart then catalog[rows[0].product].price * rows[0].quantity else 0)
         + CartTotal(rows[1..], cart, catalog)
  }

  lemma Distribute(a: int, b: int, c: int)
    ensures a * (b + c) == a * b + a * c
  {
  }

  /** The total is live: repricing a product moves the total by the price
      difference times the quantity of that product in the cart. */
  lemma {:induction false} TotalIsLive(rows: seq<CartItem>, cart: CartId, catalog: map<ProductId, Product>,
                                        product: ProductId, newPrice: int)
    requires PricedFor(rows, cart, catalog) && product in catalog
    ensures var repriced := catalog[product := catalog[product].(price := newPrice)];
            PricedFor(rows, cart, repriced)
            && CartTotal(rows, cart, repriced)
               == CartTotal(rows, cart, catalog)
                  + (newPrice - catalog[product].price) * Quantity(rows, cart, product)
  {
    if rows != [] {
      TotalIsLive(rows[1..], cart, catalog, product, newPrice);
      var x := rows[0];
      if x.cart == cart && x.product == product {
        var d := newPrice - catalog[product].price;
        Distribute(d, x.quantity, Quantity(rows[1..], cart, product));
        Distribute(x.quantity, catalog[product].price, d);
      }
    }
  }

  lemma {:induction false} TotalAppend(rows: seq<CartItem>, x: CartItem, cart: CartId, catalog: map<ProductId, Product>)
    requires PricedFor(rows + [x], cart, catalog)
    ensures PricedFor(rows, cart, catalog)
    ensures CartTotal(rows + [x], cart, catalog)
         == CartTotal(rows, cart, catalog) + (if x.cart == cart then catalog[x.product].price * x.quantity else 0)
  {
    if rows != [] {
      assert (rows + [x])[1..] == rows[1..] + [x];
      TotalAppend(rows[1..], x, cart, catalog);
    }
  }

  lemma {:induction false} TotalUpdate(rows: seq<CartItem>, i: nat, x: CartItem, cart: CartId, catalog: map<ProductId, Product>)
    requires i < |rows| && PricedFor(rows, cart, catalog)
    requires x.cart == rows[i].cart && x.product == rows[i].product
    ensures PricedFor(rows[i := x], cart, catalog)
    ensures CartTotal(rows[i := x], cart, catalog)
         == CartTotal(rows, cart, catalog)
            + (if x.cart == cart then catalog[x.product].price * (x.quantity - rows[i].quantity) else 0)
  {
    if i > 0 {
      assert rows[i := x][1..] == rows[1..][i - 1 := x];
      TotalUpdate(rows[1..], i - 1, x, cart, catalog);
    } else {
      assert rows[0 := x][1..] == rows[1..];
    }
  }

  /** Adding q units of a product to the cart raises the total by the
      product's current price times q, merged or not. */
  lemma TotalAfterAdd(rows: seq<CartItem>, cart: CartId, product: ProductId, q: nat, next: ItemId,
                      catalog: map<ProductId, Product>)
    requires PricedFor(rows, cart, catalog) && product in catalog
    ensures var r := AddLine(rows, cart, product, q, next);
            PricedFor(r.rows, cart, catalog)
            && CartTotal(r.rows, cart, catalog) == CartTotal(rows, cart, catalog) + catalog[product].price * q
  {
    match FindLine(rows, cart, product)
    case Some(i) =>
      var x := rows[i].(quantity := rows[i].quantity + q);
      TotalUpdate(rows, i, x, cart, catalog);
    case None =>
      var x := CartItem(next, cart, product, q);
      assert PricedFor(rows + [x], cart, catalog);
      TotalAppend(rows, x, cart, catalog);
  }
}
