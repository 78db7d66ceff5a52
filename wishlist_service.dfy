/** Adding to and removing from a wishlist: set operations that report
    whether they changed anything. */
module WishlistService {
  import opened Models

  datatype AddOutcome = Added | AlreadyPresent

  datatype RemoveOutcome = Removed | NotPresent

  datatype AddResult = AddResult(wishlist: Wishlist, outcome: AddOutcome)

  datatype RemoveResult = RemoveResult(wishlist: Wishlist, outcome: RemoveOutcome)

  /** Afterwards the product is in the wishlist; "already present" exactly
      when it was in before. */
  function AddProduct(w: Wishlist, p: ProductId): (r: AddResult)
    ensures r.wishlist.products == w.products + {p}
    ensures r.outcome == AlreadyPresent <==> p in w.products
  {
    if p in w.products then AddResult(w, AlreadyPresent)
    else AddResult(Wishlist(w.products + {p}), Added)
  }

  /** Afterwards the product is not in the wishlist; "removed" exactly when
      it was in before. */
  function RemoveProduct(w: Wishlist, p: ProductId): (r: RemoveResult)
    ensures r.wishlist.products == w.products - {p}
    ensures r.outcome == Removed <==> p in w.products
  {
    if p in w.products then RemoveResult(Wishlist(w.products - {p}), Removed)
    else RemoveResult(w, NotPresent)
  }

  /** A second add of the same product changes nothing and says so. */
  lemma AddIdempotent(w: Wishlist, p: ProductId)
    ensures AddProduct(AddProduct(w, p).wishlist, p) == AddResult(AddProduct(w, p).wishlist, AlreadyPresent)
  {
  }

  /** A second remove of the same product changes nothing and says so. */
  lemma RemoveIdempotent(w: Wishlist, p: ProductId)
    ensures RemoveProduct(RemoveProduct(w, p).wishlist, p) == RemoveResult(RemoveProduct(w, p).wishlist, NotPresent)
  {
  }

  /** Removing what was just added restores the wishlist. */
  lemma RemoveUndoesAdd(w: Wishlist, p: ProductId)
    requires p !in w.products
    ensures RemoveProduct(AddProduct(w, p).wishlist, p) == RemoveResult(w, Removed)
  {
    assert w.products + {p} - {p} == w.products;
  }

  /** Adding back what was just removed restores the wishlist. */
  lemma AddUndoesRemove(w: Wishlist, p: ProductId)
    requires p in w.products
    ensures AddProduct(RemoveProduct(w, p).wishlist, p) == AddResult(w, Added)
  {
    assert w.products - {p} + {p} == w.products;
  }
}
