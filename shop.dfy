/** The store's tables and the per-user provisioning: on a user's first
    save, four receivers (one combined, then one each for cart, profile and
    wishlist) fetch-or-create that user's cart, profile and wishlist. */
module Shop {
  import opened Models
  import CartService

  /** Where a storage error strikes inside the combined receiver, if at all.
      The receiver catches it, so the user row stays. */
  datatype Fault = NoFault | CartFault | ProfileFault | WishlistFault

  /** A snapshot of every table the core reads or writes. Carts, profiles
      and wishlists are one-to-one with users, hence maps keyed by user. */
  datatype Tables = Tables(
    users: set<UserId>,
    products: map<ProductId, Product>,
    carts: map<UserId, Cart>,
    nextCartId: CartId,
    profiles: map<UserId, Profile>,
    wishlists: map<UserId, Wishlist>,
    items: seq<CartItem>,
    nextItemId: ItemId)
  {
    function CartIds(): set<CartId>
    {
      set u | u in carts :: carts[u].id
    }

    /** Referential integrity, fresh keys, one cart id per user, and the
        cart-item table's own invariant. */
    predicate Valid()
    {
      && carts.Keys <= users && profiles.Keys <= users && wishlists.Keys <= users
      && (forall p :: p in products ==> products[p].id == p)
      && (forall u :: u in carts ==> carts[u].id < nextCartId)
      && (forall u, v :: u in carts && v in carts && carts[u].id == carts[v].id ==> u == v)
      && (forall u :: u in wishlists ==> wishlists[u].products <= products.Keys)
      && CartService.RowsValid(items, nextItemId, CartIds(), products.Keys)
    }

    /** Every user has a cart, a profile and a wishlist. */
    predicate FullyProvisioned()
    {
      forall u :: u in users ==> u in carts && u in profiles && u in wishlists
    }
  }

  // ---------------------------------------------------------------------
  // Fetch-or-create

  /** Cart.objects.get_or_create(user=u). */
  function WithCart(t: Tables, u: UserId): Tables
  {
    if u in t.carts then t
    else t.(carts := t.carts[u := Cart(t.nextCartId)], nextCartId := t.nextCartId + 1)
  }

  /** UserProfile.objects.get_or_create(user=u), with phone '', address ''
      and balance 0 on creation. */
  function WithProfile(t: Tables, u: UserId): Tables
  {
    if u in t.profiles then t else t.(profiles := t.profiles[u := DefaultProfile])
  }

  /** Wishlist.objects.get_or_create(user=u). */
  function WithWishlist(t: Tables, u: UserId): Tables
  {
    if u in t.wishlists then t else t.(wishlists := t.wishlists[u := EmptyWishlist])
  }

  function Provisioned(t: Tables, u: UserId): Tables
  {
    WithWishlist(WithProfile(WithCart(t, u), u), u)
  }

  // ---------------------------------------------------------------------
  // The post_save receivers

  /** The combined receiver: the three fetch-or-creates in order; a storage
      error ends it early and is swallowed. */
  function CombinedReceiver(t: Tables, u: UserId, created: bool, fault: Fault): Tables
  {
    if !created || fault == CartFault then t
    else
      var t1 := WithCart(t, u);
      if fault == ProfileFault then t1
      else
        var t2 := WithProfile(t1, u);
        if fault == WishlistFault then t2 else WithWishlist(t2, u)
  }

  function CartReceiver(t: Tables, u: UserId, created: bool): Tables
  {
    if created then WithCart(t, u) else t
  }

  function ProfileReceiver(t: Tables, u: UserId, created: bool): Tables
  {
    if created then WithProfile(t, u) else t
  }

  function WishlistReceiver(t: Tables, u: UserId, created: bool): Tables
  {
    if created then WithWishlist(t, u) else t
  }

  /** All four receivers in the order they are registered. */
  function AfterUserSave(t: Tables, u: UserId, created: bool, fault: Fault): Tables
  {
    WishlistReceiver(ProfileReceiver(CartReceiver(CombinedReceiver(t, u, created, fault), u, created), u, created), u, created)
  }

  // ---------------------------------------------------------------------
  // Properties

  /** Provisioning gives the user exactly one cart (a map holds at most
      one): the one it had, or a new one with the next cart id. Other users'
      carts are untouched. */
  lemma ProvisionedCart(t: Tables, u: UserId)
    ensures var r := Provisioned(t, u);
      && r.carts.Keys == t.carts.Keys + {u}
      && (forall v :: v in t.carts ==> r.carts[v] == t.carts[v])
      && (u !in t.carts ==> r.carts[u] == Cart(t.nextCartId) && r.nextCartId == t.nextCartId + 1)
      && (u in t.carts ==> r.nextCartId == t.nextCartId)
  {
    var t1 := WithCart(t, u);
    var t2 := WithProfile(t1, u);
    assert t2.carts == t1.carts && t2.nextCartId == t1.nextCartId;
    assert WithWishlist(t2, u).carts == t1.carts && WithWishlist(t2, u).nextCartId == t1.nextCartId;
  }

  /** Provisioning gives the user exactly one profile: the one it had, or
      a new one with phone '', address '' and balance 0. */
  lemma ProvisionedProfile(t: Tables, u: UserId)
    ensures var r := Provisioned(t, u);
      && r.profiles.Keys == t.profiles.Keys + {u}
      && (forall v :: v in t.profiles ==> r.profiles[v] == t.profiles[v])
      && (u !in t.profiles ==> r.profiles[u] == Profile("", "", 0))
  {
    var t1 := WithCart(t, u);
    assert t1.profiles == t.profiles;
    var t2 := WithProfile(t1, u);
    assert WithWishlist(t2, u).profiles == t2.profiles;
  }

  /** Provisioning gives the user exactly one wishlist: the one it had, or
      a new empty one. */
  lemma ProvisionedWishlist(t: Tables, u: UserId)
    ensures var r := Provisioned(t, u);
      && r.wishlists.Keys == t.wishlists.Keys + {u}
      && (forall v :: v in t.wishlists ==> r.wishlists[v] == t.wishlists[v])
      && (u !in t.wishlists ==> r.wishlists[u].products == {})
  {
    var t1 := WithCart(t, u);
    var t2 := WithProfile(t1, u);
    assert t2.wishlists == t.wishlists;
  }

  /** Provisioning touches no table other than carts, profiles and
      wishlists: the user row, the catalog and the cart lines stay. */
  lemma ProvisionedTouchesOnlyUserRows(t: Tables, u: UserId)
    ensures var r := Provisioned(t, u);
      r == t.(carts := r.carts, nextCartId := r.nextCartId, profiles := r.profiles, wishlists := r.wishlists)
  {
  }

  /** A cart created by provisioning gets an id no other cart has. */
  lemma NewCartIdIsFresh(t: Tables)
    requires t.Valid()
    ensures t.nextCartId !in t.CartIds()
  {
  }

  /** Provisioning twice is provisioning once. */
  lemma ProvisionedIdempotent(t: Tables, u: UserId)
    ensures Provisioned(Provisioned(t, u), u) == Provisioned(t, u)
  {
    var t1 := WithCart(t, u);
    var t2 := WithProfile(t1, u);
    var r := WithWishlist(t2, u);
    assert u in t1.carts;
    assert t2.carts == t1.carts && u in t2.profiles;
    assert r.carts == t2.carts && r.profiles == t2.profiles && u in r.wishlists;
    assert WithCart(r, u) == r;
    assert WithProfile(r, u) == r;
  }

  lemma WithCartKeepsValid(t: Tables, u: UserId)
    requires t.Valid() && u in t.users
    ensures WithCart(t, u).Valid()
  {
    if u !in t.carts {
      var r := WithCart(t, u);
      forall id | id in r.CartIds() ensures id in t.CartIds() + {t.nextCartId} {
        var v :| v in r.carts && r.carts[v].id == id;
        if v != u { assert v in t.carts; }
      }
      forall id | id in t.CartIds() + {t.nextCartId} ensures id in r.CartIds() {
        if id == t.nextCartId {
          assert r.carts[u].id == id;
        } else {
          var v :| v in t.carts && t.carts[v].id == id;
          assert r.carts[v].id == id;
        }
      }
      assert t.CartIds() <= r.CartIds();
      forall v, w | v in r.carts && w in r.carts && r.carts[v].id == r.carts[w].id ensures v == w {
        if v != u && w != u {
          assert t.carts[v].id == t.carts[w].id;
        }
      }
    }
  }

  lemma WithProfileKeepsValid(t: Tables, u: UserId)
    requires t.Valid() && u in t.users
    ensures WithProfile(t, u).Valid()
  {
    assert WithProfile(t, u).CartIds() == t.CartIds();
  }

  lemma WithWishlistKeepsValid(t: Tables, u: UserId)
    requires t.Valid() && u in t.users
    ensures WithWishlist(t, u).Valid()
  {
    assert WithWishlist(t, u).CartIds() == t.CartIds();
  }

  /** Replacing the cart-line table by a valid one keeps every invariant. */
  lemma ItemsUpdateKeepsValid(t: Tables, rows: seq<CartItem>, next: ItemId)
    requires t.Valid() && CartService.RowsValid(rows, next, t.CartIds(), t.products.Keys)
    ensures t.(items := rows, nextItemId := next).Valid()
  {
    assert t.(items := rows, nextItemId := next).CartIds() == t.CartIds();
  }

  /** Giving a user a wishlist of catalog products keeps every invariant. */
  lemma WishlistUpdateKeepsValid(t: Tables, u: UserId, w: Wishlist)
    requires t.Valid() && u in t.users && w.products <= t.products.Keys
    ensures t.(wishlists := t.wishlists[u := w]).Valid()
  {
    assert t.(wishlists := t.wishlists[u := w]).CartIds() == t.CartIds();
  }

  /** Provisioning a user who exists keeps every table invariant. */
  lemma ProvisionedKeepsValid(t: Tables, u: UserId)
    requires t.Valid() && u in t.users
    ensures Provisioned(t, u).Valid()
  {
    WithCartKeepsValid(t, u);
    WithProfileKeepsValid(WithCart(t, u), u);
    WithWishlistKeepsValid(WithProfile(WithCart(t, u), u), u);
  }

  /** Saving a user who already existed runs no receiver body. */
  lemma SaveOfExistingUserChangesNothing(t: Tables, u: UserId, fault: Fault)
    ensures AfterUserSave(t, u, false, fault) == t
  {
  }

  /** Wherever a storage error stops the combined receiver, the three
      separate receivers that follow it fetch what it made and create what
      it did not: the end state is the same as with no error at all. */
  lemma ReceiversConvergeDespiteFault(t: Tables, u: UserId, fault: Fault)
    ensures AfterUserSave(t, u, true, fault) == Provisioned(t, u)
  {
    match fault
    case NoFault =>
      ProvisionedIdempotent(t, u);
    case CartFault =>
    case ProfileFault =>
    case WishlistFault =>
  }

  /** Repeated provisioning for one user converges to one cart, one profile
      and one wishlist, whatever errors the combined receiver met. */
  lemma RepeatedSavesConverge(t: Tables, u: UserId, f1: Fault, f2: Fault)
    ensures AfterUserSave(AfterUserSave(t, u, true, f1), u, true, f2) == Provisioned(t, u)
  {
    ReceiversConvergeDespiteFault(t, u, f1);
    ReceiversConvergeDespiteFault(Provisioned(t, u), u, f2);
    ProvisionedIdempotent(t, u);
  }

  /** Creating a user in a store where every user is provisioned leaves
      every user, the new one included, with exactly one row of each kind,
      and keeps the table invariants. */
  lemma UserCreationKeepsStoreProvisioned(t: Tables, u: UserId, fault: Fault)
    requires t.Valid() && t.FullyProvisioned()
    ensures var saved := t.(users := t.users + {u});
            var r := AfterUserSave(saved, u, u !in t.users, fault);
            r.Valid() && r.FullyProvisioned() && r.users == t.users + {u}
  {
    var saved := t.(users := t.users + {u});
    if u in t.users {
      assert saved == t;
      SaveOfExistingUserChangesNothing(saved, u, fault);
    } else {
      assert saved.CartIds() == t.CartIds();
      assert saved.Valid();
      ReceiversConvergeDespiteFault(saved, u, fault);
      ProvisionedKeepsValid(saved, u);
      ProvisionedCart(saved, u);
      ProvisionedProfile(saved, u);
      ProvisionedWishlist(saved, u);
      ProvisionedTouchesOnlyUserRows(saved, u);
    }
  }


  // ---------------------------------------------------------------------
  // The store

  class Store {
    var users: set<UserId>
    var products: map<ProductId, Product>
    var carts: map<UserId, Cart>
    var nextCartId: CartId
    var profiles: map<UserId, Profile>
    var wishlists: map<UserId, Wishlist>
    var items: seq<CartItem>
    var nextItemId: ItemId

    function State(): Tables
      reads this
    {
      Tables(users, products, carts, nextCartId, profiles, wishlists, items, nextItemId)
    }

    predicate Valid()
      reads this
    {
      State().Valid()
    }

    /** An empty store over a catalog keyed by product id. */
    constructor (catalog: map<ProductId, Product>)
      requires forall p :: p in catalog ==> catalog[p].id == p
      ensures Valid() && State().FullyProvisioned()
      ensures State() == Tables({}, catalog, map[], 0, map[], map[], [], 0)
    {
      users, products := {}, catalog;
      carts, nextCartId := map[], 0;
      profiles, wishlists := map[], map[];
      items, nextItemId := [], 0;
    }

    method GetOrCreateCart(u: UserId) returns (cart: Cart, created: bool)
      requires Valid() && u in users
      modifies this
      ensures Valid() && State() == WithCart(old(State()), u)
      ensures u in carts && cart == carts[u] && created == (u !in old(carts))
    {
      WithCartKeepsValid(State(), u);
      if u in carts {
        cart, created := carts[u], false;
      } else {
        cart, created := Cart(nextCartId), true;
        carts := carts[u := cart];
        nextCartId := nextCartId + 1;
      }
    }

    method GetOrCreateProfile(u: UserId) returns (profile: Profile, created: bool)
      requires Valid() && u in users
      modifies this
      ensures Valid() && State() == WithProfile(old(State()), u)
      ensures u in profiles && profile == profiles[u] && created == (u !in old(profiles))
    {
      WithProfileKeepsValid(State(), u);
      if u in profiles {
        profile, created := profiles[u], false;
      } else {
        profile, created := DefaultProfile, true;
        profiles := profiles[u := profile];
      }
    }

    method GetOrCreateWishlist(u: UserId) returns (wishlist: Wishlist, created: bool)
      requires Valid() && u in users
      modifies this
      ensures Valid() && State() == WithWishlist(old(State()), u)
      ensures u in wishlists && wishlist == wishlists[u] && created == (u !in old(wishlists))
    {
      WithWishlistKeepsValid(State(), u);
      if u in wishlists {
        wishlist, created := wishlists[u], false;
      } else {
        wishlist, created := EmptyWishlist, true;
        wishlists := wishlists[u := wishlist];
      }
    }

    /** Writing the cart-line table back: rows that reference known carts
        and products, with ids below the next id, keep the store valid. */
    method SaveItems(rows: seq<CartItem>, next: ItemId)
      requires Valid() && CartService.RowsValid(rows, next, State().CartIds(), products.Keys)
      modifies this
      ensures Valid() && State() == old(State()).(items := rows, nextItemId := next)
    {
      ItemsUpdateKeepsValid(State(), rows, next);
      items, nextItemId := rows, next;
    }

    /** Writing back one user's wishlist, which may hold only catalog
        products. */
    method SaveWishlist(u: UserId, w: Wishlist)
      requires Valid() && u in users && w.products <= products.Keys
      modifies this
      ensures Valid() && State() == old(State()).(wishlists := old(wishlists)[u := w])
    {
      WishlistUpdateKeepsValid(State(), u, w);
      wishlists := wishlists[u := w];
    }

    /** The combined receiver; `fault` says where the storage raises. */
    method CreateUserProfileAndRelatedObjects(u: UserId, created: bool, fault: Fault)
      requires Valid() && u in users
      modifies this
      ensures Valid() && State() == CombinedReceiver(old(State()), u, created, fault)
    {
      if created {
        if fault == CartFault { return; }
        var cart, cartCreated := GetOrCreateCart(u);
        if fault == ProfileFault { return; }
        var profile, profileCreated := GetOrCreateProfile(u);
        if fault == WishlistFault { return; }
        var wishlist, wishlistCreated := GetOrCreateWishlist(u);
      }
    }

    method CreateUserCart(u: UserId, created: bool)
      requires Valid() && u in users
      modifies this
      ensures Valid() && State() == CartReceiver(old(State()), u, created)
    {
      if created {
        var cart, cartCreated := GetOrCreateCart(u);
      }
    }

    method CreateUserProfile(u: UserId, created: bool)
      requires Valid() && u in users
      modifies this
      ensures Valid() && State() == ProfileReceiver(old(State()), u, created)
    {
      if created {
        var profile, profileCreated := GetOrCreateProfile(u);
      }
    }

    method CreateUserWishlist(u: UserId, created: bool)
      requires Valid() && u in users
      modifies this
      ensures Valid() && State() == WishlistReceiver(old(State()), u, created)
    {
      if created {
        var wishlist, wishlistCreated := GetOrCreateWishlist(u);
      }
    }

    /** The post_save signal: the four receivers in registration order. */
    method PostSave(u: UserId, created: bool, fault: Fault)
      requires Valid() && u in users
      modifies this
      ensures Valid() && State() == AfterUserSave(old(State()), u, created, fault)
    {
      CreateUserProfileAndRelatedObjects(u, created, fault);
      CreateUserCart(u, created);
      CreateUserProfile(u, created);
      CreateUserWishlist(u, created);
    }

    /** Saving a user row: inserted when new, then the post_save receivers
        run with `created` telling whether it was new. */
    method SaveUser(u: UserId, fault: Fault)
      requires Valid()
      modifies this
      ensures Valid()
      ensures State() == AfterUserSave(old(State()).(users := old(users) + {u}), u, u !in old(users), fault)
      ensures old(State()).FullyProvisioned() ==> State().FullyProvisioned()
    {
      ghost var before := State();
      var created := u !in users;
      users := users + {u};
      assert State().CartIds() == before.CartIds();
      PostSave(u, created, fault);
      if before.FullyProvisioned() {
        UserCreationKeepsStoreProvisioned(before, u, fault);
      }
    }
  }
}
