/** Records of the storefront: the product catalog with its enumerations,
    the per-user rows (cart, profile, wishlist) and the cart, order, review
    and payment rows. Prices and balances are integer cents. */
module Models {

  datatype Option<T> = None | Some(value: T)

  type UserId = nat
  type ProductId = nat
  type CartId = nat
  type ItemId = nat

  /** The five product categories; stored under their display names. */
  datatype Category = Boys | Girls | Men | Women | Toddler

  /** The three seasons; a product is "All Season" unless told otherwise. */
  datatype Season = Summer | Winter | AllSeason

  function CategoryName(c: Category): string
  {
    match c
    case Boys => "Boys"
    case Girls => "Girls"
    case Men => "Men"
    case Women => "Women"
    case Toddler => "Toddler"
  }

  function SeasonName(s: Season): string
  {
    match s
    case Summer => "Summer"
    case Winter => "Winter"
    case AllSeason => "All Season"
  }

  /** Reads a stored category value back; only the five choices are accepted. */
  function ParseCategory(s: string): (r: Option<Category>)
    ensures r.Some? ==> CategoryName(r.value) == s
    ensures r.None? <==> forall c: Category :: CategoryName(c) != s
  {
    if s == "Boys" then Some(Boys)
    else if s == "Girls" then Some(Girls)
    else if s == "Men" then Some(Men)
    else if s == "Women" then Some(Women)
    else if s == "Toddler" then Some(Toddler)
    else None
  }

  /** Reads a stored season value back; only the three choices are accepted. */
  function ParseSeason(s: string): (r: Option<Season>)
    ensures r.Some? ==> SeasonName(r.value) == s
    ensures r.None? <==> forall t: Season :: SeasonName(t) != s
  {
    if s == "Summer" then Some(Summer)
    else if s == "Winter" then Some(Winter)
    else if s == "All Season" then Some(AllSeason)
    else None
  }

  lemma CategoryRoundTrip(c: Category)
    ensures ParseCategory(CategoryName(c)) == Some(c)
  {
    match c
    case Boys =>
    case Girls =>
    case Men =>
    case Women =>
    case Toddler =>
  }

  lemma SeasonRoundTrip(s: Season)
    ensures ParseSeason(SeasonName(s)) == Some(s)
  {
    match s
    case Summer =>
    case Winter =>
    case AllSeason =>
  }

  /** Distinct categories are stored under distinct names, so a filter on
      the stored name selects exactly one category. */
  lemma CategoryNameInjective(c: Category, d: Category)
    ensures CategoryName(c) == CategoryName(d) <==> c == d
  {
    CategoryRoundTrip(c);
    CategoryRoundTrip(d);
  }

  lemma SeasonNameInjective(s: Season, t: Season)
    ensures SeasonName(s) == SeasonName(t) <==> s == t
  {
    SeasonRoundTrip(s);
    SeasonRoundTrip(t);
  }

  datatype Product = Product(
    id: ProductId,
    category: Category,
    name: string,
    price: int,          // cents
    buyQuantity: nat,
    stockQuantity: nat,
    dimensions: string,
    weights: string,
    offers: string,
    season: Season,
    fabric: string,
    texture: string,
    brand: string)

  /** A product row created with only its required fields: counters 0, free
      text blank, season "All Season". */
  function NewProduct(id: ProductId, category: Category, name: string, price: int): (p: Product)
    ensures p.id == id && p.category == category && p.name == name && p.price == price
    ensures p.season == AllSeason && p.buyQuantity == 0 && p.stockQuantity == 0
    ensures p.dimensions == "" && p.weights == "" && p.offers == ""
    ensures p.fabric == "" && p.texture == "" && p.brand == ""
  {
    Product(id, category, name, price, 0, 0, "", "", "", AllSeason, "", "", "")
  }

  /** One per user (a one-to-one column, so a map from user to row). */
  datatype Cart = Cart(id: CartId)

  datatype Profile = Profile(phone: string, address: string, walletBalance: int)

  /** The values a profile row gets when nothing else is supplied. */
  const DefaultProfile: Profile := Profile("", "", 0)

  datatype Wishlist = Wishlist(products: set<ProductId>)

  const EmptyWishlist: Wishlist := Wishlist({})

  /** A line of a cart. The column is a non-negative integer; the views keep
      it at least 1. */
  datatype CartItem = CartItem(id: ItemId, cart: CartId, product: ProductId, quantity: nat)

  const DefaultQuantity: nat := 1

  /** A purchased line carries its own price, copied when it was bought. */
  datatype OrderedItem = OrderedItem(product: ProductId, quantity: nat, price: int)

  datatype Order = Order(id: nat, user: UserId, items: seq<OrderedItem>, totalPrice: int, status: string)

  datatype Review = Review(user: UserId, product: ProductId, rating: nat, comment: string)

  datatype Payment = Payment(user: UserId, order: nat, amount: int, paymentMethod: string, status: string)

  const PendingStatus: string := "Pending"
  const DefaultRating: nat := 5

  function NewOrder(id: nat, user: UserId, items: seq<OrderedItem>, totalPrice: int): (o: Order)
    ensures o.status == "Pending" && o.items == items && o.totalPrice == totalPrice && o.user == user
  {
    Order(id, user, items, totalPrice, PendingStatus)
  }

  function NewReview(user: UserId, product: ProductId, comment: string): (r: Review)
    ensures r.rating == 5 && r.user == user && r.product == product && r.comment == comment
  {
    Review(user, product, DefaultRating, comment)
  }

  function NewPayment(user: UserId, order: nat, amount: int, paymentMethod: string): (p: Payment)
    ensures p.status == "Pending" && p.order == order && p.amount == amount && p.user == user
  {
    Payment(user, order, amount, paymentMethod, PendingStatus)
  }
}
