/** The documents the console reads from its "orders", "products" and
    "categories" collections, with the JavaScript defaulting rules that the
    screens apply to their optional fields. A field that a document may lack
    is an `Option`; `None` is a missing (undefined or null) field. */
module Records {
  import opened Seqs

  datatype Option<+T> = None | Some(value: T) {
    /** JavaScript's `x ?? fallback`: only a missing value is replaced. */
    function GetOr(fallback: T): T {
      match this
      case Some(v) => v
      case None => fallback
    }
  }

  /** Firestore timestamps, ordered as instants. */
  type Timestamp = int

  /** The label the screens use for a missing staff name, category id or
      category name ("unknown"). */
  const Unknown: string := "Không rõ"

  /** JavaScript's `s || fallback` on an optional string: a missing value and
      the empty string are both falsy. */
  function Or(s: Option<string>, fallback: string): (r: string)
    ensures r == fallback <==> s == None || s == Some("") || s == Some(fallback)
    ensures r != fallback ==> s == Some(r)
  {
    match s
    case Some(v) => if v != "" then v else fallback
    case None => fallback
  }

  /** One product entry inside an order: its price and category at the time
      of sale. */
  datatype LineItem = LineItem(price: Option<int>, categoryId: Option<string>)

  datatype Order = Order(
    id: string,
    createdAt: Option<Timestamp>,
    buyerName: Option<string>,
    phone: Option<string>,
    address: Option<string>,
    note: Option<string>,
    staffName: Option<string>,
    paymentMethod: Option<string>,
    products: seq<LineItem>)

  datatype Product = Product(
    id: string,
    brand: Option<string>,
    categoryId: Option<string>,
    color: Option<string>,
    storage: Option<string>,
    battery: Option<int>,
    buyingPrice: Option<int>,
    sellingPrice: Option<int>,
    status: Option<string>,
    note: Option<string>,
    isSelling: bool,
    createdAt: Option<Timestamp>,
    imagePath: Option<string>)

  datatype Category = Category(
    id: string,
    name: Option<string>,
    imageUrl: Option<string>,
    sold: Option<int>,
    order: Option<int>)

  /** `p.price || 0`. */
  function PriceOf(item: LineItem): int
  {
    item.price.GetOr(0)
  }

  /** `order.products.reduce((sum, p) => sum + (p.price || 0), 0)`: the
      displayed total of an order and its contribution to revenue. */
  function OrderTotal(o: Order): int
  {
    SumOf(o.products, PriceOf)
  }

  /** With no negative prices, an order's total is not negative. */
  lemma OrderTotalNonNegative(o: Order)
    requires forall item :: item in o.products ==> PriceOf(item) >= 0
    ensures OrderTotal(o) >= 0
  {
    SumOfNonNegative(o.products, PriceOf);
  }

  /** The test of the query `where("createdAt", ">=", start)`: a document
      without a creation time never matches. */
  predicate OrderCreatedSince(o: Order, start: Timestamp)
  {
    o.createdAt.Some? && o.createdAt.value >= start
  }

  predicate ProductCreatedSince(p: Product, start: Timestamp)
  {
    p.createdAt.Some? && p.createdAt.value >= start
  }

  /** The result of the orders query bounded below by `start`, in store order. */
  function OrdersSince(orders: seq<Order>, start: Timestamp): (r: seq<Order>)
    ensures forall o :: o in r <==> o in orders && OrderCreatedSince(o, start)
  {
    FilterMembers(orders, o => OrderCreatedSince(o, start));
    Filter(orders, o => OrderCreatedSince(o, start))
  }

  function ProductsSince(products: seq<Product>, start: Timestamp): (r: seq<Product>)
    ensures forall p :: p in r <==> p in products && ProductCreatedSince(p, start)
  {
    FilterMembers(products, p => ProductCreatedSince(p, start));
    Filter(products, p => ProductCreatedSince(p, start))
  }

  /** The lower bound is inclusive: a document created exactly at `start`
      is in the window, one created a moment before is not. */
  lemma WindowIsInclusive(orders: seq<Order>, o: Order, start: Timestamp)
    requires o in orders
    ensures o.createdAt == Some(start) ==> o in OrdersSince(orders, start)
    ensures o.createdAt == Some(start - 1) ==> o !in OrdersSince(orders, start)
    ensures o.createdAt == None ==> o !in OrdersSince(orders, start)
  {
  }

  /** A later bound selects a sub-collection of an earlier bound's orders
      (the month's orders are among the year's). */
  lemma {:induction false} LaterWindowIsSmaller(orders: seq<Order>, early: Timestamp, late: Timestamp)
    requires early <= late
    ensures multiset(OrdersSince(orders, late)) <= multiset(OrdersSince(orders, early))
    ensures |OrdersSince(orders, late)| <= |OrdersSince(orders, early)|
  {
    FilterMonotone(orders, o => OrderCreatedSince(o, late), o => OrderCreatedSince(o, early));
    var small, big := multiset(OrdersSince(orders, late)), multiset(OrdersSince(orders, early));
    assert |small| <= |big| by {
      assert big == small + (big - small);
    }
  }
}
