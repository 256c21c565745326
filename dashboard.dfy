/** The dashboard's statistics run (`fetchStats`): a monthly pass over the
    orders created since the start of the month and a yearly pass over the
    orders created since the start of the year, each also counting units sold
    per category, plus the top-five presentation of the per-category maps.

    The store reads are inputs: `products` and `orders` are the collections,
    the windowed queries are `ProductsSince`/`OrdersSince`, and the category
    read `getDoc(categories/id)` is the function `lookup`. The calendar is
    abstract: `monthOf` gives the month of an instant, `now` is the clock. */
module Dashboard {
  import opened Seqs
  import opened Records

  /** A calendar month index, 0 for January. */
  type Month = m: int | 0 <= m < 12

  /** One value of a top-categories map: `{ name, imageUrl, sold }`. */
  datatype TopCategory = TopCategory(name: string, imageUrl: string, sold: nat)

  /** A per-category sold map with its keys in insertion order, which is the
      order in which `Object.entries` lists them. */
  datatype CategoryCounts = CategoryCounts(entries: map<string, TopCategory>, keys: seq<string>)

  /** The snapshot handed to `setStats`. */
  datatype Stats = Stats(
    productsThisMonth: nat,
    ordersThisMonth: nat,
    salesByStaff: map<string, int>,
    ordersPerMonth: seq<int>,
    salesPerMonth: seq<int>,
    totalRevenueThisYear: int,
    totalRevenueThisMonth: int,
    topCategoriesMonth: CategoryCounts,
    topCategoriesYear: CategoryCounts)

  // ---------------------------------------------------------------------
  // Specification: what each figure means, stated per order or per item.
  // ---------------------------------------------------------------------

  /** `data.staffName || "Không rõ"`. */
  function StaffKey(o: Order): string
  {
    Or(o.staffName, Unknown)
  }

  /** Number of line items of an order. */
  function ItemCount(o: Order): int
  {
    |o.products|
  }

  /** The staff key of every order, in order. */
  function StaffNames(os: seq<Order>): seq<string>
  {
    if os == [] then [] else StaffNames(os[..|os| - 1]) + [StaffKey(os[|os| - 1])]
  }

  /** Units sold by staff member `s`: line items of the orders whose staff key is `s`. */
  function StaffUnits(os: seq<Order>, s: string): nat
  {
    if os == [] then 0
    else StaffUnits(os[..|os| - 1], s) + if StaffKey(os[|os| - 1]) == s then |os[|os| - 1].products| else 0
  }

  /** The intended `salesByStaff`: one key per staff name that occurs, mapped
      to that member's units. */
  function StaffTally(os: seq<Order>): map<string, int>
  {
    map s | s in StaffNames(os) :: StaffUnits(os, s)
  }

  /** Revenue of a list of orders: the sum of their totals. */
  function Revenue(os: seq<Order>): int
  {
    SumOf(os, OrderTotal)
  }

  /** Line items over a list of orders. */
  function TotalUnits(os: seq<Order>): int
  {
    SumOf(os, ItemCount)
  }

  /** `dayjs(data.createdAt?.toDate()).month()`: a missing creation time
      reads as the current instant. */
  function OrderMonth(o: Order, monthOf: Timestamp -> Month, now: Timestamp): Month
  {
    monthOf(o.createdAt.GetOr(now))
  }

  /** Orders placed in month `m`. */
  function OrdersInMonth(os: seq<Order>, monthOf: Timestamp -> Month, now: Timestamp, m: int): nat
  {
    if os == [] then 0
    else OrdersInMonth(os[..|os| - 1], monthOf, now, m) + if OrderMonth(os[|os| - 1], monthOf, now) == m then 1 else 0
  }

  /** Line items of the orders placed in month `m`. */
  function UnitsInMonth(os: seq<Order>, monthOf: Timestamp -> Month, now: Timestamp, m: int): nat
  {
    if os == [] then 0
    else UnitsInMonth(os[..|os| - 1], monthOf, now, m) + if OrderMonth(os[|os| - 1], monthOf, now) == m then |os[|os| - 1].products| else 0
  }

  /** The intended `ordersPerMonth`: twelve slots, slot `m` counting the
      orders of month `m`. */
  function OrderHistogram(os: seq<Order>, monthOf: Timestamp -> Month, now: Timestamp): seq<int>
  {
    seq(12, m => OrdersInMonth(os, monthOf, now, m))
  }

  /** The intended `salesPerMonth`. */
  function UnitHistogram(os: seq<Order>, monthOf: Timestamp -> Month, now: Timestamp): seq<int>
  {
    seq(12, m => UnitsInMonth(os, monthOf, now, m))
  }

  /** `p.categoryId || "Không rõ"`. */
  function CategoryKey(item: LineItem): string
  {
    Or(item.categoryId, Unknown)
  }

  /** Category keys of a list of line items, in order. */
  function LineKeys(items: seq<LineItem>): seq<string>
  {
    if items == [] then [] else LineKeys(items[..|items| - 1]) + [CategoryKey(items[|items| - 1])]
  }

  /** Category keys of every line item of every order, in scan order. */
  function ItemKeys(os: seq<Order>): seq<string>
  {
    if os == [] then [] else ItemKeys(os[..|os| - 1]) + LineKeys(os[|os| - 1].products)
  }

  /** The map value built from a category document found by the lookup. */
  function Entry(c: Category, sold: nat): TopCategory
  {
    TopCategory(Or(c.name, Unknown), Or(c.imageUrl, ""), sold)
  }

  /** How many times the scan of `seen` reads category `k`: a category that
      resolves is read once, on its first occurrence, and then served from
      the map; one that does not resolve is read again on every occurrence,
      since nothing is stored for it. */
  function LookupCost(seen: seq<string>, k: string, lookup: string -> Option<Category>): nat
  {
    if lookup(k).Some? then (if k in seen then 1 else 0) else Count(seen, k)
  }

  /** `t` and the trace `lookups` of category reads are what scanning the
      category keys `seen` produces: exactly the keys that occur and resolve
      are present, each with its document's name and image and its number of
      occurrences as `sold`; `keys` lists them once each, in the order of
      their first occurrence. */
  ghost predicate Tallied(t: CategoryCounts, lookups: seq<string>, seen: seq<string>, lookup: string -> Option<Category>)
  {
    && (forall k :: k in t.entries ==> k in seen && lookup(k).Some?)
    && (forall k :: k in seen && lookup(k).Some? ==> k in t.entries)
    && (forall k :: k in t.entries ==> t.entries[k] == Entry(lookup(k).value, Count(seen, k)))
    && (forall k :: k in t.keys <==> k in t.entries)
    && (forall i, j :: 0 <= i < j < |t.keys| ==> t.keys[i] != t.keys[j])
    && t.keys == FirstFound(seen, lookup)
    && (forall k :: Count(lookups, k) == LookupCost(seen, k, lookup))
  }

  /** The keys of `seen` that resolve, each at its first occurrence. */
  function FirstFound(seen: seq<string>, lookup: string -> Option<Category>): seq<string>
  {
    if seen == [] then []
    else
      var n := |seen| - 1;
      var rest := FirstFound(seen[..n], lookup);
      if lookup(seen[n]).Some? && seen[n] !in seen[..n] then rest + [seen[n]] else rest
  }

  lemma FirstFoundSnoc(seen: seq<string>, key: string, lookup: string -> Option<Category>)
    ensures FirstFound(seen + [key], lookup) ==
      if lookup(key).Some? && key !in seen then FirstFound(seen, lookup) + [key] else FirstFound(seen, lookup)
  {
    assert (seen + [key])[..|seen|] == seen;
  }

  // ---------------------------------------------------------------------
  // The passes of fetchStats.
  // ---------------------------------------------------------------------

  lemma CountSnoc(s: seq<string>, x: string, k: string)
    ensures Count(s + [x], k) == Count(s, k) + if x == k then 1 else 0
  {
    assert (s + [x])[..|s|] == s;
  }

  /** The inner loop over an order's line items (`for (const p of products)`):
      extends a tally of `seen` to a tally of `seen` followed by these items'
      category keys. */
  method TallyItems(t: CategoryCounts, lookups: seq<string>, ghost seen: seq<string>,
                    items: seq<LineItem>, lookup: string -> Option<Category>)
    returns (t': CategoryCounts, lookups': seq<string>)
    requires Tallied(t, lookups, seen, lookup)
    ensures Tallied(t', lookups', seen + LineKeys(items), lookup)
  {
    t', lookups' := t, lookups;
    ghost var done := seen;
    for j := 0 to |items|
      invariant done == seen + LineKeys(items[..j])
      invariant Tallied(t', lookups', done, lookup)
    {
      var key := CategoryKey(items[j]);
      t', lookups' := TallyItem(t', lookups', done, key, lookup);
      LineKeysSnoc(items, j);
      done := done + [key];
    }
    assert items[..|items|] == items;
  }

  lemma LineKeysSnoc(items: seq<LineItem>, j: nat)
    requires j < |items|
    ensures LineKeys(items[..j + 1]) == LineKeys(items[..j]) + [CategoryKey(items[j])]
  {
    assert items[..j + 1][..j] == items[..j];
  }

  /** The body of the line-item loop: a category already in the map gets
      one more sale; otherwise it is read, and stored with `sold` 1 if the
      read finds it. */
  method TallyItem(t: CategoryCounts, lookups: seq<string>, ghost seen: seq<string>, key: string,
                   lookup: string -> Option<Category>)
    returns (t': CategoryCounts, lookups': seq<string>)
    requires Tallied(t, lookups, seen, lookup)
    ensures Tallied(t', lookups', seen + [key], lookup)
  {
    if key !in t.entries {
      var found := lookup(key);
      if found.Some? {
        TallyNewFound(t, lookups, seen, key, lookup);
        t' := CategoryCounts(t.entries[key := Entry(found.value, 1)], t.keys + [key]);
      } else {
        TallyNewMissing(t, lookups, seen, key, lookup);
        t' := t;
      }
      lookups' := lookups + [key];
    } else {
      TallyKnown(t, lookups, seen, key, lookup);
      var e := t.entries[key];
      t' := t.(entries := t.entries[key := e.(sold := e.sold + 1)]);
      lookups' := lookups;
    }
  }

  /** First occurrence of a category that resolves: it is read and stored
      with `sold` 1. */
  lemma TallyNewFound(t: CategoryCounts, lookups: seq<string>, seen: seq<string>, key: string,
                      lookup: string -> Option<Category>)
    requires Tallied(t, lookups, seen, lookup)
    requires key !in t.entries && lookup(key).Some?
    ensures Tallied(CategoryCounts(t.entries[key := Entry(lookup(key).value, 1)], t.keys + [key]),
                    lookups + [key], seen + [key], lookup)
  {
    var t' := CategoryCounts(t.entries[key := Entry(lookup(key).value, 1)], t.keys + [key]);
    assert key !in seen;
    FirstFoundSnoc(seen, key, lookup);
    forall k | k in t'.entries ensures t'.entries[k] == Entry(lookup(k).value, Count(seen + [key], k)) {
      CountSnoc(seen, key, k);
    }
    forall k ensures Count(lookups + [key], k) == LookupCost(seen + [key], k, lookup) {
      CountSnoc(seen, key, k);
      CountSnoc(lookups, key, k);
    }
    assert key !in t.keys;
  }

  /** A category that does not resolve: it is read again and nothing is
      stored. */
  lemma TallyNewMissing(t: CategoryCounts, lookups: seq<string>, seen: seq<string>, key: string,
                        lookup: string -> Option<Category>)
    requires Tallied(t, lookups, seen, lookup)
    requires lookup(key).None?
    ensures Tallied(t, lookups + [key], seen + [key], lookup)
  {
    FirstFoundSnoc(seen, key, lookup);
    forall k | k in t.entries ensures t.entries[k] == Entry(lookup(k).value, Count(seen + [key], k)) {
      CountSnoc(seen, key, k);
    }
    forall k ensures Count(lookups + [key], k) == LookupCost(seen + [key], k, lookup) {
      CountSnoc(seen, key, k);
      CountSnoc(lookups, key, k);
    }
  }

  /** A category already in the map: its `sold` goes up by one and nothing
      is read. */
  lemma TallyKnown(t: CategoryCounts, lookups: seq<string>, seen: seq<string>, key: string,
                   lookup: string -> Option<Category>)
    requires Tallied(t, lookups, seen, lookup)
    requires key in t.entries
    ensures Tallied(t.(entries := t.entries[key := t.entries[key].(sold := t.entries[key].sold + 1)]),
                    lookups, seen + [key], lookup)
  {
    var t' := t.(entries := t.entries[key := t.entries[key].(sold := t.entries[key].sold + 1)]);
    FirstFoundSnoc(seen, key, lookup);
    forall k | k in t'.entries ensures t'.entries[k] == Entry(lookup(k).value, Count(seen + [key], k)) {
      CountSnoc(seen, key, k);
    }
    forall k ensures Count(lookups, k) == LookupCost(seen + [key], k, lookup) {
      CountSnoc(seen, key, k);
    }
  }

  /** The first loop of `fetchStats`, over the orders created since the start
      of the month: units per staff member, the month's revenue, and the
      month's per-category tally. */
  method MonthlyPass(os: seq<Order>, lookup: string -> Option<Category>)
    returns (salesCount: map<string, int>, revenue: int, top: CategoryCounts, lookups: seq<string>)
    ensures salesCount == StaffTally(os)
    ensures revenue == Revenue(os)
    ensures Tallied(top, lookups, ItemKeys(os), lookup)
  {
    salesCount, revenue := map[], 0;
    top, lookups := CategoryCounts(map[], []), [];
    for i := 0 to |os|
      invariant salesCount == StaffTally(os[..i])
      invariant revenue == Revenue(os[..i])
      invariant Tallied(top, lookups, ItemKeys(os[..i]), lookup)
    {
      salesCount, revenue, top, lookups := CountMonthlyOrder(os, i, salesCount, revenue, top, lookups, lookup);
    }
    assert os[..|os|] == os;
  }

  /** The body of the monthly loop for the order at position `i`. */
  method CountMonthlyOrder(os: seq<Order>, i: nat, salesCount: map<string, int>, revenue: int,
                           top: CategoryCounts, lookups: seq<string>, lookup: string -> Option<Category>)
    returns (salesCount': map<string, int>, revenue': int, top': CategoryCounts, lookups': seq<string>)
    requires i < |os|
    requires salesCount == StaffTally(os[..i])
    requires revenue == Revenue(os[..i])
    requires Tallied(top, lookups, ItemKeys(os[..i]), lookup)
    ensures salesCount' == StaffTally(os[..i + 1])
    ensures revenue' == Revenue(os[..i + 1])
    ensures Tallied(top', lookups', ItemKeys(os[..i + 1]), lookup)
  {
    var o := os[i];
    PassStep(os, i);
    var staff := StaffKey(o);
    StaffPrefixStep(os, i, salesCount);
    var sofar := if staff in salesCount then salesCount[staff] else 0;
    salesCount' := salesCount[staff := sofar + |o.products|];
    revenue' := revenue + OrderTotal(o);
    top', lookups' := TallyItems(top, lookups, ItemKeys(os[..i]), o.products, lookup);
  }

  /** The second loop of `fetchStats`, over the orders created since the
      start of the year: orders and units per calendar month, the year's
      revenue, and the year's per-category tally. */
  method YearlyPass(os: seq<Order>, monthOf: Timestamp -> Month, now: Timestamp,
                    lookup: string -> Option<Category>)
    returns (ordersPerMonth: seq<int>, salesPerMonth: seq<int>, revenue: int,
             top: CategoryCounts, lookups: seq<string>)
    ensures ordersPerMonth == OrderHistogram(os, monthOf, now)
    ensures salesPerMonth == UnitHistogram(os, monthOf, now)
    ensures revenue == Revenue(os)
    ensures Tallied(top, lookups, ItemKeys(os), lookup)
  {
    var orderSlots := new int[12](_ => 0);
    var saleSlots := new int[12](_ => 0);
    revenue := 0;
    top, lookups := CategoryCounts(map[], []), [];
    for i := 0 to |os|
      invariant forall m :: 0 <= m < 12 ==> orderSlots[m] == OrdersInMonth(os[..i], monthOf, now, m)
      invariant forall m :: 0 <= m < 12 ==> saleSlots[m] == UnitsInMonth(os[..i], monthOf, now, m)
      invariant revenue == Revenue(os[..i])
      invariant Tallied(top, lookups, ItemKeys(os[..i]), lookup)
    {
      revenue, top, lookups := CountYearlyOrder(os, i, orderSlots, saleSlots, revenue, top, lookups, monthOf, now, lookup);
    }
    assert os[..|os|] == os;
    ordersPerMonth, salesPerMonth := orderSlots[..], saleSlots[..];
  }

  /** The body of the yearly loop for the order at position `i`. */
  method CountYearlyOrder(os: seq<Order>, i: nat, orderSlots: array<int>, saleSlots: array<int>, revenue: int,
                          top: CategoryCounts, lookups: seq<string>, monthOf: Timestamp -> Month, now: Timestamp,
                          lookup: string -> Option<Category>)
    returns (revenue': int, top': CategoryCounts, lookups': seq<string>)
    requires i < |os|
    requires orderSlots.Length == 12 && saleSlots.Length == 12 && orderSlots != saleSlots
    requires forall m :: 0 <= m < 12 ==> orderSlots[m] == OrdersInMonth(os[..i], monthOf, now, m)
    requires forall m :: 0 <= m < 12 ==> saleSlots[m] == UnitsInMonth(os[..i], monthOf, now, m)
    requires revenue == Revenue(os[..i])
    requires Tallied(top, lookups, ItemKeys(os[..i]), lookup)
    modifies orderSlots, saleSlots
    ensures forall m :: 0 <= m < 12 ==> orderSlots[m] == OrdersInMonth(os[..i + 1], monthOf, now, m)
    ensures forall m :: 0 <= m < 12 ==> saleSlots[m] == UnitsInMonth(os[..i + 1], monthOf, now, m)
    ensures revenue' == Revenue(os[..i + 1])
    ensures Tallied(top', lookups', ItemKeys(os[..i + 1]), lookup)
  {
    var o := os[i];
    PassStep(os, i);
    MonthStep(os, i, monthOf, now);
    var month := OrderMonth(o, monthOf, now);
    revenue' := revenue + OrderTotal(o);
    orderSlots[month] := orderSlots[month] + 1;
    saleSlots[month] := saleSlots[month] + |o.products|;
    top', lookups' := TallyItems(top, lookups, ItemKeys(os[..i]), o.products, lookup);
  }

  /** What one more order adds to the per-order figures of a pass. */
  lemma PassStep(os: seq<Order>, i: nat)
    requires i < |os|
    ensures os[..i + 1] == os[..i] + [os[i]]
    ensures Revenue(os[..i + 1]) == Revenue(os[..i]) + OrderTotal(os[i])
    ensures ItemKeys(os[..i + 1]) == ItemKeys(os[..i]) + LineKeys(os[i].products)
  {
    assert os[..i + 1][..i] == os[..i];
  }

  /** `fetchStats`: the two windowed order queries and the product query,
      the two passes, and the snapshot stored with `setStats`. The category
      reads of each pass are returned as traces. */
  method FetchStats(products: seq<Product>, orders: seq<Order>, now: Timestamp,
                    startOfMonth: Timestamp, startOfYear: Timestamp,
                    monthOf: Timestamp -> Month, lookup: string -> Option<Category>)
    returns (stats: Stats, monthLookups: seq<string>, yearLookups: seq<string>)
    ensures stats.productsThisMonth == |ProductsSince(products, startOfMonth)|
    ensures stats.ordersThisMonth == |OrdersSince(orders, startOfMonth)|
    ensures stats.salesByStaff == StaffTally(OrdersSince(orders, startOfMonth))
    ensures stats.totalRevenueThisMonth == Revenue(OrdersSince(orders, startOfMonth))
    ensures Tallied(stats.topCategoriesMonth, monthLookups, ItemKeys(OrdersSince(orders, startOfMonth)), lookup)
    ensures stats.ordersPerMonth == OrderHistogram(OrdersSince(orders, startOfYear), monthOf, now)
    ensures stats.salesPerMonth == UnitHistogram(OrdersSince(orders, startOfYear), monthOf, now)
    ensures stats.totalRevenueThisYear == Revenue(OrdersSince(orders, startOfYear))
    ensures Tallied(stats.topCategoriesYear, yearLookups, ItemKeys(OrdersSince(orders, startOfYear)), lookup)
  {
    var productSnap := ProductsSince(products, startOfMonth);
    var orderSnap := OrdersSince(orders, startOfMonth);
    var salesCount, revenueMonth, topMonth, lm := MonthlyPass(orderSnap, lookup);
    var allOrderSnap := OrdersSince(orders, startOfYear);
    var ordersPerMonth, salesPerMonth, revenueYear, topYear, ly := YearlyPass(allOrderSnap, monthOf, now, lookup);
    stats := Stats(|productSnap|, |orderSnap|, salesCount, ordersPerMonth, salesPerMonth,
                   revenueYear, revenueMonth, topMonth, topYear);
    monthLookups, yearLookups := lm, ly;
  }

  // ---------------------------------------------------------------------
  // Per-staff units.
  // ---------------------------------------------------------------------

  lemma {:induction false} StaffUnitsZero(os: seq<Order>, s: string)
    requires s !in StaffNames(os)
    ensures StaffUnits(os, s) == 0
  {
    if os != [] {
      StaffUnitsZero(os[..|os| - 1], s);
    }
  }

  /** One order adds its line items to its staff member's entry, creating
      the entry if needed, and leaves every other entry alone. */
  lemma StaffTallyStep(os: seq<Order>, o: Order)
    ensures StaffTally(os + [o]) ==
      StaffTally(os)[StaffKey(o) := (if StaffKey(o) in StaffTally(os) then StaffTally(os)[StaffKey(o)] else 0) + |o.products|]
  {
    var os' := os + [o];
    assert os'[..|os|] == os;
    assert StaffNames(os') == StaffNames(os) + [StaffKey(o)];
    if StaffKey(o) !in StaffNames(os) {
      StaffUnitsZero(os, StaffKey(o));
    }
  }

  /** `StaffTallyStep` at position `i` of a pass. */
  lemma StaffPrefixStep(os: seq<Order>, i: nat, sales: map<string, int>)
    requires i < |os| && sales == StaffTally(os[..i])
    ensures var k := StaffKey(os[i]);
      sales[k := (if k in sales then sales[k] else 0) + |os[i].products|] == StaffTally(os[..i + 1])
  {
    assert os[..i + 1] == os[..i] + [os[i]];
    StaffTallyStep(os[..i], os[i]);
  }

  /** Sum of the values of a map. */
  ghost function SumValues(m: map<string, int>): int
    decreases |m|
  {
    if m == map[] then 0
    else
      var k :| k in m;
      assert |m - {k}| < |m| by {
        assert m.Keys - {k} < m.Keys;
      }
      m[k] + SumValues(m - {k})
  }

  lemma SumValuesRemove(m: map<string, int>, k: string)
    requires k in m
    ensures SumValues(m) == m[k] + SumValues(m - {k})
    decreases |m|
  {
    var j :| j in m && SumValues(m) == m[j] + SumValues(m - {j});
    if j != k {
      assert (m - {j}).Keys - {k} < (m - {j}).Keys;
      assert (m - {k}).Keys - {j} < (m - {k}).Keys;
      SumValuesRemove(m - {j}, k);
      SumValuesRemove(m - {k}, j);
      assert m - {j} - {k} == m - {k} - {j};
    }
  }

  lemma SumValuesUpdate(m: map<string, int>, k: string, v: int)
    ensures SumValues(m[k := v]) == SumValues(m) - (if k in m then m[k] else 0) + v
  {
    SumValuesRemove(m[k := v], k);
    assert m[k := v] - {k} == m - {k};
    if k in m {
      SumValuesRemove(m, k);
    } else {
      assert m - {k} == m;
    }
  }

  /** Every line item of the month is credited to exactly one staff member:
      the per-staff figures add up to the month's units. */
  lemma {:induction false} StaffTallyTotal(os: seq<Order>)
    ensures SumValues(StaffTally(os)) == TotalUnits(os)
  {
    if os == [] {
      assert StaffTally(os) == map[];
    } else {
      var n := |os| - 1;
      var m := StaffTally(os[..n]);
      var k := StaffKey(os[n]);
      var v := (if k in m then m[k] else 0) + |os[n].products|;
      assert StaffTally(os) == m[k := v] by {
        assert os == os[..n] + [os[n]];
        StaffTallyStep(os[..n], os[n]);
      }
      calc {
        SumValues(StaffTally(os));
        SumValues(m[k := v]);
        { SumValuesUpdate(m, k, v); }
        SumValues(m) + |os[n].products|;
        { StaffTallyTotal(os[..n]); }
        TotalUnits(os[..n]) + ItemCount(os[n]);
        TotalUnits(os);
      }
    }
  }

  // ---------------------------------------------------------------------
  // Per-month figures.
  // ---------------------------------------------------------------------

  /** One order bumps its month's slot of each histogram and no other slot. */
  lemma HistogramStep(os: seq<Order>, o: Order, monthOf: Timestamp -> Month, now: Timestamp)
    ensures var m := OrderMonth(o, monthOf, now);
      var h := OrderHistogram(os, monthOf, now);
      OrderHistogram(os + [o], monthOf, now) == h[m := h[m] + 1]
    ensures var m := OrderMonth(o, monthOf, now);
      var h := UnitHistogram(os, monthOf, now);
      UnitHistogram(os + [o], monthOf, now) == h[m := h[m] + |o.products|]
  {
    assert (os + [o])[..|os|] == os;
  }

  /** One more order of a pass counts in its own month only. */
  lemma MonthStep(os: seq<Order>, i: nat, monthOf: Timestamp -> Month, now: Timestamp)
    requires i < |os|
    ensures forall m :: (OrdersInMonth(os[..i + 1], monthOf, now, m)
      == OrdersInMonth(os[..i], monthOf, now, m) + if OrderMonth(os[i], monthOf, now) == m then 1 else 0)
    ensures forall m :: (UnitsInMonth(os[..i + 1], monthOf, now, m)
      == UnitsInMonth(os[..i], monthOf, now, m) + if OrderMonth(os[i], monthOf, now) == m then |os[i].products| else 0)
  {
    assert os[..i + 1][..i] == os[..i];
  }

  /** Every order of the year falls in exactly one month. */
  lemma {:induction false} OrderHistogramTotal(os: seq<Order>, monthOf: Timestamp -> Month, now: Timestamp)
    ensures Total(OrderHistogram(os, monthOf, now)) == |os|
    ensures Total(UnitHistogram(os, monthOf, now)) == TotalUnits(os)
  {
    if os == [] {
      TotalOfZeros(OrderHistogram(os, monthOf, now));
      TotalOfZeros(UnitHistogram(os, monthOf, now));
    } else {
      var n := |os| - 1;
      OrderHistogramTotal(os[..n], monthOf, now);
      assert os == os[..n] + [os[n]];
      HistogramStep(os[..n], os[n], monthOf, now);
      var m := OrderMonth(os[n], monthOf, now);
      TotalUpdate(OrderHistogram(os[..n], monthOf, now), m, 1);
      TotalUpdate(UnitHistogram(os[..n], monthOf, now), m, |os[n].products|);
    }
  }

  // ---------------------------------------------------------------------
  // Month against year.
  // ---------------------------------------------------------------------

  /** With no negative prices and the year starting no later than the month,
      the year's revenue is at least the month's. */
  lemma YearRevenueCoversMonth(orders: seq<Order>, startOfMonth: Timestamp, startOfYear: Timestamp)
    requires startOfYear <= startOfMonth
    requires forall o, item :: o in orders && item in o.products ==> PriceOf(item) >= 0
    ensures Revenue(OrdersSince(orders, startOfMonth)) <= Revenue(OrdersSince(orders, startOfYear))
  {
    forall o | o in orders ensures OrderTotal(o) >= 0 {
      OrderTotalNonNegative(o);
    }
    SumOfFilterMonotone(orders, o => OrderCreatedSince(o, startOfMonth),
                        o => OrderCreatedSince(o, startOfYear), OrderTotal);
  }

  /** The current month's slot of the yearly histograms agrees with the
      monthly figures, provided the calendar puts an order of the year's
      window in the current month exactly when it falls on or after the
      start of the month. */
  lemma {:induction false} CurrentMonthSlot(orders: seq<Order>, startOfMonth: Timestamp, startOfYear: Timestamp,
                                            monthOf: Timestamp -> Month, now: Timestamp)
    requires startOfYear <= startOfMonth
    requires forall o :: o in orders && OrderCreatedSince(o, startOfYear) ==>
      (monthOf(o.createdAt.value) == monthOf(now) <==> startOfMonth <= o.createdAt.value)
    ensures OrderHistogram(OrdersSince(orders, startOfYear), monthOf, now)[monthOf(now)] ==
      |OrdersSince(orders, startOfMonth)|
    ensures UnitHistogram(OrdersSince(orders, startOfYear), monthOf, now)[monthOf(now)] ==
      TotalUnits(OrdersSince(orders, startOfMonth))
  {
    var m := monthOf(now);
    if orders != [] {
      var n := |orders| - 1;
      var o := orders[n];
      CurrentMonthSlot(orders[..n], startOfMonth, startOfYear, monthOf, now);
      var y, mo := OrdersSince(orders[..n], startOfYear), OrdersSince(orders[..n], startOfMonth);
      assert OrdersSince(orders, startOfMonth) == if OrderCreatedSince(o, startOfMonth) then mo + [o] else mo;
      assert OrdersSince(orders, startOfYear) == if OrderCreatedSince(o, startOfYear) then y + [o] else y;
      if OrderCreatedSince(o, startOfYear) {
        assert (y + [o])[..|y|] == y;
        assert OrderMonth(o, monthOf, now) == m <==> OrderCreatedSince(o, startOfMonth);
        if OrderCreatedSince(o, startOfMonth) {
          assert (mo + [o])[..|mo|] == mo;
        }
      }
    }
  }

  /** A category sells at least as many units in the year as in the month. */
  lemma {:induction false} ItemKeysMonotone(orders: seq<Order>, early: Timestamp, late: Timestamp, k: string)
    requires early <= late
    ensures Count(ItemKeys(OrdersSince(orders, late)), k) <= Count(ItemKeys(OrdersSince(orders, early)), k)
  {
    if orders != [] {
      var n := |orders| - 1;
      ItemKeysMonotone(orders[..n], early, late, k);
      ItemKeysSince(orders, late, k);
      ItemKeysSince(orders, early, k);
    }
  }

  /** Counting a category over the orders since `start`: the last order
      adds its items when it falls in the window. */
  lemma ItemKeysSince(orders: seq<Order>, start: Timestamp, k: string)
    requires orders != []
    ensures Count(ItemKeys(OrdersSince(orders, start)), k) ==
      Count(ItemKeys(OrdersSince(orders[..|orders| - 1], start)), k)
      + if OrderCreatedSince(orders[|orders| - 1], start) then Count(LineKeys(orders[|orders| - 1].products), k) else 0
  {
    var n := |orders| - 1;
    var o := orders[n];
    var p := (x: Order) => OrderCreatedSince(x, start);
    var f := Filter(orders[..n], p);
    assert OrdersSince(orders[..n], start) == f;
    if p(o) {
      assert OrdersSince(orders, start) == f + [o];
      assert (f + [o])[..|f|] == f;
      CountAppend(ItemKeys(f), LineKeys(o.products), k);
    } else {
      assert OrdersSince(orders, start) == f;
    }
  }

  /** Hence every category in the month's top map is in the year's, with at
      least the month's `sold`. */
  lemma MonthTallyWithinYear(orders: seq<Order>, startOfMonth: Timestamp, startOfYear: Timestamp,
                             month: CategoryCounts, ml: seq<string>, year: CategoryCounts, yl: seq<string>,
                             lookup: string -> Option<Category>)
    requires startOfYear <= startOfMonth
    requires Tallied(month, ml, ItemKeys(OrdersSince(orders, startOfMonth)), lookup)
    requires Tallied(year, yl, ItemKeys(OrdersSince(orders, startOfYear)), lookup)
    ensures forall k :: k in month.entries ==> k in year.entries && month.entries[k].sold <= year.entries[k].sold
  {
    var ms, ys := ItemKeys(OrdersSince(orders, startOfMonth)), ItemKeys(OrdersSince(orders, startOfYear));
    forall k | k in month.entries ensures k in year.entries && month.entries[k].sold <= year.entries[k].sold {
      ItemKeysMonotone(orders, startOfYear, startOfMonth, k);
      assert k in ms && lookup(k).Some?;
      assert Count(ys, k) >= Count(ms, k) > 0;
      assert k in ys;
      assert year.entries[k].sold == Count(ys, k);
    }
  }

  // ---------------------------------------------------------------------
  // The top-five lists.
  // ---------------------------------------------------------------------

  /** `Object.entries(data)`: the stored entries in insertion order. */
  function Entries(c: CategoryCounts): seq<(string, TopCategory)>
  {
    EntriesOf(c.entries, c.keys)
  }

  function EntriesOf(entries: map<string, TopCategory>, keys: seq<string>): seq<(string, TopCategory)>
  {
    if keys == [] then []
    else
      var k := keys[|keys| - 1];
      var rest := EntriesOf(entries, keys[..|keys| - 1]);
      if k in entries then rest + [(k, entries[k])] else rest
  }

  /** The comparator `b[1].sold - a[1].sold` as a sort key: most sold first. */
  function SoldDescending(e: (string, TopCategory)): int
  {
    0 - e.1.sold as int
  }

  /** `.sort((a, b) => b[1].sold - a[1].sold).slice(0, 5)`: a stable sort,
      most sold first, cut to five. */
  function TopFive(c: CategoryCounts): (r: seq<(string, TopCategory)>)
    ensures |r| == if |Entries(c)| < 5 then |Entries(c)| else 5
    ensures forall i, j :: 0 <= i < j < |r| ==> r[i].1.sold >= r[j].1.sold
    ensures multiset(r) <= multiset(Entries(c))
    ensures forall e :: e in Entries(c) && e !in r ==> forall i :: 0 <= i < |r| ==> e.1.sold <= r[i].1.sold
  {
    var sorted := SortBy(Entries(c), SoldDescending);
    var n := if |sorted| < 5 then |sorted| else 5;
    PrefixOfSorted(Entries(c), sorted, n);
    sorted[..n]
  }

  /** A prefix of the sorted entries is sorted, is drawn from the entries,
      and sells at least as much as anything left out. */
  lemma PrefixOfSorted(s: seq<(string, TopCategory)>, sorted: seq<(string, TopCategory)>, n: nat)
    requires sorted == SortBy(s, SoldDescending) && n <= |sorted|
    ensures forall i, j :: 0 <= i < j < n ==> sorted[i].1.sold >= sorted[j].1.sold
    ensures multiset(sorted[..n]) <= multiset(s)
    ensures forall e :: e in s && e !in sorted[..n] ==> forall i :: 0 <= i < n ==> e.1.sold <= sorted[i].1.sold
  {
    SortBySorted(s, SoldDescending);
    forall i, j | 0 <= i < j < n ensures sorted[i].1.sold >= sorted[j].1.sold {
      assert SoldDescending(sorted[i]) <= SoldDescending(sorted[j]);
    }
    assert multiset(sorted[..n]) <= multiset(s) by {
      assert sorted == sorted[..n] + sorted[n..];
    }
    forall e | e in s && e !in sorted[..n]
      ensures forall i :: 0 <= i < n ==> e.1.sold <= sorted[i].1.sold
    {
      var j := OmittedPosition(s, sorted, n, e);
      forall i | 0 <= i < n ensures e.1.sold <= sorted[i].1.sold {
        assert SoldDescending(sorted[i]) <= SoldDescending(sorted[j]);
      }
    }
  }

  /** An entry left out of the first `n` of the sorted entries sits at some
      position from `n` on. */
  lemma OmittedPosition(s: seq<(string, TopCategory)>, sorted: seq<(string, TopCategory)>, n: nat,
                        e: (string, TopCategory))
    returns (j: nat)
    requires multiset(sorted) == multiset(s) && n <= |sorted|
    requires e in s && e !in sorted[..n]
    ensures n <= j < |sorted| && sorted[j] == e
  {
    assert e in multiset(sorted);
    j :| 0 <= j < |sorted| && sorted[j] == e;
  }

  /** The entries whose category has sold `sold` units. */
  function SoldIs(sold: nat): ((string, TopCategory)) -> bool
  {
    (e: (string, TopCategory)) => e.1.sold == sold
  }

  /** Categories with equal `sold` keep their insertion order. */
  lemma TopFiveKeepsTies(c: CategoryCounts, sold: nat)
    ensures Filter(SortBy(Entries(c), SoldDescending), SoldIs(sold)) == Filter(Entries(c), SoldIs(sold))
  {
    SortByStable(Entries(c), SoldDescending, SoldIs(sold), 0 - sold);
  }
}
