/** The inventory screen: products split into those still in stock and
    those sold, with the buying value of the stock and the selling value of
    the sold ones. */
module ProductList {
  import opened Seqs
  import opened Records

  predicate IsSold(p: Product)
  {
    p.isSelling
  }

  predicate InStock(p: Product)
  {
    !p.isSelling
  }

  /** `Number(item.buyingPrice || 0)`. */
  function BuyingPrice(p: Product): int
  {
    p.buyingPrice.GetOr(0)
  }

  /** `Number(item.sellingPrice || 0)`. */
  function SellingPrice(p: Product): int
  {
    p.sellingPrice.GetOr(0)
  }

  /** What the screen shows for a list of products. */
  datatype InventoryView = InventoryView(
    selling: seq<Product>,
    available: seq<Product>,
    totalBuying: int,
    totalSelling: int,
    showSold: bool)

  /** The buying price where the product is in stock, else nothing. */
  function StockValue(p: Product): int
  {
    if InStock(p) then BuyingPrice(p) else 0
  }

  /** The selling price where the product is sold, else nothing. */
  function SaleValue(p: Product): int
  {
    if IsSold(p) then SellingPrice(p) else 0
  }

  /** The two lists, the two totals, and whether the sold section shows. */
  function Inventory(products: seq<Product>): (v: InventoryView)
    ensures |v.selling| + |v.available| == |products|
    ensures multiset(v.selling) + multiset(v.available) == multiset(products)
    ensures forall p :: p in v.selling ==> p in products && p.isSelling
    ensures forall p :: p in v.available ==> p in products && !p.isSelling
    ensures forall p :: p in products ==> (p in v.selling || p in v.available)
    ensures v.totalBuying == SumOf(products, StockValue)
    ensures v.totalSelling == SumOf(products, SaleValue)
    ensures v.showSold <==> exists i :: 0 <= i < |products| && products[i].isSelling
  {
    var selling := Filter(products, IsSold);
    var available := Filter(products, InStock);
    FilterMembers(products, IsSold);
    FilterMembers(products, InStock);
    FilterPartition(products, IsSold, InStock);
    FilterPartitionCount(products, IsSold, InStock);
    SumOfFilter(products, InStock, BuyingPrice, StockValue);
    SumOfFilter(products, IsSold, SellingPrice, SaleValue);
    ShowSoldIffAnySold(products);
    InventoryView(selling, available, SumOf(available, BuyingPrice), SumOf(selling, SellingPrice), |selling| > 0)
  }

  /** `selling.length > 0` exactly when some product is sold. */
  lemma ShowSoldIffAnySold(products: seq<Product>)
    ensures |Filter(products, IsSold)| > 0 <==> exists i :: 0 <= i < |products| && products[i].isSelling
  {
    FilterMembers(products, IsSold);
    if |Filter(products, IsSold)| > 0 {
      assert Filter(products, IsSold)[0] in products;
    }
    if i :| 0 <= i < |products| && products[i].isSelling {
      assert products[i] in Filter(products, IsSold);
    }
  }

  /** Both lists keep the products in their original relative order: each is
      `products` read at increasing positions. */
  lemma InventoryKeepsOrder(products: seq<Product>)
    ensures IsSubsequence(Inventory(products).selling, products)
    ensures IsSubsequence(Inventory(products).available, products)
  {
    FilterIsSubsequence(products, IsSold);
    FilterIsSubsequence(products, InStock);
  }

  /** With no negative prices both totals are non-negative. */
  lemma TotalsNonNegative(products: seq<Product>)
    requires forall p :: p in products ==> BuyingPrice(p) >= 0 && SellingPrice(p) >= 0
    ensures Inventory(products).totalBuying >= 0
    ensures Inventory(products).totalSelling >= 0
  {
    SumOfNonNegative(products, StockValue);
    SumOfNonNegative(products, SaleValue);
  }
}
