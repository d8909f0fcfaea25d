/**
 * The interfaces exercise: products, and the listing of those in stock.
 * Each console line `name: ¥price` is modelled as a `PriceLine` value; the
 * listing returns them in the order they would be printed.
 */
module Interfaces {
  import opened Seqs

  datatype Product = Product(id: int, name: string, price: int, category: string, inStock: bool)

  /** One printed line: a product's name and its price in yen. */
  datatype PriceLine = PriceLine(name: string, price: int)

  predicate IsInStock(p: Product) { p.inStock }

  function LineOf(p: Product): PriceLine { PriceLine(p.name, p.price) }

  /** The products that are in stock, in input order, each as often as it occurs. */
  function AvailableProducts(products: seq<Product>): (r: seq<Product>)
    ensures forall i :: 0 <= i < |r| ==> r[i].inStock
    ensures forall p | p in products && p.inStock :: multiset(r)[p] == multiset(products)[p]
    ensures multiset(r) <= multiset(products)
    ensures IsSubsequence(r, products)
  {
    Filter(products, IsInStock)
  }

  /**
   * Lists the products in stock: one line per available product, carrying
   * that product's name and price, in the order of the input.
   */
  method ShowAvailableProducts(products: seq<Product>) returns (lines: seq<PriceLine>)
    ensures |lines| == |AvailableProducts(products)|
    ensures forall k :: 0 <= k < |lines| ==>
              lines[k] == LineOf(AvailableProducts(products)[k])
  {
    var availableProducts := AvailableProducts(products);
    lines := [];
    for i := 0 to |availableProducts|
      invariant |lines| == i
      invariant forall k :: 0 <= k < i ==> lines[k] == LineOf(availableProducts[k])
    {
      lines := lines + [LineOf(availableProducts[i])];
    }
  }

  /** Every printed line belongs to a product of the input that is in stock. */
  lemma LinesComeFromStockedProducts(products: seq<Product>, k: nat)
    requires k < |AvailableProducts(products)|
    ensures exists j :: 0 <= j < |products| && products[j].inStock &&
                        LineOf(products[j]) == LineOf(AvailableProducts(products)[k])
  {
  }

  /** An input that is empty or entirely out of stock prints nothing. */
  lemma NothingInStock(products: seq<Product>)
    requires forall i :: 0 <= i < |products| ==> !products[i].inStock
    ensures AvailableProducts(products) == []
  {
  }

  const Product1 := Product(1, "ノートパソコン", 89800, "電子機器", true)
  const Product2 := Product(2, "マウス", 2980, "電子機器", false)

  /** For the two sample products only the laptop, at 89800 yen, is listed. */
  method SampleListing() returns (lines: seq<PriceLine>)
    ensures lines == [PriceLine("ノートパソコン", 89800)]
  {
    lines := ShowAvailableProducts([Product1, Product2]);
  }
}
