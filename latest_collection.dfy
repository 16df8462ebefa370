/** The home page's latest-collection strip. */
module LatestCollection {
  import opened Seqs
  import opened Products

  /** `products.slice(0, 10)`: the first ten products in catalogue order, or all of them when
      there are ten or fewer. */
  function Latest(products: seq<Product>): (r: seq<Product>)
    ensures |r| == Min(10, |products|)
    ensures r == products[..|r|]
    ensures |products| <= 10 ==> r == products
  {
    Take(products, 10)
  }
}
