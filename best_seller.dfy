/** The home page's best-sellers strip. */
module BestSeller {
  import opened Seqs
  import opened Products

  predicate IsBestseller(p: Product) { p.bestseller }

  /** `products.filter(item => item.bestseller).slice(0, 5)`: the first five best-sellers (or
      all of them when there are fewer), in catalogue order. */
  function BestSellers(products: seq<Product>): (r: seq<Product>)
    ensures |r| == Min(5, |FilterBy(products, IsBestseller)|)
    ensures r == FilterBy(products, IsBestseller)[..|r|]
    ensures forall p :: p in r ==> p in products && p.bestseller
    ensures IsSubsequence(r, products)
  {
    var best := FilterBy(products, IsBestseller);
    FilterIsSubsequence(products, IsBestseller);
    PrefixIsSubsequence(best, Min(5, |best|));
    SubsequenceTransitive(Take(best, 5), best, products);
    assert forall p :: p in Take(best, 5) ==> p in best;
    Take(best, 5)
  }
}
