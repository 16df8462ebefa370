/** The product page's related-products strip. */
module RelatedProducts {
  import opened Seqs
  import opened Products

  /** The effect run when `products`, `category` or `subCategory` change. While the catalogue
      is empty the previous list stays; otherwise the list is the first five products (in
      catalogue order) of the same category and sub-category. The product on display is not
      excluded: nothing filters on the id. */
  function Related(products: seq<Product>, category: string, subCategory: string, previous: seq<Product>)
    : (r: seq<Product>)
    ensures |products| == 0 ==> r == previous
    ensures |products| > 0 ==>
      && |r| <= 5
      && (forall p :: p in r ==> p in products && p.category == category && p.subCategory == subCategory)
      && IsSubsequence(r, products)
  {
    if |products| > 0 then
      var byCategory := FilterBy(products, (item: Product) => category == item.category);
      var matches := FilterBy(byCategory, (item: Product) => subCategory == item.subCategory);
      FilterIsSubsequence(products, (item: Product) => category == item.category);
      FilterIsSubsequence(byCategory, (item: Product) => subCategory == item.subCategory);
      SubsequenceTransitive(matches, byCategory, products);
      PrefixIsSubsequence(matches, Min(5, |matches|));
      SubsequenceTransitive(Take(matches, 5), matches, products);
      assert forall p :: p in Take(matches, 5) ==> p in matches;
      Take(matches, 5)
    else
      previous
  }

  /** The matching products in one pass: both fields equal. */
  predicate SameKind(category: string, subCategory: string, p: Product) {
    p.category == category && p.subCategory == subCategory
  }

  /** The list is a prefix of all matching products, as long as five allow: every product
      of the same kind appears as soon as fewer than five match. */
  lemma {:induction false} RelatedIsFirstMatches(products: seq<Product>, category: string, subCategory: string,
                                                 previous: seq<Product>)
    requires |products| > 0
    ensures var all := FilterBy(products, (p: Product) => SameKind(category, subCategory, p));
      var r := Related(products, category, subCategory, previous);
      |r| == Min(5, |all|) && r == all[..|r|]
  {
    FilterTwice(products, (item: Product) => category == item.category,
                (item: Product) => subCategory == item.subCategory,
                (p: Product) => SameKind(category, subCategory, p));
  }
}
