/** The storefront's collection page: category and type check-boxes, the search box's text,
    and the sort selector decide which products are listed and in what order. */
module CollectionPage {
  import opened Seqs
  import opened Products

  /** What the page reads from the shop context. */
  datatype Shop = Shop(products: seq<Product>, search: string, showSearch: bool)

  /** The filter inputs `applyFilter` reads. */
  datatype Filters = Filters(showSearch: bool, search: string, category: seq<string>, subCategory: seq<string>)

  /** `toLowerCase` on ASCII letters; other characters are left alone. */
  function LowerChar(c: char): char {
    if 'A' <= c <= 'Z' then (c as int + 32) as char else c
  }

  function Lower(s: string): (r: string)
    ensures |r| == |s| && forall i :: 0 <= i < |s| ==> r[i] == LowerChar(s[i])
  {
    if s == [] then [] else [LowerChar(s[0])] + Lower(s[1..])
  }

  /** `needle` occurs in `hay` at position `i`. */
  ghost predicate OccursAt(hay: string, needle: string, i: int) {
    0 <= i && i + |needle| <= |hay| && hay[i..i + |needle|] == needle
  }

  /** `hay.includes(needle)`. */
  function Includes(hay: string, needle: string): (r: bool)
    ensures r <==> exists i :: OccursAt(hay, needle, i)
  {
    if |needle| <= |hay| && hay[..|needle|] == needle then
      assert OccursAt(hay, needle, 0);
      true
    else if hay == [] then
      false
    else
      var rest := Includes(hay[1..], needle);
      assert rest ==> exists i :: OccursAt(hay, needle, i) by {
        if rest {
          var i :| OccursAt(hay[1..], needle, i);
          assert hay[i + 1..i + 1 + |needle|] == hay[1..][i..i + |needle|];
          assert OccursAt(hay, needle, i + 1);
        }
      }
      assert (exists i :: OccursAt(hay, needle, i)) ==> rest by {
        if exists i :: OccursAt(hay, needle, i) {
          var i :| OccursAt(hay, needle, i);
          assert i != 0;
          assert hay[1..][i - 1..i - 1 + |needle|] == hay[i..i + |needle|];
          assert OccursAt(hay[1..], needle, i - 1);
        }
      }
      rest
  }

  /** The search is active only while the search bar is shown and holds some text. */
  predicate SearchActive(f: Filters) { f.showSearch && f.search != "" }

  predicate NameMatches(search: string, p: Product) { Includes(Lower(p.name), Lower(search)) }

  /** A product passes every active filter: the case-insensitive name search, a selected
      category, a selected type. An empty selection restricts nothing. */
  predicate Matches(f: Filters, p: Product) {
    && (SearchActive(f) ==> NameMatches(f.search, p))
    && (f.category != [] ==> p.category in f.category)
    && (f.subCategory != [] ==> p.subCategory in f.subCategory)
  }

  /** The test each of the three passes applies. */
  function SearchTest(f: Filters): Product -> bool { (item: Product) => NameMatches(f.search, item) }
  function CategoryTest(f: Filters): Product -> bool { (item: Product) => item.category in f.category }
  function TypeTest(f: Filters): Product -> bool { (item: Product) => item.subCategory in f.subCategory }

  /** A pass that keeps everything when its filter is not active. */
  lemma PassIsSubsequence(s: seq<Product>, active: bool, g: Product -> bool)
    ensures IsSubsequence(if active then FilterBy(s, g) else s, s)
  {
    if active {
      FilterIsSubsequence(s, g);
    } else {
      FilterKeepsAll(s, (item: Product) => true);
      FilterIsSubsequence(s, (item: Product) => true);
    }
  }

  /** `applyFilter`: the copy of `products` narrowed by each active filter in turn. The result
      keeps catalogue order and holds exactly the products passing every active filter. */
  function Filtered(products: seq<Product>, f: Filters): (r: seq<Product>)
    ensures IsSubsequence(r, products)
    ensures forall p :: p in r <==> p in products && Matches(f, p)
  {
    var afterSearch := if SearchActive(f) then FilterBy(products, SearchTest(f)) else products;
    var afterCategory := if f.category != [] then FilterBy(afterSearch, CategoryTest(f)) else afterSearch;
    var afterType := if f.subCategory != [] then FilterBy(afterCategory, TypeTest(f)) else afterCategory;
    PassIsSubsequence(products, SearchActive(f), SearchTest(f));
    PassIsSubsequence(afterSearch, f.category != [], CategoryTest(f));
    PassIsSubsequence(afterCategory, f.subCategory != [], TypeTest(f));
    SubsequenceTransitive(afterCategory, afterSearch, products);
    SubsequenceTransitive(afterType, afterCategory, products);
    afterType
  }

  /** The three passes keep exactly what one pass with the conjunction of the active filters
      keeps, element for element and in the same order. */
  lemma {:induction false} FilteredIsOnePass(products: seq<Product>, f: Filters)
    ensures Filtered(products, f) == FilterBy(products, (p: Product) => Matches(f, p))
  {
    var searchOk := (item: Product) => SearchActive(f) ==> NameMatches(f.search, item);
    var categoryOk := (item: Product) => f.category != [] ==> item.category in f.category;
    var typeOk := (item: Product) => f.subCategory != [] ==> item.subCategory in f.subCategory;
    var searchAndCategory := (item: Product) => searchOk(item) && categoryOk(item);
    var all := (p: Product) => Matches(f, p);
    var s1 := FilterBy(products, searchOk);
    var s2 := FilterBy(s1, categoryOk);
    FilterWhen(products, SearchActive(f), SearchTest(f), searchOk);
    FilterWhen(s1, f.category != [], CategoryTest(f), categoryOk);
    FilterWhen(s2, f.subCategory != [], TypeTest(f), typeOk);
    FilterTwice(products, searchOk, categoryOk, searchAndCategory);
    FilterTwice(products, searchAndCategory, typeOk, all);
  }

  /** The number the comparator subtracts: `price` for "low-high", its negation for "high-low". */
  function SortKey(p: Product, descending: bool): int {
    if descending then -p.price else p.price
  }

  /** No product is ranked after one with a smaller key. */
  ghost predicate SortedByKey(s: seq<Product>, descending: bool) {
    forall i, j :: 0 <= i < j < |s| ==> SortKey(s[i], descending) <= SortKey(s[j], descending)
  }

  ghost predicate PriceAscending(s: seq<Product>) {
    forall i, j :: 0 <= i < j < |s| ==> s[i].price <= s[j].price
  }

  ghost predicate PriceDescending(s: seq<Product>) {
    forall i, j :: 0 <= i < j < |s| ==> s[i].price >= s[j].price
  }

  lemma SortedByKeyMeansPriceOrder(s: seq<Product>, descending: bool)
    requires SortedByKey(s, descending)
    ensures !descending ==> PriceAscending(s)
    ensures descending ==> PriceDescending(s)
  {
    forall i, j | 0 <= i < j < |s| ensures SortKey(s[i], descending) <= SortKey(s[j], descending) { }
  }

  /** `Array.prototype.sort` with the price comparator, as an insertion sort in place: each
      product moves left past those whose key is strictly larger. */
  method SortByPrice(a: array<Product>, descending: bool)
    modifies a
    ensures SortedByKey(a[..], descending)
    ensures multiset(a[..]) == multiset(old(a[..]))
  {
    var i := 0;
    while i < a.Length
      invariant 0 <= i <= a.Length
      invariant SortedByKey(a[..i], descending)
      invariant multiset(a[..]) == multiset(old(a[..]))
    {
      InsertAt(a, i, descending);
      i := i + 1;
    }
    assert a[..a.Length] == a[..];
  }

  /** Moves `a[i]` left into the sorted prefix `a[..i]`. */
  method InsertAt(a: array<Product>, i: nat, descending: bool)
    requires i < a.Length
    requires SortedByKey(a[..i], descending)
    modifies a
    ensures SortedByKey(a[..i + 1], descending)
    ensures multiset(a[..]) == multiset(old(a[..]))
  {
    var j := i;
    HoleAtEnd(a[..], i, descending);
    while j > 0 && SortKey(a[j], descending) < SortKey(a[j - 1], descending)
      invariant 0 <= j <= i
      invariant multiset(a[..]) == multiset(old(a[..]))
      invariant OrderedAroundHole(a[..], i, j, descending)
    {
      ghost var before := a[..];
      SwapDown(a, j);
      SwapKeepsOrder(before, a[..], i, j, descending);
      j := j - 1;
    }
    HoleClosed(a[..], i, j, descending);
  }

  /** The state of the insertion: the moving product sits at `j`, every other pair of
      `s[..i + 1]` is in order, and the moving product ranks before everything after it. */
  ghost predicate OrderedAroundHole(s: seq<Product>, i: nat, j: nat, descending: bool)
    requires j <= i < |s|
  {
    && (forall k, m :: 0 <= k < m <= i && k != j && m != j ==>
      SortKey(s[k], descending) <= SortKey(s[m], descending))
    && (forall m :: j < m <= i ==> SortKey(s[j], descending) < SortKey(s[m], descending))
  }

  /** Before the first exchange the moving product is the last one. */
  lemma HoleAtEnd(s: seq<Product>, i: nat, descending: bool)
    requires i < |s| && SortedByKey(s[..i], descending)
    ensures OrderedAroundHole(s, i, i, descending)
  {
    forall k, m | 0 <= k < m < i
      ensures SortKey(s[k], descending) <= SortKey(s[m], descending)
    {
      assert s[k] == s[..i][k] && s[m] == s[..i][m];
    }
  }

  /** One exchange of the moving product with the larger key before it moves the hole one
      place left. */
  lemma SwapKeepsOrder(s: seq<Product>, t: seq<Product>, i: nat, j: nat, descending: bool)
    requires 0 < j <= i < |s|
    requires t == s[j - 1 := s[j]][j := s[j - 1]]
    requires SortKey(s[j], descending) < SortKey(s[j - 1], descending)
    requires OrderedAroundHole(s, i, j, descending)
    ensures OrderedAroundHole(t, i, j - 1, descending)
  {
  }

  /** Once the product before the hole has no larger key (or there is none), `s[..i + 1]` is
      sorted. */
  lemma HoleClosed(s: seq<Product>, i: nat, j: nat, descending: bool)
    requires j <= i < |s| && OrderedAroundHole(s, i, j, descending)
    requires j > 0 ==> SortKey(s[j - 1], descending) <= SortKey(s[j], descending)
    ensures SortedByKey(s[..i + 1], descending)
  {
    forall k, m | 0 <= k < m <= i
      ensures SortKey(s[k], descending) <= SortKey(s[m], descending)
    {
      if k == j && m != j {
      } else if m == j && k != j {
        assert SortKey(s[k], descending) <= SortKey(s[j - 1], descending) || k == j - 1;
      }
    }
    assert forall k :: 0 <= k <= i ==> s[..i + 1][k] == s[k];
  }

  /** Exchanges `a[j - 1]` and `a[j]`. */
  method SwapDown(a: array<Product>, j: nat)
    requires 0 < j < a.Length
    modifies a
    ensures a[..] == old(a[..])[j - 1 := old(a[j])][j := old(a[j - 1])]
    ensures multiset(a[..]) == multiset(old(a[..]))
  {
    a[j - 1], a[j] := a[j], a[j - 1];
  }

  /** The collection page's own state. */
  class Page {
    var category: seq<string>
    var subCategory: seq<string>
    var sortType: string
    var filterProducts: seq<Product>

    constructor()
      ensures category == [] && subCategory == [] && sortType == "relavent" && filterProducts == []
    {
      category := [];
      subCategory := [];
      sortType := "relavent";
      filterProducts := [];
    }

    function CurrentFilters(shop: Shop): (r: Filters)
      reads this
      ensures r.category == category && r.subCategory == subCategory
      ensures r.search == shop.search && r.showSearch == shop.showSearch
    {
      Filters(shop.showSearch, shop.search, category, subCategory)
    }

    /** The effect on the filter inputs: the shown list becomes the filtered catalogue, in
        catalogue order, whatever sort was chosen before. */
    method ApplyFilter(shop: Shop)
      modifies this
      ensures filterProducts == Filtered(shop.products, CurrentFilters(shop))
      ensures category == old(category) && subCategory == old(subCategory) && sortType == old(sortType)
    {
      var productsCopy := shop.products;
      if shop.showSearch && shop.search != "" {
        productsCopy := FilterBy(productsCopy, SearchTest(CurrentFilters(shop)));
      }
      if |category| > 0 {
        productsCopy := FilterBy(productsCopy, CategoryTest(CurrentFilters(shop)));
      }
      if |subCategory| > 0 {
        productsCopy := FilterBy(productsCopy, TypeTest(CurrentFilters(shop)));
      }
      filterProducts := productsCopy;
    }

    /** A category check-box: the value is added when absent and removed when present, and
        then the effect refilters. */
    method ToggleCategory(value: string, shop: Shop)
      modifies this
      ensures category == Toggled(old(category), value)
      ensures subCategory == old(subCategory) && sortType == old(sortType)
      ensures filterProducts == Filtered(shop.products, CurrentFilters(shop))
    {
      category := Toggled(category, value);
      ApplyFilter(shop);
    }

    method ToggleSubCategory(value: string, shop: Shop)
      modifies this
      ensures subCategory == Toggled(old(subCategory), value)
      ensures category == old(category) && sortType == old(sortType)
      ensures filterProducts == Filtered(shop.products, CurrentFilters(shop))
    {
      subCategory := Toggled(subCategory, value);
      ApplyFilter(shop);
    }

    /** `sortProduct`: "low-high" and "high-low" reorder the shown products by price and keep
        every one of them; any other choice shows the filtered catalogue again. */
    method SortProduct(shop: Shop)
      modifies this
      ensures category == old(category) && subCategory == old(subCategory) && sortType == old(sortType)
      ensures sortType == "low-high" || sortType == "high-low" ==>
        multiset(filterProducts) == multiset(old(filterProducts))
      ensures sortType == "low-high" ==> PriceAscending(filterProducts)
      ensures sortType == "high-low" ==> PriceDescending(filterProducts)
      ensures sortType != "low-high" && sortType != "high-low" ==>
        filterProducts == Filtered(shop.products, CurrentFilters(shop))
    {
      if sortType == "low-high" || sortType == "high-low" {
        var descending := sortType == "high-low";
        var fpCopy := new Product[|filterProducts|](i requires 0 <= i < |filterProducts| reads this => filterProducts[i]);
        assert fpCopy[..] == filterProducts;
        SortByPrice(fpCopy, descending);
        SortedByKeyMeansPriceOrder(fpCopy[..], descending);
        filterProducts := fpCopy[..];
      } else {
        ApplyFilter(shop);
      }
    }

    /** Choosing an entry in the sort selector, followed by the effect that sorts. */
    method SelectSort(value: string, shop: Shop)
      modifies this
      ensures sortType == value
      ensures category == old(category) && subCategory == old(subCategory)
      ensures value == "low-high" || value == "high-low" ==>
        multiset(filterProducts) == multiset(old(filterProducts))
      ensures value == "low-high" ==> PriceAscending(filterProducts)
      ensures value == "high-low" ==> PriceDescending(filterProducts)
      ensures value != "low-high" && value != "high-low" ==>
        filterProducts == Filtered(shop.products, CurrentFilters(shop))
    {
      sortType := value;
      SortProduct(shop);
    }
  }
}
