/**
 * The product repository's queries over the product table: the derived
 * finders, the filtered and paged catalogue queries ordered newest first, and
 * the warehouse selection. The table is a sequence of products; a query
 * answers a sequence (or one page of it) and never changes the table.
 */
module ProductQueries {
  import opened Common
  import opened Text

  datatype BrandRef = BrandRef(id: int, name: string)

  /** A product row; prices are whole numbers here, `None` where the column is `null`. */
  datatype Product = Product(
    id: int,
    name: string,
    slug: string,
    gtin: string,
    sku: string,
    brand: Option<BrandRef>,
    price: Option<int>,
    categorySlugs: seq<string>,
    isPublished: bool,
    isVisibleIndividually: bool,
    isFeatured: bool,
    lastModifiedOn: int)

  /** The rows of `s` that satisfy `f`, in table order. */
  function Filter(s: seq<Product>, f: Product -> bool): (r: seq<Product>)
    ensures |r| <= |s|
    ensures forall x :: x in r <==> x in s && f(x)
    ensures forall i :: 0 <= i < |r| ==> f(r[i])
    ensures multiset(r) <= multiset(s)
    ensures (forall x :: x in s ==> !f(x)) ==> r == []
  {
    if s == [] then []
    else
      var rest := Filter(s[..|s| - 1], f);
      assert s == s[..|s| - 1] + [s[|s| - 1]];
      if f(s[|s| - 1]) then rest + [s[|s| - 1]] else rest
  }

  // ----- ordering: ORDER BY p.lastModifiedOn DESC -----

  predicate NewestFirst(s: seq<Product>) {
    forall i, j :: 0 <= i < j < |s| ==> s[i].lastModifiedOn >= s[j].lastModifiedOn
  }

  /** Places `x` into a newest-first sequence, after every row at least as recent. */
  function Insert(x: Product, s: seq<Product>): (r: seq<Product>)
    requires NewestFirst(s)
    ensures |r| == |s| + 1 && NewestFirst(r)
    ensures multiset(r) == multiset(s) + multiset{x}
    ensures r[0] == x || (s != [] && r[0] == s[0])
  {
    if s == [] then [x]
    else if x.lastModifiedOn > s[0].lastModifiedOn then [x] + s
    else
      var tail := Insert(x, s[1..]);
      assert s == [s[0]] + s[1..];
      [s[0]] + tail
  }

  /** The rows of `s` rearranged newest first; rows modified at the same instant keep their table order. */
  function SortNewestFirst(s: seq<Product>): (r: seq<Product>)
    ensures NewestFirst(r)
    ensures multiset(r) == multiset(s)
    ensures |r| == |s|
  {
    if s == [] then []
    else
      assert s == s[..|s| - 1] + [s[|s| - 1]];
      Insert(s[|s| - 1], SortNewestFirst(s[..|s| - 1]))
  }

  // ----- paging -----

  datatype Page = Page(content: seq<Product>, totalElements: nat)

  function Min(a: nat, b: nat): nat {
    if a <= b then a else b
  }

  /** Page `pageNo` (from 0) of `pageSize` rows, as `PageRequest.of(pageNo, pageSize)` cuts it. */
  function PageOf(s: seq<Product>, pageNo: nat, pageSize: nat): (p: Page)
    requires pageSize > 0
    ensures p.totalElements == |s|
    ensures |p.content| <= pageSize
    ensures pageNo * pageSize <= |s| ==>
      p.content == s[pageNo * pageSize .. Min(pageNo * pageSize + pageSize, |s|)]
    ensures pageNo * pageSize >= |s| ==> p.content == []
  {
    var start := Min(pageNo * pageSize, |s|);
    Page(s[start .. Min(start + pageSize, |s|)], |s|)
  }

  /** Two sequences with the same multiset have the same members. */
  lemma SameMembers(a: seq<Product>, b: seq<Product>)
    requires multiset(a) == multiset(b)
    ensures forall x :: x in a <==> x in b
  {
    forall x ensures x in a <==> x in b {
      assert x in a <==> x in multiset(a);
      assert x in b <==> x in multiset(b);
    }
  }

  /** A page holds rows of the sequence it is cut from, in their order. */
  lemma PageWithin(s: seq<Product>, pageNo: nat, pageSize: nat)
    requires pageSize > 0
    ensures forall x :: x in PageOf(s, pageNo, pageSize).content ==> x in s
    ensures NewestFirst(s) ==> NewestFirst(PageOf(s, pageNo, pageSize).content)
  {
    var start := Min(pageNo * pageSize, |s|);
    var end := Min(start + pageSize, |s|);
    assert PageOf(s, pageNo, pageSize).content == s[start..end];
    SliceMembers(s, start, end);
    if NewestFirst(s) {
      NewestFirstSlice(s, start, end);
    }
  }

  lemma SliceMembers(s: seq<Product>, a: nat, b: nat)
    requires a <= b <= |s|
    ensures forall x :: x in s[a..b] ==> x in s
  {
    forall x | x in s[a..b] ensures x in s {
      var k :| 0 <= k < b - a && s[a..b][k] == x;
      assert s[a + k] == x;
    }
  }

  lemma NewestFirstSlice(s: seq<Product>, a: nat, b: nat)
    requires NewestFirst(s) && a <= b <= |s|
    ensures NewestFirst(s[a..b])
  {
    var t := s[a..b];
    forall i, j | 0 <= i < j < |t| ensures t[i].lastModifiedOn >= t[j].lastModifiedOn {
      assert t[i] == s[a + i] && t[j] == s[a + j];
    }
  }

  /** One page of the matches ordered newest first: the shape of every paged catalogue query. */
  function NewestFirstPage(matches: seq<Product>, pageNo: nat, pageSize: nat): (page: Page)
    requires pageSize > 0
    ensures NewestFirst(page.content)
    ensures forall x :: x in page.content ==> x in matches
    ensures page.totalElements == |matches|
    ensures exists all :: NewestFirst(all) && multiset(all) == multiset(matches) && page == PageOf(all, pageNo, pageSize)
  {
    var all := SortNewestFirst(matches);
    SameMembers(all, matches);
    PageWithin(all, pageNo, pageSize);
    assert NewestFirst(all) && multiset(all) == multiset(matches) && PageOf(all, pageNo, pageSize) == PageOf(all, pageNo, pageSize);
    PageOf(all, pageNo, pageSize)
  }

  /**
   * Every page of a newest-first query is cut from one and the same newest-first
   * arrangement of the matches, and paging through it gives every match once.
   */
  lemma NewestFirstPagesCover(matches: seq<Product>, pageSize: nat)
    requires pageSize > 0
    ensures exists all :: && NewestFirst(all) && multiset(all) == multiset(matches)
                          && PagesUpTo(all, pageSize, |all|) == all
                          && forall n: nat :: NewestFirstPage(matches, n, pageSize) == PageOf(all, n, pageSize)
  {
    var all := SortNewestFirst(matches);
    AllPages(all, pageSize);
    assert forall n: nat :: NewestFirstPage(matches, n, pageSize) == PageOf(all, n, pageSize);
    assert && NewestFirst(all) && multiset(all) == multiset(matches)
           && PagesUpTo(all, pageSize, |all|) == all
           && forall n: nat :: NewestFirstPage(matches, n, pageSize) == PageOf(all, n, pageSize);
  }

  /** No two different rows were last modified at the same instant. */
  predicate DistinctTimes(s: seq<Product>) {
    forall x, y :: x in s && y in s && x != y ==> x.lastModifiedOn != y.lastModifiedOn
  }

  /** Without ties in `lastModifiedOn`, the newest-first order of a multiset of rows is unique. */
  lemma {:induction false} NewestFirstUnique(a: seq<Product>, b: seq<Product>)
    requires NewestFirst(a) && NewestFirst(b) && multiset(a) == multiset(b)
    requires DistinctTimes(a)
    ensures a == b
    decreases |a|
  {
    assert |a| == |multiset(a)| && |b| == |multiset(b)|;
    if a != [] {
      TailsQualify(a, b);
      NewestFirstUnique(a[1..], b[1..]);
      assert a == [a[0]] + a[1..] && b == [b[0]] + b[1..];
    }
  }

  /** The heads of two tie-free newest-first arrangements agree, and their tails qualify again. */
  lemma TailsQualify(a: seq<Product>, b: seq<Product>)
    requires a != [] && NewestFirst(a) && NewestFirst(b) && multiset(a) == multiset(b)
    requires DistinctTimes(a)
    ensures b != [] && a[0] == b[0]
    ensures NewestFirst(a[1..]) && NewestFirst(b[1..]) && multiset(a[1..]) == multiset(b[1..])
    ensures DistinctTimes(a[1..])
  {
    assert |a| == |multiset(a)| && |b| == |multiset(b)|;
    HeadsAgree(a, b);
    TailsAgree(a, b);
    NewestFirstSlice(a, 1, |a|);
    NewestFirstSlice(b, 1, |b|);
    DistinctTimesTail(a);
  }

  lemma HeadsAgree(a: seq<Product>, b: seq<Product>)
    requires a != [] && b != [] && NewestFirst(a) && NewestFirst(b) && multiset(a) == multiset(b)
    requires DistinctTimes(a)
    ensures a[0] == b[0]
  {
    assert a[0] in multiset(b) && b[0] in multiset(a);
    var k :| 0 <= k < |b| && b[k] == a[0];
    var h :| 0 <= h < |a| && a[h] == b[0];
    assert b[0].lastModifiedOn >= b[k].lastModifiedOn;
    assert a[0].lastModifiedOn >= a[h].lastModifiedOn;
  }

  lemma TailsAgree(a: seq<Product>, b: seq<Product>)
    requires a != [] && b != [] && multiset(a) == multiset(b) && a[0] == b[0]
    ensures multiset(a[1..]) == multiset(b[1..])
  {
    assert a == [a[0]] + a[1..] && b == [b[0]] + b[1..];
    assert multiset(a) == multiset{a[0]} + multiset(a[1..]);
    assert multiset(b) == multiset{b[0]} + multiset(b[1..]);
    assert multiset(a[1..]) == multiset(a) - multiset{a[0]};
    assert multiset(b[1..]) == multiset(b) - multiset{b[0]};
  }

  lemma DistinctTimesTail(a: seq<Product>)
    requires a != [] && DistinctTimes(a)
    ensures DistinctTimes(a[1..])
  {
    SliceMembers(a, 1, |a|);
  }

  /**
   * The database sorts each page query on its own; without ties in
   * `lastModifiedOn`, any newest-first order it picks cuts the same pages as
   * the model's.
   */
  lemma AnyNewestFirstOrderSamePages(matches: seq<Product>, all: seq<Product>, pageNo: nat, pageSize: nat)
    requires pageSize > 0
    requires NewestFirst(all) && multiset(all) == multiset(matches) && DistinctTimes(matches)
    ensures PageOf(all, pageNo, pageSize) == NewestFirstPage(matches, pageNo, pageSize)
  {
    SameMembers(all, matches);
    NewestFirstUnique(all, SortNewestFirst(matches));
  }

  /** The contents of pages 0 to n-1 of a sequence. */
  function PagesUpTo(s: seq<Product>, pageSize: nat, n: nat): seq<Product>
    requires pageSize > 0
  {
    if n == 0 then [] else PagesUpTo(s, pageSize, n - 1) + PageOf(s, n - 1, pageSize).content
  }

  /** Reading pages 0, 1, … in turn gives the rows of the unpaged answer, in order, without gaps or repeats. */
  lemma {:induction false} PagesConcatenate(s: seq<Product>, pageSize: nat, n: nat)
    requires pageSize > 0
    ensures PagesUpTo(s, pageSize, n) == s[..Min(n * pageSize, |s|)]
  {
    if n > 0 {
      PagesConcatenate(s, pageSize, n - 1);
      var before := (n - 1) * pageSize;
      NextPageStart(n, pageSize);
      var start := Min(before, |s|);
      var end := Min(start + pageSize, |s|);
      assert PageOf(s, n - 1, pageSize).content == s[start..end];
      assert end == Min(n * pageSize, |s|);
      assert s[..start] + s[start..end] == s[..end];
    }
  }

  lemma NextPageStart(n: nat, pageSize: nat)
    requires n > 0
    ensures n * pageSize == (n - 1) * pageSize + pageSize
  {
  }

  lemma {:induction false} AtLeastOnce(n: nat, pageSize: nat)
    requires pageSize > 0
    ensures n * pageSize >= n
  {
    if n > 0 {
      NextPageStart(n, pageSize);
      AtLeastOnce(n - 1, pageSize);
    }
  }

  /** Enough pages hold every row. */
  lemma AllPages(s: seq<Product>, pageSize: nat)
    requires pageSize > 0
    ensures PagesUpTo(s, pageSize, |s|) == s
  {
    PagesConcatenate(s, pageSize, |s|);
    AtLeastOnce(|s|, pageSize);
    assert s[..|s|] == s;
  }

  // ----- derived finders -----

  /** `findAllByBrandAndIsPublishedTrue`: the published products of that brand. */
  function FindAllByBrandAndIsPublishedTrue(products: seq<Product>, brand: BrandRef): (r: seq<Product>)
    ensures forall x :: x in r <==> x in products && x.isPublished && x.brand.Some? && x.brand.value.id == brand.id
  {
    Filter(products, (p: Product) => p.isPublished && p.brand.Some? && p.brand.value.id == brand.id)
  }

  /** The unique key a derived finder looks a product up by. */
  datatype ProductKey = Slug | Gtin | Sku

  function KeyOf(p: Product, key: ProductKey): string {
    match key
    case Slug => p.slug
    case Gtin => p.gtin
    case Sku => p.sku
  }

  /**
   * `findBySlugAndIsPublishedTrue`, `findByGtinAndIsPublishedTrue` and
   * `findBySkuAndIsPublishedTrue`: the published product with that key, no
   * product, or a failure when more than one row matches.
   */
  function FindByKeyAndIsPublishedTrue(products: seq<Product>, key: ProductKey, value: string): (r: Lookup<Product>)
    ensures r.Absent? <==> forall x :: x in products ==> !(x.isPublished && KeyOf(x, key) == value)
    ensures r.Found? ==>
      && r.value in products && r.value.isPublished && KeyOf(r.value, key) == value
      && forall x :: x in products && x.isPublished && KeyOf(x, key) == value ==> x == r.value
  {
    var matches := Filter(products, (p: Product) => p.isPublished && KeyOf(p, key) == value);
    if |matches| == 0 then Absent
    else if |matches| == 1 then
      assert forall x :: x in matches ==> x == matches[0];
      Found(matches[0])
    else NotUnique
  }

  /** When no two published products share the key, the finder never fails. */
  lemma {:induction false} UniqueKeyFound(products: seq<Product>, key: ProductKey, value: string, i: nat)
    requires i < |products| && products[i].isPublished && KeyOf(products[i], key) == value
    requires forall a, b :: 0 <= a < b < |products| && products[a].isPublished && products[b].isPublished ==>
                              KeyOf(products[a], key) != KeyOf(products[b], key)
    ensures FindByKeyAndIsPublishedTrue(products, key, value) == Found(products[i])
  {
    var matches := Filter(products, (p: Product) => p.isPublished && KeyOf(p, key) == value);
    OnlyMatch(products, key, value, i);
    assert products[i] in matches;
    if |matches| > 1 {
      assert matches[0] in matches && matches[1] in matches;
      TwoCopies(matches, products[i]);
      OneOccurrence(products, key, value, i);
      assert false;
    }
    assert matches[0] in matches;
  }

  lemma TwoCopies(m: seq<Product>, y: Product)
    requires |m| >= 2 && m[0] == y && m[1] == y
    ensures multiset(m)[y] >= 2
  {
    assert m == [m[0], m[1]] + m[2..];
  }

  /** Under distinct keys the only published row with that key is the one at `i`. */
  lemma OnlyMatch(products: seq<Product>, key: ProductKey, value: string, i: nat)
    requires i < |products| && products[i].isPublished && KeyOf(products[i], key) == value
    requires forall a, b :: 0 <= a < b < |products| && products[a].isPublished && products[b].isPublished ==>
                              KeyOf(products[a], key) != KeyOf(products[b], key)
    ensures forall x :: x in products && x.isPublished && KeyOf(x, key) == value ==> x == products[i]
  {
    forall x | x in products && x.isPublished && KeyOf(x, key) == value
      ensures x == products[i]
    {
      var j :| 0 <= j < |products| && products[j] == x;
    }
  }

  /** Under distinct keys the published row with that key occurs once in the table. */
  lemma {:induction false} OneOccurrence(products: seq<Product>, key: ProductKey, value: string, i: nat)
    requires i < |products| && products[i].isPublished && KeyOf(products[i], key) == value
    requires forall a, b :: 0 <= a < b < |products| && products[a].isPublished && products[b].isPublished ==>
                              KeyOf(products[a], key) != KeyOf(products[b], key)
    ensures multiset(products)[products[i]] == 1
  {
    var x := products[i];
    var k := |products| - 1;
    assert products == products[..k] + [products[k]];
    if k == i {
      assert forall j :: 0 <= j < k ==> products[..k][j] != x;
      assert x !in products[..k];
    } else {
      assert products[k] != x;
      OneOccurrence(products[..k], key, value, i);
    }
  }

  // ----- catalogue queries -----

  /** The shared predicate of `getProductsWithFilter` and `getExportingProducts`. */
  predicate MatchesFilter(p: Product, productName: string, brandName: Option<string>) {
    && Contains(ToLower(p.name), productName)
    && p.brand.Some?   // `p.brand.name` joins the brand table, so a product without brand never matches
    && (brandName.None? || brandName.value == "" || p.brand.value.name == brandName.value)
    && p.isVisibleIndividually
    && p.isPublished
  }

  /** `getExportingProducts`: every match of the filter, newest first. */
  function GetExportingProducts(products: seq<Product>, productName: string, brandName: Option<string>): (r: seq<Product>)
    ensures NewestFirst(r)
    ensures forall x :: x in r <==> x in products && MatchesFilter(x, productName, brandName)
    ensures multiset(r) == multiset(Filter(products, (p: Product) => MatchesFilter(p, productName, brandName)))
  {
    var matches := Filter(products, (p: Product) => MatchesFilter(p, productName, brandName));
    var r := SortNewestFirst(matches);
    SameMembers(r, matches);
    r
  }

  /** `getProductsWithFilter`: one page of what `getExportingProducts` answers. */
  function GetProductsWithFilter(products: seq<Product>, productName: string, brandName: Option<string>,
                                 pageNo: nat, pageSize: nat): (page: Page)
    requires pageSize > 0
    ensures NewestFirst(page.content)
    ensures forall x :: x in page.content ==> x in products && MatchesFilter(x, productName, brandName)
    ensures page.totalElements == |Filter(products, (p: Product) => MatchesFilter(p, productName, brandName))|
  {
    var all := GetExportingProducts(products, productName, brandName);
    PageWithin(all, pageNo, pageSize);
    PageOf(all, pageNo, pageSize)
  }

  /** Paging through `getProductsWithFilter` yields exactly the export, in the same order. */
  lemma FilterPagesAreTheExport(products: seq<Product>, productName: string, brandName: Option<string>, pageSize: nat)
    requires pageSize > 0
    ensures PagesUpTo(GetExportingProducts(products, productName, brandName), pageSize,
                      |GetExportingProducts(products, productName, brandName)|)
            == GetExportingProducts(products, productName, brandName)
    ensures forall n: nat :: GetProductsWithFilter(products, productName, brandName, n, pageSize)
                             == PageOf(GetExportingProducts(products, productName, brandName), n, pageSize)
  {
    AllPages(GetExportingProducts(products, productName, brandName), pageSize);
  }

  predicate IsFeaturedVisible(p: Product) {
    p.isFeatured && p.isVisibleIndividually && p.isPublished
  }

  /** `getFeaturedProduct`: one page of the featured, visible, published products, newest first. */
  function GetFeaturedProduct(products: seq<Product>, pageNo: nat, pageSize: nat): (page: Page)
    requires pageSize > 0
    ensures NewestFirst(page.content)
    ensures forall x :: x in page.content ==> x in products && IsFeaturedVisible(x)
    ensures page.totalElements == |Filter(products, IsFeaturedVisible)|
    ensures exists all :: && NewestFirst(all) && multiset(all) == multiset(Filter(products, IsFeaturedVisible))
                          && page == PageOf(all, pageNo, pageSize)
  {
    NewestFirstPage(Filter(products, IsFeaturedVisible), pageNo, pageSize)
  }

  /** Paging through `getFeaturedProduct` gives every featured, visible, published product once, newest first. */
  lemma FeaturedPagesCover(products: seq<Product>, pageSize: nat)
    requires pageSize > 0
    ensures exists all :: && NewestFirst(all) && multiset(all) == multiset(Filter(products, IsFeaturedVisible))
                          && PagesUpTo(all, pageSize, |all|) == all
                          && forall n: nat :: GetFeaturedProduct(products, n, pageSize) == PageOf(all, n, pageSize)
  {
    NewestFirstPagesCover(Filter(products, IsFeaturedVisible), pageSize);
  }

  /** The predicate of the category and price search; an absent bound or an empty slug is no condition. */
  predicate MatchesCategoryAndPrice(p: Product, productName: string, categorySlug: Option<string>,
                                    startPrice: Option<int>, endPrice: Option<int>) {
    && Contains(ToLower(p.name), productName)
    && (categorySlug.None? || categorySlug.value == "" || categorySlug.value in p.categorySlugs)
    && (startPrice.None? || (p.price.Some? && p.price.value >= startPrice.value))
    && (endPrice.None? || (p.price.Some? && p.price.value <= endPrice.value))
    && p.isVisibleIndividually
    && p.isPublished
  }

  /** `findByProductNameAndCategorySlugAndPriceBetween`: one page of the matches, newest first. */
  function FindByProductNameAndCategorySlugAndPriceBetween(
      products: seq<Product>, productName: string, categorySlug: Option<string>,
      startPrice: Option<int>, endPrice: Option<int>, pageNo: nat, pageSize: nat): (page: Page)
    requires pageSize > 0
    ensures NewestFirst(page.content)
    ensures forall x :: x in page.content ==>
      x in products && MatchesCategoryAndPrice(x, productName, categorySlug, startPrice, endPrice)
    ensures page.totalElements ==
      |Filter(products, (p: Product) => MatchesCategoryAndPrice(p, productName, categorySlug, startPrice, endPrice))|
    ensures exists all ::
      && NewestFirst(all)
      && multiset(all) == multiset(Filter(products, (p: Product) => MatchesCategoryAndPrice(p, productName, categorySlug, startPrice, endPrice)))
      && page == PageOf(all, pageNo, pageSize)
  {
    var matches := Filter(products, (p: Product) => MatchesCategoryAndPrice(p, productName, categorySlug, startPrice, endPrice));
    NewestFirstPage(matches, pageNo, pageSize)
  }

  /** Paging through the category and price search gives every match once, newest first. */
  lemma CategoryAndPricePagesCover(products: seq<Product>, productName: string, categorySlug: Option<string>,
                                   startPrice: Option<int>, endPrice: Option<int>, pageSize: nat)
    requires pageSize > 0
    ensures exists all ::
      && NewestFirst(all)
      && multiset(all) == multiset(Filter(products, (p: Product) => MatchesCategoryAndPrice(p, productName, categorySlug, startPrice, endPrice)))
      && PagesUpTo(all, pageSize, |all|) == all
      && forall n: nat :: FindByProductNameAndCategorySlugAndPriceBetween(products, productName, categorySlug, startPrice, endPrice, n, pageSize)
                          == PageOf(all, n, pageSize)
  {
    NewestFirstPagesCover(Filter(products, (p: Product) => MatchesCategoryAndPrice(p, productName, categorySlug, startPrice, endPrice)), pageSize);
  }

  /** Both bounds are inclusive: a product priced exactly at a bound is kept. */
  lemma PriceBoundsInclusive(p: Product, productName: string, price: int)
    requires p.price == Some(price) && p.isVisibleIndividually && p.isPublished
    requires Contains(ToLower(p.name), productName)
    ensures MatchesCategoryAndPrice(p, productName, None, Some(price), Some(price))
  {
  }

  /** `findAllByIdIn`: the products whose id is listed, in table order. */
  function FindAllByIdIn(products: seq<Product>, productIds: seq<int>): (r: seq<Product>)
    ensures forall x :: x in r <==> x in products && x.id in productIds
  {
    Filter(products, (p: Product) => p.id in productIds)
  }

  // ----- warehouse selection -----

  predicate MatchesNameOrSku(p: Product, name: string, sku: string) {
    Contains(ToLower(p.name), ToLower(name)) || Contains(ToLower(p.sku), ToLower(sku))
  }

  /** The selection clause; `productIds` is `None` for a `null` list, and any other selection keeps nothing. */
  predicate Selected(p: Product, productIds: Option<seq<int>>, selection: string) {
    || selection == "ALL"
    || (selection == "YES" && productIds.Some? && p.id in productIds.value)
    || (selection == "NO" && (productIds.None? || p.id !in productIds.value))
  }

  /** `findProductForWarehouse`. */
  function FindProductForWarehouse(products: seq<Product>, name: string, sku: string,
                                   productIds: Option<seq<int>>, selection: string): (r: seq<Product>)
    ensures forall x :: x in r <==> x in products && MatchesNameOrSku(x, name, sku) && Selected(x, productIds, selection)
  {
    Filter(products, (p: Product) => MatchesNameOrSku(p, name, sku) && Selected(p, productIds, selection))
  }

  /** For a given id list, 'YES' and 'NO' split the 'ALL' matches between them, with no product in both. */
  lemma WarehouseSelectionsPartition(products: seq<Product>, name: string, sku: string, ids: seq<int>, x: Product)
    ensures x in FindProductForWarehouse(products, name, sku, Some(ids), "ALL") <==>
      x in FindProductForWarehouse(products, name, sku, Some(ids), "YES") ||
      x in FindProductForWarehouse(products, name, sku, Some(ids), "NO")
    ensures !(x in FindProductForWarehouse(products, name, sku, Some(ids), "YES") &&
              x in FindProductForWarehouse(products, name, sku, Some(ids), "NO"))
  {
  }

  /** Without an id list, 'NO' keeps every match and 'YES' keeps none. */
  lemma WarehouseWithoutIds(products: seq<Product>, name: string, sku: string)
    ensures FindProductForWarehouse(products, name, sku, None, "NO") ==
            FindProductForWarehouse(products, name, sku, None, "ALL")
    ensures FindProductForWarehouse(products, name, sku, None, "YES") == []
  {
    FilterSame(products, (p: Product) => MatchesNameOrSku(p, name, sku) && Selected(p, None, "NO"),
                         (p: Product) => MatchesNameOrSku(p, name, sku) && Selected(p, None, "ALL"));
  }

  /** Two predicates that agree on every row filter the same rows. */
  lemma {:induction false} FilterSame(s: seq<Product>, f: Product -> bool, g: Product -> bool)
    requires forall x :: x in s ==> f(x) == g(x)
    ensures Filter(s, f) == Filter(s, g)
  {
    if s != [] {
      FilterSame(s[..|s| - 1], f, g);
    }
  }
}
