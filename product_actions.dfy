/** The catalogue actions of lib/actions/product.actions.ts: the filter, sort
    and page that `getAllProducts` builds from the search parameters, the
    featured products, and creating, updating and deleting a product. */
module ProductActions {

  import opened Common
  import opened Records
  import opened Store
  import Text
  import Money
  import Paging
  import Validators
  import Sorting

  const PRODUCT_NOT_FOUND := "Product not found"
  const PRODUCT_DELETED := "Product deleted successfully"
  const PRODUCT_CREATED := "Product created successfully"
  const PRODUCT_UPDATED := "Product updated successfully"
  const FEATURED_COUNT := 4

  // ---------------------------------------------------------------------
  // The query getAllProducts builds
  // ---------------------------------------------------------------------

  /** The result of JavaScript's `Number(...)` on a search parameter: a
      whole number, or `NaN`. */
  datatype Num = Num(value: int) | NaN

  /** `Number(s)`, with `undefined` as `None`: the empty text is 0, a decimal
      numeral is its value, and anything else is `NaN`. */
  function NumberOf(s: Option<string>): (r: Num)
    ensures s.None? ==> r == NaN
    ensures s == Some("") ==> r == Num(0)
    ensures s.Some? && Money.AllDigits(s.value) ==> r == Num(Money.DigitsValue(s.value))
    ensures s.Some? && !Money.AllDigits(s.value) ==> r == NaN
  {
    if s.None? then NaN
    else if Money.AllDigits(s.value) then Num(Money.DigitsValue(s.value))
    else NaN
  }

  /** `s.split("-")[0]`. */
  function FirstPart(s: string): string {
    Text.BeforeFirst(s, '-')
  }

  /** `s.split("-")[1]`, `undefined` when there is no dash. */
  function SecondPart(s: string): (r: Option<string>)
    ensures r.None? <==> '-' !in s
  {
    match Text.AfterFirst(s, '-')
    case None => None
    case Some(rest) => Some(Text.BeforeFirst(rest, '-'))
  }

  /** A "lo-hi" text splits back into its two dash-free halves. */
  lemma SplitRange(lo: string, hi: string)
    requires '-' !in lo && '-' !in hi
    ensures FirstPart(lo + "-" + hi) == lo
    ensures SecondPart(lo + "-" + hi) == Some(hi)
  {
    assert lo + "-" + hi == lo + ['-'] + hi;
    Text.SplitAtFirst(lo, '-', hi);
    Text.BeforeAbsent(hi, '-');
  }

  /** The `where` clause. `None` is a filter the clause leaves out. */
  datatype Range = Range(lo: Num, hi: Num)
  datatype Where = Where(nameContains: Option<string>, category: Option<string>, price: Option<Range>, minRating: Option<Num>)

  /** A search parameter that is given, not empty and not "all". */
  predicate Selects(param: Option<string>) {
    Truthy(param) && param.value != "all"
  }

  /** The four filters of `getAllProducts`: each parameter that is empty,
      absent or "all" adds nothing; the query filters by name, the category
      by equality, a price "lo-hi" by a closed range and a rating "r-..." by
      a lower bound. */
  function BuildWhere(query: string, category: Option<string>, price: Option<string>, rating: Option<string>): (w: Where)
    ensures w.nameContains.None? <==> query == "" || query == "all"
    ensures w.nameContains.Some? ==> w.nameContains.value == query
    ensures w.category.None? <==> !Selects(category)
    ensures w.category.Some? ==> w.category == category
    ensures w.price.None? <==> !Selects(price)
    ensures w.price.Some? ==>
      w.price.value == Range(NumberOf(Some(FirstPart(price.value))), NumberOf(SecondPart(price.value)))
    ensures w.minRating.None? <==> !Selects(rating)
    ensures w.minRating.Some? ==> w.minRating.value == NumberOf(Some(FirstPart(rating.value)))
  {
    Where(
      if Selects(Some(query)) then Some(query) else None,
      if Selects(category) then category else None,
      if Selects(price) then Some(Range(NumberOf(Some(FirstPart(price.value))), NumberOf(SecondPart(price.value)))) else None,
      if Selects(rating) then Some(NumberOf(Some(FirstPart(rating.value)))) else None)
  }

  /** `name: {contains, mode: "insensitive"}`, with case folded as ASCII
      lower case. */
  predicate NameMatches(name: string, query: string) {
    Text.Contains(Text.Lower(name), Text.Lower(query))
  }

  /** `lo <= price <= hi` in whole currency units against a price in cents;
      a `NaN` bound matches nothing. */
  predicate InRange(cents: int, r: Range) {
    r.lo.Num? && r.hi.Num? && r.lo.value * 100 <= cents <= r.hi.value * 100
  }

  /** `rating >= r` in whole stars against a rating in hundredths. */
  predicate AtLeast(hundredths: int, bound: Num) {
    bound.Num? && hundredths >= bound.value * 100
  }

  /** Whether a product passes every filter the clause has. */
  predicate Satisfies(p: Product, w: Where) {
    && (w.nameContains.Some? ==> NameMatches(p.name, w.nameContains.value))
    && (w.category.Some? ==> p.category == w.category.value)
    && (w.price.Some? ==> InRange(p.price, w.price.value))
    && (w.minRating.Some? ==> AtLeast(p.rating, w.minRating.value))
  }

  /** With every parameter left at "all" (or empty) every product passes. */
  lemma NoFilterPassesAll(p: Product, category: Option<string>, price: Option<string>, rating: Option<string>)
    requires !Selects(category) && !Selects(price) && !Selects(rating)
    ensures Satisfies(p, BuildWhere("all", category, price, rating))
    ensures Satisfies(p, BuildWhere("", category, price, rating))
  {
  }

  /** A price parameter "lo-hi" of two numerals selects exactly the products
      priced from lo to hi inclusive. */
  lemma PriceRangeFilter(p: Product, lo: string, hi: string)
    requires Money.AllDigits(lo) && Money.AllDigits(hi) && |lo| > 0
    ensures var w := BuildWhere("", None, Some(lo + "-" + hi), None);
      Satisfies(p, w) <==> Money.DigitsValue(lo) * 100 <= p.price <= Money.DigitsValue(hi) * 100
  {
    NoDash(lo);
    NoDash(hi);
    SplitRange(lo, hi);
  }

  lemma NoDash(s: string)
    requires Money.AllDigits(s)
    ensures '-' !in s
  {
    forall i | 0 <= i < |s| ensures s[i] != '-' {
      assert Money.IsDigit(s[i]);
    }
  }

  /** A price parameter without a dash, such as "100", leaves the upper
      bound `NaN`, so no product passes. */
  lemma PriceWithoutDashMatchesNothing(p: Product, price: string)
    requires price != "" && price != "all" && '-' !in price
    ensures !Satisfies(p, BuildWhere("", None, Some(price), None))
  {
  }

  /** The query filter ignores case. */
  lemma QueryIgnoresCase(p: Product, query: string)
    requires query != "" && query != "all"
    ensures Satisfies(p, BuildWhere(query, None, None, None)) <==>
            Text.Contains(Text.Lower(p.name), Text.Lower(query))
  {
  }

  // ---------------------------------------------------------------------
  // Sort and page
  // ---------------------------------------------------------------------

  datatype SortKey = PriceAscending | PriceDescending | RatingDescending | NewestFirst

  /** The `orderBy` chosen by the `sort` parameter. */
  function SortOrder(sort: Option<string>): (r: SortKey)
    ensures r == PriceAscending <==> sort == Some("lowest")
    ensures r == PriceDescending <==> sort == Some("highest")
    ensures r == RatingDescending <==> sort == Some("rating")
    ensures r == NewestFirst <==> sort !in {Some("lowest"), Some("highest"), Some("rating")}
  {
    if sort == Some("lowest") then PriceAscending
    else if sort == Some("highest") then PriceDescending
    else if sort == Some("rating") then RatingDescending
    else NewestFirst
  }

  /** The column the key sorts on, negated for a descending order. */
  function Rank(key: SortKey, p: Product): int {
    match key
    case PriceAscending => p.price
    case PriceDescending => -p.price
    case RatingDescending => -p.rating
    case NewestFirst => -p.createdAt
  }

  /** `a` may come before `b` under the key. */
  predicate InOrder(key: SortKey, a: Product, b: Product) {
    Rank(key, a) <= Rank(key, b)
  }

  predicate SortedBy(rows: seq<Product>, key: SortKey) {
    forall i, j :: 0 <= i < j < |rows| ==> InOrder(key, rows[i], rows[j])
  }

  /** The table as `orderBy` returns it: the same products, sorted by the
      key. */
  function Ordered(table: seq<Product>, key: SortKey): (r: seq<Product>)
    ensures multiset(r) == multiset(table)
    ensures SortedBy(r, key)
  {
    Sorting.SortByRank(table, (p: Product) => Rank(key, p))
  }

  /** The rows that pass the clause, in the table's order. */
  function Matching(rows: seq<Product>, w: Where): (r: seq<Product>)
    ensures |r| <= |rows|
    ensures forall p :: p in r <==> p in rows && Satisfies(p, w)
    ensures forall key :: SortedBy(rows, key) ==> SortedBy(r, key)
  {
    if rows == [] then []
    else
      var rest := Matching(rows[1..], w);
      if Satisfies(rows[0], w) then
        HeadFirst(rows, rest);
        [rows[0]] + rest
      else rest
  }

  /** A sorted table's first row may precede any selection of the other
      rows that keeps their order. */
  lemma HeadFirst(rows: seq<Product>, rest: seq<Product>)
    requires |rows| > 0
    requires forall p :: p in rest ==> p in rows[1..]
    ensures forall key :: SortedBy(rows, key) && SortedBy(rest, key) ==> SortedBy([rows[0]] + rest, key)
  {
    var r := [rows[0]] + rest;
    forall key, i, j | SortedBy(rows, key) && SortedBy(rest, key) && 0 <= i < j < |r|
      ensures InOrder(key, r[i], r[j])
    {
      if i == 0 {
        assert r[j] == rest[j - 1] && rest[j - 1] in rows[1..];
        var m :| 0 <= m < |rows| - 1 && rows[1..][m] == r[j];
        assert rows[m + 1] == r[j];
      } else {
        assert r[i] == rest[i - 1] && r[j] == rest[j - 1];
      }
    }
  }

  /** The reply of `getAllProducts`. */
  datatype Catalogue = Catalogue(data: seq<Product>, totalPages: Option<int>)

  /** `getAllProducts`: the products that pass every filter, in the order
      `sort` picks, a page at a time; the page count is taken over all
      products, filtered or not. */
  function GetAllProducts(table: seq<Product>, query: string, limit: nat, page: int, category: Option<string>,
                          price: Option<string>, rating: Option<string>, sort: Option<string>): (r: Result<Catalogue>)
    ensures r.Err? <==> Paging.Skip(page, limit) < 0
    ensures r.Ok? ==> r.value.totalPages == Paging.TotalPages(|table|, limit)
    ensures r.Ok? ==> |r.value.data| <= limit
    ensures r.Ok? ==> forall p :: p in r.value.data ==> p in table && Satisfies(p, BuildWhere(query, category, price, rating))
    ensures r.Ok? ==> SortedBy(r.value.data, SortOrder(sort))
    ensures r.Ok? ==>
      r.value.data == Paging.PageOf(Matching(Ordered(table, SortOrder(sort)), BuildWhere(query, category, price, rating)), page, limit).value
  {
    var w := BuildWhere(query, category, price, rating);
    var ordered := Ordered(table, SortOrder(sort));
    assert forall p :: p in ordered ==> p in table by {
      forall p | p in ordered ensures p in table {
        assert p in multiset(ordered);
      }
    }
    var rows := Matching(ordered, w);
    match Paging.PageOf(rows, page, limit)
    case Err(e) => Err(e)
    case Ok(data) =>
      assert forall p :: p in data ==> p in rows by {
        forall p | p in data ensures p in rows {
          var k :| 0 <= k < |data| && data[k] == p;
          assert data[k] == rows[Paging.Skip(page, limit) + k];
        }
      }
      assert forall key :: SortedBy(rows, key) ==> SortedBy(data, key) by {
        forall key | SortedBy(rows, key) ensures SortedBy(data, key) {
          forall i, j | 0 <= i < j < |data| ensures InOrder(key, data[i], data[j]) {
            assert data[i] == rows[Paging.Skip(page, limit) + i] && data[j] == rows[Paging.Skip(page, limit) + j];
          }
        }
      }
      Ok(Catalogue(data, Paging.TotalPages(|table|, limit)))
  }

  /** `where: {isFeatured: true}`, keeping the table's order. */
  function FeaturedRows(rows: seq<Product>): (r: seq<Product>)
    ensures forall p :: p in r <==> p in rows && p.isFeatured
    ensures SortedBy(rows, NewestFirst) ==> SortedBy(r, NewestFirst)
  {
    if rows == [] then []
    else
      var rest := FeaturedRows(rows[1..]);
      if rows[0].isFeatured then
        HeadFirst(rows, rest);
        [rows[0]] + rest
      else rest
  }

  /** The filter keeps each passing row as often as the input holds it,
      and no other row. */
  lemma {:induction false} MatchingCounts(rows: seq<Product>, w: Where)
    ensures forall p :: multiset(Matching(rows, w))[p] == if Satisfies(p, w) then multiset(rows)[p] else 0
  {
    if rows != [] {
      MatchingCounts(rows[1..], w);
      assert rows == [rows[0]] + rows[1..];
    }
  }

  /** Likewise for `where: {isFeatured: true}`. */
  lemma {:induction false} FeaturedCounts(rows: seq<Product>)
    ensures forall p :: multiset(FeaturedRows(rows))[p] == if p.isFeatured then multiset(rows)[p] else 0
  {
    if rows != [] {
      FeaturedCounts(rows[1..]);
      assert rows == [rows[0]] + rows[1..];
    }
  }

  /** The featured rows of the sorted table are the table's featured rows,
      each at most as often as the table holds it. */
  lemma FeaturedWithin(table: seq<Product>)
    ensures forall p :: p in FeaturedRows(Ordered(table, NewestFirst)) <==> p in table && p.isFeatured
    ensures multiset(FeaturedRows(Ordered(table, NewestFirst))) <= multiset(table)
  {
    var ordered := Ordered(table, NewestFirst);
    forall p ensures p in ordered <==> p in table {
      assert p in ordered <==> p in multiset(ordered);
    }
    FeaturedCounts(ordered);
  }

  /** A prefix holds no row more often than the whole list. */
  lemma PrefixWithin(rows: seq<Product>, n: nat)
    ensures n <= |rows| ==> multiset(rows[..n]) <= multiset(rows)
  {
    if n <= |rows| {
      assert rows == rows[..n] + rows[n..];
    }
  }

  /** `getFeaturedProducts`: the four newest featured products, or all of
      them when there are fewer; no featured product left out is newer than
      one shown. */
  function GetFeaturedProducts(table: seq<Product>): (r: seq<Product>)
    ensures |r| <= FEATURED_COUNT
    ensures multiset(r) <= multiset(table)
    ensures forall p :: p in r ==> p in table && p.isFeatured
    ensures SortedBy(r, NewestFirst)
    ensures forall p :: p in table && p.isFeatured && p !in r ==>
      |r| == FEATURED_COUNT && forall q :: q in r ==> q.createdAt >= p.createdAt
  {
    var all := FeaturedRows(Ordered(table, NewestFirst));
    NewestBeforeLeftOut(all);
    FeaturedWithin(table);
    PrefixWithin(all, FEATURED_COUNT);
    if |all| <= FEATURED_COUNT then all else all[..FEATURED_COUNT]
  }

  /** With fewer featured products than fit, every one of them is shown:
      a table of two featured products shows both. */
  lemma FewFeaturedAllShown(a: Product, b: Product)
    requires a.isFeatured && b.isFeatured
    ensures a in GetFeaturedProducts([a, b]) && b in GetFeaturedProducts([a, b])
  {
    var r := GetFeaturedProducts([a, b]);
    SubmultisetSize(multiset(r), multiset([a, b]));
  }

  /** A sub-multiset is no larger. */
  lemma {:induction false} SubmultisetSize(x: multiset<Product>, y: multiset<Product>)
    requires x <= y
    ensures |x| <= |y|
    decreases |x|
  {
    if x != multiset{} {
      var e :| e in x;
      assert x - multiset{e} <= y - multiset{e};
      SubmultisetSize(x - multiset{e}, y - multiset{e});
    }
  }

  /** In a newest-first list, the first four are at least as new as any
      later row. */
  lemma NewestBeforeLeftOut(all: seq<Product>)
    requires SortedBy(all, NewestFirst)
    ensures |all| > FEATURED_COUNT ==>
      forall p :: p in all && p !in all[..FEATURED_COUNT] ==>
        forall q :: q in all[..FEATURED_COUNT] ==> q.createdAt >= p.createdAt
  {
    if |all| > FEATURED_COUNT {
      forall p, q | p in all && p !in all[..FEATURED_COUNT] && q in all[..FEATURED_COUNT]
        ensures q.createdAt >= p.createdAt
      {
        var m :| 0 <= m < |all| && all[m] == p;
        var i :| 0 <= i < FEATURED_COUNT && all[..FEATURED_COUNT][i] == q;
        assert m >= FEATURED_COUNT;
        assert InOrder(NewestFirst, all[i], all[m]);
      }
    }
  }

  // ---------------------------------------------------------------------
  // Creating, updating and deleting
  // ---------------------------------------------------------------------

  /** The product fields a valid form sets. The price text, once accepted,
      is a two-decimal amount, stored as that many cents. */
  function FromInput(id: Id, input: Validators.ProductInput, formatted: string -> string,
                     rating: int, numReviews: int, createdAt: Time): (p: Product)
    requires Validators.CurrencyOk(input.price, formatted)
    ensures p.id == id && p.name == input.name && p.slug == input.slug && p.stock == input.stock
    ensures Validators.CurrencyCents(formatted(input.price)) == Some(p.price) && p.price >= 0
  {
    Product(id, input.name, input.slug, input.category, input.brand, input.description, input.stock,
            input.images, input.isFeatured, input.banner,
            Validators.CurrencyCents(formatted(input.price)).value, rating, numReviews, createdAt)
  }

  /** `createProduct`: a form that `insertProductSchema` accepts becomes a new
      product with no rating and no reviews. */
  method CreateProduct(db: Db, input: Validators.ProductInput, formatted: string -> string, newId: Id, now: Time)
    returns (res: ActionResult)
    requires db.Valid()
    modifies db
    ensures db.Valid()
    ensures db.users == old(db.users) && db.carts == old(db.carts)
    ensures db.orders == old(db.orders) && db.orderItems == old(db.orderItems)
    ensures !res.Success() ==> db.products == old(db.products)
    ensures Validators.ProductIssues(input, formatted) != [] ==> res == Failed(SchemaRejected)
    ensures Validators.ProductIssues(input, formatted) == [] && newId in old(db.products) ==> res == Failed(StoreRejected)
    ensures Validators.ProductIssues(input, formatted) == [] && newId !in old(db.products) ==>
      && res == Succeeded(PRODUCT_CREATED, None)
      && db.products == old(db.products)[newId := FromInput(newId, input, formatted, 0, 0, now)]
  {
    if Validators.ProductIssues(input, formatted) != [] {
      return Failed(SchemaRejected);
    }
    if newId in db.products {
      return Failed(StoreRejected);
    }
    db.products := db.products[newId := FromInput(newId, input, formatted, 0, 0, now)];
    res := Succeeded(PRODUCT_CREATED, None);
  }

  /** `updateProduct`: the form is validated first, then the product must
      exist; its rating, review count and creation time are kept. */
  method UpdateProduct(db: Db, id: Id, input: Validators.ProductInput, formatted: string -> string)
    returns (res: ActionResult)
    requires db.Valid()
    modifies db
    ensures db.Valid()
    ensures db.users == old(db.users) && db.carts == old(db.carts)
    ensures db.orders == old(db.orders) && db.orderItems == old(db.orderItems)
    ensures !res.Success() ==> db.products == old(db.products)
    ensures Validators.ProductIssues(input, formatted) != [] ==> res == Failed(SchemaRejected)
    ensures Validators.ProductIssues(input, formatted) == [] && id !in old(db.products) ==>
      res == Failed(Thrown(PRODUCT_NOT_FOUND))
    ensures Validators.ProductIssues(input, formatted) == [] && id in old(db.products) ==>
      var before := old(db.products)[id];
      && res == Succeeded(PRODUCT_UPDATED, None)
      && db.products == old(db.products)[id := FromInput(id, input, formatted, before.rating, before.numReviews, before.createdAt)]
  {
    if Validators.ProductIssues(input, formatted) != [] {
      return Failed(SchemaRejected);
    }
    if id !in db.products {
      return Failed(Thrown(PRODUCT_NOT_FOUND));
    }
    var before := db.products[id];
    db.products := db.products[id := FromInput(id, input, formatted, before.rating, before.numReviews, before.createdAt)];
    res := Succeeded(PRODUCT_UPDATED, None);
  }

  /** `deleteProduct`: exactly that product goes. */
  method DeleteProduct(db: Db, id: Id) returns (res: ActionResult)
    requires db.Valid()
    modifies db
    ensures db.Valid()
    ensures db.users == old(db.users) && db.carts == old(db.carts)
    ensures db.orders == old(db.orders) && db.orderItems == old(db.orderItems)
    ensures id !in old(db.products) ==> res == Failed(Thrown(PRODUCT_NOT_FOUND)) && db.products == old(db.products)
    ensures id in old(db.products) ==> res == Succeeded(PRODUCT_DELETED, None) && db.products == old(db.products) - {id}
  {
    if id !in db.products {
      return Failed(Thrown(PRODUCT_NOT_FOUND));
    }
    db.products := db.products - {id};
    res := Succeeded(PRODUCT_DELETED, None);
  }
}
