/** The product list page's query: the catalog narrowed by zero or more
    optional criteria, one `filter` after another. */
module Catalog {
  import opened Models

  /** A price bound from the query string: not given (or empty), given but
      not a number, or a number of cents. */
  datatype PriceParam = Absent | Malformed | Amount(cents: int)

  /** The query parameters; an empty string means the parameter was absent
      or empty. */
  datatype Criteria = Criteria(
    category: string,
    season: string,
    fabric: string,
    priceMin: PriceParam,
    priceMax: PriceParam,
    brand: string)

  const NoCriteria: Criteria := Criteria("", "", "", Absent, Absent, "")

  // ---------------------------------------------------------------------
  // Case-insensitive substring

  function LowerChar(c: char): char
  {
    if 'A' <= c <= 'Z' then (c as int + 32) as char else c
  }

  function UpperChar(c: char): char
  {
    if 'a' <= c <= 'z' then (c as int - 32) as char else c
  }

  function Lower(s: string): string
  {
    seq(|s|, i requires 0 <= i < |s| => LowerChar(s[i]))
  }

  function Upper(s: string): string
  {
    seq(|s|, i requires 0 <= i < |s| => UpperChar(s[i]))
  }

  predicate IsPrefix(needle: string, hay: string)
  {
    |needle| <= |hay| && hay[..|needle|] == needle
  }

  predicate IsSubstring(needle: string, hay: string)
    decreases |hay|
  {
    IsPrefix(needle, hay) || (|hay| > 0 && IsSubstring(needle, hay[1..]))
  }

  /** The `icontains` lookup: substring after folding ASCII letters. */
  predicate ContainsIgnoringCase(hay: string, needle: string)
  {
    IsSubstring(Lower(needle), Lower(hay))
  }

  /** Any infix is a substring. */
  lemma {:induction false} SubstringOfInfix(a: string, needle: string, b: string)
    ensures IsSubstring(needle, a + needle + b)
  {
    if a == [] {
      assert (a + needle + b)[..|needle|] == needle;
    } else {
      assert (a + needle + b)[1..] == a[1..] + needle + b;
      SubstringOfInfix(a[1..], needle, b);
    }
  }

  /** A substring is never longer than the text it occurs in. */
  lemma {:induction false} SubstringNoLonger(needle: string, hay: string)
    requires IsSubstring(needle, hay)
    ensures |needle| <= |hay|
    decreases |hay|
  {
    if !IsPrefix(needle, hay) {
      SubstringNoLonger(needle, hay[1..]);
    }
  }

  lemma LowerOfConcat(a: string, b: string)
    ensures Lower(a + b) == Lower(a) + Lower(b)
  {
  }

  lemma LowerOfUpper(s: string)
    ensures Lower(Upper(s)) == Lower(s)
  {
    assert forall i :: 0 <= i < |s| ==> LowerChar(UpperChar(s[i])) == LowerChar(s[i]);
  }

  /** Text that contains the query literally, in any case, matches. */
  lemma ContainsInfixIgnoringCase(a: string, needle: string, b: string)
    ensures ContainsIgnoringCase(a + needle + b, needle)
    ensures ContainsIgnoringCase(a + needle + b, Upper(needle))
    ensures ContainsIgnoringCase(a + Upper(needle) + b, needle)
  {
    LowerOfConcat(a + needle, b);
    LowerOfConcat(a, needle);
    SubstringOfInfix(Lower(a), Lower(needle), Lower(b));
    LowerOfUpper(needle);
    LowerOfConcat(a + Upper(needle), b);
    LowerOfConcat(a, Upper(needle));
  }

  /** The letter case of the query never changes the answer. */
  lemma QueryCaseIrrelevant(hay: string, needle: string)
    ensures ContainsIgnoringCase(hay, Upper(needle)) == ContainsIgnoringCase(hay, needle)
    ensures ContainsIgnoringCase(hay, Lower(needle)) == ContainsIgnoringCase(hay, needle)
  {
    LowerOfUpper(needle);
    assert Lower(Lower(needle)) == Lower(needle);
  }

  // ---------------------------------------------------------------------
  // Single filters and the page's query

  /** One `filter(...)` call of the page: exact category, exact season,
      fabric `icontains`, price `gte`, price `lte`, brand `icontains`. */
  datatype Filter =
    | CategoryIs(category: string)
    | SeasonIs(season: string)
    | FabricContains(fabric: string)
    | PriceAtLeast(minCents: int)
    | PriceAtMost(maxCents: int)
    | BrandContains(brand: string)

  predicate Satisfies(p: Product, f: Filter)
  {
    match f
    case CategoryIs(c) => CategoryName(p.category) == c
    case SeasonIs(s) => SeasonName(p.season) == s
    case FabricContains(t) => ContainsIgnoringCase(p.fabric, t)
    case PriceAtLeast(lo) => p.price >= lo
    case PriceAtMost(hi) => p.price <= hi
    case BrandContains(b) => ContainsIgnoringCase(p.brand, b)
  }

  /** A queryset narrowed by one filter, order kept. */
  function FilterBy(ps: seq<Product>, f: Filter): (r: seq<Product>)
    ensures forall p :: p in r <==> p in ps && Satisfies(p, f)
  {
    if ps == [] then []
    else (if Satisfies(ps[0], f) then [ps[0]] else []) + FilterBy(ps[1..], f)
  }

  /** The filters the page applies, in the order it applies them: a
      parameter that is empty imposes nothing, and a price bound that is
      not a number is skipped. */
  function ActiveFilters(c: Criteria): seq<Filter>
  {
    CategoryFilter(c) + SeasonFilter(c) + FabricFilter(c) + MinFilter(c) + MaxFilter(c) + BrandFilter(c)
  }

  function CategoryFilter(c: Criteria): seq<Filter>
  {
    if c.category != "" then [CategoryIs(c.category)] else []
  }

  function SeasonFilter(c: Criteria): seq<Filter>
  {
    if c.season != "" then [SeasonIs(c.season)] else []
  }

  function FabricFilter(c: Criteria): seq<Filter>
  {
    if c.fabric != "" then [FabricContains(c.fabric)] else []
  }

  function MinFilter(c: Criteria): seq<Filter>
  {
    if c.priceMin.Amount? then [PriceAtLeast(c.priceMin.cents)] else []
  }

  function MaxFilter(c: Criteria): seq<Filter>
  {
    if c.priceMax.Amount? then [PriceAtMost(c.priceMax.cents)] else []
  }

  function BrandFilter(c: Criteria): seq<Filter>
  {
    if c.brand != "" then [BrandContains(c.brand)] else []
  }

  /** Successive narrowing: `products = products.filter(f)` for each f. */
  function ApplyFilters(ps: seq<Product>, fs: seq<Filter>): seq<Product>
    decreases |fs|
  {
    if fs == [] then ps else ApplyFilters(FilterBy(ps, fs[0]), fs[1..])
  }

  /** The product list for the given query parameters. */
  function ProductList(catalog: seq<Product>, c: Criteria): seq<Product>
  {
    ApplyFilters(catalog, ActiveFilters(c))
  }

  // ---------------------------------------------------------------------
  // Reference definition: one pass, one conjunction

  /** A product matches when it meets every criterion that is given. */
  predicate Matches(p: Product, c: Criteria)
  {
    && (c.category == "" || CategoryName(p.category) == c.category)
    && (c.season == "" || SeasonName(p.season) == c.season)
    && (c.fabric == "" || ContainsIgnoringCase(p.fabric, c.fabric))
    && (c.priceMin.Amount? ==> p.price >= c.priceMin.cents)
    && (c.priceMax.Amount? ==> p.price <= c.priceMax.cents)
    && (c.brand == "" || ContainsIgnoringCase(p.brand, c.brand))
  }

  function Select(ps: seq<Product>, c: Criteria): (r: seq<Product>)
    ensures forall p :: p in r <==> p in ps && Matches(p, c)
  {
    if ps == [] then []
    else (if Matches(ps[0], c) then [ps[0]] else []) + Select(ps[1..], c)
  }

  predicate SatisfiesAll(p: Product, fs: seq<Filter>)
  {
    forall f :: f in fs ==> Satisfies(p, f)
  }

  function SelectAll(ps: seq<Product>, fs: seq<Filter>): seq<Product>
  {
    if ps == [] then []
    else (if SatisfiesAll(ps[0], fs) then [ps[0]] else []) + SelectAll(ps[1..], fs)
  }

  lemma SatisfiesAllConcat(p: Product, a: seq<Filter>, b: seq<Filter>)
    ensures SatisfiesAll(p, a + b) <==> SatisfiesAll(p, a) && SatisfiesAll(p, b)
  {
    assert forall g :: g in a + b <==> g in a || g in b;
  }

  lemma {:induction false} FilterThenSelect(ps: seq<Product>, f: Filter, fs: seq<Filter>)
    ensures SelectAll(FilterBy(ps, f), fs) == SelectAll(ps, [f] + fs)
  {
    if ps != [] {
      FilterThenSelect(ps[1..], f, fs);
      SatisfiesAllConcat(ps[0], [f], fs);
      var rest := FilterBy(ps[1..], f);
      if Satisfies(ps[0], f) {
        var r := FilterBy(ps, f);
        assert r == [ps[0]] + rest;
        assert r[0] == ps[0] && r[1..] == rest;
      } else {
        assert FilterBy(ps, f) == rest;
      }
    }
  }

  /** Narrowing one filter at a time keeps exactly the products that meet
      all of them, in catalog order. */
  lemma {:induction false} ApplyFiltersIsSelectAll(ps: seq<Product>, fs: seq<Filter>)
    ensures ApplyFilters(ps, fs) == SelectAll(ps, fs)
    decreases |fs|
  {
    if fs == [] {
      SelectAllNone(ps);
    } else {
      ApplyFiltersIsSelectAll(FilterBy(ps, fs[0]), fs[1..]);
      FilterThenSelect(ps, fs[0], fs[1..]);
      assert [fs[0]] + fs[1..] == fs;
    }
  }

  lemma {:induction false} SelectAllNone(ps: seq<Product>)
    ensures SelectAll(ps, []) == ps
  {
    if ps != [] {
      SelectAllNone(ps[1..]);
    }
  }

  lemma SatisfiesAllSingle(p: Product, f: Filter)
    ensures SatisfiesAll(p, [f]) <==> Satisfies(p, f)
  {
    assert f in [f];
  }

  /** Each parameter's filter, when switched on, is that parameter's
      criterion. */
  lemma FilterPiecesMatch(p: Product, c: Criteria)
    ensures SatisfiesAll(p, CategoryFilter(c)) <==> (c.category == "" || CategoryName(p.category) == c.category)
    ensures SatisfiesAll(p, SeasonFilter(c)) <==> (c.season == "" || SeasonName(p.season) == c.season)
    ensures SatisfiesAll(p, FabricFilter(c)) <==> (c.fabric == "" || ContainsIgnoringCase(p.fabric, c.fabric))
    ensures SatisfiesAll(p, MinFilter(c)) <==> (c.priceMin.Amount? ==> p.price >= c.priceMin.cents)
    ensures SatisfiesAll(p, MaxFilter(c)) <==> (c.priceMax.Amount? ==> p.price <= c.priceMax.cents)
    ensures SatisfiesAll(p, BrandFilter(c)) <==> (c.brand == "" || ContainsIgnoringCase(p.brand, c.brand))
  {
    if c.category != "" { SatisfiesAllSingle(p, CategoryIs(c.category)); }
    if c.season != "" { SatisfiesAllSingle(p, SeasonIs(c.season)); }
    if c.fabric != "" { SatisfiesAllSingle(p, FabricContains(c.fabric)); }
    if c.priceMin.Amount? { SatisfiesAllSingle(p, PriceAtLeast(c.priceMin.cents)); }
    if c.priceMax.Amount? { SatisfiesAllSingle(p, PriceAtMost(c.priceMax.cents)); }
    if c.brand != "" { SatisfiesAllSingle(p, BrandContains(c.brand)); }
  }

  lemma MatchesIffActive(p: Product, c: Criteria)
    ensures Matches(p, c) <==> SatisfiesAll(p, ActiveFilters(c))
  {
    FilterPiecesMatch(p, c);
    var f1, f2, f3 := CategoryFilter(c), SeasonFilter(c), FabricFilter(c);
    var f4, f5, f6 := MinFilter(c), MaxFilter(c), BrandFilter(c);
    SatisfiesAllConcat(p, f1 + f2 + f3 + f4 + f5, f6);
    SatisfiesAllConcat(p, f1 + f2 + f3 + f4, f5);
    SatisfiesAllConcat(p, f1 + f2 + f3, f4);
    SatisfiesAllConcat(p, f1 + f2, f3);
    SatisfiesAllConcat(p, f1, f2);
  }

  lemma {:induction false} SelectAllActiveIsSelect(ps: seq<Product>, c: Criteria)
    ensures SelectAll(ps, ActiveFilters(c)) == Select(ps, c)
  {
    if ps != [] {
      MatchesIffActive(ps[0], c);
      SelectAllActiveIsSelect(ps[1..], c);
    }
  }

  /** The page's successive filtering equals the one-pass conjunction of
      the given criteria: same products, same order. */
  lemma ProductListIsConjunction(catalog: seq<Product>, c: Criteria)
    ensures ProductList(catalog, c) == Select(catalog, c)
  {
    ApplyFiltersIsSelectAll(catalog, ActiveFilters(c));
    SelectAllActiveIsSelect(catalog, c);
  }

  /** Every listed product comes from the catalog and meets every given
      criterion, every catalog product meeting them is listed, and the
      list is no longer than the catalog. */
  lemma ProductListMembers(catalog: seq<Product>, c: Criteria)
    ensures forall p :: p in ProductList(catalog, c) <==> p in catalog && Matches(p, c)
    ensures |ProductList(catalog, c)| <= |catalog|
  {
    ProductListIsConjunction(catalog, c);
    SelectNoLonger(catalog, c);
  }

  lemma {:induction false} SelectNoLonger(ps: seq<Product>, c: Criteria)
    ensures |Select(ps, c)| <= |ps|
  {
    if ps != [] {
      SelectNoLonger(ps[1..], c);
    }
  }

  lemma {:induction false} SelectEverything(ps: seq<Product>, c: Criteria)
    requires forall p :: p in ps ==> Matches(p, c)
    ensures Select(ps, c) == ps
  {
    if ps != [] {
      SelectEverything(ps[1..], c);
    }
  }

  lemma {:induction false} SelectNothing(ps: seq<Product>, c: Criteria)
    requires forall p :: p in ps ==> !Matches(p, c)
    ensures Select(ps, c) == []
  {
    if ps != [] {
      SelectNothing(ps[1..], c);
    }
  }

  lemma {:induction false} SelectSame(ps: seq<Product>, c: Criteria, d: Criteria)
    requires forall p :: p in ps ==> (Matches(p, c) <==> Matches(p, d))
    ensures Select(ps, c) == Select(ps, d)
  {
    if ps != [] {
      SelectSame(ps[1..], c, d);
    }
  }

  /** No criteria given (every string empty, no numeric bound): the whole
      catalog, in order. */
  lemma NoCriteriaListsEverything(catalog: seq<Product>, c: Criteria)
    requires c.category == "" && c.season == "" && c.fabric == "" && c.brand == ""
    requires !c.priceMin.Amount? && !c.priceMax.Amount?
    ensures ProductList(catalog, c) == catalog
  {
    ProductListIsConjunction(catalog, c);
    SelectEverything(catalog, c);
  }

  /** A bound that is not a number is ignored: the list is the one without
      that bound. */
  lemma MalformedBoundIgnored(catalog: seq<Product>, c: Criteria)
    ensures ProductList(catalog, c.(priceMin := Malformed)) == ProductList(catalog, c.(priceMin := Absent))
    ensures ProductList(catalog, c.(priceMax := Malformed)) == ProductList(catalog, c.(priceMax := Absent))
  {
    assert MinFilter(c.(priceMin := Malformed)) == [] == MinFilter(c.(priceMin := Absent));
    assert ActiveFilters(c.(priceMin := Malformed)) == ActiveFilters(c.(priceMin := Absent));
    assert MaxFilter(c.(priceMax := Malformed)) == [] == MaxFilter(c.(priceMax := Absent));
    assert ActiveFilters(c.(priceMax := Malformed)) == ActiveFilters(c.(priceMax := Absent));
  }

  /** Numeric bounds are inclusive on both ends. */
  lemma PriceBoundsInclusive(catalog: seq<Product>, lo: int, hi: int)
    ensures var c := NoCriteria.(priceMin := Amount(lo), priceMax := Amount(hi));
            forall p :: p in ProductList(catalog, c) <==> p in catalog && lo <= p.price <= hi
  {
    ProductListMembers(catalog, NoCriteria.(priceMin := Amount(lo), priceMax := Amount(hi)));
  }

  /** Category and season are exact: with a valid choice given, exactly the
      products of that category (season) are kept. */
  lemma CategoryAndSeasonExact(catalog: seq<Product>, k: Category, s: Season)
    ensures forall p :: p in ProductList(catalog, NoCriteria.(category := CategoryName(k)))
                        <==> p in catalog && p.category == k
    ensures forall p :: p in ProductList(catalog, NoCriteria.(season := SeasonName(s)))
                        <==> p in catalog && p.season == s
  {
    ProductListMembers(catalog, NoCriteria.(category := CategoryName(k)));
    ProductListMembers(catalog, NoCriteria.(season := SeasonName(s)));
    forall p: Product ensures CategoryName(p.category) == CategoryName(k) <==> p.category == k {
      CategoryNameInjective(p.category, k);
    }
    forall p: Product ensures SeasonName(p.season) == SeasonName(s) <==> p.season == s {
      SeasonNameInjective(p.season, s);
    }
  }

  /** A category value that is not one of the five choices lists nothing. */
  lemma UnknownCategoryListsNothing(catalog: seq<Product>, c: Criteria)
    requires c.category != "" && ParseCategory(c.category).None?
    ensures ProductList(catalog, c) == []
  {
    ProductListIsConjunction(catalog, c);
    forall p | p in catalog ensures !Matches(p, c) {
      assert CategoryName(p.category) != c.category;
    }
    SelectNothing(catalog, c);
  }

  /** The letter case of the fabric and brand queries does not change the
      list. */
  lemma TextQueriesIgnoreCase(catalog: seq<Product>, c: Criteria)
    ensures ProductList(catalog, c.(fabric := Upper(c.fabric), brand := Upper(c.brand)))
         == ProductList(catalog, c)
  {
    var d := c.(fabric := Upper(c.fabric), brand := Upper(c.brand));
    forall p | p in catalog ensures Matches(p, d) <==> Matches(p, c) {
      QueryCaseIrrelevant(p.fabric, c.fabric);
      QueryCaseIrrelevant(p.brand, c.brand);
    }
    ProductListIsConjunction(catalog, c);
    ProductListIsConjunction(catalog, d);
    SelectSame(catalog, c, d);
  }

  /** Adding a criterion never lists more: the narrower list is a subset. */
  lemma MoreCriteriaListLess(catalog: seq<Product>, c: Criteria, brand: string)
    ensures forall p :: p in ProductList(catalog, c.(brand := brand)) ==> p in ProductList(catalog, c.(brand := ""))
  {
    ProductListMembers(catalog, c.(brand := brand));
    ProductListMembers(catalog, c.(brand := ""));
  }
}
