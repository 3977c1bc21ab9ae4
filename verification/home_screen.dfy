/**
 * The catalog logic of `HomeScreen`: the local filter that narrows the store's product list as
 * the user types, and the load and search handlers that replace that list from the catalog.
 * A failed call raises an alert (its message is returned) and leaves the store alone.
 */
module HomeScreen {
  import opened Common
  import opened Text
  import opened Entities
  import Seqs
  import Catalog
  import Store

  /** Whether `p` shows up for the already lower-cased query `q`: title, description or brand. */
  predicate MatchesQuery(p: Product, q: string)
  {
    || Contains(ToLower(p.title), q)
    || Contains(ToLower(p.description), q)
    || (p.brand.Some? && Contains(ToLower(p.brand.value), q))
  }

  /**
   * The `filteredProducts` effect: a blank query shows every product; any other query (lower-cased
   * but not trimmed) shows exactly the products that match it, in store order.
   */
  function VisibleProducts(products: seq<Product>, query: string): (r: seq<Product>)
    ensures Blank(query) ==> r == products
    ensures !Blank(query) ==>
      && Seqs.IsSubseq(r, products)
      && (forall p | p in r :: p in products && MatchesQuery(p, ToLower(query)))
      && (forall p | p in products && MatchesQuery(p, ToLower(query)) :: p in r)
      && (forall p | p in products ::
            multiset(r)[p] == if MatchesQuery(p, ToLower(query)) then multiset(products)[p] else 0)
  {
    if Blank(query) then products
    else
      var q := ToLower(query);
      Seqs.FilterCounts(products, (p: Product) => MatchesQuery(p, q));
      Seqs.Filter(products, (p: Product) => MatchesQuery(p, q))
  }

  /** The filter ignores letter case: queries that lower-case alike show the same products. */
  lemma FilterIgnoresCase(products: seq<Product>, a: string, b: string)
    requires ToLower(a) == ToLower(b)
    ensures VisibleProducts(products, a) == VisibleProducts(products, b)
  {
    ToLowerKeepsSpaces(a);
    ToLowerKeepsSpaces(b);
    assert Blank(a) == Blank(b) by {
      assert |a| == |b|;
      assert forall k | 0 <= k < |a| :: IsSpace(a[k]) == IsSpace(ToLower(a)[k]) == IsSpace(b[k]);
    }
  }

  /**
   * Typing more never shows more: once the query is non-blank, every product visible for a longer
   * query is visible for its prefix, in the same relative order.
   */
  lemma ExtendingQueryNarrows(products: seq<Product>, query: string, more: string)
    requires !Blank(query)
    ensures Seqs.IsSubseq(VisibleProducts(products, query + more), VisibleProducts(products, query))
  {
    var q, m := ToLower(query), ToLower(more);
    ToLowerConcat(query, more);
    assert !Blank(query + more) by {
      var k :| 0 <= k < |query| && !IsSpace(query[k]);
      assert (query + more)[k] == query[k];
    }
    forall p | p in products && MatchesQuery(p, q + m)
      ensures MatchesQuery(p, q)
    {
      if Contains(ToLower(p.title), q + m) {
        ContainsPrefix(ToLower(p.title), q, m);
      } else if Contains(ToLower(p.description), q + m) {
        ContainsPrefix(ToLower(p.description), q, m);
      } else {
        ContainsPrefix(ToLower(p.brand.value), q, m);
      }
    }
    Seqs.FilterNarrower(products, (p: Product) => MatchesQuery(p, q), (p: Product) => MatchesQuery(p, q + m));
  }

  /** The store after a handler, and the alert message it raised, if any. */
  datatype Outcome = Outcome(state: Store.State, alert: Option<string>)

  /**
   * `loadProducts()` with the catalog's reply: on success the store holds the curated list and
   * loading is cleared; on failure the store is untouched and the error message is alerted.
   */
  function LoadProducts(s: Store.State, upstream: Option<seq<Product>>): (r: Outcome)
    ensures upstream.None? ==> r == Outcome(s, Some(Catalog.FetchFailedMessage))
    ensures upstream.Some? ==>
      && r.alert.None?
      && r.state == s.(products := r.state.products, loading := false)
      && r.state.products == Catalog.GetBeautyProducts(upstream).value.products
      && |r.state.products| >= 3 && r.state.products[..3] == Catalog.Seeds
      && Catalog.UniqueIds(r.state.products)
      && (forall p | p in r.state.products :: Catalog.IsBeautyProduct(p))
  {
    match Catalog.GetBeautyProducts(upstream)
    case Ok(page) => Outcome(Store.Step(s, Store.SetProducts(page.products)), None)
    case Err(m) => Outcome(s, Some(m))
  }

  /**
   * `handleSearch(query)` with the catalog's reply: a blank query does nothing, and a failed
   * search alerts and leaves the store alone.
   */
  function HandleSearch(s: Store.State, query: string, upstream: Option<seq<Product>>): (r: Outcome)
    ensures Blank(query) ==> r == Outcome(s, None)
    ensures !Blank(query) && upstream.None? ==> r == Outcome(s, Some(Catalog.SearchFailedMessage))
  {
    if Blank(query) then Outcome(s, None)
    else
      match Catalog.SearchProducts(query, upstream)
      case Ok(page) => Outcome(Store.Step(s, Store.SetProducts(page.products)), None)
      case Err(m) => Outcome(s, Some(m))
  }

  /**
   * A successful search on a non-blank query replaces the store's products with a subsequence of
   * the results and clears loading, raising no alert and touching nothing else.
   */
  lemma SearchReplacesProducts(s: Store.State, query: string, results: seq<Product>)
    requires !Blank(query)
    ensures HandleSearch(s, query, Some(results)).alert.None?
    ensures HandleSearch(s, query, Some(results)).state.products
         == Catalog.SearchProducts(query, Some(results)).value.products
    ensures HandleSearch(s, query, Some(results)).state
         == s.(products := HandleSearch(s, query, Some(results)).state.products, loading := false)
    ensures Seqs.IsSubseq(HandleSearch(s, query, Some(results)).state.products, results)
  {
    var page := Catalog.SearchProducts(query, Some(results)).value;
    assert HandleSearch(s, query, Some(results)) == Outcome(s.(products := page.products, loading := false), None);
  }

  /** Neither handler can break the store invariant: they touch only the product list. */
  lemma HandlersPreserveValid(s: Store.State, query: string, upstream: Option<seq<Product>>)
    requires Store.Valid(s)
    ensures Store.Valid(LoadProducts(s, upstream).state)
    ensures Store.Valid(HandleSearch(s, query, upstream).state)
  {
    var t := LoadProducts(s, upstream).state;
    assert t.cart == s.cart && t.user == s.user && t.isAuthenticated == s.isAuthenticated;
    if !Blank(query) && upstream.Some? {
      SearchReplacesProducts(s, query, upstream.value);
    }
  }
}
