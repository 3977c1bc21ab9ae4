/**
 * The beauty catalog of `src/services/api.js`: keyword classification, the fallback
 * relabelling, the seed-first de-duplicating merge, and the search filter. The upstream
 * response is a parameter (`None` when the request fails), so everything here is pure.
 */
module Catalog {
  import opened Common
  import opened Text
  import opened Entities
  import Seqs

  /** `BEAUTY_KEYWORDS`, in source order. */
  const Keywords: seq<string> := [
    "mascara", "lipstick", "foundation", "concealer", "powder", "blush",
    "eyeshadow", "eyeliner", "perfume", "nail", "skincare", "cream",
    "serum", "moisturizer", "cleanser", "toner", "beauty", "makeup",
    "cosmetic", "essence", "primer", "highlighter", "contour", "bronzer"]

  const FetchFailedMessage := "Failed to fetch products. Please try again."
  const SearchFailedMessage := "Search failed. Please try again."
  const FallbackSize := 10
  const FallbackCategory := "beauty"
  const FallbackDescriptionPrefix := "Premium beauty product: "
  const FallbackTitlePrefix := "Beauty "

  /** `BEAUTY_KEYWORDS.some(keyword => text.includes(keyword))`. */
  predicate MentionsKeyword(text: string)
  {
    exists k | 0 <= k < |Keywords| :: Contains(text, Keywords[k])
  }

  /** The text `isBeautyProduct` searches: title, description and category, space-separated, lowered. */
  function SearchText(p: Product): string
  {
    ToLower(p.title + " " + p.description + " " + p.category)
  }

  /** `isBeautyProduct(product)`. */
  predicate IsBeautyProduct(p: Product)
  {
    MentionsKeyword(SearchText(p))
  }

  /**
   * The scan `some` performs: the index of the first keyword occurring in `text`, or -1.
   * It agrees with `MentionsKeyword` on every text.
   */
  method FirstKeyword(text: string) returns (k: int)
    ensures k == -1 <==> !MentionsKeyword(text)
    ensures k != -1 ==> 0 <= k < |Keywords| && Contains(text, Keywords[k])
    ensures forall j | 0 <= j < k :: !Contains(text, Keywords[j])
  {
    k := 0;
    while k < |Keywords|
      invariant 0 <= k <= |Keywords|
      invariant forall j | 0 <= j < k :: !Contains(text, Keywords[j])
    {
      var at := IndexOf(text, Keywords[k]);
      if at != -1 {
        return;
      }
      k := k + 1;
    }
    k := -1;
  }

  /** Any product whose category is "beauty" is classified as beauty, whatever its title and description. */
  lemma BeautyCategoryIsBeauty(p: Product)
    requires p.category == FallbackCategory
    ensures IsBeautyProduct(p)
  {
    var prefix := p.title + " " + p.description + " ";
    assert p.title + " " + p.description + " " + p.category == prefix + "beauty";
    ToLowerConcat(prefix, "beauty");
    assert ToLower("beauty") == "beauty";
    ContainsSuffix(ToLower(prefix), "beauty");
    assert Keywords[16] == "beauty";
  }

  // ---------------------------------------------------------------------------------------
  // Seed products

  function Seed(id: int, title: string, description: string, price: real, discount: real,
                rating: real, stock: int, brand: string, folder: string): Product
  {
    var base := "https://cdn.dummyjson.com/products/images/beauty/" + folder + "/";
    Product(id, title, description, Some(brand), FallbackCategory, price, Some(discount), Some(rating),
            stock, Some(base + "thumbnail.png"), Some([base + "1.png", base + "2.png"]))
  }

  /** The three hand-authored products that always lead the catalog. */
  const Seeds: seq<Product> := [
    Seed(1001, "Essence Mascara Lash Princess",
      "The Essence Mascara Lash Princess is a popular mascara known for its volumizing and lengthening effects. Achieve dramatic lashes with this long-lasting formula.",
      9.99, 7.17, 4.94, 5, "Essence", "Essence%20Mascara%20Lash%20Princess"),
    Seed(1002, "Eyeshadow Palette with Mirror",
      "The Eyeshadow Palette with Mirror offers a versatile range of eyeshadow shades for creating stunning eye looks. With a built-in mirror, it's convenient for on-the-go makeup application.",
      19.99, 5.5, 4.6, 44, "Glamour Beauty", "Eyeshadow%20Palette%20with%20Mirror"),
    Seed(1003, "Powder Canister",
      "The Powder Canister is a finely milled setting powder designed to set makeup and control shine. With a lightweight and translucent formula, it provides a smooth finish.",
      14.99, 18.14, 3.82, 59, "Velvet Touch", "Powder%20Canister")]

  // ---------------------------------------------------------------------------------------
  // Ids

  predicate HasId(ps: seq<Product>, id: int)
  {
    exists i | 0 <= i < |ps| :: ps[i].id == id
  }

  /** No two products share an id. */
  predicate UniqueIds(ps: seq<Product>)
  {
    forall i, j | 0 <= i < j < |ps| :: ps[i].id != ps[j].id
  }

  /** Index `i` holds the first product of `ps` with its id. */
  predicate FirstWithId(ps: seq<Product>, i: int)
    requires 0 <= i < |ps|
  {
    forall j | 0 <= j < i :: ps[j].id != ps[i].id
  }

  lemma SeedsFacts()
    ensures |Seeds| == 3 && Seeds[0].id == 1001 && Seeds[1].id == 1002 && Seeds[2].id == 1003
    ensures UniqueIds(Seeds)
    ensures forall p | p in Seeds :: IsBeautyProduct(p)
  {
    forall p | p in Seeds
      ensures IsBeautyProduct(p)
    {
      BeautyCategoryIsBeauty(p);
    }
  }

  // ---------------------------------------------------------------------------------------
  // Classification, fallback and merge

  /** `allProducts.filter(isBeautyProduct)`. */
  function Classified(all: seq<Product>): seq<Product>
  {
    Seqs.Filter(all, IsBeautyProduct)
  }

  /** The fallback relabelling of one product. */
  function Relabel(p: Product): (r: Product)
    ensures r.(title := p.title, category := p.category, description := p.description) == p
    ensures r.category == FallbackCategory && IsBeautyProduct(r)
    ensures r.description == FallbackDescriptionPrefix + p.description
    ensures Contains(p.title, "Essence") ==> r.title == p.title
    ensures !Contains(p.title, "Essence") ==> r.title == FallbackTitlePrefix + p.title
  {
    var r := p.(title := if Contains(p.title, "Essence") then p.title else FallbackTitlePrefix + p.title,
                category := FallbackCategory,
                description := FallbackDescriptionPrefix + p.description);
    BeautyCategoryIsBeauty(r);
    r
  }

  /** `allProducts.slice(0, 10).map(relabel)`. */
  function Fallback(all: seq<Product>): (r: seq<Product>)
    ensures |r| == Min(FallbackSize, |all|)
    ensures forall i | 0 <= i < |r| :: r[i] == Relabel(all[i])
  {
    var n := Min(FallbackSize, |all|);
    seq(n, i requires 0 <= i < n => Relabel(all[i]))
  }

  /** The classified products, or the fallback when classification finds nothing. */
  function Curated(all: seq<Product>): (r: seq<Product>)
    ensures Classified(all) != [] ==> r == Classified(all)
    ensures Classified(all) == [] ==> r == Fallback(all)
    ensures forall p | p in r :: IsBeautyProduct(p)
  {
    var beauty := Classified(all);
    if beauty != [] then beauty else Fallback(all)
  }

  /**
   * The `forEach` that pushes each product whose id is not yet in `combined`. The result starts
   * with `combined`, the appended part is an order-preserving subsequence of `incoming`, and
   * unique ids stay unique.
   */
  function AppendNew(combined: seq<Product>, incoming: seq<Product>): (r: seq<Product>)
    ensures |combined| <= |r| && r[..|combined|] == combined
    ensures Seqs.IsSubseq(r[|combined|..], incoming)
    ensures forall p | p in r :: p in combined || p in incoming
    ensures UniqueIds(combined) ==> UniqueIds(r)
    decreases |incoming|
  {
    if |incoming| == 0 then combined
    else
      var x := incoming[0];
      var rest := incoming[1..];
      assert forall p | p in rest :: p in incoming;
      if HasId(combined, x.id) then
        var r := AppendNew(combined, rest);
        r
      else
        var c := combined + [x];
        var r := AppendNew(c, rest);
        assert r[..|c|] == c;
        assert r[..|combined|] == combined;
        assert r[|combined|..] == [x] + r[|c|..];
        r
  }

  /** The merge loses no id: an id is in the result exactly when it is in either input. */
  lemma {:induction false} AppendNewKeepsIds(combined: seq<Product>, incoming: seq<Product>, id: int)
    ensures HasId(AppendNew(combined, incoming), id) <==> HasId(combined, id) || HasId(incoming, id)
    decreases |incoming|
  {
    if |incoming| > 0 {
      var x, rest := incoming[0], incoming[1..];
      if HasId(rest, id) {
        var i :| 0 <= i < |rest| && rest[i].id == id;
        assert incoming[i + 1].id == id;
      }
      if HasId(incoming, id) && x.id != id {
        var i :| 0 <= i < |incoming| && incoming[i].id == id;
        assert rest[i - 1].id == id;
      }
      assert HasId(incoming, id) <==> x.id == id || HasId(rest, id);
      if HasId(combined, x.id) {
        AppendNewKeepsIds(combined, rest, id);
        if x.id == id {
          assert HasId(combined, id);
        }
      } else {
        AppendNewKeepsIds(combined + [x], rest, id);
        HasIdAppend(combined, x, id);
      }
    }
  }

  lemma HasIdAppend(c: seq<Product>, x: Product, id: int)
    ensures HasId(c + [x], id) <==> HasId(c, id) || x.id == id
  {
    if HasId(c, id) {
      var j :| 0 <= j < |c| && c[j].id == id;
      assert (c + [x])[j].id == id;
    }
    assert (c + [x])[|c|] == x;
  }

  /** `p` is the first product of `incoming` with its id, and that id is not in `combined`. */
  predicate IsFirstNew(combined: seq<Product>, incoming: seq<Product>, p: Product)
  {
    !HasId(combined, p.id) && exists i | 0 <= i < |incoming| :: incoming[i] == p && FirstWithId(incoming, i)
  }

  lemma IsFirstNewLift(combined: seq<Product>, incoming: seq<Product>, p: Product)
    requires |incoming| > 0
    requires var x := incoming[0];
      IsFirstNew(if HasId(combined, x.id) then combined else combined + [x], incoming[1..], p)
    ensures IsFirstNew(combined, incoming, p)
  {
    var x, rest := incoming[0], incoming[1..];
    HasIdAppend(combined, x, p.id);
    var i :| 0 <= i < |rest| && rest[i] == p && FirstWithId(rest, i);
    assert x.id != p.id;
    assert incoming[i + 1] == p && FirstWithId(incoming, i + 1);
  }

  /** Every appended product is the first incoming product with its id, and that id is new. */
  lemma AppendedAreFirstOccurrences(combined: seq<Product>, incoming: seq<Product>)
    ensures var r := AppendNew(combined, incoming);
      forall k | |combined| <= k < |r| :: IsFirstNew(combined, incoming, r[k])
  {
    var r := AppendNew(combined, incoming);
    forall k | |combined| <= k < |r|
      ensures IsFirstNew(combined, incoming, r[k])
    {
      AppendedIsFirstOccurrence(combined, incoming, k);
    }
  }

  /** The product appended at position `k` is the first incoming product with its id, and that id is new. */
  lemma {:induction false} AppendedIsFirstOccurrence(combined: seq<Product>, incoming: seq<Product>, k: int)
    requires |combined| <= k < |AppendNew(combined, incoming)|
    ensures IsFirstNew(combined, incoming, AppendNew(combined, incoming)[k])
    decreases |incoming|
  {
    var r := AppendNew(combined, incoming);
    var x, rest := incoming[0], incoming[1..];
    var c: seq<Product>;
    if HasId(combined, x.id) {
      c := combined;
    } else {
      c := combined + [x];
    }
    assert r == AppendNew(c, rest);
    if k < |c| {
      assert c != combined && r[..|c|] == c && r[k] == x;
      assert incoming[0] == r[k] && FirstWithId(incoming, 0);
    } else {
      AppendedIsFirstOccurrence(c, rest, k);
      IsFirstNewLift(combined, incoming, r[k]);
    }
  }

  /** Every first incoming product of an id not already present is appended. */
  lemma FirstOccurrencesAreAppended(combined: seq<Product>, incoming: seq<Product>)
    ensures var r := AppendNew(combined, incoming);
      forall i | 0 <= i < |incoming| && FirstWithId(incoming, i) && !HasId(combined, incoming[i].id) ::
        incoming[i] in r[|combined|..]
  {
    forall i | 0 <= i < |incoming| && FirstWithId(incoming, i) && !HasId(combined, incoming[i].id)
      ensures incoming[i] in AppendNew(combined, incoming)[|combined|..]
    {
      FirstOccurrenceAppended(combined, incoming, i);
    }
  }

  /** The incoming product at `i`, first with its id and new, is appended. */
  lemma {:induction false} FirstOccurrenceAppended(combined: seq<Product>, incoming: seq<Product>, i: int)
    requires 0 <= i < |incoming| && FirstWithId(incoming, i) && !HasId(combined, incoming[i].id)
    ensures incoming[i] in AppendNew(combined, incoming)[|combined|..]
    decreases |incoming|
  {
    var r := AppendNew(combined, incoming);
    var x, rest := incoming[0], incoming[1..];
    var c: seq<Product>;
    if HasId(combined, x.id) {
      c := combined;
    } else {
      c := combined + [x];
    }
    assert r == AppendNew(c, rest);
    if i == 0 {
      assert c == combined + [x] && r[..|c|] == c;
      assert r[|combined|..][0] == x;
    } else {
      var y := incoming[i];
      assert y.id != x.id;
      assert rest[i - 1] == y;
      assert FirstWithId(rest, i - 1) by {
        forall j | 0 <= j < i - 1
          ensures rest[j].id != y.id
        {
          assert rest[j] == incoming[j + 1];
        }
      }
      HasIdAppend(combined, x, y.id);
      assert !HasId(c, y.id);
      FirstOccurrenceAppended(c, rest, i - 1);
      assert r[|c|..] == r[|combined|..][|c| - |combined|..];
    }
  }

  /** The catalog list: the seeds, then the curated products whose ids are new. */
  function CatalogList(all: seq<Product>): seq<Product>
  {
    AppendNew(Seeds, Curated(all))
  }

  /** The `{products, total}` object the catalog calls return. */
  datatype Page = Page(products: seq<Product>, total: int)

  /**
   * `getBeautyProducts()` over the upstream page `upstream` (`None` when the request fails):
   * the three seeds first in id order, no duplicate ids, only beauty products, and a total
   * equal to the list length; a failed request becomes the generic fetch error.
   */
  function GetBeautyProducts(upstream: Option<seq<Product>>): (r: Result<Page>)
    ensures upstream.None? ==> r == Err(FetchFailedMessage)
    ensures upstream.Some? ==>
      && r.Ok?
      && r.value.total == |r.value.products|
      && |r.value.products| >= 3 && r.value.products[..3] == Seeds
      && UniqueIds(r.value.products)
      && (forall p | p in r.value.products :: IsBeautyProduct(p))
  {
    match upstream
    case None => Err(FetchFailedMessage)
    case Some(all) =>
      var ps := CatalogList(all);
      SeedsFacts();
      var cur := Curated(all);
      assert forall p | p in ps :: p in Seeds || p in cur;
      Ok(Page(ps, |ps|))
  }

  /**
   * A beauty product from upstream is listed in the catalog when it is the first upstream beauty
   * product with its id and that id is not a seed id (1001, 1002, 1003).
   */
  lemma ClassifiedProductListed(all: seq<Product>, i: int)
    requires 0 <= i < |all| && IsBeautyProduct(all[i])
    requires forall j | 0 <= j < i && IsBeautyProduct(all[j]) :: all[j].id != all[i].id
    requires all[i].id !in {1001, 1002, 1003}
    ensures all[i] in GetBeautyProducts(Some(all)).value.products
  {
    SeedsFacts();
    assert !HasId(Seeds, all[i].id);
    var k := FirstClassified(all, i);
    FirstOccurrenceAppended(Seeds, Curated(all), k);
  }

  /** Where the first beauty product with its id sits among the classified products. */
  lemma FirstClassified(all: seq<Product>, i: int) returns (k: int)
    requires 0 <= i < |all| && IsBeautyProduct(all[i])
    requires forall j | 0 <= j < i && IsBeautyProduct(all[j]) :: all[j].id != all[i].id
    ensures 0 <= k < |Curated(all)| && Curated(all)[k] == all[i]
    ensures FirstWithId(Curated(all), k)
  {
    var pre, post := all[..i], all[i..];
    assert all == pre + post;
    Seqs.FilterConcat(pre, post, IsBeautyProduct);
    var cp := Classified(pre);
    assert post[1..] == all[i + 1..];
    var cur := Classified(all);
    assert cur == cp + ([all[i]] + Classified(all[i + 1..]));
    assert Curated(all) == cur;
    k := |cp|;
    assert cur[k] == all[i];
    forall j | 0 <= j < k
      ensures cur[j].id != cur[k].id
    {
      assert cur[j] == cp[j];
      assert cp[j] in cp;
      var m :| 0 <= m < |pre| && pre[m] == cp[j];
      assert all[m] == cp[j] && IsBeautyProduct(all[m]);
    }
  }

  /**
   * `searchProducts(query)` over the upstream search results: a query that itself mentions a
   * keyword (case-insensitively) returns the results untouched; any other query returns exactly
   * the beauty products among them, in their upstream order.
   */
  function SearchProducts(query: string, upstream: Option<seq<Product>>): (r: Result<Page>)
    ensures upstream.None? ==> r == Err(SearchFailedMessage)
    ensures upstream.Some? ==> r.Ok? && r.value.total == |r.value.products|
    ensures upstream.Some? ==> Seqs.IsSubseq(r.value.products, upstream.value)
    ensures upstream.Some? && MentionsKeyword(ToLower(query)) ==> r.value.products == upstream.value
    ensures upstream.Some? && !MentionsKeyword(ToLower(query)) ==>
      && Seqs.IsSubseq(r.value.products, upstream.value)
      && (forall p | p in r.value.products :: p in upstream.value && IsBeautyProduct(p))
      && (forall p | p in upstream.value && IsBeautyProduct(p) :: p in r.value.products)
      && (forall p | p in upstream.value ::
            multiset(r.value.products)[p] == if IsBeautyProduct(p) then multiset(upstream.value)[p] else 0)
  {
    match upstream
    case None => Err(SearchFailedMessage)
    case Some(results) =>
      if MentionsKeyword(ToLower(query)) then
        Seqs.SubseqReflexive(results);
        Ok(Page(results, |results|))
      else
        var beauty := Classified(results);
        Seqs.FilterCounts(results, IsBeautyProduct);
        Ok(Page(beauty, |beauty|))
  }

  /** A search whose query mentions no keyword returns beauty products only. */
  lemma UntrustedSearchReturnsBeauty(query: string, results: seq<Product>)
    requires !MentionsKeyword(ToLower(query))
    ensures forall p | p in SearchProducts(query, Some(results)).value.products :: IsBeautyProduct(p)
  {
  }

  /** When no upstream product mentions a keyword, the catalog is the seeds followed by the
   *  relabelled head of the upstream list (first occurrences of new ids only). */
  lemma NoKeywordUpstreamUsesFallback(all: seq<Product>)
    requires forall p | p in all :: !IsBeautyProduct(p)
    ensures Curated(all) == Fallback(all)
    ensures GetBeautyProducts(Some(all)).value.products == AppendNew(Seeds, Fallback(all))
  {
    if Classified(all) != [] {
      assert Classified(all)[0] in Classified(all);
    }
  }
}
