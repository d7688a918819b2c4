/** Product-page enrichment (`_get_product_details`) and the way its result
    is merged into a `Product` (`_parse_product_listing`). */
module Details {
  import opened Options
  import opened Text
  import opened Documents

  /** The dictionary `_get_product_details` returns: empty, or holding both
      `category` and `in_stock`. */
  datatype ProductInfo = NoDetails | Found(category: string, inStock: bool)

  /** The fields read from a listing card before enrichment. */
  datatype Listed = Listed(name: string, price: Float, description: string, rating: Float, url: string)

  /** The stock-status test: the stripped, lower-cased text contains
      "in stock". */
  predicate InStockStatus(status: string) {
    Contains(Lower(Strip(status)), "in stock")
  }

  /** `_get_product_details(url)`: one fetch of the product page; details
      only when the page arrived and both the last breadcrumb link and the
      stock-status element are on it. A missing element raises
      `AttributeError` before the dictionary is built, so neither field is
      set. */
  function ProductDetails(env: Env, url: string): ProductInfo {
    match env.fetch(url)
    case None => NoDetails
    case Some(page) =>
      if page.breadcrumb.None? || page.stockStatus.None? then NoDetails
      else Found(Strip(page.breadcrumb.value.text), InStockStatus(page.stockStatus.value.text))
  }

  /** The `Product(...)` built from a card's fields and its details:
      `details.get('category')` and `details.get('in_stock', True)`. */
  function Merge(fields: Listed, details: ProductInfo): (p: Product)
    ensures p.name == fields.name && p.price == fields.price
    ensures p.description == fields.description && p.rating == fields.rating
    ensures p.url == fields.url
    ensures p.category.Some? <==> details.Found?
    ensures details.Found? ==> p.category == Some(details.category) && p.inStock == details.inStock
    ensures details.NoDetails? ==> p.inStock
  {
    match details
    case NoDetails =>
      Product(fields.name, fields.price, fields.description, fields.rating, fields.url, None, true)
    case Found(category, inStock) =>
      Product(fields.name, fields.price, fields.description, fields.rating, fields.url, Some(category), inStock)
  }

  /** The product built for a card, its product page fetched. */
  function Enrich(env: Env, fields: Listed): Product {
    Merge(fields, ProductDetails(env, fields.url))
  }

  /** A failed product-page fetch leaves the category unset and the product
      in stock. */
  lemma FailedFetchDefaults(env: Env, fields: Listed)
    requires env.fetch(fields.url).None?
    ensures Enrich(env, fields).category == None
    ensures Enrich(env, fields).inStock
  {
  }

  /** Enrichment is all-or-nothing: the product gets a category exactly when
      the page arrived with both elements, and otherwise also keeps the
      in-stock default, whichever element was missing. */
  lemma EnrichmentAllOrNothing(env: Env, fields: Listed)
    ensures var p := Enrich(env, fields);
      var page := env.fetch(fields.url);
      && (p.category.Some? <==> page.Some? && page.value.breadcrumb.Some? && page.value.stockStatus.Some?)
      && (p.category.None? ==> p.inStock)
      && (p.category.Some? ==>
            p.category.value == Strip(page.value.breadcrumb.value.text)
            && (p.inStock <==> InStockStatus(page.value.stockStatus.value.text)))
  {
  }

  /** The stock test does not depend on surrounding whitespace: it holds
      exactly when the lower-cased raw text contains "in stock". */
  lemma InStockIgnoresPadding(status: string)
    ensures InStockStatus(status) <==> Contains(Lower(status), "in stock")
  {
    var m := Strip(status);
    var pre, post := StripSplit(status);
    LowerPadded(pre, m, post);
    ContainsIgnoresPadding(pre, Lower(m), post, "in stock");
  }

  /** The stock test ignores letter case: a status and its lower-cased form
      are classified alike, so "IN STOCK" and "In Stock" count as in stock. */
  lemma InStockIgnoresCase(status: string)
    ensures InStockStatus(Lower(status)) <==> InStockStatus(status)
  {
    InStockIgnoresPadding(status);
    InStockIgnoresPadding(Lower(status));
    LowerIdempotent(status);
  }

  /** A status whose raw text contains "in stock" is classified in stock,
      whatever surrounds it. */
  lemma ContainedInStock(status: string)
    requires Contains(status, "in stock")
    ensures InStockStatus(status)
  {
    ContainsLower(status, "in stock");
    LowerKeepsNonUpper("in stock");
    InStockIgnoresPadding(status);
  }

  /** "in stock" is a substring test, not a match: a status reading
      "Not in stock" marks the product as in stock. */
  lemma NotInStockReadsAsInStock()
    ensures InStockStatus("Not in stock")
  {
    var s := "Not in stock";
    assert s[4..] == "in stock";
    ContainedInStock(s);
  }

  /** A text without capitals lowers to itself. */
  lemma {:induction false} LowerKeepsNonUpper(s: string)
    requires forall i :: 0 <= i < |s| ==> !('A' <= s[i] <= 'Z') && s[i] != '\U{212A}' && s[i] != '\U{130}'
    ensures Lower(s) == s
    decreases |s|
  {
    if |s| > 0 {
      LowerKeepsNonUpper(s[1..]);
      assert s == [s[0]] + s[1..];
    }
  }
}
