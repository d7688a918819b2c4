/** What the scraper sees of the web: parsed pages reduced to the elements
    its CSS selectors pick out, the `Product` record it builds, and the
    environment it runs against. The HTTP session, BeautifulSoup's selector
    engine, `float()` and `urljoin` are not modelled; they enter as the
    functions of an `Env`. */
module Documents {
  import opened Options
  import opened Seqs

  /** An element a selector matched: its `.text` and its attributes. */
  datatype Element = Element(text: string, attrs: map<string, string>)

  /** One `.product-card` element, reduced to what the five `select_one`
      calls on it return: `.product-name`, `.product-price`,
      `.product-description`, `.product-rating` and the first `a`. */
  datatype Card = Card(
    name: Option<Element>,
    price: Option<Element>,
    description: Option<Element>,
    rating: Option<Element>,
    anchor: Option<Element>)

  /** A fetched page. A listing page is read through `cards` (every
      `.product-card`, in document order); a product page through
      `breadcrumb` (the match of `.breadcrumb a:last-child`) and
      `stockStatus` (the match of `.stock-status`). */
  datatype Page = Page(cards: seq<Card>, breadcrumb: Option<Element>, stockStatus: Option<Element>)

  /** A Python `float`: a finite value, an infinity or NaN. */
  datatype Float = Finite(value: real) | Infinite(negative: bool) | NaN

  /** The `Product` dataclass. */
  datatype Product = Product(
    name: string,
    price: Float,
    description: string,
    rating: Float,
    url: string,
    category: Option<string>,
    inStock: bool)

  /** The product URLs of `products`, in order. */
  function Urls(products: seq<Product>): seq<string> {
    MapSeq((p: Product) => p.url, products)
  }

  /** The URLs of a concatenation are the URLs of its parts, concatenated. */
  lemma UrlsAppend(a: seq<Product>, b: seq<Product>)
    ensures Urls(a + b) == Urls(a) + Urls(b)
  {
    MapSeqAppend((p: Product) => p.url, a, b);
  }

  /** What a scrape runs against.
      - `base`: the scraper's `base_url`;
      - `fetch`: `fetch_page`; `None` for a request that failed and for a
        parsed document Python treats as false;
      - `parseFloat`: `float(s)`; `None` where it raises `ValueError`;
      - `urljoin`: `urllib.parse.urljoin`; `None` where it raises
        `ValueError` (a malformed bracketed host such as `//[bad`). */
  datatype Env = Env(
    base: string,
    fetch: string -> Option<Page>,
    parseFloat: string -> Option<Float>,
    urljoin: (string, string) -> Option<string>)
}
