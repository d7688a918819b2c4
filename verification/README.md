# Web scraper core, modelled in Dafny

The model covers the scrape pipeline of `WebScraper` in `web_scraper.py`:

- the listing address for a category and page number;
- the pagination loop of `scrape_products`, which fetches listing pages 1, 2, … and appends their products to `scraped_data`;
- the card parser `_parse_product_listing`, which turns each `.product-card` into a `Product`, skips it, or lets an exception end the scrape;
- the product-page enrichment `_get_product_details` and the merge of its dictionary into the `Product` at lines 92-93.

The network and the HTML parser are not modelled. `fetch_page` is an oracle `Env.fetch: string -> Option<Page>`. `float()` and `urljoin` are the oracles `Env.parseFloat` and `Env.urljoin`. A listing page is the sequence of its cards. Each card holds the optional elements that the five `select_one` calls return. A product page holds its optional breadcrumb link and stock-status element.

The modules follow the program's structure:

| file | module | what it holds |
|---|---|---|
| options.dfy | `Options` | Python's `None` as `Option` |
| seqs.dfy | `Seqs` | `MapSeq` and sequence lemmas |
| text.dfy | `Text` | `str.strip`, `str.lower`, `str.replace(c, '')`, `in` |
| listing_url.dfy | `ListingUrls` | the listing address and a reader that takes it apart |
| documents.dfy | `Documents` | elements, cards, pages, `Product` and its URLs, the environment |
| details.dfy | `Details` | `_get_product_details` and the merge into `Product` |
| listing.dfy | `Listing` | `_parse_product_listing` |
| pagination.dfy | `Pagination` | `scrape_products` |

`Pagination.Scrape` returns a `Run` with three parts:

- the product list after the scrape;
- every request made, in order, as listing fetches and product-page fetches;
- why the run ended: the page limit, a failed listing fetch, a page without products, or an uncaught exception from a card.

The loop is first defined and proved for any page addresses and any page behaviour (`Paginate`, `RunData`, `RunStop`, `RunFetches`). The scraper lemmas then apply those results to `ListingUrl` and to the real fetch-and-parse step `StepAt`.

Behaviours of the code that are easy to misread:

- A card with an empty name is accepted. `.strip()` of a present element never fails.
- The fields of a card are read in order (name, price, description, rating, link), and the first fault decides what happens to the card. A missing name, price or description, or a price that does not parse, skips the card whatever else is wrong with it.
- A card whose name, price and description are present and whose price parses, but that lacks the `.product-rating` element or its `data-rating` attribute, raises `TypeError` or `KeyError`. So does a card whose rating also parses but that lacks the anchor or its `href`. Line 95 catches neither, so the exception leaves `scrape_products` and ends the scrape. The model stops the run with `Crashed(reason)`. The products of the current page are dropped and those of earlier pages are kept. A rating that does not parse skips the card before the anchor is looked at.
- A card that passes all of these is skipped when `urljoin` rejects its link with `ValueError`. `Listing.CardRules` states the whole split.
- Enrichment is all-or-nothing. If either the breadcrumb link or the stock-status element is missing, `AttributeError` is raised before the dictionary is built. The category is then lost along with the stock status.
- The stock test is a substring test, so "Not in stock" counts as in stock.

## Model

| member | source | states |
|---|---|---|
| ListingUrls.ListingPath | web_scraper.py:52 | every listing path starts with `base + "/products"` |
| ListingUrls.DecimalString | web_scraper.py:52 | the page number in the query is a canonical numeral: a non-empty run of decimal digits, without a leading zero unless it is 0 |
| ListingUrls.DecimalRoundTrip | web_scraper.py:52 | reading the rendered page number back gives the number |
| ListingUrls.CanonicalRoundTrip | web_scraper.py:52 | every canonical numeral is the rendering of the number it denotes, so rendering is a bijection onto the canonical numerals |
| ListingUrls.ReadsQuery | web_scraper.py:52 | the reader takes `?page=N` off a path and returns `N`, with the category the path names, or nothing if the path is not a listing path |
| ListingUrls.PathCategory | web_scraper.py:52 | a path names a category only when it is that category's listing path, so `base/products/all` names none |
| ListingUrls.PathRoundTrip | web_scraper.py:52 | `base/products` names the category "all", and `base/products/<c>` names `c`, for every other category |
| ListingUrls.ListingUrlRoundTrip | web_scraper.py:52 | the reader recovers the category and page from every listing address |
| ListingUrls.ReadsOnlyListingUrls | web_scraper.py:52 | whatever the reader accepts is the listing address of the category and page it reads |
| ListingUrls.ListingUrlExact | web_scraper.py:52 | an address reads as category `c` and page `p` exactly when it is the listing address for `c` and `p`; with the reader rejecting `base/products/all` and zero-padded page numbers, every listing address has one of the two forms of line 52 |
| ListingUrls.ListingUrlInjective | web_scraper.py:52 | two listing addresses are equal only for the same category and page, so no listing page is requested twice |
| Text.Strip | web_scraper.py:74 | the stripped text is the slice of the input that starts after the leading whitespace, only whitespace follows it, and it neither starts nor ends with whitespace |
| Text.StripUnpadded | web_scraper.py:74 | a text with no whitespace at either end is its own strip |
| Text.RemoveAll | web_scraper.py:75 | `replace('$', '')` keeps exactly the characters other than `$` and never lengthens the text; `RemoveAllCount` and `RemoveAllAppend` pin the result down, multiplicities and order included |
| Text.RemoveAllCount | web_scraper.py:75 | removal drops every `$` and keeps every other character exactly as often as it occurs, so the text shrinks by the number of `$` |
| Text.RemoveAllAppend | web_scraper.py:75 | removing a character distributes over concatenation |
| Text.RemoveAllAbsent | web_scraper.py:75 | a text without the character is unchanged |
| Text.LowerAppend | web_scraper.py:110 | lower-casing distributes over concatenation |
| Text.LowerKeepsSpace | web_scraper.py:110 | lower-casing leaves whitespace alone |
| Text.LowerIdempotent | web_scraper.py:110 | lower-casing twice is lower-casing once |
| Text.ContainsIgnoresPadding | web_scraper.py:113 | whitespace around a text neither creates nor removes an occurrence of a pattern with non-space ends |
| Text.ContainsLower | web_scraper.py:113 | lower-casing keeps an occurrence of a pattern, lower-cased alike |
| Details.Merge | web_scraper.py:86-93 | the product keeps the card's name, price, description, rating and URL; it has a category exactly when details were found; without details it is in stock, and with details it takes their category and stock flag |
| Details.FailedFetchDefaults | web_scraper.py:104-106 | when the product page cannot be fetched, the product has no category and is in stock |
| Details.EnrichmentAllOrNothing | web_scraper.py:108-116 | the product has a category exactly when the page arrived with both the breadcrumb link and the stock-status element; otherwise it is in stock; with both, the category is the stripped breadcrumb text and in-stock is the status test |
| Details.InStockIgnoresPadding | web_scraper.py:110-113 | the status test holds exactly when the lower-cased raw text contains "in stock", whatever whitespace surrounds it |
| Details.InStockIgnoresCase | web_scraper.py:110-113 | a status and its lower-cased form are classified alike, so the test is case-insensitive |
| Details.ContainedInStock | web_scraper.py:113 | any status whose text contains "in stock" is classified in stock |
| Details.NotInStockReadsAsInStock | web_scraper.py:113 | the status "Not in stock" is classified in stock |
| Listing.DollarSignDropped | web_scraper.py:75 | a price shown as `$` followed by an amount reaches `float` as the amount with every `$` removed, and as the amount itself when it holds no `$` |
| Listing.CardRules | web_scraper.py:73-97 | a card builds a product exactly when every element and attribute is present, both numbers parse and the link joins, and then from its stripped texts, parsed numbers and joined link; a missing name, price or description or an unparsable price skips it; it aborts exactly when those are fine and the rating element or attribute is missing, or the rating parses and the anchor or `href` is missing; a card that gets as far as the join is skipped exactly when the join raises |
| Listing.Collect | web_scraper.py:72-97 | the card loop ends without an abort exactly when no card outcome is an abort |
| Listing.ParseListing | web_scraper.py:67-99 | one product-page fetch per product, for that product's URL, in the same order; the page aborts exactly when some card aborts |
| Listing.ParseProductListing | web_scraper.py:67-99 | the loop over the cards with a growing list computes `ParseListing`: the same products, fetches and abort |
| Listing.CollectRanks | web_scraper.py:72-97 | the card loop is an order-preserving filter: each accepted outcome is kept at the position that counts the accepted outcomes before it, and nothing else is kept |
| Listing.ParseListingRanks | web_scraper.py:72-99 | on a page without an aborting card, card `k` that passes becomes product number `rank[k]`, enriched from its own product page; a skipped card gives no product and costs no fetch |
| Listing.ParseListingAppend | web_scraper.py:72-97 | parsing distributes over a split of the cards when the first part does not abort: one card never changes how another is handled |
| Listing.ParseListingAbortAt | web_scraper.py:78-80 | a page that aborts does so at its first aborting card, with that card's fault, after fetching product pages for exactly the passing cards before it |
| Pagination.StepOf | web_scraper.py:59-62 | a parsed page continues the loop exactly when it did not abort and gave products; it then carries those products and the product pages fetched for them |
| Pagination.StepAt | web_scraper.py:55-59 | a listing page is unreachable exactly when its fetch fails; a page that yields products fetched one product page per product, in order |
| Pagination.Paginate | web_scraper.py:50-65 | the loop never removes or reorders what the list held: the old list is a prefix of the new one |
| Pagination.ScrapeProducts | web_scraper.py:48-65 | the `while` loop with its two `break`s computes `Scrape`: the same list, requests and reason to stop |
| Pagination.RunData | web_scraper.py:64 | a run leaves the old list followed by the products of every page before the stop page, in page order |
| Pagination.RunStop | web_scraper.py:51-62 | a run stops for the reason its stop page gives if the limit allowed that page, and at the page limit otherwise |
| Pagination.RunFetches | web_scraper.py:50-65 | a run requests the listing pages from its first page up to the stop page, or up to the limit, in order, each once |
| Pagination.RunDetailFetches | web_scraper.py:59-64 | unless a page aborted, the product pages a run requests are those of the products it added, in order |
| Pagination.StopsAt | web_scraper.py:55-62 | a run whose pages before `n` yield products and whose page `n` does not stops at `n`; a failed fetch of `n` is its last request |
| Pagination.FetchesWithinBudget | web_scraper.py:50-65 | a run requests at most as many listing pages as the limit still allows, they are consecutive pages from its first one, and a run that starts past the limit requests nothing and changes nothing |
| Pagination.LimitIff | web_scraper.py:51-62 | a run stops at the page limit exactly when every page from its first one up to the limit yields products |
| Pagination.EarlyStopAt | web_scraper.py:55-62 | a run that stops before the limit stops at the last listing page it requested, for that page's reason, every page requested before it having yielded products |
| Pagination.AppendOnly | web_scraper.py:64 | `scraped_data` after a scrape is its old contents followed by the products of pages 1, 2, … up to the stop, in page order and card order within a page |
| Pagination.FetchBudget | web_scraper.py:50-52 | a scrape requests at most `max_pages` listing pages, none when `max_pages < 1`; the `i`-th listing request is page `i` |
| Pagination.LimitReached | web_scraper.py:51 | a scrape stops at the page limit exactly when every page up to `max_pages` yields products |
| Pagination.EarlyStop | web_scraper.py:55-62 | a scrape that stops before the limit stops because of the last listing page it requested, every earlier page having yielded products |
| Pagination.StopsAtPage | web_scraper.py:55-62 | if pages 1 to `n - 1` yield products and page `n` does not, the scrape requests exactly pages 1 to `n`, stops for page `n`'s reason, and keeps the products of pages 1 to `n - 1` |
| Pagination.FailedFetchStops | web_scraper.py:55-57 | a failed fetch of page `n` stops the scrape at once: it is the last request, no later page is requested, and earlier products are kept |
| Pagination.EmptyPageStops | web_scraper.py:59-62 | a page that gives no product stops the scrape there, even when `max_pages` allows more pages |
| Pagination.AbortStops | web_scraper.py:78-80 | an aborting card on page `n` ends the scrape with its fault; the products already built on that page are not added |
| Pagination.DetailFetchesMatchProducts | web_scraper.py:84 | unless the scrape crashed, it fetched one product page per product it added, for that product's URL, in the same order |

## Left out

- The HTTP session, the User-Agent header, the one-second `time.sleep` and the console messages (web_scraper.py:33-34, 40-45, 53, 61, 96). Every request appears in the run's trace instead.
- BeautifulSoup and its CSS selectors. A page enters already reduced to the elements the selectors match. A parsed document that Python treats as false is a failed fetch.
- `float()`: it is the oracle `parseFloat`, with no floating-point reasoning. `Float` only distinguishes finite values, infinities and NaN.
- `urllib.parse.urljoin`: it is the oracle `urljoin`. `None` stands for the `ValueError` it raises on a malformed bracketed host such as `//[bad`; line 95 catches that, and the card is skipped (`BadUrl`).
- `fetch_page` is a function of the URL alone, so a product page fetched twice gives the same answer both times. Listing addresses never repeat (`ListingUrlInjective`).
- Text.Lower: lower-cases only the ASCII capitals, KELVIN SIGN and LATIN CAPITAL LETTER I WITH DOT ABOVE, and keeps every other character. These are the only characters whose lower case contains a letter of "in stock", so the stock test gives the same answers as with Python's full `str.lower`.
- Strings are sequences of Unicode scalar values. Encodings and normalisation are not modelled.
- The exceptions that end a scrape are recorded as `Crashed`. What follows in the program (export, `main`) is not reached and not modelled.
- CSV and JSON export (web_scraper.py:120-147) and `main` with its argument parsing (web_scraper.py:149-179) are file I/O and command-line handling, outside the scrape pipeline.
