/** The pagination driver (`scrape_products`): listing pages 1, 2, ... are
    fetched and parsed in turn until a fetch fails, a page yields no
    product, a card aborts the run, or the page limit is passed; the products
    of every page are appended to the scraper's list.

    The loop itself does not look inside a page: `Paginate` takes the
    address of each page as a function `urls` and what each page does as a
    function `pages`, and `ScrapeFrom` plugs in the real listing address
    `ListingUrl` and the real fetch-and-parse step `StepAt`. The lemmas
    about the loop are stated for any `urls` and `pages`, and the ones about
    the scraper instantiate them. */
module Pagination {
  import opened Options
  import opened Seqs
  import opened Documents
  import opened Details
  import opened Listing
  import opened ListingUrls

  /** A request the run makes: a listing page or a product page. */
  datatype Request = ListingFetch(url: string) | DetailFetch(url: string)

  /** Why the run ended.
      - `PageLimit`: the loop condition `page <= max_pages` failed;
      - `FetchFailed`: a listing fetch returned nothing (first `break`);
      - `NoProducts`: a listing page gave no product (second `break`);
      - `Crashed`: a card raised an exception the parser does not catch,
        which leaves `scrape_products` and the program. */
  datatype Stop = PageLimit | FetchFailed | NoProducts | Crashed(reason: AbortReason)

  /** The scraper's product list after the run, every request made, in
      order, and why the run ended. */
  datatype Run = Run(data: seq<Product>, trace: seq<Request>, stop: Stop)

  /** What one listing page does to the run: it cannot be fetched, it gives
      no product, it aborts after fetching some product pages, or it yields
      products (one product page fetched for each). */
  datatype PageStep =
    | Unreachable
    | Exhausted
    | Failed(reason: AbortReason, fetched: seq<string>)
    | Yields(products: seq<Product>, fetched: seq<string>)

  /** A page that yields products yields at least one, and has fetched the
      product page of each, in order. */
  predicate Coherent(step: PageStep) {
    step.Yields? ==> |step.products| > 0 && step.fetched == Urls(step.products)
  }

  /** Listing pages the loop still allows from `page` on. */
  function Budget(maxPages: int, page: nat): nat {
    if page <= maxPages then maxPages - page + 1 else 0
  }

  /** What a parsed listing page does to the run. */
  function StepOf(r: ListingResult): (s: PageStep)
    ensures s.Yields? <==> r.abort.None? && |r.products| > 0
    ensures s.Failed? <==> r.abort.Some?
    ensures s.Failed? ==> s.reason == r.abort.value
    ensures (s.Yields? || s.Failed?) ==> s.fetched == r.detailFetches
    ensures s.Yields? ==> s.products == r.products
  {
    if r.abort.Some? then Failed(r.abort.value, r.detailFetches)
    else if |r.products| == 0 then Exhausted
    else Yields(r.products, r.detailFetches)
  }

  /** Fetching and parsing listing page `page`. */
  function StepAt(env: Env, category: string, page: nat): (s: PageStep)
    ensures Coherent(s)
    ensures s.Unreachable? <==> env.fetch(ListingUrl(env.base, category, page)).None?
  {
    match env.fetch(ListingUrl(env.base, category, page))
    case None => Unreachable
    case Some(doc) =>
      StepOf(ParseListing(env, doc.cards))
  }

  /** The product-page requests for `urls`, in order. */
  function ProductRequests(urls: seq<string>): seq<Request> {
    if |urls| == 0 then [] else [DetailFetch(urls[0])] + ProductRequests(urls[1..])
  }

  /** The product pages a listing page fetched: none if it could not be
      fetched or gave no product. */
  function Fetched(step: PageStep): seq<string> {
    if step.Yields? || step.Failed? then step.fetched else []
  }

  /** The requests made while handling a listing page at `url`. */
  function PageRequests(url: string, step: PageStep): seq<Request> {
    [ListingFetch(url)] + ProductRequests(Fetched(step))
  }

  /** How a run ends on a page that does not yield products. */
  function StopOf(step: PageStep): Stop
    requires !step.Yields?
  {
    match step
    case Unreachable => FetchFailed
    case Exhausted => NoProducts
    case Failed(reason, _) => Crashed(reason)
  }

  /** `r` with `trace` put in front of its requests. */
  function Continued(trace: seq<Request>, r: Run): Run {
    Run(r.data, trace + r.trace, r.stop)
  }

  /** The loop of `scrape_products` from listing page `page` on, with `data`
      already in the list, when page `p` is at `urls(p)` and does
      `pages(p)`. */
  function Paginate(urls: nat -> string, pages: nat -> PageStep, maxPages: int, page: nat, data: seq<Product>): (r: Run)
    ensures data <= r.data
    decreases Budget(maxPages, page)
  {
    if page > maxPages then Run(data, [], PageLimit)
    else
      var step := pages(page);
      var requests := PageRequests(urls(page), step);
      if step.Yields? then Continued(requests, Paginate(urls, pages, maxPages, page + 1, data + step.products))
      else Run(data, requests, StopOf(step))
  }

  /** The listing address of each page in a scrape of `category`. */
  function PageUrl(base: string, category: string): nat -> string {
    (p: nat) => ListingUrl(base, category, p)
  }

  /** What each listing page does in a scrape of `category`. */
  function PageSteps(env: Env, category: string): nat -> PageStep {
    (p: nat) => StepAt(env, category, p)
  }

  /** `scrape_products` from listing page `page` on, with `data` already in
      the scraper's list. */
  function ScrapeFrom(env: Env, category: string, maxPages: int, page: nat, data: seq<Product>): Run {
    Paginate(PageUrl(env.base, category), PageSteps(env, category), maxPages, page, data)
  }

  /** `scrape_products(category, max_pages)` on a scraper whose list holds
      `scraped`. */
  function Scrape(env: Env, category: string, maxPages: int, scraped: seq<Product>): Run {
    ScrapeFrom(env, category, maxPages, 1, scraped)
  }

  /** `scrape_products` as the source writes it: a `while` loop over the page
      number that extends the product list. It computes `Scrape`. */
  method ScrapeProducts(env: Env, category: string, maxPages: int, scraped: seq<Product>)
    returns (data: seq<Product>, trace: seq<Request>, stop: Stop)
    ensures Run(data, trace, stop) == Scrape(env, category, maxPages, scraped)
  {
    var page: nat := 1;
    data, trace, stop := scraped, [], PageLimit;
    while page <= maxPages
      invariant Scrape(env, category, maxPages, scraped) == Continued(trace, ScrapeFrom(env, category, maxPages, page, data))
      decreases Budget(maxPages, page)
    {
      var url := ListingUrl(env.base, category, page);
      var soup := env.fetch(url);
      if soup.None? {
        trace, stop := trace + [ListingFetch(url)], FetchFailed;
        return;
      }
      var products, fetched, abort := ParseProductListing(env, soup.value.cards);
      var requests := [ListingFetch(url)] + ProductRequests(fetched);
      PageOutcome(env, category, maxPages, page, data, soup.value);
      ContinuedTwice(trace, requests, ScrapeFrom(env, category, maxPages, page + 1, data + products));
      trace := trace + requests;
      if abort.Some? {
        stop := Crashed(abort.value);
        return;
      }
      if |products| == 0 {
        stop := NoProducts;
        return;
      }
      data := data + products;
      page := page + 1;
    }
  }

  /** Continuing twice is continuing once with both traces. */
  lemma ContinuedTwice(a: seq<Request>, b: seq<Request>, r: Run)
    ensures Continued(a, Continued(b, r)) == Continued(a + b, r)
  {
    assert a + (b + r.trace) == (a + b) + r.trace;
  }

  /** `ScrapeFrom` on a listing page that was fetched as `doc`: the page's
      listing fetch and product-page fetches come first, and the run goes on
      to the next page exactly when the page parsed without an abort and
      gave products. */
  lemma PageOutcome(env: Env, category: string, maxPages: int, page: nat, data: seq<Product>, doc: Page)
    requires page <= maxPages
    requires env.fetch(ListingUrl(env.base, category, page)) == Some(doc)
    ensures var r := ParseListing(env, doc.cards);
      var requests := [ListingFetch(ListingUrl(env.base, category, page))] + ProductRequests(r.detailFetches);
      ScrapeFrom(env, category, maxPages, page, data) ==
        if r.abort.Some? then Run(data, requests, Crashed(r.abort.value))
        else if |r.products| == 0 then Run(data, requests, NoProducts)
        else Continued(requests, ScrapeFrom(env, category, maxPages, page + 1, data + r.products))
  {
  }

  // ---------------------------------------------------------------------
  // The loop, for any page addresses and any page behaviour.
  // ---------------------------------------------------------------------

  /** The page at which a run from `page` stops: the first page from `page`
      on that yields no product, or the page after the limit when every
      page up to it yields products. */
  function StopPage(pages: nat -> PageStep, maxPages: int, page: nat): (n: nat)
    ensures page <= n
    ensures n <= maxPages + 1 || n == page
    ensures n <= maxPages ==> !pages(n).Yields?
    decreases Budget(maxPages, page)
  {
    if page <= maxPages && pages(page).Yields? then StopPage(pages, maxPages, page + 1) else page
  }

  /** Every page before the stop page yields products. */
  lemma {:induction false} YieldsBeforeStop(pages: nat -> PageStep, maxPages: int, page: nat)
    ensures forall p :: page <= p < StopPage(pages, maxPages, page) ==> pages(p).Yields?
    decreases Budget(maxPages, page)
  {
    if page <= maxPages && pages(page).Yields? {
      YieldsBeforeStop(pages, maxPages, page + 1);
    }
  }

  /** The first page that yields no product is where the run stops. */
  lemma StopPageIs(pages: nat -> PageStep, maxPages: int, page: nat, n: nat)
    requires page <= n <= maxPages
    requires forall p :: page <= p < n ==> pages(p).Yields?
    requires !pages(n).Yields?
    ensures StopPage(pages, maxPages, page) == n
  {
    YieldsBeforeStop(pages, maxPages, page);
  }

  /** The products the steps yield, page after page. */
  function Harvest(steps: seq<PageStep>): seq<Product> {
    if |steps| == 0 then []
    else (if steps[0].Yields? then steps[0].products else []) + Harvest(steps[1..])
  }

  /** The requests made for the steps, the first of them being page `page`. */
  function TraceOf(urls: nat -> string, page: nat, steps: seq<PageStep>): seq<Request>
    decreases |steps|
  {
    if |steps| == 0 then []
    else PageRequests(urls(page), steps[0]) + TraceOf(urls, page + 1, steps[1..])
  }

  /** The listing URLs a trace requests, in order. */
  function ListingFetches(trace: seq<Request>): seq<string> {
    if |trace| == 0 then []
    else (if trace[0].ListingFetch? then [trace[0].url] else []) + ListingFetches(trace[1..])
  }

  /** The product-page URLs a trace requests, in order. */
  function DetailFetches(trace: seq<Request>): seq<string> {
    if |trace| == 0 then []
    else (if trace[0].DetailFetch? then [trace[0].url] else []) + DetailFetches(trace[1..])
  }

  /** A run from a page that yields products continues with the next page. */
  lemma PaginateYields(urls: nat -> string, pages: nat -> PageStep, maxPages: int, page: nat, data: seq<Product>)
    requires page <= maxPages && pages(page).Yields?
    ensures Paginate(urls, pages, maxPages, page, data)
      == Continued(PageRequests(urls(page), pages(page)), Paginate(urls, pages, maxPages, page + 1, data + pages(page).products))
  {
  }

  /** The harvest of pages from `page` on is that of page `page` followed by
      that of the pages after it. */
  lemma HarvestCons(pages: nat -> PageStep, page: nat, n: nat)
    requires n > 0
    ensures Harvest(Tabulate(pages, page, n))
      == (if pages(page).Yields? then pages(page).products else []) + Harvest(Tabulate(pages, page + 1, n - 1))
  {
    TabulateCons(pages, page, n);
    assert Tabulate(pages, page, n)[1..] == Tabulate(pages, page + 1, n - 1);
  }

  /** The requests for pages from `page` on are those of page `page`
      followed by those of the pages after it. */
  lemma TraceOfCons(urls: nat -> string, pages: nat -> PageStep, page: nat, n: nat)
    requires n > 0
    ensures TraceOf(urls, page, Tabulate(pages, page, n))
      == PageRequests(urls(page), pages(page)) + TraceOf(urls, page + 1, Tabulate(pages, page + 1, n - 1))
  {
    TabulateCons(pages, page, n);
    assert Tabulate(pages, page, n)[1..] == Tabulate(pages, page + 1, n - 1);
  }

  /** The list a run from `page` leaves: the list it started with followed
      by the products of every page before the stop page, in page order. */
  lemma {:induction false} RunData(urls: nat -> string, pages: nat -> PageStep, maxPages: int, page: nat, data: seq<Product>)
    ensures Paginate(urls, pages, maxPages, page, data).data
      == data + Harvest(Tabulate(pages, page, StopPage(pages, maxPages, page) - page))
    decreases Budget(maxPages, page)
  {
    var n := StopPage(pages, maxPages, page);
    if page <= maxPages && pages(page).Yields? {
      var own := pages(page).products;
      PaginateYields(urls, pages, maxPages, page, data);
      RunData(urls, pages, maxPages, page + 1, data + own);
      HarvestCons(pages, page, n - page);
      AppendAssoc(data, own, Harvest(Tabulate(pages, page + 1, n - page - 1)));
    } else {
      assert data + Harvest(Tabulate(pages, page, 0)) == data;
    }
  }

  /** The requests of the stop page, when the limit allows it. */
  function LastRequests(urls: nat -> string, pages: nat -> PageStep, maxPages: int, n: nat): seq<Request> {
    if n <= maxPages then PageRequests(urls(n), pages(n)) else []
  }

  /** The requests a run from `page` makes: those of every page before the
      stop page, then those of the stop page if the limit allowed it. */
  lemma {:induction false} RunTrace(urls: nat -> string, pages: nat -> PageStep, maxPages: int, page: nat, data: seq<Product>)
    ensures var n := StopPage(pages, maxPages, page);
      Paginate(urls, pages, maxPages, page, data).trace
        == TraceOf(urls, page, Tabulate(pages, page, n - page)) + LastRequests(urls, pages, maxPages, n)
    decreases Budget(maxPages, page)
  {
    var n := StopPage(pages, maxPages, page);
    if page <= maxPages && pages(page).Yields? {
      PaginateYields(urls, pages, maxPages, page, data);
      RunTrace(urls, pages, maxPages, page + 1, data + pages(page).products);
      TraceOfCons(urls, pages, page, n - page);
      AppendAssoc(PageRequests(urls(page), pages(page)),
                  TraceOf(urls, page + 1, Tabulate(pages, page + 1, n - page - 1)),
                  LastRequests(urls, pages, maxPages, n));
    } else {
      assert Tabulate(pages, page, n - page) == [];
    }
  }

  /** Why a run from `page` stopped: because of the stop page if the limit
      allowed it, at the page limit otherwise. */
  lemma {:induction false} RunStop(urls: nat -> string, pages: nat -> PageStep, maxPages: int, page: nat, data: seq<Product>)
    ensures var n := StopPage(pages, maxPages, page);
      Paginate(urls, pages, maxPages, page, data).stop == if n <= maxPages then StopOf(pages(n)) else PageLimit
    decreases Budget(maxPages, page)
  {
    if page <= maxPages && pages(page).Yields? {
      PaginateYields(urls, pages, maxPages, page, data);
      RunStop(urls, pages, maxPages, page + 1, data + pages(page).products);
    }
  }

  /** Listing fetches distribute over concatenation. */
  lemma {:induction false} ListingFetchesAppend(a: seq<Request>, b: seq<Request>)
    ensures ListingFetches(a + b) == ListingFetches(a) + ListingFetches(b)
    decreases |a|
  {
    if |a| > 0 {
      assert (a + b)[0] == a[0];
      assert (a + b)[1..] == a[1..] + b;
      ListingFetchesAppend(a[1..], b);
      var head := if a[0].ListingFetch? then [a[0].url] else [];
      AppendAssoc(head, ListingFetches(a[1..]), ListingFetches(b));
    } else {
      assert a + b == b;
    }
  }

  /** Product-page fetches distribute over concatenation. */
  lemma {:induction false} DetailFetchesAppend(a: seq<Request>, b: seq<Request>)
    ensures DetailFetches(a + b) == DetailFetches(a) + DetailFetches(b)
    decreases |a|
  {
    if |a| > 0 {
      assert (a + b)[0] == a[0];
      assert (a + b)[1..] == a[1..] + b;
      DetailFetchesAppend(a[1..], b);
      var head := if a[0].DetailFetch? then [a[0].url] else [];
      AppendAssoc(head, DetailFetches(a[1..]), DetailFetches(b));
    } else {
      assert a + b == b;
    }
  }

  /** Requests for product pages hold no listing fetch, and their
      product-page fetches are the URLs, in order. */
  lemma {:induction false} DetailRequests(us: seq<string>)
    ensures ListingFetches(ProductRequests(us)) == []
    ensures DetailFetches(ProductRequests(us)) == us
    decreases |us|
  {
    if |us| > 0 {
      var head, rest := [DetailFetch(us[0])], ProductRequests(us[1..]);
      DetailRequests(us[1..]);
      ListingFetchesAppend(head, rest);
      DetailFetchesAppend(head, rest);
      assert ListingFetches(head) == [] && DetailFetches(head) == [us[0]];
      assert us == [us[0]] + us[1..];
    }
  }

  /** A listing page makes one listing fetch, its own, and the product-page
      fetches its step records. */
  lemma PageFetches(url: string, step: PageStep)
    ensures ListingFetches(PageRequests(url, step)) == [url]
    ensures DetailFetches(PageRequests(url, step)) == Fetched(step)
  {
    var head, tail := [ListingFetch(url)], ProductRequests(Fetched(step));
    ListingFetchesAppend(head, tail);
    DetailFetchesAppend(head, tail);
    DetailRequests(Fetched(step));
    assert ListingFetches(head) == [url];
    assert DetailFetches(head) == [];
    assert ListingFetches(PageRequests(url, step)) == [url] + [];
    assert DetailFetches(PageRequests(url, step)) == [] + Fetched(step);
  }

  /** The listing pages requested for consecutive steps from `page` are
      those pages, in order, each once. */
  lemma {:induction false} TraceListingFetches(urls: nat -> string, page: nat, steps: seq<PageStep>)
    ensures ListingFetches(TraceOf(urls, page, steps)) == Tabulate(urls, page, |steps|)
    decreases |steps|
  {
    if |steps| > 0 {
      PageFetches(urls(page), steps[0]);
      TraceListingFetches(urls, page + 1, steps[1..]);
      ListingFetchesAppend(PageRequests(urls(page), steps[0]), TraceOf(urls, page + 1, steps[1..]));
      TabulateCons(urls, page, |steps|);
    }
  }

  /** When no page aborts, the product pages requested are those of the
      products harvested, in order. */
  lemma {:induction false} TraceDetailFetches(urls: nat -> string, page: nat, steps: seq<PageStep>)
    requires forall i :: 0 <= i < |steps| ==> Coherent(steps[i]) && !steps[i].Failed?
    ensures DetailFetches(TraceOf(urls, page, steps)) == Urls(Harvest(steps))
    decreases |steps|
  {
    if |steps| > 0 {
      var step := steps[0];
      var own := if step.Yields? then step.products else [];
      TraceDetailFetches(urls, page + 1, steps[1..]);
      DetailFetchesAppend(PageRequests(urls(page), step), TraceOf(urls, page + 1, steps[1..]));
      PageFetches(urls(page), step);
      assert DetailFetches(PageRequests(urls(page), step)) == Urls(own);
      UrlsAppend(own, Harvest(steps[1..]));
    }
  }

  /** The listing pages a run from `page` requests: `page` up to the stop
      page, or up to the limit, in order, each once. */
  lemma RunFetches(urls: nat -> string, pages: nat -> PageStep, maxPages: int, page: nat, data: seq<Product>)
    ensures var n := StopPage(pages, maxPages, page);
      ListingFetches(Paginate(urls, pages, maxPages, page, data).trace)
        == Tabulate(urls, page, if n <= maxPages then n - page + 1 else n - page)
  {
    var n := StopPage(pages, maxPages, page);
    var trace := Paginate(urls, pages, maxPages, page, data).trace;
    var before := TraceOf(urls, page, Tabulate(pages, page, n - page));
    var last := LastRequests(urls, pages, maxPages, n);
    RunTrace(urls, pages, maxPages, page, data);
    assert trace == before + last;
    TraceListingFetches(urls, page, Tabulate(pages, page, n - page));
    assert ListingFetches(before) == Tabulate(urls, page, n - page);
    ListingFetchesAppend(before, last);
    if n <= maxPages {
      assert last == PageRequests(urls(n), pages(n));
      PageFetches(urls(n), pages(n));
      TabulateSnoc(urls, page, n);
      assert ListingFetches(trace) == Tabulate(urls, page, n - page) + [urls(n)];
    } else {
      assert last == [];
      assert ListingFetches(trace) == Tabulate(urls, page, n - page) + [];
    }
  }

  /** Unless a page aborted the run, the product pages a run requests are
      those of the products it harvested, in order, provided every page is
      coherent. */
  lemma RunDetailFetches(urls: nat -> string, pages: nat -> PageStep, maxPages: int, page: nat, data: seq<Product>)
    requires forall p :: Coherent(pages(p))
    requires !Paginate(urls, pages, maxPages, page, data).stop.Crashed?
    ensures var n := StopPage(pages, maxPages, page);
      DetailFetches(Paginate(urls, pages, maxPages, page, data).trace) == Urls(Harvest(Tabulate(pages, page, n - page)))
  {
    var n := StopPage(pages, maxPages, page);
    var trace := Paginate(urls, pages, maxPages, page, data).trace;
    var steps := Tabulate(pages, page, n - page);
    var before := TraceOf(urls, page, steps);
    var last := LastRequests(urls, pages, maxPages, n);
    RunTrace(urls, pages, maxPages, page, data);
    assert trace == before + last;
    YieldsBeforeStop(pages, maxPages, page);
    forall i | 0 <= i < |steps|
      ensures Coherent(steps[i]) && !steps[i].Failed?
    {
      assert steps[i] == pages(page + i);
    }
    TraceDetailFetches(urls, page, steps);
    DetailFetchesAppend(before, last);
    LastDetailFetches(urls, pages, maxPages, page, data);
    assert DetailFetches(trace) == Urls(Harvest(steps)) + [];
  }

  /** Unless a page aborted the run, the stop page requests no product
      page: it could not be fetched or gave no product. */
  lemma LastDetailFetches(urls: nat -> string, pages: nat -> PageStep, maxPages: int, page: nat, data: seq<Product>)
    requires !Paginate(urls, pages, maxPages, page, data).stop.Crashed?
    ensures DetailFetches(LastRequests(urls, pages, maxPages, StopPage(pages, maxPages, page))) == []
  {
    var n := StopPage(pages, maxPages, page);
    if n <= maxPages {
      RunStop(urls, pages, maxPages, page, data);
      assert !pages(n).Failed?;
      PageFetches(urls(n), pages(n));
    }
  }

  /** A run from `page` requests at most the pages the limit allows, and
      they are `page`, `page + 1`, ... in order; a run that starts past the
      limit does nothing. */
  lemma FetchesWithinBudget(urls: nat -> string, pages: nat -> PageStep, maxPages: int, page: nat, data: seq<Product>)
    ensures var fetches := ListingFetches(Paginate(urls, pages, maxPages, page, data).trace);
      |fetches| <= Budget(maxPages, page) && fetches == Tabulate(urls, page, |fetches|)
    ensures page > maxPages ==> Paginate(urls, pages, maxPages, page, data) == Run(data, [], PageLimit)
  {
    RunFetches(urls, pages, maxPages, page, data);
  }

  /** A run from `page` stops at the page limit exactly when every page from
      `page` up to the limit yields products. */
  lemma LimitIff(urls: nat -> string, pages: nat -> PageStep, maxPages: int, page: nat, data: seq<Product>)
    ensures Paginate(urls, pages, maxPages, page, data).stop == PageLimit
      <==> forall p :: page <= p <= maxPages ==> pages(p).Yields?
  {
    var n := StopPage(pages, maxPages, page);
    RunStop(urls, pages, maxPages, page, data);
    YieldsBeforeStop(pages, maxPages, page);
    if n <= maxPages {
      assert !pages(n).Yields?;
      assert StopOf(pages(n)) != PageLimit;
    }
  }

  /** A run from `page` that stops before the limit stops at its last
      listing request, every page requested before it having yielded
      products. */
  lemma EarlyStopAt(urls: nat -> string, pages: nat -> PageStep, maxPages: int, page: nat, data: seq<Product>)
    requires Paginate(urls, pages, maxPages, page, data).stop != PageLimit
    ensures var r := Paginate(urls, pages, maxPages, page, data);
      var n := StopPage(pages, maxPages, page);
      && page <= n <= maxPages
      && |ListingFetches(r.trace)| == n - page + 1
      && (forall p :: page <= p < n ==> pages(p).Yields?)
      && !pages(n).Yields?
      && r.stop == StopOf(pages(n))
  {
    RunStop(urls, pages, maxPages, page, data);
    RunFetches(urls, pages, maxPages, page, data);
    YieldsBeforeStop(pages, maxPages, page);
  }

  /** A run from `page` whose pages before `n` yield products and whose
      page `n` does not, with `n` within the limit, stops at page `n` for
      the reason page `n` gives: the list gains the products of the pages
      before `n`, the listing pages requested are `page` to `n`, and a page
      `n` that cannot be fetched is the last request. */
  lemma StopsAt(urls: nat -> string, pages: nat -> PageStep, maxPages: int, page: nat, data: seq<Product>, n: nat)
    requires page <= n <= maxPages
    requires forall p :: page <= p < n ==> pages(p).Yields?
    requires !pages(n).Yields?
    ensures var r := Paginate(urls, pages, maxPages, page, data);
      && r.stop == StopOf(pages(n))
      && r.data == data + Harvest(Tabulate(pages, page, n - page))
      && ListingFetches(r.trace) == Tabulate(urls, page, n - page + 1)
      && (pages(n).Unreachable? ==> |r.trace| > 0 && r.trace[|r.trace| - 1] == ListingFetch(urls(n)))
  {
    StopPageIs(pages, maxPages, page, n);
    RunData(urls, pages, maxPages, page, data);
    RunStop(urls, pages, maxPages, page, data);
    RunFetches(urls, pages, maxPages, page, data);
    if pages(n).Unreachable? {
      RunTrace(urls, pages, maxPages, page, data);
      assert LastRequests(urls, pages, maxPages, n) == [ListingFetch(urls(n))];
    }
  }

  // ---------------------------------------------------------------------
  // The scraper: the loop over the listing addresses and `StepAt`.
  // ---------------------------------------------------------------------

  /** A scrape is the loop over the listing addresses and `StepAt`. */
  lemma ScrapeIsPaginate(env: Env, category: string, maxPages: int, scraped: seq<Product>)
    ensures Scrape(env, category, maxPages, scraped) == Paginate(PageUrl(env.base, category), PageSteps(env, category), maxPages, 1, scraped)
  {
  }

  /** A scrape never loses what the list held: the list it leaves is the old
      list followed by the products of listing pages 1, 2, ... up to the
      page where it stopped, in page order. */
  lemma AppendOnly(env: Env, category: string, maxPages: int, scraped: seq<Product>)
    ensures var n := StopPage(PageSteps(env, category), maxPages, 1);
      Scrape(env, category, maxPages, scraped).data == scraped + Harvest(Tabulate(PageSteps(env, category), 1, n - 1))
  {
    ScrapeIsPaginate(env, category, maxPages, scraped);
    RunData(PageUrl(env.base, category), PageSteps(env, category), maxPages, 1, scraped);
  }

  /** A scrape requests at most `max_pages` listing pages, none when
      `max_pages < 1`, and they are pages 1, 2, ... in order. */
  lemma FetchBudget(env: Env, category: string, maxPages: int, scraped: seq<Product>)
    ensures var fetches := ListingFetches(Scrape(env, category, maxPages, scraped).trace);
      && |fetches| <= (if maxPages < 1 then 0 else maxPages)
      && forall i :: 0 <= i < |fetches| ==> fetches[i] == ListingUrl(env.base, category, 1 + i)
    ensures maxPages < 1 ==> Scrape(env, category, maxPages, scraped) == Run(scraped, [], PageLimit)
  {
    var urls := PageUrl(env.base, category);
    ScrapeIsPaginate(env, category, maxPages, scraped);
    FetchesWithinBudget(urls, PageSteps(env, category), maxPages, 1, scraped);
    var fetches := ListingFetches(Paginate(urls, PageSteps(env, category), maxPages, 1, scraped).trace);
    forall i | 0 <= i < |fetches|
      ensures fetches[i] == ListingUrl(env.base, category, 1 + i)
    {
      assert fetches[i] == urls(1 + i);
    }
  }

  /** A scrape stops at the page limit exactly when every page up to
      `max_pages` yields products. */
  lemma LimitReached(env: Env, category: string, maxPages: int, scraped: seq<Product>)
    ensures Scrape(env, category, maxPages, scraped).stop == PageLimit
      <==> forall p :: 1 <= p <= maxPages ==> StepAt(env, category, p).Yields?
  {
    var pages := PageSteps(env, category);
    ScrapeIsPaginate(env, category, maxPages, scraped);
    LimitIff(PageUrl(env.base, category), pages, maxPages, 1, scraped);
    forall p | 1 <= p <= maxPages
      ensures pages(p) == StepAt(env, category, p)
    {
    }
  }

  /** A scrape that stops before the page limit stops because of the last
      listing page it requested, all earlier pages having yielded products. */
  lemma EarlyStop(env: Env, category: string, maxPages: int, scraped: seq<Product>)
    requires Scrape(env, category, maxPages, scraped).stop != PageLimit
    ensures var r := Scrape(env, category, maxPages, scraped);
      var n := |ListingFetches(r.trace)|;
      && 1 <= n <= maxPages
      && (forall p :: 1 <= p < n ==> StepAt(env, category, p).Yields?)
      && !StepAt(env, category, n).Yields?
      && r.stop == StopOf(StepAt(env, category, n))
  {
    ScrapeIsPaginate(env, category, maxPages, scraped);
    var pages := PageSteps(env, category);
    EarlyStopAt(PageUrl(env.base, category), pages, maxPages, 1, scraped);
    var n := StopPage(pages, maxPages, 1);
    forall p | 1 <= p <= n
      ensures pages(p) == StepAt(env, category, p)
    {
    }
    assert |ListingFetches(Scrape(env, category, maxPages, scraped).trace)| == n;
  }

  /** A scrape whose listing pages 1 to `n - 1` yield products and whose
      page `n` does not stops at page `n`, which decides why: the list gains
      the products of pages 1 to `n - 1`, and no page after `n` is
      requested, even if `max_pages` allows more. */
  lemma StopsAtPage(env: Env, category: string, maxPages: int, scraped: seq<Product>, n: nat)
    requires 1 <= n <= maxPages
    requires forall p :: 1 <= p < n ==> StepAt(env, category, p).Yields?
    requires !StepAt(env, category, n).Yields?
    ensures var r := Scrape(env, category, maxPages, scraped);
      && r.stop == StopOf(StepAt(env, category, n))
      && r.data == scraped + Harvest(Tabulate(PageSteps(env, category), 1, n - 1))
      && |ListingFetches(r.trace)| == n
      && forall i :: 0 <= i < n ==> ListingFetches(r.trace)[i] == ListingUrl(env.base, category, 1 + i)
  {
    var urls, pages := PageUrl(env.base, category), PageSteps(env, category);
    ScrapeIsPaginate(env, category, maxPages, scraped);
    forall p | 1 <= p <= n
      ensures pages(p) == StepAt(env, category, p)
    {
    }
    StopsAt(urls, pages, maxPages, 1, scraped, n);
    var fetches := ListingFetches(Paginate(urls, pages, maxPages, 1, scraped).trace);
    forall i | 0 <= i < n
      ensures fetches[i] == ListingUrl(env.base, category, 1 + i)
    {
      assert fetches[i] == urls(1 + i);
    }
  }

  /** When listing page `n` cannot be fetched after pages 1 to `n - 1`
      yielded products, the scrape stops there: the failed request is its
      last, no later page is requested, and the products of the earlier
      pages stay in the list. */
  lemma FailedFetchStops(env: Env, category: string, maxPages: int, scraped: seq<Product>, n: nat)
    requires 1 <= n <= maxPages
    requires forall p :: 1 <= p < n ==> StepAt(env, category, p).Yields?
    requires env.fetch(ListingUrl(env.base, category, n)).None?
    ensures var r := Scrape(env, category, maxPages, scraped);
      && r.stop == FetchFailed
      && r.data == scraped + Harvest(Tabulate(PageSteps(env, category), 1, n - 1))
      && |ListingFetches(r.trace)| == n
      && |r.trace| > 0 && r.trace[|r.trace| - 1] == ListingFetch(ListingUrl(env.base, category, n))
  {
    var urls, pages := PageUrl(env.base, category), PageSteps(env, category);
    ScrapeIsPaginate(env, category, maxPages, scraped);
    forall p | 1 <= p <= n
      ensures pages(p) == StepAt(env, category, p)
    {
    }
    assert pages(n).Unreachable?;
    StopsAt(urls, pages, maxPages, 1, scraped, n);
    assert urls(n) == ListingUrl(env.base, category, n);
  }

  /** When listing page `n` parses to no product and no abort after pages 1
      to `n - 1` yielded products, the scrape stops there: no later page is
      requested, even if `max_pages` allows more. */
  lemma EmptyPageStops(env: Env, category: string, maxPages: int, scraped: seq<Product>, n: nat, doc: Page)
    requires 1 <= n <= maxPages
    requires forall p :: 1 <= p < n ==> StepAt(env, category, p).Yields?
    requires env.fetch(ListingUrl(env.base, category, n)) == Some(doc)
    requires ParseListing(env, doc.cards).abort.None? && ParseListing(env, doc.cards).products == []
    ensures var r := Scrape(env, category, maxPages, scraped);
      && r.stop == NoProducts
      && r.data == scraped + Harvest(Tabulate(PageSteps(env, category), 1, n - 1))
      && |ListingFetches(r.trace)| == n
  {
    StopsAtPage(env, category, maxPages, scraped, n);
  }

  /** When a card of listing page `n` aborts after pages 1 to `n - 1`
      yielded products, the scrape ends there with that reason, and the
      products the page had built are not added to the list. */
  lemma AbortStops(env: Env, category: string, maxPages: int, scraped: seq<Product>, n: nat, doc: Page)
    requires 1 <= n <= maxPages
    requires forall p :: 1 <= p < n ==> StepAt(env, category, p).Yields?
    requires env.fetch(ListingUrl(env.base, category, n)) == Some(doc)
    requires ParseListing(env, doc.cards).abort.Some?
    ensures var r := Scrape(env, category, maxPages, scraped);
      && r.stop == Crashed(ParseListing(env, doc.cards).abort.value)
      && r.data == scraped + Harvest(Tabulate(PageSteps(env, category), 1, n - 1))
      && |ListingFetches(r.trace)| == n
  {
    StopsAtPage(env, category, maxPages, scraped, n);
  }

  /** Unless the scrape crashed, the product pages it requested are those of
      the products it added, in order: one detail fetch per product. */
  lemma DetailFetchesMatchProducts(env: Env, category: string, maxPages: int, scraped: seq<Product>)
    requires !Scrape(env, category, maxPages, scraped).stop.Crashed?
    ensures var r := Scrape(env, category, maxPages, scraped);
      |scraped| <= |r.data| && DetailFetches(r.trace) == Urls(r.data[|scraped|..])
  {
    ScrapeIsPaginate(env, category, maxPages, scraped);
    var pages := PageSteps(env, category);
    forall p: nat
      ensures Coherent(pages(p))
    {
      assert pages(p) == StepAt(env, category, p);
    }
    RunData(PageUrl(env.base, category), pages, maxPages, 1, scraped);
    RunDetailFetches(PageUrl(env.base, category), pages, maxPages, 1, scraped);
    var r := Scrape(env, category, maxPages, scraped);
    assert r.data[|scraped|..] == Harvest(Tabulate(pages, 1, StopPage(pages, maxPages, 1) - 1));
  }
}
