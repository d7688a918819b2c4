/** The listing-page address built at the top of each pagination step
    (`scrape_products`, web_scraper.py line 52), the decimal rendering of the
    page number it embeds, and a reader that takes such an address apart
    again. */
module ListingUrls {
  import opened Options

  predicate IsDigit(c: char) {
    '0' <= c <= '9'
  }

  predicate AllDigits(s: string) {
    forall i :: 0 <= i < |s| ==> IsDigit(s[i])
  }

  function DigitChar(d: nat): (c: char)
    requires d < 10
    ensures IsDigit(c)
  {
    ('0' as int + d) as char
  }

  function DigitValue(c: char): (d: nat)
    requires IsDigit(c)
    ensures d < 10 && DigitChar(d) == c
  {
    c as int - '0' as int
  }

  /** `f"{n}"` for a non-negative integer: its decimal digits, most
      significant first, without leading zeros. */
  function DecimalString(n: nat): (r: string)
    ensures |r| > 0 && AllDigits(r)
    ensures r[0] == '0' ==> n == 0
    ensures Canonical(r)
  {
    if n < 10 then [DigitChar(n)]
    else DecimalString(n / 10) + [DigitChar(n % 10)]
  }

  /** A decimal numeral as `f"{n}"` writes it: digits only, at least one,
      and no leading zero unless the numeral is "0". */
  predicate Canonical(s: string) {
    |s| > 0 && AllDigits(s) && (|s| > 1 ==> s[0] != '0')
  }

  /** The number a string of decimal digits denotes. */
  function DigitsValue(s: string): nat
    requires AllDigits(s)
  {
    if |s| == 0 then 0
    else 10 * DigitsValue(s[..|s| - 1]) + DigitValue(s[|s| - 1])
  }

  /** Reading back a rendered number gives the number. */
  lemma {:induction false} DecimalRoundTrip(n: nat)
    ensures DigitsValue(DecimalString(n)) == n
  {
    if n >= 10 {
      var s := DecimalString(n);
      assert s[..|s| - 1] == DecimalString(n / 10);
      DecimalRoundTrip(n / 10);
    }
  }

  /** A numeral that does not start with `0` denotes a positive number. */
  lemma {:induction false} LeadingDigitPositive(s: string)
    requires |s| > 0 && AllDigits(s) && s[0] != '0'
    ensures DigitsValue(s) >= 1
    decreases |s|
  {
    if |s| > 1 {
      LeadingDigitPositive(s[..|s| - 1]);
    }
  }

  /** Rendering the number a canonical numeral denotes gives the numeral
      back: `DecimalString` and `DigitsValue` are inverse bijections between
      the naturals and the canonical numerals. */
  lemma {:induction false} CanonicalRoundTrip(s: string)
    requires Canonical(s)
    ensures DecimalString(DigitsValue(s)) == s
    decreases |s|
  {
    if |s| > 1 {
      var init := s[..|s| - 1];
      var d := DigitValue(s[|s| - 1]);
      LeadingDigitPositive(init);
      CanonicalRoundTrip(init);
      var n := DigitsValue(s);
      assert n == 10 * DigitsValue(init) + d;
      assert n / 10 == DigitsValue(init) && n % 10 == d;
      assert s == init + [s[|s| - 1]];
    }
  }

  /** The run of digits that closes `s`. */
  function TrailingDigits(s: string): (d: string)
    ensures |d| <= |s| && d == s[|s| - |d|..] && AllDigits(d)
  {
    if |s| > 0 && IsDigit(s[|s| - 1]) then
      TrailingDigits(s[..|s| - 1]) + [s[|s| - 1]]
    else []
  }

  /** Digits appended after a non-digit are exactly the closing digit run. */
  lemma {:induction false} TrailingDigitsAfter(x: string, d: string)
    requires |x| > 0 && !IsDigit(x[|x| - 1]) && AllDigits(d)
    ensures TrailingDigits(x + d) == d
    decreases |d|
  {
    if |d| == 0 {
      assert x + d == x;
    } else {
      var init := d[..|d| - 1];
      assert (x + d)[..|x + d| - 1] == x + init;
      TrailingDigitsAfter(x, init);
      assert d == init + [d[|d| - 1]];
    }
  }

  /** Path of the listing for `category`: the catalogue-wide
      `base/products` for the category "all", the filtered
      `base/products/<category>` for every other category. */
  function ListingPath(base: string, category: string): (path: string)
    ensures base + "/products" <= path
  {
    if category != "all" then base + "/products/" + category else base + "/products"
  }

  /** Address of listing page `page`: the listing path with the query
      `?page=N`. */
  function ListingUrl(base: string, category: string, page: nat): (url: string)
    ensures base + "/products" <= url
  {
    ListingPath(base, category) + "?page=" + DecimalString(page)
  }

  /** The category a listing path names, if it is one. The category "all"
      is only ever named by `base/products`, so `base/products/all` names
      nothing. */
  function PathCategory(base: string, path: string): (c: Option<string>)
    ensures c.Some? ==> path == ListingPath(base, c.value)
  {
    if path == base + "/products" then Some("all")
    else if |base| + 10 <= |path| && path[..|base| + 10] == base + "/products/" && path[|base| + 10..] != "all" then
      assert path == base + "/products/" + path[|base| + 10..];
      Some(path[|base| + 10..])
    else None
  }

  /** Takes a listing address apart into its category and page number:
      a listing path followed by `?page=` and the page number written
      without leading zeros; anything else is not a listing address. */
  function ParseListingUrl(base: string, url: string): Option<(string, nat)> {
    var digits := TrailingDigits(url);
    var head := url[..|url| - |digits|];
    if !Canonical(digits) || |head| < 6 || head[|head| - 6..] != "?page=" then None
    else
      match PathCategory(base, head[..|head| - 6])
      case None => None
      case Some(category) => Some((category, DigitsValue(digits)))
  }

  /** The reader takes the query `?page=N` off a path and reads `N`; the
      category is then whatever the path names. */
  lemma ReadsQuery(base: string, path: string, page: nat)
    ensures ParseListingUrl(base, path + "?page=" + DecimalString(page))
      == match PathCategory(base, path)
         case None => None
         case Some(category) => Some((category, page))
  {
    var url := path + "?page=" + DecimalString(page);
    var head := path + "?page=";
    var d := DecimalString(page);
    assert TrailingDigits(url) == d && url[..|url| - |d|] == head by {
      assert url == head + d;
      TrailingDigitsAfter(head, d);
    }
    DecimalRoundTrip(page);
    assert head[|head| - 6..] == "?page=";
    assert head[..|head| - 6] == path;
  }

  /** Every listing path names its own category. */
  lemma PathRoundTrip(base: string, category: string)
    ensures PathCategory(base, ListingPath(base, category)) == Some(category)
  {
    var path := ListingPath(base, category);
    if category != "all" {
      assert path[..|base| + 10] == base + "/products/";
      assert path[|base| + 10..] == category;
      assert path != base + "/products" by {
        assert |path| > |base + "/products"|;
      }
    }
  }

  /** Every listing address names its own category and page: the reader
      recovers both from what `ListingUrl` builds. */
  lemma ListingUrlRoundTrip(base: string, category: string, page: nat)
    ensures ParseListingUrl(base, ListingUrl(base, category, page)) == Some((category, page))
  {
    ReadsQuery(base, ListingPath(base, category), page);
    PathRoundTrip(base, category);
  }

  /** Distinct pages, or distinct categories, never share a listing address:
      the driver never requests the same listing twice. */
  lemma ListingUrlInjective(base: string, c1: string, p1: nat, c2: string, p2: nat)
    requires ListingUrl(base, c1, p1) == ListingUrl(base, c2, p2)
    ensures c1 == c2 && p1 == p2
  {
    ListingUrlRoundTrip(base, c1, p1);
    ListingUrlRoundTrip(base, c2, p2);
  }

  /** Whatever the reader accepts is a listing address: it is the address
      the builder produces for the category and page read. */
  lemma ReadsOnlyListingUrls(base: string, url: string)
    requires ParseListingUrl(base, url).Some?
    ensures url == ListingUrl(base, ParseListingUrl(base, url).value.0, ParseListingUrl(base, url).value.1)
  {
    var digits := TrailingDigits(url);
    var head := url[..|url| - |digits|];
    var path := head[..|head| - 6];
    var c := PathCategory(base, path).value;
    CanonicalRoundTrip(digits);
    assert head == path + "?page=";
    assert url == head + digits;
    assert path == ListingPath(base, c);
  }

  /** The reader accepts exactly the addresses the builder produces:
      an address reads as category `c` and page `p` if and only if it is
      `ListingUrl(base, c, p)`. So every listing address has one of the two
      forms of the listing path, followed by `?page=` and the canonical
      decimal page number. */
  lemma ListingUrlExact(base: string, url: string, c: string, p: nat)
    ensures ParseListingUrl(base, url) == Some((c, p)) <==> url == ListingUrl(base, c, p)
  {
    if url == ListingUrl(base, c, p) {
      ListingUrlRoundTrip(base, c, p);
    }
    if ParseListingUrl(base, url) == Some((c, p)) {
      ReadsOnlyListingUrls(base, url);
    }
  }
}
