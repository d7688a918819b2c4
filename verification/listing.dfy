/** The listing-page parser (`_parse_product_listing`): card by card, in
    document order, either build a `Product` (fetching its product page),
    skip the card, or abort the whole scrape. */
module Listing {
  import opened Options
  import opened Text
  import opened Documents
  import opened Details
  import opened Seqs

  /** Faults caught per card by `except (AttributeError, ValueError)`. */
  datatype SkipReason =
    | NoName          // `.product-name` missing: `None.text`
    | NoPrice         // `.product-price` missing
    | BadPrice        // `float(price_str)` raised ValueError
    | NoDescription   // `.product-description` missing
    | BadRating       // `float(rating_str)` raised ValueError
    | BadUrl          // `urljoin` raised ValueError

  /** Faults the per-card handler does not catch; they escape
      `scrape_products` and end the run. */
  datatype AbortReason =
    | NoRatingElement    // `None['data-rating']`: TypeError
    | NoRatingAttribute  // no `data-rating` attribute: KeyError
    | NoAnchor           // `None['href']`: TypeError
    | NoHref             // no `href` attribute: KeyError

  datatype CardOutcome =
    | Accepted(fields: Listed)
    | Skipped(skip: SkipReason)
    | Aborted(abort: AbortReason)

  /** The text handed to `float` for the price: stripped, every `$` removed. */
  function PriceText(e: Element): string {
    RemoveAll(Strip(e.text), '$')
  }

  /** The price text keeps every character of the stripped text but `$`:
      a price shown as "$" followed by a number reaches `float` as the bare
      number, and dollar signs elsewhere in the text are removed too. */
  lemma DollarSignDropped(e: Element, amount: string)
    requires Strip(e.text) == "$" + amount
    ensures PriceText(e) == RemoveAll(amount, '$')
    ensures '$' !in amount ==> PriceText(e) == amount
  {
    RemoveAllDropsHead('$', amount);
    if '$' !in amount {
      RemoveAllAbsent(amount, '$');
    }
  }

  /** A card that builds a product: every element and attribute the parser
      reads is there, both numbers parse and the link joins to the base
      address. Stated without regard to the
      order of the checks. */
  predicate WellFormed(env: Env, card: Card) {
    && card.name.Some? && card.price.Some? && card.description.Some?
    && card.rating.Some? && "data-rating" in card.rating.value.attrs
    && card.anchor.Some? && "href" in card.anchor.value.attrs
    && env.parseFloat(PriceText(card.price.value)).Some?
    && env.parseFloat(card.rating.value.attrs["data-rating"]).Some?
    && env.urljoin(env.base, card.anchor.value.attrs["href"]).Some?
  }

  /** A fault met before the rating element is looked at. */
  predicate EarlyFault(env: Env, card: Card) {
    || card.name.None? || card.price.None?
    || env.parseFloat(PriceText(card.price.value)).None?
    || card.description.None?
  }

  /** A missing rating element or attribute, or (the rating being a number)
      a missing anchor or `href`. */
  predicate StructuralFault(env: Env, card: Card) {
    || card.rating.None?
    || "data-rating" !in card.rating.value.attrs
    || (env.parseFloat(card.rating.value.attrs["data-rating"]).Some?
        && (card.anchor.None? || "href" !in card.anchor.value.attrs))
  }

  /** The body of the `try` block in `_parse_product_listing` for one card,
      up to the product-page fetch. */
  function ParseCard(env: Env, card: Card): CardOutcome
  {
    if card.name.None? then Skipped(NoName)
    else
      var name := Strip(card.name.value.text);
      if card.price.None? then Skipped(NoPrice)
      else match env.parseFloat(PriceText(card.price.value))
      case None => Skipped(BadPrice)
      case Some(price) =>
        if card.description.None? then Skipped(NoDescription)
        else
          var description := Strip(card.description.value.text);
          if card.rating.None? then Aborted(NoRatingElement)
          else if "data-rating" !in card.rating.value.attrs then Aborted(NoRatingAttribute)
          else match env.parseFloat(card.rating.value.attrs["data-rating"])
          case None => Skipped(BadRating)
          case Some(rating) =>
            if card.anchor.None? then Aborted(NoAnchor)
            else if "href" !in card.anchor.value.attrs then Aborted(NoHref)
            else match env.urljoin(env.base, card.anchor.value.attrs["href"])
            case None => Skipped(BadUrl)
            case Some(url) => Accepted(Listed(name, price, description, rating, url))
  }

  /** The card rules: a card builds a product exactly when it is
      well-formed, and then from its stripped texts, its parsed numbers and
      its joined link; a fault on the name, price or description skips it
      whatever else is wrong with it; it aborts the scrape exactly when those
      three are fine and the rating element or attribute is missing, or the
      rating is a number and the anchor or its `href` is missing; and a
      card that gets as far as joining its link is skipped when the join
      fails. */
  lemma CardRules(env: Env, card: Card)
    ensures ParseCard(env, card).Accepted? <==> WellFormed(env, card)
    ensures EarlyFault(env, card) ==> ParseCard(env, card).Skipped?
    ensures ParseCard(env, card).Aborted? <==> !EarlyFault(env, card) && StructuralFault(env, card)
    ensures ParseCard(env, card) == Skipped(BadUrl) <==>
      && !EarlyFault(env, card) && !StructuralFault(env, card)
      && env.parseFloat(card.rating.value.attrs["data-rating"]).Some?
      && env.urljoin(env.base, card.anchor.value.attrs["href"]).None?
    ensures ParseCard(env, card).Accepted? ==> ParseCard(env, card).fields == Listed(
      Strip(card.name.value.text),
      env.parseFloat(PriceText(card.price.value)).value,
      Strip(card.description.value.text),
      env.parseFloat(card.rating.value.attrs["data-rating"]).value,
      env.urljoin(env.base, card.anchor.value.attrs["href"]).value)
  {
    if card.name.None? || card.price.None? {
    } else if env.parseFloat(PriceText(card.price.value)).None? || card.description.None? {
    } else if card.rating.None? || "data-rating" !in card.rating.value.attrs {
    } else if env.parseFloat(card.rating.value.attrs["data-rating"]).None? {
    } else if card.anchor.None? || "href" !in card.anchor.value.attrs {
    } else {
    }
  }

  /** What parsing a run of cards produced: the products built, the product
      pages fetched for them, and the fault that ended it, if any. */
  datatype ListingResult = ListingResult(
    products: seq<Product>,
    detailFetches: seq<string>,
    abort: Option<AbortReason>)

  /** The outcome of every card, in document order. */
  function Outcomes(env: Env, cards: seq<Card>): seq<CardOutcome> {
    MapSeq(card => ParseCard(env, card), cards)
  }

  /** The cards a loop over outcomes accepted, in order, and the fault that
      ended it, if any. */
  datatype Collected = Collected(accepted: seq<Listed>, abort: Option<AbortReason>)

  /** The loop of `_parse_product_listing` over card outcomes: an accepted
      card is kept, a skipped card is passed over, an aborting card ends the
      loop. */
  function Collect(os: seq<CardOutcome>): (c: Collected)
    ensures c.abort.None? <==> forall k :: 0 <= k < |os| ==> !os[k].Aborted?
    decreases |os|
  {
    if |os| == 0 then Collected([], None)
    else
      var rest := Collect(os[1..]);
      assert forall k :: 1 <= k < |os| ==> os[k] == os[1..][k - 1];
      match os[0]
      case Skipped(_) => rest
      case Aborted(why) => Collected([], Some(why))
      case Accepted(fields) => Collected([fields] + rest.accepted, rest.abort)
  }

  /** `_parse_product_listing` on the cards of a listing page: every
      accepted card, in order, has its product page fetched and its product
      built. */
  function ParseListing(env: Env, cards: seq<Card>): (r: ListingResult)
    ensures |r.products| == |r.detailFetches|
    ensures forall i :: 0 <= i < |r.products| ==> r.products[i].url == r.detailFetches[i]
    ensures r.abort.None? <==>
      forall k {:trigger ParseCard(env, cards[k])} :: 0 <= k < |cards| ==> !ParseCard(env, cards[k]).Aborted?
  {
    var c := Collect(Outcomes(env, cards));
    var products := MapSeq(f => Enrich(env, f), c.accepted);
    ListingResult(products, Urls(products), c.abort)
  }

  /** `r` with `products` and `fetched` put in front: what a parse that had
      already produced them goes on to return. */
  function Prefixed(products: seq<Product>, fetched: seq<string>, r: ListingResult): ListingResult {
    ListingResult(products + r.products, fetched + r.detailFetches, r.abort)
  }

  /** `_parse_product_listing` as the source writes it: a loop over the
      cards with a growing product list. It computes `ParseListing`. */
  method ParseProductListing(env: Env, cards: seq<Card>)
    returns (products: seq<Product>, fetched: seq<string>, abort: Option<AbortReason>)
    ensures ListingResult(products, fetched, abort) == ParseListing(env, cards)
  {
    ghost var os := Outcomes(env, cards);
    ghost var kept: seq<Listed> := [];
    products, fetched, abort := [], [], None;
    var i := 0;
    while i < |cards|
      invariant 0 <= i <= |cards|
      invariant Collect(os) == Collected(kept + Collect(os[i..]).accepted, Collect(os[i..]).abort)
      invariant products == MapSeq(f => Enrich(env, f), kept)
      invariant fetched == Urls(products)
    {
      ghost var rest := Collect(os[i + 1..]);
      assert os[i..][1..] == os[i + 1..];
      var outcome := ParseCard(env, cards[i]);
      assert outcome == os[i];
      match outcome {
        case Skipped(_) =>
          assert Collect(os[i..]) == rest;
        case Aborted(why) =>
          abort := Some(why);
          assert Collect(os[i..]) == Collected([], Some(why));
          assert kept + [] == kept;
          return;
        case Accepted(fields) =>
          var details := ProductDetails(env, fields.url);
          var product := Merge(fields, details);
          assert Collect(os[i..]) == Collected([fields] + rest.accepted, rest.abort);
          assert kept + ([fields] + rest.accepted) == (kept + [fields]) + rest.accepted;
          MapSeqAppend(f => Enrich(env, f), kept, [fields]);
          UrlsAppend(products, [product]);
          kept := kept + [fields];
          fetched := fetched + [fields.url];
          products := products + [product];
      }
      i := i + 1;
    }
    assert os[i..] == [];
    assert kept + [] == kept;
  }

  /** Collecting is an order-preserving filter. `rank[k]` counts the
      accepted outcomes before position `k`; the `k`-th outcome, when
      accepted, is kept at position `rank[k]`, and nothing else is kept. */
  lemma {:induction false} CollectRanks(os: seq<CardOutcome>) returns (rank: seq<nat>)
    requires Collect(os).abort.None?
    ensures |rank| == |os| + 1 && rank[0] == 0 && rank[|os|] == |Collect(os).accepted|
    ensures forall k :: 0 <= k < |os| ==> rank[k + 1] == rank[k] + (if os[k].Accepted? then 1 else 0)
    ensures forall k :: 0 <= k < |os| && os[k].Accepted? ==>
      rank[k] < |Collect(os).accepted| && Collect(os).accepted[rank[k]] == os[k].fields
    decreases |os|
  {
    if |os| == 0 {
      rank := [0];
    } else {
      var rest := os[1..];
      var tail := CollectRanks(rest);
      var c, ct := Collect(os), Collect(rest);
      var d := if os[0].Accepted? then 1 else 0;
      rank := [0] + seq(|tail|, i requires 0 <= i < |tail| => tail[i] + d);
      assert forall k :: 1 <= k < |os| ==> os[k] == rest[k - 1];
      assert forall k :: 1 <= k <= |os| ==> rank[k] == tail[k - 1] + d;
      match os[0] {
        case Skipped(_) =>
          assert c == ct;
        case Accepted(f) =>
          assert c.accepted == [f] + ct.accepted;
          forall k | 1 <= k < |os| && os[k].Accepted?
            ensures rank[k] < |c.accepted| && c.accepted[rank[k]] == os[k].fields
          {
            assert c.accepted[rank[k]] == ct.accepted[tail[k - 1]];
          }
      }
    }
  }

  /** The parser is an order-preserving filter over the cards of a page with
      no aborting card: `rank[k]` counts the cards before card `k` that pass;
      a passing card `k` yields product number `rank[k]`, enriched from its
      own product page; a skipped card yields no product and costs no fetch
      (`detailFetches[i]` is `products[i].url`). */
  lemma ParseListingRanks(env: Env, cards: seq<Card>) returns (rank: seq<nat>)
    requires ParseListing(env, cards).abort.None?
    ensures |rank| == |cards| + 1 && rank[0] == 0 && rank[|cards|] == |ParseListing(env, cards).products|
    ensures forall k :: 0 <= k < |cards| ==>
      rank[k + 1] == rank[k] + (if ParseCard(env, cards[k]).Accepted? then 1 else 0)
    ensures forall k :: 0 <= k < |cards| && ParseCard(env, cards[k]).Accepted? ==>
      rank[k] < |ParseListing(env, cards).products|
      && ParseListing(env, cards).products[rank[k]] == Enrich(env, ParseCard(env, cards[k]).fields)
  {
    rank := CollectRanks(Outcomes(env, cards));
  }

  /** Collecting distributes over a split of the outcomes when the first
      part does not abort. */
  lemma {:induction false} CollectAppend(a: seq<CardOutcome>, b: seq<CardOutcome>)
    requires Collect(a).abort.None?
    ensures Collect(a + b) == Collected(Collect(a).accepted + Collect(b).accepted, Collect(b).abort)
    decreases |a|
  {
    if |a| == 0 {
      assert a + b == b;
    } else {
      assert (a + b)[1..] == a[1..] + b;
      assert (a + b)[0] == a[0];
      CollectAppend(a[1..], b);
      var r, rb := Collect(a[1..]), Collect(b);
      match a[0] {
        case Skipped(_) =>
        case Accepted(f) =>
          assert [f] + (r.accepted + rb.accepted) == ([f] + r.accepted) + rb.accepted;
      }
    }
  }

  /** Parsing distributes over a split of the cards, as long as the first
      part does not abort: one card never affects how another is handled. */
  lemma ParseListingAppend(env: Env, a: seq<Card>, b: seq<Card>)
    requires ParseListing(env, a).abort.None?
    ensures ParseListing(env, a + b) ==
      Prefixed(ParseListing(env, a).products, ParseListing(env, a).detailFetches, ParseListing(env, b))
  {
    MapSeqAppend(card => ParseCard(env, card), a, b);
    var ca, cb := Collect(Outcomes(env, a)), Collect(Outcomes(env, b));
    CollectAppend(Outcomes(env, a), Outcomes(env, b));
    MapSeqAppend(f => Enrich(env, f), ca.accepted, cb.accepted);
    UrlsAppend(MapSeq(f => Enrich(env, f), ca.accepted), MapSeq(f => Enrich(env, f), cb.accepted));
  }

  /** Collecting stops at the first aborting outcome, having kept exactly
      the accepted outcomes before it. */
  lemma {:induction false} CollectAbortAt(os: seq<CardOutcome>) returns (j: nat)
    requires Collect(os).abort.Some?
    ensures j < |os|
    ensures os[j] == Aborted(Collect(os).abort.value)
    ensures forall k :: 0 <= k < j ==> !os[k].Aborted?
    ensures Collect(os).accepted == Collect(os[..j]).accepted
    decreases |os|
  {
    var rest := os[1..];
    if os[0].Aborted? {
      j := 0;
    } else {
      var t := CollectAbortAt(rest);
      j := t + 1;
      assert forall k :: 1 <= k < |os| ==> os[k] == rest[k - 1];
      assert os[..j][1..] == rest[..t];
    }
  }

  /** A page that aborts does so at its first aborting card, with that
      card's fault, after fetching the product pages of exactly the cards
      before it that passed. */
  lemma ParseListingAbortAt(env: Env, cards: seq<Card>) returns (j: nat)
    requires ParseListing(env, cards).abort.Some?
    ensures j < |cards|
    ensures ParseCard(env, cards[j]) == Aborted(ParseListing(env, cards).abort.value)
    ensures forall k :: 0 <= k < j ==> !ParseCard(env, cards[k]).Aborted?
    ensures ParseListing(env, cards).detailFetches == ParseListing(env, cards[..j]).detailFetches
  {
    var os := Outcomes(env, cards);
    j := CollectAbortAt(os);
    MapSeqPrefix(card => ParseCard(env, card), cards, j);
  }
}
