/**
 * Field extraction from one job card and the collector loop (main.py).
 * A card is abstract: looking up a CSS selector finds an element or nothing
 * (Selenium's `NoSuchElementException`). The browser driver is not modelled.
 */
module Scraper {
  import opened Wrappers
  import opened Schemas
  import opened Batch

  /** What the pipeline reads from a found element: its `.text` and its `href` attribute, which may be absent. */
  datatype Element = Element(text: string, href: Option<string>)

  /** A job card: `find_element` by CSS selector. */
  type Card = string -> Option<Element>

  const TitleSelector := "h2.jobTitle span"
  const CompanySelector := "span[data-testid=\"company-name\"]"
  const LocationSelector := "div[data-testid=\"text-location\"]"
  const SummarySelector := "ul li"
  const LinkSelector := "h2.jobTitle a"

  /** The selector each extracted key is looked up with. */
  const FieldSelectors: map<string, string> := map[
    "title" := TitleSelector,
    "company" := CompanySelector,
    "location" := LocationSelector,
    "summary" := SummarySelector,
    "job_link" := LinkSelector]

  /**
   * The value of one extracted key, given only what its own lookup found:
   * a text field falls back to `""`, the link to `None`.
   */
  function FieldFromLookup(key: string, found: Option<Element>): (v: Value)
    ensures key == "job_link" ==> (v.Str? <==> found.Some? && found.value.href.Some?)
    ensures key == "job_link" && v.Str? ==> v.s == found.value.href.value
    ensures key != "job_link" ==> v.Str?
    ensures key != "job_link" && found.None? ==> v == Str("")
    ensures key != "job_link" && found.Some? ==> v == Str(found.value.text)
  {
    if key == "job_link" then
      if found.Some? && found.value.href.Some? then Str(found.value.href.value) else Null
    else
      Str(if found.Some? then found.value.text else "")
  }

  /** `.text` of the element the selector finds, or `""` when there is none. */
  function TextOrEmpty(card: Card, selector: string): (text: string)
    ensures card(selector).None? ==> text == ""
    ensures card(selector).Some? ==> text == card(selector).value.text
  {
    match card(selector)
    case Some(element) => element.text
    case None => ""
  }

  /**
   * `extract_job_details`: five independent guarded lookups. It never fails,
   * always yields the same five keys, and each key's value depends only on
   * its own lookup.
   */
  function ExtractJobDetails(card: Card): (details: Fields)
    ensures details.Keys == FieldSelectors.Keys
    ensures forall key :: key in details ==> details[key] == FieldFromLookup(key, card(FieldSelectors[key]))
  {
    var title := TextOrEmpty(card, TitleSelector);
    var company := TextOrEmpty(card, CompanySelector);
    var location := TextOrEmpty(card, LocationSelector);
    var summary := TextOrEmpty(card, SummarySelector);
    var jobLink := match card(LinkSelector)
      case Some(element) => element.href
      case None => None;
    map[
      "title" := Str(title),
      "company" := Str(company),
      "location" := Str(location),
      "summary" := Str(summary),
      "job_link" := if jobLink.Some? then Str(jobLink.value) else Null]
  }

  /** A card on which no lookup finds anything gives four empty strings and no link. */
  lemma EmptyCardDetails(card: Card)
    requires forall selector :: card(selector) == None
    ensures ExtractJobDetails(card) == map[
      "title" := Str(""), "company" := Str(""), "location" := Str(""),
      "summary" := Str(""), "job_link" := Null]
  {
    var details := ExtractJobDetails(card);
    assert forall key :: key in details ==> details[key] == FieldFromLookup(key, None);
  }

  /** Two cards that agree on one selector agree on the field looked up with it, whatever the others find. */
  lemma LookupsAreIsolated(card1: Card, card2: Card, key: string)
    requires key in FieldSelectors
    requires card1(FieldSelectors[key]) == card2(FieldSelectors[key])
    ensures key in ExtractJobDetails(card1) && key in ExtractJobDetails(card2)
    ensures ExtractJobDetails(card1)[key] == ExtractJobDetails(card2)[key]
  {
  }

  /** Extraction then validation of one card (main.py, lines 98-100). */
  function CollectOne(card: Card, validUrl: string -> bool): (r: Result<JobPosting, seq<FieldError>>)
    ensures r.Err? ==> r.error != [] && forall e :: e in r.error ==> e.NotAUrl? && e.name == "job_link"
  {
    var details := ExtractJobDetails(card);
    assert details["title"] == Str(TextOrEmpty(card, TitleSelector));
    MakeJobPosting(details, validUrl)
  }

  function CollectStep(validUrl: string -> bool): Card -> Result<JobPosting, seq<FieldError>>
  {
    (card: Card) => CollectOne(card, validUrl)
  }

  /**
   * An extracted card always has a string title, so it is rejected exactly
   * when its link lookup found an `href` that is not a valid URL; a card that
   * is kept has the found texts (or `""`) and `Some` of them.
   */
  lemma ExtractedCardValidation(card: Card, validUrl: string -> bool)
    ensures CollectOne(card, validUrl).Err? <==>
              card(LinkSelector).Some? && card(LinkSelector).value.href.Some?
              && !validUrl(card(LinkSelector).value.href.value)
    ensures CollectOne(card, validUrl).Ok? ==>
              var job := CollectOne(card, validUrl).value;
              && job.title == TextOrEmpty(card, TitleSelector)
              && job.company == Some(TextOrEmpty(card, CompanySelector))
              && job.location == Some(TextOrEmpty(card, LocationSelector))
              && job.summary == Some(TextOrEmpty(card, SummarySelector))
              && (job.jobLink.Some? <==> card(LinkSelector).Some? && card(LinkSelector).value.href.Some?)
  {
    var details := ExtractJobDetails(card);
    assert details["title"] == Str(TextOrEmpty(card, TitleSelector));
    assert details["company"] == Str(TextOrEmpty(card, CompanySelector));
    assert details["location"] == Str(TextOrEmpty(card, LocationSelector));
    assert details["summary"] == Str(TextOrEmpty(card, SummarySelector));
    assert details["job_link"] == FieldFromLookup("job_link", card(LinkSelector));
  }

  /**
   * The loop of `main` (main.py, lines 96-103): extract, validate, append the
   * valid posting or log the validation error, and go on with the next card.
   */
  method CollectPostings(cards: seq<Card>, validUrl: string -> bool)
    returns (jobPostings: seq<JobPosting>, errors: seq<seq<FieldError>>)
    ensures jobPostings == Successes(cards, CollectStep(validUrl))
    ensures errors == Failures(cards, CollectStep(validUrl))
  {
    jobPostings, errors := [], [];
    for i := 0 to |cards|
      invariant jobPostings == Successes(cards[..i], CollectStep(validUrl))
      invariant errors == Failures(cards[..i], CollectStep(validUrl))
    {
      var jobDetails := ExtractJobDetails(cards[i]);
      match MakeJobPosting(jobDetails, validUrl) {
        case Ok(job) => jobPostings := jobPostings + [job];
        case Err(e) => errors := errors + [e];
      }
      PrefixStep(cards, i, CollectStep(validUrl));
    }
    assert cards[..|cards|] == cards;
  }

  /**
   * The collected postings are, in card order, exactly the postings of the
   * cards that validate; an invalid card is skipped without stopping the loop.
   */
  lemma CollectedAreValidCardsInOrder(cards: seq<Card>, validUrl: string -> bool)
    ensures var kept := SuccessIndices(cards, CollectStep(validUrl));
            var jobs := Successes(cards, CollectStep(validUrl));
            && |kept| == |jobs| <= |cards|
            && (forall k :: 0 <= k < |kept| ==>
                  kept[k] < |cards| && CollectOne(cards[kept[k]], validUrl) == Ok(jobs[k]))
            && (forall k, l :: 0 <= k < l < |kept| ==> kept[k] < kept[l])
            && (forall j :: 0 <= j < |cards| ==> (j in kept <==> CollectOne(cards[j], validUrl).Ok?))
  {
    var step := CollectStep(validUrl);
    SuccessesAtIndices(cards, step);
    SuccessIndicesIncrease(cards, step);
    SuccessIndicesExactlyOk(cards, step);
  }

  /** Every card is either collected or logged, so at most |cards| postings are collected. */
  lemma CollectedPlusRejectedIsAllCards(cards: seq<Card>, validUrl: string -> bool)
    ensures |Successes(cards, CollectStep(validUrl))| + |Failures(cards, CollectStep(validUrl))| == |cards|
  {
    SuccessesAndFailuresPartition(cards, CollectStep(validUrl));
  }
}
