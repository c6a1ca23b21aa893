/** The scraping run of movie_scraper.py (lines 10-75) and the session start
    that drives it (lines 100-119). The network and the HTML parser are
    replaced by what they would deliver: each listing page is the response
    to its request, each card the title, link and detail response found on
    it. */
module Scraper {
  import opened Wrappers
  import opened PyStrings
  import opened PyNumbers
  import opened Extraction
  import opened Filter

  // ---------------------------------------------------------------------
  // Inputs: listing pages and the cards on them

  /** The detail request for one card (line 29): it raised, or it answered
      with a status and, for the detail `div` of line 34, the texts of its
      content nodes (`None` when the page has no such `div`). */
  datatype Detail =
    | DetailRaised
    | DetailResponse(status: int, block: Option<seq<string>>)

  /** One movie card of a listing page (line 19): its title and link, `None`
      when the selector at line 26 or 27 finds nothing. */
  datatype Card = Card(title: Option<string>, link: Option<string>, detail: Detail)

  /** The listing request for one page (line 15): it raised, or it answered
      with a status and the cards found on the page. */
  datatype Page =
    | PageRaised
    | PageResponse(status: int, cards: seq<Card>)

  /** One row of `movies_data` (line 68): title, link, description and the
      seven extracted fields, in the column order of the dataset. */
  datatype MovieRecord = MovieRecord(title: string, link: string, description: string, fields: MovieFields)

  /** A request the run sends. */
  datatype Request = ListingGet(url: string) | DetailGet(url: string)

  // ---------------------------------------------------------------------
  // One card (lines 25-70)

  /** Why the `try` block of lines 25-68 raised. */
  datatype CardFailure =
    | NoTitle                     // line 26: no title element
    | NoLink                      // line 27: no poster link
    | FetchRaised                 // line 29: the detail request raised
    | NoDetailBlock               // line 36: the detail `div` is missing
    | NoDescription               // line 36: fewer than two content nodes
    | NoInfoBlock                 // line 38: fewer than three content nodes
    | ExtractFailed(why: ExtractError)  // lines 38-57: an anchor is missing
    | ScoreUnreadable             // line 65: `float` raised on the score

  /** What happens to one card: it is appended, the filter turns it down, a
      non-200 detail response skips it silently (line 31), or the `except`
      at line 69 reports it. */
  datatype CardOutcome =
    | Accepted(record: MovieRecord)
    | Rejected
    | Skipped
    | Failed(why: CardFailure)

  /** Lines 25-70 for one card. */
  function ProcessCard(card: Card, c: Criteria): CardOutcome {
    if card.title.None? then Failed(NoTitle)
    else if card.link.None? then Failed(NoLink)
    else
      match card.detail
      case DetailRaised => Failed(FetchRaised)
      case DetailResponse(status, block) =>
        if status != 200 then Skipped
        else if block.None? then Failed(NoDetailBlock)
        else if |block.value| < 2 then Failed(NoDescription)
        else if |block.value| < 3 then Failed(NoInfoBlock)
        else Judge(card.title.value, card.link.value, block.value[1], block.value[2], c)
  }

  /** Lines 38-68: the fields are cut from the info text and the record is
      kept, dropped, or `float` raises on its score. */
  function Judge(title: string, link: string, description: string, info: string, c: Criteria): CardOutcome {
    match Extract(info)
    case Failure(e) => Failed(ExtractFailed(e))
    case Success(m) =>
      match Decide(m, c)
      case Keep => Accepted(MovieRecord(title, link, description, m))
      case Drop => Rejected
      case ScoreRaises => Failed(ScoreUnreadable)
  }

  /** The detail request a card causes: one, once its title and link are
      found. */
  function CardRequests(card: Card): seq<Request> {
    if card.title.Some? && card.link.Some? then [DetailGet(card.link.value)] else []
  }

  // ---------------------------------------------------------------------
  // What a run produces

  /** Records appended, requests sent and errors reported, in order. */
  datatype Tally = Tally(records: seq<MovieRecord>, requests: seq<Request>, errors: nat) {
    /** This tally followed by `next`. */
    function Then(next: Tally): Tally {
      Tally(records + next.records, requests + next.requests, errors + next.errors)
    }
  }

  const NoTally := Tally([], [], 0)

  /** The contribution of one card. */
  function CardTally(card: Card, c: Criteria): Tally {
    var outcome := ProcessCard(card, c);
    Tally(if outcome.Accepted? then [outcome.record] else [],
          CardRequests(card),
          if outcome.Failed? then 1 else 0)
  }

  /** The contribution of the cards of one page, in listing order. */
  function CardsTally(cards: seq<Card>, c: Criteria): Tally
    decreases |cards|
  {
    if cards == [] then NoTally
    else CardsTally(cards[..|cards| - 1], c).Then(CardTally(cards[|cards| - 1], c))
  }

  /** Why the page loop ended, and on which page. */
  datatype RunEnd =
    | EmptyListing(page: nat)              // line 22: no cards on the page
    | BadStatus(page: nat, status: int)    // lines 73-75
    | ListingFailed(page: nat)             // line 15 raised; nothing catches it

  datatype Run = Run(tally: Tally, end: RunEnd)

  /** The URL of listing page `n` (line 14). */
  function PageUrl(base: string, n: nat): string
    requires n >= 1
  {
    if n == 1 then base else base + "page/" + ShowNat(n) + "/"
  }

  /** The response to listing page `n`; the site serves an empty listing
      after the last page given. */
  function PageAt(pages: seq<Page>, n: nat): Page
    requires n >= 1
  {
    if n <= |pages| then pages[n - 1] else PageResponse(200, [])
  }

  /** Whether the loop stops on this page. */
  predicate IsStop(p: Page) {
    p.PageRaised? || p.status != 200 || p.cards == []
  }

  /** How the loop ends on a stop page. */
  function StopEnd(p: Page, n: nat): RunEnd
    requires IsStop(p)
  {
    match p
    case PageRaised => ListingFailed(n)
    case PageResponse(status, _) => if status == 200 then EmptyListing(n) else BadStatus(n, status)
  }

  /** What the cards of a page contribute when the loop processes them. */
  function PageTally(p: Page, c: Criteria): Tally {
    if p.PageResponse? then CardsTally(p.cards, c) else NoTally
  }

  /** The contribution of each page given, in order. */
  function PageTallies(pages: seq<Page>, c: Criteria): (ts: seq<Tally>)
    ensures |ts| == |pages|
  {
    if pages == [] then [] else [PageTally(pages[0], c)] + PageTallies(pages[1..], c)
  }

  lemma {:induction false} PageTallyAt(pages: seq<Page>, c: Criteria, i: nat)
    requires i < |pages|
    ensures PageTallies(pages, c)[i] == PageTally(pages[i], c)
  {
    if i > 0 {
      PageTallyAt(pages[1..], c, i - 1);
    }
  }

  /** The page loop of lines 13-75 from page `n` on, with `tallies[n - 1]`
      standing for what the cards of page `n` contribute. */
  function Loop(base: string, pages: seq<Page>, tallies: seq<Tally>, n: nat): Run
    requires n >= 1 && |tallies| == |pages|
    decreases |pages| + 1 - n
  {
    var fetch := Tally([], [ListingGet(PageUrl(base, n))], 0);
    match PageAt(pages, n)
    case PageRaised => Run(fetch, ListingFailed(n))
    case PageResponse(status, cards) =>
      if status != 200 then Run(fetch, BadStatus(n, status))
      else if cards == [] then Run(fetch, EmptyListing(n))
      else
        var rest := Loop(base, pages, tallies, n + 1);
        Run(fetch.Then(tallies[n - 1]).Then(rest.tally), rest.end)
  }

  /** The page loop of lines 13-75, from page `n` on. */
  function RunFrom(base: string, c: Criteria, pages: seq<Page>, n: nat): Run
    requires n >= 1
  {
    Loop(base, pages, PageTallies(pages, c), n)
  }

  /** A whole call of `scrape_movies`. */
  function RunAll(base: string, c: Criteria, pages: seq<Page>): Run {
    RunFrom(base, c, pages, 1)
  }

  // ---------------------------------------------------------------------
  // The session (lines 93-94, 114-119)

  /** The catalogue address of line 118. */
  const BaseUrl: string := "https://ww4.123moviesfree.net/movies/"

  /** The filter form of lines 100-106: an untouched text box gives "". */
  function FormCriteria(minImdb: real, genre: string, actor: string, director: string,
                        country: string, duration: string, releaseYear: string): Criteria
  {
    Criteria(minImdb, Some(genre), Some(actor), Some(director), Some(country),
             Some(duration), Some(releaseYear))
  }

  class Session {
    /** `st.session_state.movies_data`. */
    var moviesData: seq<MovieRecord>

    /** Lines 93-94: a new session starts with no data. */
    constructor()
      ensures moviesData == []
    {
      moviesData := [];
    }

    /** `scrape_movies` (lines 10-75): walks the listing pages from page 1,
        appends every accepted card to `moviesData` in discovery order, and
        returns the requests it sent, the errors it reported and how the
        loop ended. */
    method ScrapeMovies(base: string, c: Criteria, pages: seq<Page>)
      returns (requests: seq<Request>, errors: nat, end: RunEnd)
      modifies this
      ensures moviesData == old(moviesData) + RunAll(base, c, pages).tally.records
      ensures requests == RunAll(base, c, pages).tally.requests
      ensures errors == RunAll(base, c, pages).tally.errors
      ensures end == RunAll(base, c, pages).end
    {
      var page := 1;
      requests := [];
      errors := 0;
      ghost var collected: seq<MovieRecord> := [];
      ghost var ts := PageTallies(pages, c);
      ghost var all := Loop(base, pages, ts, 1);
      AccountedAtStart(base, pages, ts);
      NoneAdded(moviesData);
      while true
        invariant 1 <= page <= |pages| + 1
        invariant moviesData == old(moviesData) + collected
        invariant Accounted(base, pages, ts, page, all, collected, requests, errors)
        decreases |pages| + 1 - page
      {
        ghost var before := requests;
        var url := PageUrl(base, page);
        requests := requests + [ListingGet(url)];
        var response := PageAt(pages, page);
        if response.PageRaised? {
          // the request at line 15 is outside the `try`: the call ends here
          end := ListingFailed(page);
          AccountedAtStop(base, pages, ts, page, all, collected, before, errors);
          return;
        }
        if response.status != 200 {
          end := BadStatus(page, response.status);
          AccountedAtStop(base, pages, ts, page, all, collected, before, errors);
          return;
        }
        var cards := response.cards;
        if cards == [] {
          end := EmptyListing(page);
          AccountedAtStop(base, pages, ts, page, all, collected, before, errors);
          return;
        }
        ghost var t := ts[page - 1];
        PageTallyAt(pages, c, page - 1);
        var pageRequests, pageErrors := ScrapeCards(cards, c);
        AccountedStep(base, pages, ts, page, all, collected, before, errors);
        Assoc(old(moviesData), collected, t.records);
        requests := requests + pageRequests;
        errors := errors + pageErrors;
        collected := collected + t.records;
        page := page + 1;
      }
    }

    /** Lines 24-70: the cards of one listing page, in listing order. */
    method ScrapeCards(cards: seq<Card>, c: Criteria) returns (requests: seq<Request>, errors: nat)
      modifies this
      ensures moviesData == old(moviesData) + CardsTally(cards, c).records
      ensures requests == CardsTally(cards, c).requests
      ensures errors == CardsTally(cards, c).errors
    {
      requests := [];
      errors := 0;
      ghost var collected: seq<MovieRecord> := [];
      for i := 0 to |cards|
        invariant moviesData == old(moviesData) + collected
        invariant collected == CardsTally(cards[..i], c).records
        invariant requests == CardsTally(cards[..i], c).requests
        invariant errors == CardsTally(cards[..i], c).errors
      {
        var card := cards[i];
        CardsTallySnoc(cards, i, c);
        if card.title.Some? && card.link.Some? {
          requests := requests + [DetailGet(card.link.value)];
        } else {
          NoneAdded(requests);
        }
        var outcome := ProcessCard(card, c);
        if outcome.Accepted? {
          Assoc(old(moviesData), collected, [outcome.record]);
          moviesData := moviesData + [outcome.record];
          collected := collected + [outcome.record];
        } else {
          NoneAdded(collected);
          if outcome.Failed? {
            errors := errors + 1;
          }
        }
      }
      assert cards[..|cards|] == cards;
    }

    /** Lines 114-119: a run clears the dataset and scrapes the catalogue
        with the criteria of the form. */
    method StartScraping(c: Criteria, pages: seq<Page>)
      returns (requests: seq<Request>, errors: nat, end: RunEnd)
      modifies this
      ensures moviesData == RunAll(BaseUrl, c, pages).tally.records
      ensures requests == RunAll(BaseUrl, c, pages).tally.requests
      ensures errors == RunAll(BaseUrl, c, pages).tally.errors
      ensures end == RunAll(BaseUrl, c, pages).end
    {
      moviesData := [];
      requests, errors, end := ScrapeMovies(BaseUrl, c, pages);
    }
  }

  // ---------------------------------------------------------------------
  // Tallies compose

  /** Tallies compose associatively. */
  lemma {:induction false} ThenAssoc(a: Tally, b: Tally, d: Tally)
    ensures a.Then(b).Then(d) == a.Then(b.Then(d))
  {
    assert a.records + b.records + d.records == a.records + (b.records + d.records);
    assert a.requests + b.requests + d.requests == a.requests + (b.requests + d.requests);
  }

  /** The empty tally adds nothing. */
  lemma {:induction false} ThenUnit(a: Tally)
    ensures a.Then(NoTally) == a && NoTally.Then(a) == a
  {
    assert a.records + [] == a.records;
    assert a.requests + [] == a.requests;
  }

  /** The tally of the first `i + 1` cards extends that of the first `i`. */
  lemma {:induction false} CardsTallySnoc(cards: seq<Card>, i: nat, c: Criteria)
    requires i < |cards|
    ensures var t := CardsTally(cards[..i], c);
      var u := CardTally(cards[i], c);
      CardsTally(cards[..i + 1], c) == Tally(t.records + u.records, t.requests + u.requests, t.errors + u.errors)
  {
    assert cards[..i + 1][..i] == cards[..i];
  }

  // ---------------------------------------------------------------------
  // One step of the page loop

  /** What the loop has produced before page `n`, followed by what the run
      produces from page `n` on, is the whole run `all`. */
  predicate Accounted(base: string, pages: seq<Page>, ts: seq<Tally>, n: nat, all: Run,
                      records: seq<MovieRecord>, requests: seq<Request>, errors: nat)
    requires n >= 1 && |ts| == |pages|
  {
    var r := Loop(base, pages, ts, n);
    records + r.tally.records == all.tally.records &&
    requests + r.tally.requests == all.tally.requests &&
    errors + r.tally.errors == all.tally.errors &&
    r.end == all.end
  }

  lemma {:induction false} AccountedAtStart(base: string, pages: seq<Page>, ts: seq<Tally>)
    requires |ts| == |pages|
    ensures Accounted(base, pages, ts, 1, Loop(base, pages, ts, 1), [], [], 0)
  {
    var all := Loop(base, pages, ts, 1);
    assert [] + all.tally.records == all.tally.records;
    assert [] + all.tally.requests == all.tally.requests;
  }

  /** On a stop page the loop sends the listing request and ends. */
  lemma {:induction false} LoopStop(base: string, pages: seq<Page>, ts: seq<Tally>, n: nat)
    requires n >= 1 && |ts| == |pages| && IsStop(PageAt(pages, n))
    ensures Loop(base, pages, ts, n) ==
      Run(Tally([], [ListingGet(PageUrl(base, n))], 0), StopEnd(PageAt(pages, n), n))
  {
  }

  /** A stop page ends the run after its own listing request. */
  lemma {:induction false} AccountedAtStop(base: string, pages: seq<Page>, ts: seq<Tally>, n: nat, all: Run,
                                           records: seq<MovieRecord>, requests: seq<Request>, errors: nat)
    requires n >= 1 && |ts| == |pages| && IsStop(PageAt(pages, n))
    requires Accounted(base, pages, ts, n, all, records, requests, errors)
    ensures records == all.tally.records
    ensures requests + [ListingGet(PageUrl(base, n))] == all.tally.requests
    ensures errors == all.tally.errors
    ensures all.end == StopEnd(PageAt(pages, n), n)
  {
    LoopStop(base, pages, ts, n);
    NoneAdded(records);
  }

  /** A page with cards contributes its listing request and its cards, and
      the run goes on with the next page. */
  lemma {:induction false} LoopStep(base: string, pages: seq<Page>, ts: seq<Tally>, n: nat)
    requires n >= 1 && |ts| == |pages| && !IsStop(PageAt(pages, n))
    ensures n <= |pages|
    ensures var here := Loop(base, pages, ts, n);
      var t := ts[n - 1];
      var rest := Loop(base, pages, ts, n + 1);
      here.tally.records == t.records + rest.tally.records &&
      here.tally.requests == [ListingGet(PageUrl(base, n))] + t.requests + rest.tally.requests &&
      here.tally.errors == t.errors + rest.tally.errors &&
      here.end == rest.end
  {
    var t := ts[n - 1];
    assert [] + t.records == t.records;
  }

  /** The loop's bookkeeping holds again after a page with cards. */
  lemma {:induction false} AccountedStep(base: string, pages: seq<Page>, ts: seq<Tally>, n: nat, all: Run,
                                         records: seq<MovieRecord>, requests: seq<Request>, errors: nat)
    requires n >= 1 && |ts| == |pages| && !IsStop(PageAt(pages, n))
    requires Accounted(base, pages, ts, n, all, records, requests, errors)
    ensures n <= |pages|
    ensures var t := ts[n - 1];
      Accounted(base, pages, ts, n + 1, all, records + t.records,
                requests + [ListingGet(PageUrl(base, n))] + t.requests, errors + t.errors)
  {
    var t := ts[n - 1];
    var rest := Loop(base, pages, ts, n + 1);
    var l := [ListingGet(PageUrl(base, n))];
    LoopStep(base, pages, ts, n);
    Assoc(records, t.records, rest.tally.records);
    Assoc(requests + l, t.requests, rest.tally.requests);
    Assoc(requests, l, t.requests + rest.tally.requests);
    Assoc(l, t.requests, rest.tally.requests);
  }

  lemma {:induction false} Assoc<T>(a: seq<T>, b: seq<T>, d: seq<T>)
    ensures a + b + d == a + (b + d)
  {
  }

  lemma {:induction false} NoneAdded<T>(a: seq<T>)
    ensures a + [] == a
  {
  }

  // ---------------------------------------------------------------------
  // One card

  /** A card whose title and link were found, whose detail request answered
      200, and whose detail block has the three content nodes lines 36-38
      read. */
  predicate Delivered(card: Card) {
    card.title.Some? && card.link.Some? && card.detail.DetailResponse? &&
    card.detail.status == 200 && card.detail.block.Some? && |card.detail.block.value| >= 3
  }

  /** The text the fields are cut from: the third content node (line 38). */
  function InfoText(card: Card): string
    requires Delivered(card)
  {
    card.detail.block.value[2]
  }

  /** A card is appended exactly when it was delivered, its fields could be
      extracted and they pass the filter. */
  lemma {:induction false} AcceptedIff(card: Card, c: Criteria)
    ensures ProcessCard(card, c).Accepted? <==>
      Delivered(card) && Extract(InfoText(card)).Success? &&
      Admissible(Extract(InfoText(card)).value, c)
  {
    if Delivered(card) {
      var block := card.detail.block.value;
      DeliveredIsJudged(card, c);
      JudgeAccepts(card.title.value, card.link.value, block[1], block[2], c);
    } else {
      UndeliveredIsNotAccepted(card, c);
    }
  }

  /** A delivered card is judged on its title, link, description and info
      text. */
  lemma {:induction false} DeliveredIsJudged(card: Card, c: Criteria)
    requires Delivered(card)
    ensures var block := card.detail.block.value;
      ProcessCard(card, c) == Judge(card.title.value, card.link.value, block[1], block[2], c)
  {
  }

  /** A card that was not delivered is never appended. */
  lemma {:induction false} UndeliveredIsNotAccepted(card: Card, c: Criteria)
    requires !Delivered(card)
    ensures !ProcessCard(card, c).Accepted?
  {
    if card.title.Some? && card.link.Some? && card.detail.DetailResponse? &&
       card.detail.status == 200 && card.detail.block.Some? {
      assert |card.detail.block.value| < 3;
    }
  }

  /** The record kept for an info text is the one it describes. */
  lemma {:induction false} JudgeAccepts(title: string, link: string, description: string, info: string, c: Criteria)
    ensures Judge(title, link, description, info, c).Accepted? <==>
      Extract(info).Success? && Admissible(Extract(info).value, c)
    ensures Judge(title, link, description, info, c).Accepted? ==>
      Judge(title, link, description, info, c).record == MovieRecord(title, link, description, Extract(info).value)
  {
    match Extract(info)
    case Failure(_) =>
    case Success(m) =>
      DecideMeaning(m, c);
  }

  /** What every stored record satisfies: it passed the filter, its score is
      not the sentinel "-", and its fields have the shape extraction gives
      them. */
  predicate Sound(r: MovieRecord, c: Criteria) {
    Admissible(r.fields, c) && r.fields.imdb != "-" && FieldsShaped(r.fields)
  }

  predicate AllSound(rs: seq<MovieRecord>, c: Criteria) {
    forall i :: 0 <= i < |rs| ==> Sound(rs[i], c)
  }

  lemma {:induction false} AcceptedIsSound(card: Card, c: Criteria)
    requires ProcessCard(card, c).Accepted?
    ensures Sound(ProcessCard(card, c).record, c)
  {
    assert Delivered(card);
    ExtractedFieldsShape(InfoText(card));
    DecideMeaning(Extract(InfoText(card)).value, c);
  }

  lemma {:induction false} AllSoundAppend(a: seq<MovieRecord>, b: seq<MovieRecord>, c: Criteria)
    requires AllSound(a, c) && AllSound(b, c)
    ensures AllSound(a + b, c)
  {
    forall i | 0 <= i < |a + b| ensures Sound((a + b)[i], c) {
      if i >= |a| {
        assert (a + b)[i] == b[i - |a|];
      }
    }
  }

  /** A card whose `try` block raised adds its error and nothing else: the
      cards before and after it contribute as if it were not there, apart
      from the detail request it sent. */
  lemma {:induction false} FailingCardIsIsolated(before: seq<Card>, card: Card, after: seq<Card>, c: Criteria)
    requires ProcessCard(card, c).Failed?
    ensures var t := CardsTally(before + [card] + after, c);
      t.records == CardsTally(before, c).records + CardsTally(after, c).records &&
      t.errors == CardsTally(before, c).errors + 1 + CardsTally(after, c).errors &&
      t.requests == CardsTally(before, c).requests + CardRequests(card) + CardsTally(after, c).requests
  {
    var b := CardsTally(before, c);
    var a := CardsTally(after, c);
    CardsTallyAppend(before + [card], after, c);
    CardsTallyAppend(before, [card], c);
    assert [card][..0] == [];
    ThenUnit(CardTally(card, c));
    NoneAdded(b.records);
  }

  /** A detail text without "Director:" makes the card fail (the IndexError
      of line 44 or an earlier one), so it is reported and skipped. */
  lemma {:induction false} MissingDirectorFails(card: Card, c: Criteria)
    requires Delivered(card) && !Contains(InfoText(card), "Director:")
    ensures ProcessCard(card, c).Failed? && ProcessCard(card, c).why.ExtractFailed?
  {
    ExtractSucceedsIff(InfoText(card));
  }

  // ---------------------------------------------------------------------
  // The cards of a page

  lemma {:induction false} CardsTallyAppend(xs: seq<Card>, ys: seq<Card>, c: Criteria)
    ensures CardsTally(xs + ys, c) == CardsTally(xs, c).Then(CardsTally(ys, c))
    decreases |ys|
  {
    if ys == [] {
      assert xs + ys == xs;
      ThenUnit(CardsTally(xs, c));
    } else {
      var zs := ys[..|ys| - 1];
      var y := ys[|ys| - 1];
      assert (xs + ys)[..|xs + ys| - 1] == xs + zs;
      assert (xs + ys)[|xs + ys| - 1] == y;
      CardsTallyAppend(xs, zs, c);
      ThenAssoc(CardsTally(xs, c), CardsTally(zs, c), CardTally(y, c));
    }
  }

  /** Every record the cards of a page produce is sound. */
  lemma {:induction false} CardsSound(cards: seq<Card>, c: Criteria)
    ensures AllSound(CardsTally(cards, c).records, c)
    decreases |cards|
  {
    if cards != [] {
      var last := cards[|cards| - 1];
      CardsSound(cards[..|cards| - 1], c);
      if ProcessCard(last, c).Accepted? {
        AcceptedIsSound(last, c);
      }
      AllSoundAppend(CardsTally(cards[..|cards| - 1], c).records, CardTally(last, c).records, c);
    }
  }

  // ---------------------------------------------------------------------
  // The page loop

  lemma {:induction false} LoopSound(base: string, c: Criteria, pages: seq<Page>, ts: seq<Tally>, n: nat)
    requires n >= 1 && |ts| == |pages|
    requires forall i :: 0 <= i < |ts| ==> AllSound(ts[i].records, c)
    ensures AllSound(Loop(base, pages, ts, n).tally.records, c)
    decreases |pages| + 1 - n
  {
    if IsStop(PageAt(pages, n)) {
      LoopStop(base, pages, ts, n);
    } else {
      var rest := Loop(base, pages, ts, n + 1);
      LoopStep(base, pages, ts, n);
      LoopSound(base, c, pages, ts, n + 1);
      AllSoundAppend(ts[n - 1].records, rest.tally.records, c);
    }
  }

  lemma {:induction false} RunFromSound(base: string, c: Criteria, pages: seq<Page>, n: nat)
    requires n >= 1
    ensures AllSound(RunFrom(base, c, pages, n).tally.records, c)
  {
    var ts := PageTallies(pages, c);
    forall i | 0 <= i < |ts| ensures AllSound(ts[i].records, c) {
      PageTallyAt(pages, c, i);
      if pages[i].PageResponse? {
        CardsSound(pages[i].cards, c);
      }
    }
    LoopSound(base, c, pages, ts, n);
  }

  /** Every record a run appends passed every criterion, has a numeric
      score that is not "-" and reaches the threshold, and has trimmed
      fields that stop before their closing anchors. */
  lemma {:induction false} RecordsAreSound(base: string, c: Criteria, pages: seq<Page>)
    ensures AllSound(RunAll(base, c, pages).tally.records, c)
  {
    RunFromSound(base, c, pages, 1);
  }

  /** The run ends on the first stop page at or after `n`: every page before
      it had cards and answered 200, and the end reason is that page's. */
  lemma {:induction false} LoopEndsAtFirstStop(base: string, pages: seq<Page>, ts: seq<Tally>, n: nat)
    requires 1 <= n <= |pages| + 1 && |ts| == |pages|
    ensures var e := Loop(base, pages, ts, n).end.page;
      n <= e <= |pages| + 1 && IsStop(PageAt(pages, e)) &&
      Loop(base, pages, ts, n).end == StopEnd(PageAt(pages, e), e) &&
      forall j :: n <= j < e ==> !IsStop(PageAt(pages, j))
    decreases |pages| + 1 - n
  {
    if IsStop(PageAt(pages, n)) {
      LoopStop(base, pages, ts, n);
    } else {
      LoopStep(base, pages, ts, n);
      LoopEndsAtFirstStop(base, pages, ts, n + 1);
      var rest := Loop(base, pages, ts, n + 1);
      forall j | n < j < rest.end.page ensures !IsStop(PageAt(pages, j)) {
        assert n + 1 <= j;
      }
    }
  }

  /** The run ends on the first stop page at or after `n`: every page before
      it had cards and answered 200, and the end reason is that page's. */
  lemma {:induction false} RunEndsAtFirstStop(base: string, c: Criteria, pages: seq<Page>, n: nat)
    requires 1 <= n <= |pages| + 1
    ensures var e := RunFrom(base, c, pages, n).end.page;
      n <= e <= |pages| + 1 && IsStop(PageAt(pages, e)) &&
      RunFrom(base, c, pages, n).end == StopEnd(PageAt(pages, e), e) &&
      forall j :: n <= j < e ==> !IsStop(PageAt(pages, j))
  {
    LoopEndsAtFirstStop(base, pages, PageTallies(pages, c), n);
  }

  /** Whether some page from `n` on, among those given, stops the loop. */
  predicate StopsWithin(pages: seq<Page>, n: nat)
    requires n >= 1
    decreases |pages| + 1 - n
  {
    n <= |pages| && (IsStop(pages[n - 1]) || StopsWithin(pages, n + 1))
  }

  lemma {:induction false} LoopIgnoresLater(base: string, pages: seq<Page>, more: seq<Page>,
                                            ts: seq<Tally>, later: seq<Tally>, n: nat)
    requires n >= 1 && |ts| == |pages| && |later| == |more| && StopsWithin(pages, n)
    ensures Loop(base, pages + more, ts + later, n) == Loop(base, pages, ts, n)
    decreases |pages| + 1 - n
  {
    assert (pages + more)[n - 1] == pages[n - 1];
    if !IsStop(PageAt(pages, n)) {
      assert (ts + later)[n - 1] == ts[n - 1];
      LoopIgnoresLater(base, pages, more, ts, later, n + 1);
    }
  }

  lemma {:induction false} PageTalliesAppend(pages: seq<Page>, more: seq<Page>, c: Criteria)
    ensures PageTallies(pages + more, c) == PageTallies(pages, c) + PageTallies(more, c)
  {
    if pages != [] {
      assert (pages + more)[0] == pages[0];
      assert (pages + more)[1..] == pages[1..] + more;
      PageTalliesAppend(pages[1..], more, c);
      Assoc([PageTally(pages[0], c)], PageTallies(pages[1..], c), PageTallies(more, c));
    } else {
      assert pages + more == more;
    }
  }

  /** Pages after the one that stops the loop are never requested: the run
      does not depend on them. */
  lemma {:induction false} LaterPagesIgnored(base: string, c: Criteria, pages: seq<Page>, more: seq<Page>, n: nat)
    requires n >= 1 && StopsWithin(pages, n)
    ensures RunFrom(base, c, pages + more, n) == RunFrom(base, c, pages, n)
  {
    PageTalliesAppend(pages, more, c);
    LoopIgnoresLater(base, pages, more, PageTallies(pages, c), PageTallies(more, c), n);
  }

  // ---------------------------------------------------------------------
  // Listing requests

  /** The URLs of the listing requests among `requests`, in order. */
  function ListingUrls(requests: seq<Request>): seq<string> {
    if requests == [] then []
    else (if requests[0].ListingGet? then [requests[0].url] else []) + ListingUrls(requests[1..])
  }

  /** The listing URLs of pages `first` to `last`. */
  function PageUrls(base: string, first: nat, last: nat): seq<string>
    requires first >= 1
    decreases last + 1 - first
  {
    if first > last then [] else [PageUrl(base, first)] + PageUrls(base, first + 1, last)
  }

  lemma {:induction false} ListingUrlsAppend(a: seq<Request>, b: seq<Request>)
    ensures ListingUrls(a + b) == ListingUrls(a) + ListingUrls(b)
  {
    if a == [] {
      assert a + b == b;
    } else {
      assert (a + b)[1..] == a[1..] + b;
      ListingUrlsAppend(a[1..], b);
      Assoc(if a[0].ListingGet? then [a[0].url] else [], ListingUrls(a[1..]), ListingUrls(b));
    }
  }

  /** Processing cards sends detail requests only. */
  lemma {:induction false} CardsSendNoListing(cards: seq<Card>, c: Criteria)
    ensures ListingUrls(CardsTally(cards, c).requests) == []
    decreases |cards|
  {
    if cards != [] {
      var last := cards[|cards| - 1];
      CardsSendNoListing(cards[..|cards| - 1], c);
      ListingUrlsAppend(CardsTally(cards[..|cards| - 1], c).requests, CardRequests(last));
      if CardRequests(last) != [] {
        assert CardRequests(last)[1..] == [];
      }
    }
  }

  lemma {:induction false} ListingUrlsOne(r: Request)
    ensures ListingUrls([r]) == if r.ListingGet? then [r.url] else []
  {
    assert [r][1..] == [];
    NoneAdded(if r.ListingGet? then [r.url] else []);
  }

  /** A page's listing request, then requests without listings, then the
      rest. */
  lemma {:induction false} ListingUrlsOfStep(u: string, t: seq<Request>, rest: seq<Request>)
    requires ListingUrls(t) == []
    ensures ListingUrls([ListingGet(u)] + t + rest) == [u] + ListingUrls(rest)
  {
    var l := [ListingGet(u)];
    ListingUrlsOne(ListingGet(u));
    ListingUrlsAppend(l + t, rest);
    ListingUrlsAppend(l, t);
    NoneAdded([u]);
  }

  lemma {:induction false} LoopListing(base: string, pages: seq<Page>, ts: seq<Tally>, n: nat)
    requires 1 <= n <= |pages| + 1 && |ts| == |pages|
    requires forall i :: 0 <= i < |ts| ==> ListingUrls(ts[i].requests) == []
    ensures ListingUrls(Loop(base, pages, ts, n).tally.requests) ==
            PageUrls(base, n, Loop(base, pages, ts, n).end.page)
    decreases |pages| + 1 - n
  {
    var here := Loop(base, pages, ts, n);
    var u := PageUrl(base, n);
    var l := [ListingGet(u)];
    if IsStop(PageAt(pages, n)) {
      ListingUrlsOne(ListingGet(u));
      NoneAdded([u]);
      LoopStop(base, pages, ts, n);
      assert here.tally.requests == l && here.end.page == n;
      assert PageUrls(base, n + 1, n) == [];
      assert PageUrls(base, n, n) == [u] + PageUrls(base, n + 1, n);
    } else {
      var t := ts[n - 1];
      var rest := Loop(base, pages, ts, n + 1);
      LoopStep(base, pages, ts, n);
      calc {
        ListingUrls(here.tally.requests);
        ListingUrls(l + t.requests + rest.tally.requests);
        { ListingUrlsOfStep(u, t.requests, rest.tally.requests); }
        [u] + ListingUrls(rest.tally.requests);
        { LoopListing(base, pages, ts, n + 1); }
        [u] + PageUrls(base, n + 1, rest.end.page);
        { LoopEndsAtFirstStop(base, pages, ts, n + 1); }
        PageUrls(base, n, rest.end.page);
      }
    }
  }

  /** From page `n` on, the listing requests are those of pages `n`, `n + 1`,
      ... up to the page that ends the run, in that order. */
  lemma {:induction false} ListingRequestsInOrder(base: string, c: Criteria, pages: seq<Page>, n: nat)
    requires 1 <= n <= |pages| + 1
    ensures ListingUrls(RunFrom(base, c, pages, n).tally.requests) ==
            PageUrls(base, n, RunFrom(base, c, pages, n).end.page)
  {
    var ts := PageTallies(pages, c);
    forall i | 0 <= i < |ts| ensures ListingUrls(ts[i].requests) == [] {
      PageTallyAt(pages, c, i);
      if pages[i].PageResponse? {
        CardsSendNoListing(pages[i].cards, c);
      }
    }
    LoopListing(base, pages, ts, n);
  }

  lemma {:induction false} PageUrlsLength(base: string, first: nat, last: nat)
    requires first >= 1
    ensures |PageUrls(base, first, last)| == if first > last then 0 else last + 1 - first
    decreases last + 1 - first
  {
    if first <= last {
      PageUrlsLength(base, first + 1, last);
    }
  }

  /** The `i`-th URL of pages `first` to `last` is that of page `first + i`. */
  lemma {:induction false} PageUrlsAt(base: string, first: nat, last: nat, i: nat)
    requires first >= 1 && first + i <= last
    ensures i < |PageUrls(base, first, last)| && PageUrls(base, first, last)[i] == PageUrl(base, first + i)
    decreases i
  {
    if i > 0 {
      PageUrlsAt(base, first + 1, last, i - 1);
    }
  }

  /** Different pages have different listing URLs. */
  lemma {:induction false} PageUrlsDistinct(base: string, n: nat, m: nat)
    requires n >= 1 && m >= 1 && n != m
    ensures PageUrl(base, n) != PageUrl(base, m)
  {
    if n != 1 && m != 1 {
      var u := PageUrl(base, n);
      var v := PageUrl(base, m);
      if u == v {
        var lo := |base| + 5;
        assert u[lo..|u| - 1] == ShowNat(n);
        assert v[lo..|v| - 1] == ShowNat(m);
        ShowNatInjective(n, m);
      }
    }
  }

  /** The page number reads back from a listing URL after the first. */
  lemma {:induction false} PageNumberReadBack(base: string, n: nat)
    requires n >= 2
    ensures var u := PageUrl(base, n);
      u[..|base| + 5] == base + "page/" && u[|u| - 1] == '/' &&
      ParseInt(u[|base| + 5..|u| - 1]) == Some(n)
  {
    var u := PageUrl(base, n);
    assert u[|base| + 5..|u| - 1] == ShowNat(n);
    ParseIntShowNat(n);
  }

  /** No listing page is requested twice in a run. */
  lemma {:induction false} ListingRequestsDistinct(base: string, c: Criteria, pages: seq<Page>)
    ensures var urls := ListingUrls(RunAll(base, c, pages).tally.requests);
      forall i, j :: 0 <= i < j < |urls| ==> urls[i] != urls[j]
  {
    ListingRequestsInOrder(base, c, pages, 1);
    PageUrlsUnique(base, RunAll(base, c, pages).end.page);
  }

  /** The listing URLs of pages 1 to `last` are pairwise different. */
  lemma {:induction false} PageUrlsUnique(base: string, last: nat)
    ensures var urls := PageUrls(base, 1, last);
      forall i, j :: 0 <= i < j < |urls| ==> urls[i] != urls[j]
  {
    var urls := PageUrls(base, 1, last);
    PageUrlsLength(base, 1, last);
    forall i, j | 0 <= i < j < |urls| ensures urls[i] != urls[j] {
      PageUrlsAt(base, 1, last, i);
      PageUrlsAt(base, 1, last, j);
      PageUrlsDistinct(base, 1 + i, 1 + j);
    }
  }

  // ---------------------------------------------------------------------
  // The session

  /** An untouched filter form (every text box empty) filters on the score
      only, exactly as if no text criterion were set. */
  lemma {:induction false} BlankFormIsUnfiltered(m: MovieFields, minImdb: real)
    ensures Decide(m, FormCriteria(minImdb, "", "", "", "", "", "")) ==
            Decide(m, Criteria(minImdb, None, None, None, None, None, None))
  {
    EmptyCriterionIsVacuous(m.genre);
    EmptyCriterionIsVacuous(m.actors);
    EmptyCriterionIsVacuous(m.director);
    EmptyCriterionIsVacuous(m.country);
    EmptyCriterionIsVacuous(m.duration);
    EmptyCriterionIsVacuous(m.release);
  }

  /** A delivered card that passes the filter is recorded with its title,
      link, description and fields, after one detail request. */
  lemma {:induction false} KeptCardTally(card: Card, c: Criteria)
    requires Delivered(card) && Extract(InfoText(card)).Success?
    requires Decide(Extract(InfoText(card)).value, c) == Keep
    ensures CardTally(card, c) ==
      Tally([MovieRecord(card.title.value, card.link.value, card.detail.block.value[1], Extract(InfoText(card)).value)],
            [DetailGet(card.link.value)], 0)
  {
  }

  /** A card whose detail request answers with a status other than 200 is
      passed over without a record and without an error report, after its
      one detail request. */
  lemma {:induction false} SkippedCardIsSilent(card: Card, c: Criteria)
    requires card.title.Some? && card.link.Some?
    requires card.detail.DetailResponse? && card.detail.status != 200
    ensures ProcessCard(card, c) == Skipped
    ensures CardTally(card, c) == Tally([], [DetailGet(card.link.value)], 0)
  {
  }

  /** A delivered card whose score is "-" is dropped silently, after one
      detail request. */
  lemma {:induction false} UnscoredCardTally(card: Card, c: Criteria)
    requires Delivered(card) && Extract(InfoText(card)).Success?
    requires Extract(InfoText(card)).value.imdb == "-"
    ensures CardTally(card, c) == Tally([], [DetailGet(card.link.value)], 0)
  {
    DecideMeaning(Extract(InfoText(card)).value, c);
  }

  lemma {:induction false} TwoCardsTally(a: Card, b: Card, c: Criteria)
    ensures CardsTally([a, b], c) == CardTally(a, c).Then(CardTally(b, c))
  {
    assert [a, b][..1] == [a] && [a][..0] == [];
    assert CardsTally([a], c) == NoTally.Then(CardTally(a, c));
    ThenUnit(CardTally(a, c));
  }

  /** A catalogue of one page with cards: the listing request, the cards,
      and the request for page 2, which answers with an empty listing. */
  lemma {:induction false} OnePageRun(base: string, c: Criteria, cards: seq<Card>)
    requires cards != []
    ensures var t := CardsTally(cards, c);
      RunAll(base, c, [PageResponse(200, cards)]) ==
      Run(Tally(t.records, [ListingGet(base)] + t.requests + [ListingGet(PageUrl(base, 2))], t.errors),
          EmptyListing(2))
  {
    var pages := [PageResponse(200, cards)];
    var t := CardsTally(cards, c);
    var ts := PageTallies(pages, c);
    PageTallyAt(pages, c, 0);
    LoopStep(base, pages, ts, 1);
    LoopStop(base, pages, ts, 2);
    NoneAdded(t.records);
  }

  /** A one-page catalogue with a card that passes the filter and a card
      whose score is "-": one record, both detail pages fetched, no error,
      and the loop stops on the empty second page. */
  lemma {:induction false} TwoCardScenario(base: string, c: Criteria, kept: Card, unscored: Card)
    requires Delivered(kept) && Extract(InfoText(kept)).Success?
    requires Decide(Extract(InfoText(kept)).value, c) == Keep
    requires Delivered(unscored) && Extract(InfoText(unscored)).Success?
    requires Extract(InfoText(unscored)).value.imdb == "-"
    ensures var run := RunAll(base, c, [PageResponse(200, [kept, unscored])]);
      run.tally.records == [MovieRecord(kept.title.value, kept.link.value, kept.detail.block.value[1],
                                        Extract(InfoText(kept)).value)] &&
      run.tally.requests == [ListingGet(base), DetailGet(kept.link.value), DetailGet(unscored.link.value),
                             ListingGet(base + "page/2/")] &&
      run.tally.errors == 0 && run.end == EmptyListing(2)
  {
    var rec := MovieRecord(kept.title.value, kept.link.value, kept.detail.block.value[1],
                           Extract(InfoText(kept)).value);
    KeptCardTally(kept, c);
    UnscoredCardTally(unscored, c);
    TwoCardsTally(kept, unscored, c);
    TwoTallies(rec, DetailGet(kept.link.value), DetailGet(unscored.link.value));
    OnePageRun(base, c, [kept, unscored]);
    SecondPageUrl(base);
    FourRequests(ListingGet(base), DetailGet(kept.link.value), DetailGet(unscored.link.value),
                 ListingGet(base + "page/2/"));
  }

  /** The fields of the example cards below, scored `imdb`. */
  function ExampleMovie(imdb: string): MovieFields {
    MovieFields("Comedy", "Ann", "Bob", "USA", "1h 30m", "2020", imdb)
  }

  lemma {:induction false} ExampleNamesColonFree()
    ensures !Contains("Comedy", ":") && !Contains("Ann", ":") && !Contains("Bob", ":") &&
      !Contains("USA", ":")
  {
    LacksHead("Comedy", ":");
    LacksHead("Ann", ":");
    LacksHead("Bob", ":");
    LacksHead("USA", ":");
  }

  lemma {:induction false} ExampleNumbersColonFree(imdb: string)
    requires imdb == "7.5" || imdb == "-"
    ensures !Contains("1h 30m", ":") && !Contains("2020", ":") && !Contains(imdb, ":")
  {
    LacksHead("1h 30m", ":");
    LacksHead("2020", ":");
    LacksHead(imdb, ":");
  }

  lemma {:induction false} ExampleAnchorFree(imdb: string)
    requires imdb == "7.5" || imdb == "-"
    ensures var m := ExampleMovie(imdb);
      !Contains(m.genre, "Actor") && !Contains(m.genre, "Director") &&
      !Contains(m.actors, "Director") && !Contains(m.country, "Quality") &&
      !Contains(m.imdb, "/")
  {
    LacksHead("Comedy", "Actor");
    LacksHead("Comedy", "Director");
    LacksHead("Ann", "Director");
    LacksHead("USA", "Quality");
    LacksHead(imdb, "/");
  }

  lemma {:induction false} ExampleQualityFree()
    ensures !Contains(" 1080p", "Duration:") && !Contains(" 1080p", "Release:") &&
      !Contains(" 1080p", "IMDb:")
  {
    LacksHead(" 1080p", "Duration:");
    LacksHead(" 1080p", "Release:");
    LacksHead(" 1080p", "IMDb:");
  }

  lemma {:induction false} ExampleTrimmed(imdb: string)
    requires imdb == "7.5" || imdb == "-"
    ensures FieldsTrimmed(ExampleMovie(imdb))
  {
  }

  /** The example fields fit the page layout. */
  lemma {:induction false} ExampleFields(imdb: string)
    requires imdb == "7.5" || imdb == "-"
    ensures FitsLayout(ExampleMovie(imdb), " 1080p")
  {
    ExampleNamesColonFree();
    ExampleNumbersColonFree(imdb);
    ExampleAnchorFree(imdb);
    ExampleQualityFree();
  }

  /** A delivered card whose detail block is laid out as the pages lay it
      out, with the example fields scored `imdb`. */
  function ExampleCard(title: string, link: string, description: string, imdb: string): Card {
    Card(Some(title), Some(link),
         DetailResponse(200, Some(["", description, DetailText(ExampleMovie(imdb), " 1080p", "10")])))
  }

  /** The example fields are read back from the example card unchanged. */
  lemma {:induction false} ExampleExtract(title: string, link: string, description: string, imdb: string)
    requires imdb == "7.5" || imdb == "-"
    ensures var card := ExampleCard(title, link, description, imdb);
      Delivered(card) && Extract(InfoText(card)) == Success(ExampleMovie(imdb))
  {
    ExampleFields(imdb);
    ExampleTrimmed(imdb);
    ExtractDetailText(ExampleMovie(imdb), " 1080p", "10");
  }

  /** "7.5" reaches a threshold of 7. */
  lemma {:induction false} ExampleKept(c: Criteria)
    requires c == Criteria(7.0, None, None, None, None, None, None)
    ensures Decide(ExampleMovie("7.5"), c) == Keep
  {
    assert "7.5" == ShowNat(7) + "." + [DigitChar(5)];
    ParseDecimalOneDecimal(7, 5);
  }

  /** `TwoCardScenario` for concrete cards: a card scored "7.5" against a
      threshold of 7 and a card scored "-". The kept card's fields are
      recorded exactly as they were written. */
  lemma {:induction false} TwoCardExample(base: string)
    ensures var c := Criteria(7.0, None, None, None, None, None, None);
      var cards := [ExampleCard("A", "https://a/", "Plot A.", "7.5"),
                    ExampleCard("B", "https://b/", "Plot B.", "-")];
      var run := RunAll(base, c, [PageResponse(200, cards)]);
      run.tally.records == [MovieRecord("A", "https://a/", "Plot A.", ExampleMovie("7.5"))] &&
      run.tally.requests == [ListingGet(base), DetailGet("https://a/"), DetailGet("https://b/"),
                             ListingGet(base + "page/2/")] &&
      run.tally.errors == 0 && run.end == EmptyListing(2)
  {
    var c := Criteria(7.0, None, None, None, None, None, None);
    ExampleExtract("A", "https://a/", "Plot A.", "7.5");
    ExampleExtract("B", "https://b/", "Plot B.", "-");
    ExampleKept(c);
    TwoCardScenario(base, c, ExampleCard("A", "https://a/", "Plot A.", "7.5"),
                    ExampleCard("B", "https://b/", "Plot B.", "-"));
  }

  lemma {:induction false} TwoTallies(rec: MovieRecord, a: Request, b: Request)
    ensures Tally([rec], [a], 0).Then(Tally([], [b], 0)) == Tally([rec], [a, b], 0)
  {
    NoneAdded([rec]);
  }

  /** The URL of page 2. */
  lemma {:induction false} SecondPageUrl(base: string)
    ensures PageUrl(base, 2) == base + "page/2/"
  {
    assert ShowNat(2) == "2";
    Assoc(base, "page/", "2");
    Assoc(base, "page/2", "/");
  }

  lemma {:induction false} FourRequests(a: Request, b: Request, d: Request, e: Request)
    ensures [a] + [b, d] + [e] == [a, b, d, e]
  {
  }
}
