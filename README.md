# Movie scraper, modelled in Dafny

This project models the core of `movie_scraper.py`, a Streamlit tool that
walks the listing pages of a movie catalogue, opens the detail page of each
movie card, cuts seven fields out of the detail text, and appends every
movie that passes the user's filter to the session's dataset. Four pieces
are modelled:

- **Field extraction** (lines 38-57), in `extraction.dfy`. Genre, actors,
  director, country, duration, release and IMDb score are cut out of one
  detail text with Python `split` on fixed anchors.
- **The filter** (lines 59-65), in `filter.dfy`. The source's short-circuit
  `and` is modelled exactly. The verdict is Keep, Drop, or "`float` raised".
- **`convert_to_minutes`** (lines 77-87), in `duration.dfy`.
- **`scrape_movies`** (lines 10-75) and the session start (lines 93-94,
  114-119), in `scraper.dfy`. These are a `Session` class whose
  `moviesData` field is the dataset. Its methods follow the source's
  `while True` page loop and its `for` loop over cards. Each method is
  proved against the functional description `RunAll`, which the run-level
  lemmas are about.

The Python built-ins the core relies on are modelled in their own modules:

- `wrappers.dfy`: `Option` and `Result`.
- `py_strings.dfy`: `find`, `in`, `split`, `join`, `strip`, `lower` and
  `replace`.
- `py_numbers.dfy`: `int()`, `str()` for naturals, and the decimal subset
  of `float()`.

Here `split(sep)[k]` returns `None` where Python raises IndexError. `int()`
accepts surrounding blanks, one sign, and digits with single underscores
between them. The blanks `int()` and `float()` skip are not those of
`strip()`: they are tab, LF, VT, FF, CR, space and the non-ASCII
whitespace, but not the ASCII separators U+001C to U+001F. `float()` is read as an exact `real`.

The network and the HTML parser are replaced by what they deliver. Each
listing page is a `Page`: the request raised, or a status and its cards.
Each card is a `Card`: an optional title, an optional link, and a `Detail`
(the request raised, or a status and the texts of the detail block's
content nodes). Pages after the last one given answer with an empty
listing. Because of that, a run always ends.

Two guarantees one might expect are not given by the code, and the model
follows the code:

- The code never checks that a stored score lies in [0,10]. It rejects only
  "-" and scores below the threshold, so a score of "12" is stored.
  `Scraper.Sound` states what the code does guarantee.
- The stop flag set at lines 111-115 is never read by `scrape_movies`, so a
  run cannot be cancelled, and the model has no stop flag.

## Model

| member | source | states |
|---|---|---|
| PyStrings.FindFirst | movie_scraper.py:38-57 | The search for an anchor (`str.find`): a result is an index where the anchor occurs. That it is the leftmost, and that an occurrence is always found, is `FindFirstIsFirst`. |
| PyStrings.FindFirstIsFirst | movie_scraper.py:38-57 | The anchor search finds the leftmost occurrence: any occurrence of the anchor lies at or after the index found. |
| PyStrings.Split | movie_scraper.py:38-57 | `split(sep)` gives at least one piece, and at least two exactly when `sep` occurs. |
| PyStrings.JoinSplit | movie_scraper.py:38-57 | Joining the pieces of `s.split(sep)` with `sep` gives back `s`. |
| PyStrings.SplitPartsHaveNoSeparator | movie_scraper.py:38-57 | No piece of `s.split(sep)` contains `sep`. |
| PyStrings.SplitPartOccurs | movie_scraper.py:38-57 | Every piece of `s.split(sep)` occurs in `s` at the position where it starts. |
| PyStrings.Segment | movie_scraper.py:39-56 | No contract of its own: `s.split(sep)[k]`, `None` for the IndexError; see SegmentSucc, SplitPartOccurs and SplitPartsHaveNoSeparator. |
| PyStrings.SegmentSucc | movie_scraper.py:38-42 | `s.split(sep)[k+1]` is `split(sep)[k]` of the text after the first `sep`. When `sep` is absent, it is an IndexError. |
| PyStrings.Before | movie_scraper.py:38-45 | `s.split(sep)[0]` never fails: it is the whole text when `sep` is absent, and otherwise the text before the first `sep`. |
| PyStrings.BeforeHasNoSeparator | movie_scraper.py:38-57 | `s.split(sep)[0]` never contains `sep`. |
| PyStrings.Strip | movie_scraper.py:39-57 | No contract of its own; see StripShape, StripTrimmed and StripKeepsOut. |
| PyStrings.StripShape | movie_scraper.py:39-57 | `strip()` gives text trimmed at both ends that occurs in the input, with only whitespace removed before and after it. |
| PyStrings.StripTrimmed | movie_scraper.py:39-57 | `strip()` leaves text that is already trimmed unchanged. |
| PyStrings.StripKeepsOut | movie_scraper.py:45-57 | `strip()` never introduces a substring the input did not contain. |
| PyStrings.Contains | movie_scraper.py:59-64 | No contract of its own: `t in s` is the search finding `t`; see FindFirstIsFirst, ContainsEmpty, ContainsTransitive and ContainsChar. |
| PyStrings.ContainsEmpty | movie_scraper.py:59-64 | `'' in s` holds for every `s`. |
| PyStrings.ContainsTransitive | movie_scraper.py:59-64 | Substring containment is transitive. |
| PyStrings.ContainsChar | movie_scraper.py:79 | `c in s`, for a single character `c`, holds exactly when some position of `s` holds `c`. |
| PyStrings.Lower | movie_scraper.py:59-63 | `lower()` keeps the length; the folding itself is LowerPointwise. |
| PyStrings.LowerPointwise | movie_scraper.py:59-63 | `lower()` folds every character on its own and keeps the length. |
| PyStrings.RemoveChar | movie_scraper.py:82-85 | `replace(c, '')` never lengthens the text; see RemoveCharDeletes, RemoveCharCount, RemoveCharRemoves, RemoveCharAbsent and RemoveCharAppend. |
| PyStrings.RemoveCharRemoves | movie_scraper.py:82-85 | After `replace(c, '')`, `c` no longer occurs. |
| PyStrings.RemoveCharAbsent | movie_scraper.py:82-85 | `replace(c, '')` leaves text without `c` unchanged. |
| PyStrings.RemoveCharAppend | movie_scraper.py:82-85 | `replace(c, '')` distributes over concatenation. |
| PyStrings.RemoveCharDeletes | movie_scraper.py:82-85 | Each `c` is deleted, leaving nothing in its place: `(x + c + y).replace(c, '')` is `x.replace(c, '') + y.replace(c, '')`. |
| PyStrings.RemoveCharCount | movie_scraper.py:82-85 | `replace(c, '')` keeps every other character as often as it occurs and drops every `c`, so the length falls by the number of `c`s. |
| PyNumbers.ParseInt | movie_scraper.py:83-85 | No contract of its own; see ParseIntShowNat, ParseIntNumeral, ParseIntBlank and SeparatorNotSkipped. |
| PyNumbers.NumberStripTrimmed | movie_scraper.py:83-85 | Every blank `int()` skips is whitespace to `strip()`, so text `strip()` leaves alone is read whole. |
| PyNumbers.NumberStripInside | movie_scraper.py:83-85 | What `int()` reads, once the blanks are skipped, is a piece of its argument. |
| PyNumbers.SeparatorNotSkipped | movie_scraper.py:83-85 | `int()` does not skip U+001C although `strip()` does: `int("\x1c45")` raises while `"\x1c45".strip()` is "45". |
| PyNumbers.ShowNat | movie_scraper.py:14 | `str(n)` is never empty; see ShowNatFacts and ShowNatInjective. |
| PyNumbers.ParseIntShowNat | movie_scraper.py:83-85 | `int(str(n)) == n` for every natural `n`. |
| PyNumbers.ShowNatInjective | movie_scraper.py:14 | Different page numbers give different `str(n)`. |
| PyNumbers.ParseIntNumeral | movie_scraper.py:83-85 | `int` reads unsigned digits with nothing around them as the number they spell. |
| PyNumbers.ShowNatFacts | movie_scraper.py:14 | `str(n)` is such a numeral, and it spells `n`. |
| PyNumbers.ParseIntBlank | movie_scraper.py:83 | `int` raises on empty or all-blank text. |
| PyNumbers.StrayCharNoDigitPart | movie_scraper.py:85 | Text holding a character other than an ASCII digit or `_` is no digit run: not the digit part `int` accepts once surrounding whitespace and one sign are removed. |
| PyNumbers.ParseDecimal | movie_scraper.py:65 | No contract of its own; see ParseDecimalOneDecimal and DashIsNotANumber. |
| PyNumbers.ParseDecimalOneDecimal | movie_scraper.py:65 | `float("a.d") == a + d/10`. |
| PyNumbers.DashIsNotANumber | movie_scraper.py:57-65 | The sentinel "-" is neither a float nor an int. |
| Extraction.Extract | movie_scraper.py:38-57 | No contract of its own; see ExtractSucceedsIff, ExtractedFieldsShape and ExtractDetailText. |
| Extraction.HasRequiredAnchors | movie_scraper.py:38-57 | No contract of its own; ExtractSucceedsIff shows it holds exactly when lines 38-57 raise no IndexError. |
| Extraction.Labelled | movie_scraper.py:44-57 | A labelled field (`split(start)[1].split(stop)[0].strip()`) exists exactly when its label occurs. Otherwise it is the IndexError. |
| Extraction.ExtractSucceedsIff | movie_scraper.py:38-57 | Extraction succeeds exactly when the text has: a ':' before the first "Actor"; two ':' before the first "Director"; and the labels "Director:", "Country:", "Duration:", "Release:" and "IMDb:". "Quality", "/" and "Actor" are never required. |
| Extraction.LabelledShape | movie_scraper.py:44-57 | A labelled field is trimmed, holds neither its label nor its closing anchor, and occurs in the text after the first label. |
| Extraction.LabelledToEnd | movie_scraper.py:47-57 | When neither the label nor the closing anchor occurs after the first label, the field is the rest of the text, stripped, instead of an error. |
| Extraction.LabelledRecurs | movie_scraper.py:47-57 | When the label occurs a second time and `x`, the text between the two, holds neither the label nor the closing anchor, the field is `x`, stripped, even with no closing anchor anywhere. |
| Extraction.LabelledValue | movie_scraper.py:47-57 | For anchors that cannot overlap, `label + x + stop + y` gives back `x`, stripped, when `x` holds neither anchor. |
| Extraction.LabelledFirst | movie_scraper.py:47-57 | For anchors that cannot overlap, text before the first label is skipped: `pre + label + x + stop + y` gives back `x`, stripped, when `pre` holds no label and `x` neither anchor. |
| Extraction.ImdbLabelled | movie_scraper.py:56-57 | `pre + "IMDb:" + d + "/" + post` gives back `d`, stripped, as the score, when `pre` holds no "IMDb:" and `d` no "/" or "IMDb:". |
| Extraction.LabelledSkip | movie_scraper.py:47-57 | A prefix without the label, which cannot run into the rest, does not change the field. |
| Extraction.ExtractDetailText | movie_scraper.py:38-57 | Round trip: a detail text laid out as "Genre:" g "Actor:" a "Director:" d "Country:" c "Quality" q "Duration:" du "Release:" r "IMDb:" i "/" tail gives back the seven fields, stripped, whenever the fields hold no ':' and no anchor searched for across them. Trimmed fields come back unchanged. |
| Extraction.ColonPieceShape | movie_scraper.py:38-42 | Genre and actors are trimmed `:`-pieces of the text before "Actor" or "Director": free of ':' and of that anchor, and occurring in the text. |
| Extraction.ExtractedFieldsShape | movie_scraper.py:38-57 | On success every field is trimmed and stops before its closing anchor. The score holds no "/", and the director holds no "Country:" or second "Director:". |
| Filter.MatchesFolded | movie_scraper.py:59-63 | No contract of its own; see EmptyCriterionIsVacuous, FoldedIgnoresCase and NarrowerCriterionAdmitsFewer. |
| Filter.MatchesExact | movie_scraper.py:64 | No contract of its own; see EmptyCriterionIsVacuous. |
| Filter.TextCriteriaHold | movie_scraper.py:59-64 | No contract of its own; see DecideMeaning. |
| Filter.Admissible | movie_scraper.py:59-65 | No contract of its own; DecideMeaning shows it is exactly when Decide keeps a record. |
| Filter.Decide | movie_scraper.py:59-65 | No contract of its own; see DecideMeaning, ThresholdMonotone and BlankFormIsUnfiltered. |
| Filter.DecideMeaning | movie_scraper.py:59-65 | Keep holds exactly when every set criterion matches and the score is not "-", parses, and reaches the threshold. `float` raises exactly when the text criteria hold and the score is neither "-" nor a number. "-" is always dropped. |
| Filter.EmptyCriterionIsVacuous | movie_scraper.py:59-64 | An empty criterion accepts every value, exactly like an unset one. |
| Filter.NarrowerCriterionAdmitsFewer | movie_scraper.py:59-63 | A criterion that contains another (ignoring case) matches only values the shorter one matches. |
| Filter.LowerIdempotent | movie_scraper.py:59-63 | `lower()` applied twice is `lower()` once. |
| Filter.FoldedIgnoresCase | movie_scraper.py:59-63 | Lower-casing the criterion or the field beforehand never changes a case-insensitive test. |
| Filter.ThresholdMonotone | movie_scraper.py:65 | A higher `min_imdb` never keeps a movie that a lower one drops. |
| Duration.HourPart | movie_scraper.py:80-81 | No contract of its own; see SplitAtSingleH and HoursMinutesNumerals. |
| Duration.MinutePart | movie_scraper.py:80-82 | No contract of its own; see MinuteDefaultUnreachable. |
| Duration.HoursAndMinutes | movie_scraper.py:83 | No contract of its own; see ConvertHoursMinutes and EmptyMinutesRaise. |
| Duration.PlainMinutes | movie_scraper.py:85 | No contract of its own; see ConvertPlain and MinWordRaises. |
| Duration.ConvertToMinutes | movie_scraper.py:77-87 | No contract of its own; see NotTextIsZero, ConvertPlain, ConvertHoursMinutes, MinutesOnlyRoundTrip, HoursMinutesRoundTrip and HoursOnlyRaises. |
| Duration.MinuteDefaultUnreachable | movie_scraper.py:79-82 | A text holding 'h' always splits into at least two pieces, so the default '0' of line 82 is never used. |
| Duration.NotTextIsZero | movie_scraper.py:86-87 | A value that is not a string converts to 0. |
| Duration.SplitAtSingleH | movie_scraper.py:80 | `(x + "h" + y).split('h') == [x, y]` when neither side holds an 'h'. |
| Duration.ConvertPlain | movie_scraper.py:84-85 | Without an 'h', the result is `int` of the text with every 'm' removed. |
| Duration.ConvertHoursMinutes | movie_scraper.py:79-83 | With an 'h' and two integer pieces, the result is 60 times the hours plus the minutes. |
| Duration.MinutesOnlyNumeral | movie_scraper.py:84-85 | A numeral followed by "m" converts to its value. |
| Duration.MinutesOnlyRoundTrip | movie_scraper.py:84-85 | `str(m) + "m"` converts back to `m`. |
| Duration.MinWordRaises | movie_scraper.py:84-85 | "120 min" raises, because removing the 'm's leaves "120 in". |
| Duration.SeparatorRaises | movie_scraper.py:84-85 | "\x1c45m" raises: `int` does not skip the leading U+001C. |
| Duration.HoursMinutesNumerals | movie_scraper.py:79-83 | `x + "h " + z + "m"` with numerals `x` and `z` converts to 60 times `x` plus `z`. |
| Duration.HoursMinutesRoundTrip | movie_scraper.py:79-83 | `str(h) + "h " + str(m) + "m"` converts back to `60 * h + m`. "2h 15m" gives 135. |
| Duration.EmptyMinutesRaise | movie_scraper.py:79-83 | A text with an 'h' and an empty minutes piece raises. |
| Duration.HoursOnlyRaises | movie_scraper.py:79-83 | As written, "3h" (any `str(h) + "h"`) raises instead of converting. |
| Duration.ConvertToMinutesIntended | movie_scraper.py:77-87 | No contract of its own; see IntendedEmptyMinutes, IntendedHoursOnly and IntendedAgreesWhereDefined. |
| Duration.IntendedEmptyMinutes | movie_scraper.py:82-83 | In the corrected conversion, an empty minutes piece counts as zero minutes. |
| Duration.IntendedHoursOnly | movie_scraper.py:79-83 | In the corrected conversion, `str(h) + "h"` is `60 * h` minutes. |
| Duration.IntendedAgreesWhereDefined | movie_scraper.py:77-87 | The correction changes only inputs on which the source raises. |
| Scraper.ProcessCard | movie_scraper.py:25-70 | No contract of its own; see AcceptedIff, UndeliveredIsNotAccepted and MissingDirectorFails. |
| Scraper.Judge | movie_scraper.py:38-68 | No contract of its own; see JudgeAccepts. |
| Scraper.CardRequests | movie_scraper.py:26-29 | No contract of its own: one detail request once the title and link are found; see KeptCardTally and SkippedCardIsSilent. |
| Scraper.CardTally | movie_scraper.py:25-70 | No contract of its own; see KeptCardTally, UnscoredCardTally, SkippedCardIsSilent and FailingCardIsIsolated. |
| Scraper.CardsTally | movie_scraper.py:24-70 | No contract of its own; see CardsTallyAppend, CardsSound and Session.ScrapeCards. |
| Scraper.PageUrl | movie_scraper.py:14 | No contract of its own; see PageUrlsDistinct, PageNumberReadBack and SecondPageUrl. |
| Scraper.PageAt | movie_scraper.py:15-22 | No contract of its own: the response to page `n`, an empty listing after the pages given; see LaterPagesIgnored. |
| Scraper.IsStop | movie_scraper.py:17-75 | No contract of its own: the page raised, answered non-200 or had no cards; see LoopStop and RunEndsAtFirstStop. |
| Scraper.StopEnd | movie_scraper.py:15-75 | No contract of its own: why the loop ended on a stop page; see LoopStop and RunEndsAtFirstStop. |
| Scraper.Loop | movie_scraper.py:13-75 | No contract of its own; see LoopStep, LoopStop, RunEndsAtFirstStop and Session.ScrapeMovies. |
| Scraper.RunFrom | movie_scraper.py:13-75 | No contract of its own: the loop from page `n` on; see RunFromSound, ListingRequestsInOrder and LaterPagesIgnored. |
| Scraper.RunAll | movie_scraper.py:10-75 | No contract of its own; see RecordsAreSound, ListingRequestsInOrder, ListingRequestsDistinct and Session.ScrapeMovies. |
| Scraper.Session.constructor | movie_scraper.py:93-94 | A new session starts with an empty dataset. |
| Scraper.Session.ScrapeMovies | movie_scraper.py:10-75 | The page loop appends to the existing dataset exactly the records of the run, in order. It returns the run's requests, its error count and its end. |
| Scraper.Session.ScrapeCards | movie_scraper.py:24-70 | The card loop appends the records of a page's cards in listing order, and returns their detail requests and error count. |
| Scraper.Session.StartScraping | movie_scraper.py:114-119 | A run clears the dataset, then scrapes the catalogue address. The dataset afterwards is exactly the run's records. |
| Scraper.LoopStep | movie_scraper.py:17-24 | A 200 page with cards contributes its listing request and its cards, and the loop continues with page `n + 1`. |
| Scraper.LoopStop | movie_scraper.py:15-22 | A page that raised, answered non-200 or had no cards ends the run after its own listing request, with that end reason. |
| Scraper.AcceptedIff | movie_scraper.py:25-68 | A card is appended exactly when four things hold: its title and link were found; the detail request answered 200 with three content nodes; extraction succeeded; and the fields pass the filter. |
| Scraper.UndeliveredIsNotAccepted | movie_scraper.py:26-38 | A card missing its title or link, whose detail request raised or answered non-200, or whose detail block is missing or short, is never appended. |
| Scraper.JudgeAccepts | movie_scraper.py:38-68 | The appended row is the card's title, link and description plus the extracted fields, and is appended exactly when they pass the filter. |
| Scraper.AcceptedIsSound | movie_scraper.py:36-68 | Every appended row passed the filter. Its score is not "-" and reaches the threshold, and its fields are trimmed and each is free of its closing anchor. |
| Scraper.FailingCardIsIsolated | movie_scraper.py:24-70 | A card whose `try` raised adds one error and no record. The cards before and after contribute unchanged. |
| Scraper.MissingDirectorFails | movie_scraper.py:44-45 | A detail text without "Director:" makes the card fail with an extraction error. |
| Scraper.CardsTallyAppend | movie_scraper.py:24-70 | Cards are processed in listing order: the cards `xs + ys` contribute what `xs` does followed by what `ys` does. |
| Scraper.CardsSound | movie_scraper.py:24-68 | Every record the cards of a page produce is sound. |
| Scraper.RunFromSound | movie_scraper.py:13-75 | Every record of the loop from page `n` on is sound. |
| Scraper.RecordsAreSound | movie_scraper.py:10-75 | Every record a run appends is sound. |
| Scraper.RunEndsAtFirstStop | movie_scraper.py:13-22 | The run ends on the first page that raised, answered non-200 or had no cards, with that page's reason. Every earlier page answered 200 with cards. |
| Scraper.LaterPagesIgnored | movie_scraper.py:13-22 | Pages after the stopping page never influence the run. |
| Scraper.ListingRequestsInOrder | movie_scraper.py:13-15 | The listing requests are those of pages `n`, `n + 1`, … up to the page that ends the run, in that order. |
| Scraper.PageUrlsDistinct | movie_scraper.py:14 | Different pages have different listing URLs. |
| Scraper.PageNumberReadBack | movie_scraper.py:14 | From page 2 on, the URL is the base, "page/", the page number and "/", and the number reads back with `int`. |
| Scraper.SecondPageUrl | movie_scraper.py:14 | Page 2 is `base + "page/2/"`. |
| Scraper.PageUrlsUnique | movie_scraper.py:14 | The listing URLs of pages 1 to `last` are pairwise different. |
| Scraper.ListingRequestsDistinct | movie_scraper.py:13-15 | No listing page is requested twice in a run. |
| Scraper.FormCriteria | movie_scraper.py:100-106 | No contract of its own: the form's values as criteria; see BlankFormIsUnfiltered. |
| Scraper.BlankFormIsUnfiltered | movie_scraper.py:100-106 | An untouched form (every text box "") filters on the score only, exactly as with unset criteria. |
| Scraper.KeptCardTally | movie_scraper.py:29-68 | A delivered card that passes the filter yields one detail request and one row with its title, link, description and fields. |
| Scraper.SkippedCardIsSilent | movie_scraper.py:29-31 | A card whose detail request answers other than 200 is skipped: one detail request, no record and no error report. |
| Scraper.UnscoredCardTally | movie_scraper.py:57-65 | A delivered card whose score is "-" yields one detail request, no row and no error. |
| Scraper.TwoCardsTally | movie_scraper.py:24 | Two cards contribute in listing order. |
| Scraper.OnePageRun | movie_scraper.py:10-75 | A one-page catalogue gives the page-1 request, the cards' contribution, then the page-2 request and an empty-listing end. |
| Scraper.TwoCardScenario | movie_scraper.py:10-75 | A page with a kept card and a "-" card gives exactly one row, four requests in order, no error, and an end on page 2. |
| Scraper.ExampleExtract | movie_scraper.py:36-57 | A delivered card whose detail block is laid out like the pages gives back exactly the fields written into it. |
| Scraper.TwoCardExample | movie_scraper.py:10-75 | Concrete cards scored "7.5" and "-" against a threshold of 7: one row holding the first card's title, link, description and fields; four requests in order; no error; an end on page 2. |

## Left out

- The Streamlit interface (lines 1-9, 89-92, 98-108, 121-130): widgets, `st.info`, the dataframe view and the CSV download. The form's values are the `Criteria` argument, and `Scraper.FormCriteria` is the untouched form.
- The stop button (lines 95-96, 108, 111-115): the flag it sets is never read by `scrape_movies`, so there is nothing to cancel.
- Statistics and plots after line 130, and the `tqdm` progress bar.
- `requests.get` and BeautifulSoup (lines 15, 18-19, 26-29, 33-36): pages, cards and detail blocks are inputs. A detail block is given as the texts of its content nodes, already `get_text(strip=True)`.
- `st.error` and `print` (lines 70, 74): only counted, as `errors`, and reported as the run's end.
- `float()` is modelled on decimal notation only, compared as an exact real, without IEEE rounding. A score in exponent notation, "inf" or "nan" is treated as one on which `float` raises (the card is reported as an error). The source instead keeps "inf" and "1e1" when they reach the threshold, and silently drops "nan", since every comparison with it is false.
- `lower()`, `strip()` and the digits `int()` accepts are modelled for ASCII case folding, Python's whitespace set and ASCII digits. Other Unicode case mappings and digits are left out. `int()` and `float()` skip only tab, LF, VT, FF, CR, space and non-ASCII whitespace, which `PyNumbers.IsNumberSpace` states.
- `Scraper.PageAt`: the catalogue is a finite sequence of pages. Every page after it answers 200 with no cards. The source's loop has no bound of its own.

## Findings

| source | as written | input that shows it | evidently intended | confidence | as-written member | corrected member |
|---|---|---|---|---|---|---|
| movie_scraper.py:80-83 | An hours-only duration splits into `["3", ""]`. The minutes piece is `""` and `int('')` raises ValueError. The `'0'` default for a missing minutes piece is unreachable. | "3h" | A missing minutes part counts as 0 minutes, so "3h" is 180 minutes. | high; not executed | Duration.HoursOnlyRaises | Duration.IntendedHoursOnly |
