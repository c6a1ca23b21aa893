/** The acceptance test of movie_scraper.py, lines 59-65. */
module Filter {
  import opened Wrappers
  import opened PyStrings
  import opened PyNumbers
  import opened Extraction

  /** The keyword arguments of `scrape_movies`; `None` leaves a criterion
      unset. The threshold is an exact real (see `PyNumbers.ParseDecimal`). */
  datatype Criteria = Criteria(
    minImdb: real,
    genre: Option<string>, actor: Option<string>, director: Option<string>,
    country: Option<string>, duration: Option<string>, releaseYear: Option<string>)

  /** `crit is None or crit.lower() in value.lower()` */
  predicate MatchesFolded(crit: Option<string>, value: string) {
    crit.None? || Contains(Lower(value), Lower(crit.value))
  }

  /** `crit is None or crit in value` (the release-year test keeps case). */
  predicate MatchesExact(crit: Option<string>, value: string) {
    crit.None? || Contains(value, crit.value)
  }

  /** The first six conjuncts of the condition at lines 59-64. */
  predicate TextCriteriaHold(m: MovieFields, c: Criteria) {
    MatchesFolded(c.genre, m.genre) && MatchesFolded(c.actor, m.actors) &&
    MatchesFolded(c.director, m.director) && MatchesFolded(c.country, m.country) &&
    MatchesFolded(c.duration, m.duration) && MatchesExact(c.releaseYear, m.release)
  }

  /** Declarative acceptance: every set criterion matches, the score is not
      the sentinel "-", it reads as a number, and it reaches the threshold. */
  predicate Admissible(m: MovieFields, c: Criteria) {
    TextCriteriaHold(m, c) && m.imdb != "-" &&
    ParseDecimal(m.imdb).Some? && ParseDecimal(m.imdb).value >= c.minImdb
  }

  /** The condition either holds, fails, or raises ValueError in `float`. */
  datatype Verdict = Keep | Drop | ScoreRaises

  /** Lines 59-65 evaluated as Python does: `and` short-circuits left to
      right, so `float(movie_imdb)` runs only when every text criterion
      holds and the score is not "-". */
  function Decide(m: MovieFields, c: Criteria): Verdict {
    if !TextCriteriaHold(m, c) then Drop
    else if m.imdb == "-" then Drop
    else
      match ParseDecimal(m.imdb)
      case None => ScoreRaises
      case Some(score) => if score >= c.minImdb then Keep else Drop
  }

  /** The verdict agrees with the declarative acceptance: a record is kept
      exactly when it is admissible, `float` raises exactly when the text
      criteria hold and the score is neither "-" nor a number, and the
      sentinel "-" is always dropped. */
  lemma {:induction false} DecideMeaning(m: MovieFields, c: Criteria)
    ensures Decide(m, c) == Keep <==> Admissible(m, c)
    ensures Decide(m, c) == ScoreRaises <==>
      TextCriteriaHold(m, c) && m.imdb != "-" && ParseDecimal(m.imdb).None?
    ensures m.imdb == "-" ==> Decide(m, c) == Drop
  {
  }

  /** An empty criterion (what an untouched text box supplies) accepts every
      value, exactly like an unset one. */
  lemma {:induction false} EmptyCriterionIsVacuous(value: string)
    ensures MatchesFolded(Some(""), value) == MatchesFolded(None, value)
    ensures MatchesExact(Some(""), value) == MatchesExact(None, value)
  {
    ContainsEmpty(value);
    ContainsEmpty(Lower(value));
    assert Lower("") == "";
  }

  /** A criterion that contains another (ignoring case) is the stricter one:
      whatever matches the longer criterion matches the shorter. */
  lemma {:induction false} NarrowerCriterionAdmitsFewer(wide: string, narrow: string, value: string)
    requires Contains(Lower(narrow), Lower(wide))
    requires MatchesFolded(Some(narrow), value)
    ensures MatchesFolded(Some(wide), value)
  {
    ContainsTransitive(Lower(value), Lower(narrow), Lower(wide));
  }

  lemma {:induction false} LowerIdempotent(s: string)
    ensures Lower(Lower(s)) == Lower(s)
  {
    if s != [] {
      LowerIdempotent(s[1..]);
      assert Lower(s)[1..] == Lower(s[1..]);
    }
  }

  /** Case plays no part in the folded tests: lower-casing either side
      beforehand changes nothing. */
  lemma {:induction false} FoldedIgnoresCase(crit: string, value: string)
    ensures MatchesFolded(Some(crit), value) == MatchesFolded(Some(Lower(crit)), Lower(value))
  {
    LowerIdempotent(crit);
    LowerIdempotent(value);
  }

  /** A higher threshold never accepts a record a lower one rejects. */
  lemma {:induction false} ThresholdMonotone(m: MovieFields, c: Criteria, higher: real)
    requires c.minImdb <= higher
    requires Decide(m, c.(minImdb := higher)) == Keep
    ensures Decide(m, c) == Keep
  {
    DecideMeaning(m, c.(minImdb := higher));
    DecideMeaning(m, c);
  }
}
