/** Field extraction from the text of a movie's detail block
    (movie_scraper.py, lines 38-57): every field is found by splitting the
    same text on fixed anchor strings. */
module Extraction {
  import opened Wrappers
  import opened PyStrings

  /** The seven fields cut out of the detail block. */
  datatype MovieFields = MovieFields(
    genre: string, actors: string, director: string, country: string,
    duration: string, release: string, imdb: string)

  /** Which `split(...)[k]` raised IndexError first, in source order. */
  datatype ExtractError =
    | NoGenreSegment   // line 39: no ':' before the first "Actor"
    | NoActorsSegment  // line 42: fewer than two ':' before the first "Director"
    | NoDirector       // line 44
    | NoCountry        // line 47
    | NoDuration       // line 50
    | NoRelease        // line 53
    | NoImdb           // line 56

  /** `text.split(start)[1].split(stop)[0].strip()`, the shape of lines
      44-57; `None` is the IndexError raised when `start` is absent. */
  function Labelled(text: string, start: string, stop: string): (r: Option<string>)
    requires |start| > 0 && |stop| > 0
    ensures r.Some? <==> Contains(text, start)
  {
    match Segment(text, start, 1)
    case None => None
    case Some(seg) => Some(Strip(Before(seg, stop)))
  }

  /** Lines 38-57 applied to the detail text. */
  function Extract(text: string): Result<MovieFields, ExtractError> {
    var genre := Segment(Before(text, "Actor"), ":", 1);
    var actors := Segment(Before(text, "Director"), ":", 2);
    var director := Labelled(text, "Director:", "Country:");
    var country := Labelled(text, "Country:", "Quality");
    var duration := Labelled(text, "Duration:", "Release:");
    var release := Labelled(text, "Release:", "IMDb:");
    var imdb := Labelled(text, "IMDb:", "/");
    if genre.None? then Failure(NoGenreSegment)
    else if actors.None? then Failure(NoActorsSegment)
    else if director.None? then Failure(NoDirector)
    else if country.None? then Failure(NoCountry)
    else if duration.None? then Failure(NoDuration)
    else if release.None? then Failure(NoRelease)
    else if imdb.None? then Failure(NoImdb)
    else Success(MovieFields(
      Strip(genre.value), Strip(actors.value), director.value, country.value,
      duration.value, release.value, imdb.value))
  }

  /** What the text must contain for lines 38-57 to run without an
      IndexError. "Quality" and "/" are not among them. */
  predicate HasRequiredAnchors(text: string) {
    var beforeActor := Before(text, "Actor");
    var beforeDirector := Before(text, "Director");
    Contains(beforeActor, ":") &&
    Contains(beforeDirector, ":") && Contains(After(beforeDirector, ":"), ":") &&
    Contains(text, "Director:") && Contains(text, "Country:") &&
    Contains(text, "Duration:") && Contains(text, "Release:") && Contains(text, "IMDb:")
  }

  /** Extraction succeeds exactly when every required anchor is present. */
  lemma {:induction false} ExtractSucceedsIff(text: string)
    ensures Extract(text).Success? <==> HasRequiredAnchors(text)
  {
    var beforeDirector := Before(text, "Director");
    SegmentSucc(beforeDirector, ":", 1);
    if Contains(beforeDirector, ":") {
      SegmentSucc(After(beforeDirector, ":"), ":", 0);
    }
  }

  /** The text from the start of `rest` up to the first `start` or `stop`,
      stripped: trimmed, free of both anchors, a piece of `rest`. */
  lemma {:induction false} CutShape(rest: string, start: string, stop: string)
    requires |start| > 0 && |stop| > 0
    ensures var cut := Before(Before(rest, start), stop);
      var f := Strip(cut);
      IsTrimmed(f) && !Contains(f, start) && !Contains(f, stop) &&
      OccursAt(rest, f, StripOffset(cut))
  {
    var seg := Before(rest, start);
    var cut := Before(seg, stop);
    var f := Strip(cut);
    BeforeHasNoSeparator(rest, start);
    BeforeHasNoSeparator(seg, stop);
    assert OccursAt(seg, cut, 0);
    NotContainsInfix(seg, cut, 0, start);
    StripKeepsOut(cut, start);
    StripKeepsOut(cut, stop);
    assert OccursAt(rest, cut, 0);
    StripShape(cut);
    OccursShift(rest, cut, f, 0, StripOffset(cut));
  }

  /** A labelled field is whitespace-trimmed, holds neither its own label nor
      the label that ends it, and is a piece of the text after the label's
      first occurrence. */
  lemma {:induction false} LabelledShape(text: string, start: string, stop: string)
    requires |start| > 0 && |stop| > 0 && Contains(text, start)
    ensures var f := Labelled(text, start, stop).value;
      IsTrimmed(f) && !Contains(f, start) && !Contains(f, stop) &&
      exists lo: nat :: IndexOf(text, start) + |start| <= lo && OccursAt(text, f, lo)
  {
    var rest := After(text, start);
    var at := IndexOf(text, start) + |start|;
    assert Segment(text, start, 1) == Some(Before(rest, start));
    var cut := Before(Before(rest, start), stop);
    var f := Strip(cut);
    assert Labelled(text, start, stop) == Some(f);
    CutShape(rest, start, stop);
    var lo := StripOffset(cut);
    assert OccursAt(text, rest, at);
    OccursShift(text, rest, f, at, lo);
    assert at <= at + lo;
  }

  /** Lines 44-57 when the label is present: the field is what follows the
      label's first occurrence, cut at the label's next occurrence, then at
      the closing anchor, and stripped. */
  lemma {:induction false} LabelledUnfold(text: string, start: string, stop: string)
    requires |start| > 0 && |stop| > 0 && Contains(text, start)
    ensures Labelled(text, start, stop) ==
      Some(Strip(Before(Before(After(text, start), start), stop)))
  {
    SegmentSucc(text, start, 0);
  }

  /** A missing closing anchor is not an error: when neither the label nor
      the closing anchor occurs again, the field runs to the end of the
      text. */
  lemma {:induction false} LabelledToEnd(text: string, start: string, stop: string)
    requires |start| > 0 && |stop| > 0 && Contains(text, start)
    requires !Contains(After(text, start), start) && !Contains(After(text, start), stop)
    ensures Labelled(text, start, stop) == Some(Strip(After(text, start)))
  {
    LabelledUnfold(text, start, stop);
  }

  /** A second occurrence of the label ends the field, like a closing
      anchor: "Director:a Director:b" gives "a". */
  lemma {:induction false} LabelledRecurs(start: string, x: string, stop: string, y: string)
    requires |start| > 0 && |stop| > 0 && NoRunInto(start, start)
    requires !Contains(x, start) && !Contains(x, stop)
    ensures Labelled(start + x + (start + y), start, stop) == Some(Strip(x))
  {
    var text := start + x + (start + y);
    assert text[..|start|] == start && text[|start|..] == x + (start + y);
    CutAtStart(text, start);
    LabelledUnfold(text, start, stop);
    assert x + (start + y) == x + start + y;
    FirstAtAnchor(x, start, y);
  }

  /** Text in front of the label that holds no label, and that the label
      cannot run out of, does not change the field. */
  lemma {:induction false} LabelledSkip(w: string, z: string, start: string, stop: string)
    requires |start| > 0 && |stop| > 0 && |z| > 0
    requires !Contains(w, start) && NoRunInto(start, z)
    ensures Labelled(w + z, start, stop) == Labelled(z, start, stop)
  {
    SkipFree(w, z, start);
    if Contains(z, start) {
      LabelledUnfold(w + z, start, stop);
      LabelledUnfold(z, start, stop);
    }
  }

  /** Cutting at the label and then at the closing anchor keeps exactly the
      part before the closing anchor, when that part holds neither and the
      label can neither begin in the closing anchor nor run into it. */
  lemma {:induction false} CutTwice(x: string, start: string, stop: string, y: string)
    requires |start| > 0 && |stop| > 0
    requires !Contains(x, start) && !Contains(x, stop)
    requires NoStartIn(stop, start) && NoRunInto(start, stop) && NoRunInto(stop, stop)
    ensures Before(Before(x + (stop + y), start), stop) == x
  {
    NoRunIntoExtend(start, stop, y);
    SkipFree(x, stop + y, start);
    HeadKept(stop, y, start);
    var b := Before(stop + y, start);
    var y' := b[|stop|..];
    assert b == stop + y';
    assert x + b == x + stop + y';
    FirstAtAnchor(x, stop, y');
  }

  /** The field between a label and its closing anchor is read back,
      stripped, when it holds neither and the two anchors cannot overlap
      each other or themselves; whatever follows the closing anchor,
      including another label, does not matter. */
  lemma {:induction false} LabelledValue(start: string, x: string, stop: string, y: string)
    requires |start| > 0 && |stop| > 0
    requires !Contains(x, start) && !Contains(x, stop)
    requires NoStartIn(stop, start) && NoRunInto(start, stop) && NoRunInto(stop, stop)
    ensures Labelled(start + x + (stop + y), start, stop) == Some(Strip(x))
  {
    var text := start + x + (stop + y);
    assert text[..|start|] == start && text[|start|..] == x + (stop + y);
    CutAtStart(text, start);
    LabelledUnfold(text, start, stop);
    CutTwice(x, start, stop, y);
  }

  /** The same with any label-free text in front: the field after the
      label's first occurrence. */
  lemma {:induction false} LabelledFirst(pre: string, start: string, x: string, stop: string, y: string)
    requires |start| > 0 && |stop| > 0
    requires !Contains(pre, start) && NoRunInto(start, start)
    requires !Contains(x, start) && !Contains(x, stop)
    requires NoStartIn(stop, start) && NoRunInto(start, stop) && NoRunInto(stop, stop)
    ensures Labelled(pre + (start + x + (stop + y)), start, stop) == Some(Strip(x))
  {
    NoRunIntoPiece(start, start, x, stop + y);
    LabelledSkip(pre, start + x + (stop + y), start, stop);
    LabelledValue(start, x, stop, y);
  }

  /** The score of line 57 is read back from any text in which it follows
      the first "IMDb:" and runs up to a "/". */
  lemma {:induction false} ImdbLabelled(pre: string, d: string, post: string)
    requires !Contains(pre, "IMDb:") && !Contains(d, "IMDb:") && !Contains(d, "/")
    ensures Labelled(pre + "IMDb:" + d + "/" + post, "IMDb:", "/") == Some(Strip(d))
  {
    assert pre + "IMDb:" + d + "/" + post == pre + ("IMDb:" + d + ("/" + post));
    NoRunIntoByChar("IMDb:", "IMDb:");
    NoStartInByChar("/", "IMDb:");
    NoRunIntoByChar("IMDb:", "/");
    NoRunIntoByChar("/", "/");
    LabelledFirst(pre, "IMDb:", d, "/", post);
  }

  /** A stripped `:`-piece of `head` is trimmed, colon-free and a piece of
      `head`. */
  lemma {:induction false} StrippedColonPiece(head: string, k: nat)
    requires k < |Split(head, ":")|
    ensures var f := Strip(Split(head, ":")[k]);
      IsTrimmed(f) && !Contains(f, ":") && exists lo: nat :: OccursAt(head, f, lo)
  {
    var piece := Split(head, ":")[k];
    SplitPartsHaveNoSeparator(head, ":", k);
    StripKeepsOut(piece, ":");
    SplitPartOccurs(head, ":", k);
    var lo1 := PieceStart(head, ":", k);
    StripShape(piece);
    OccursShift(head, piece, Strip(piece), lo1, StripOffset(piece));
  }

  /** Genre and actors are `:`-pieces of the text before an anchor: trimmed,
      colon-free, anchor-free pieces of the text. */
  lemma {:induction false} ColonPieceShape(text: string, anchor: string, k: nat)
    requires |anchor| > 0 && Segment(Before(text, anchor), ":", k).Some?
    ensures var f := Strip(Segment(Before(text, anchor), ":", k).value);
      IsTrimmed(f) && !Contains(f, ":") && !Contains(f, anchor) &&
      exists lo: nat :: OccursAt(text, f, lo)
  {
    var head := Before(text, anchor);
    var f := Strip(Split(head, ":")[k]);
    assert Segment(head, ":", k) == Some(Split(head, ":")[k]);
    StrippedColonPiece(head, k);
    var lo: nat :| OccursAt(head, f, lo);
    BeforeHasNoSeparator(text, anchor);
    NotContainsInfix(head, f, lo, anchor);
    assert OccursAt(text, head, 0);
    OccursShift(text, head, f, 0, lo);
  }

  /** Every field is trimmed and stops before the anchor that closes it. */
  predicate FieldsShaped(m: MovieFields) {
    IsTrimmed(m.genre) && !Contains(m.genre, ":") && !Contains(m.genre, "Actor") &&
    IsTrimmed(m.actors) && !Contains(m.actors, ":") && !Contains(m.actors, "Director") &&
    IsTrimmed(m.director) && !Contains(m.director, "Country:") && !Contains(m.director, "Director:") &&
    IsTrimmed(m.country) && !Contains(m.country, "Quality") &&
    IsTrimmed(m.duration) && !Contains(m.duration, "Release:") &&
    IsTrimmed(m.release) && !Contains(m.release, "IMDb:") &&
    IsTrimmed(m.imdb) && !Contains(m.imdb, "/")
  }

  /** On success every field is trimmed and stops before its closing anchor;
      in particular the IMDb score holds no "/" and the director no
      "Country:". */
  lemma {:induction false} ExtractedFieldsShape(text: string)
    requires Extract(text).Success?
    ensures FieldsShaped(Extract(text).value)
  {
    ColonPieceShape(text, "Actor", 1);
    ColonPieceShape(text, "Director", 2);
    LabelledShape(text, "Director:", "Country:");
    LabelledShape(text, "Country:", "Quality");
    LabelledShape(text, "Duration:", "Release:");
    LabelledShape(text, "Release:", "IMDb:");
    LabelledShape(text, "IMDb:", "/");
  }

  // ---------------------------------------------------------------------
  // Reading back a detail block laid out as the pages lay it out

  /** The detail block from its "IMDb:" label onward. */
  function FromImdb(m: MovieFields, tail: string): string {
    "IMDb:" + m.imdb + ("/" + tail)
  }

  /** The detail block from its "Release:" label onward. */
  function FromRelease(m: MovieFields, tail: string): string {
    "Release:" + m.release + FromImdb(m, tail)
  }

  /** The detail block from its "Duration:" label onward. */
  function FromDuration(m: MovieFields, tail: string): string {
    "Duration:" + m.duration + FromRelease(m, tail)
  }

  /** The detail block from its "Quality" label onward. */
  function FromQuality(m: MovieFields, quality: string, tail: string): string {
    "Quality" + quality + FromDuration(m, tail)
  }

  /** The detail block from its "Country:" label onward. */
  function FromCountry(m: MovieFields, quality: string, tail: string): string {
    "Country:" + m.country + FromQuality(m, quality, tail)
  }

  /** The detail block from its "Director:" label onward. */
  function FromDirector(m: MovieFields, quality: string, tail: string): string {
    "Director:" + m.director + FromCountry(m, quality, tail)
  }

  /** The detail block from its "Actor:" label onward. */
  function FromActor(m: MovieFields, quality: string, tail: string): string {
    "Actor:" + m.actors + FromDirector(m, quality, tail)
  }

  /** A detail block as the pages lay it out: every label followed by its
      field, in the order lines 38-57 read them, the quality after
      "Quality", and whatever follows the "/" after the score. */
  function DetailText(m: MovieFields, quality: string, tail: string): string {
    "Genre:" + m.genre + FromActor(m, quality, tail)
  }

  /** Fields that such a block carries without confusing the extraction:
      no field holds a ':', and none holds an anchor that is searched for
      across it; the quality holds none of the labels after it. */
  predicate FitsLayout(m: MovieFields, quality: string) {
    !Contains(m.genre, ":") && !Contains(m.actors, ":") && !Contains(m.director, ":") &&
    !Contains(m.country, ":") && !Contains(m.duration, ":") &&
    !Contains(m.release, ":") && !Contains(m.imdb, ":") &&
    !Contains(m.genre, "Actor") && !Contains(m.genre, "Director") &&
    !Contains(m.actors, "Director") && !Contains(m.country, "Quality") &&
    !Contains(m.imdb, "/") &&
    !Contains(quality, "Duration:") && !Contains(quality, "Release:") &&
    !Contains(quality, "IMDb:")
  }

  /** A text without ':' holds no label that ends in ':'. */
  lemma {:induction false} ColonFreeLacks(v: string, t: string)
    requires !Contains(v, ":") && 0 < |t| && t[|t| - 1] == ':'
    ensures !Contains(v, t)
  {
    assert t[|t| - 1..|t| - 1 + 1] == ":";
    FindFirstIsFirst(t, ":", |t| - 1);
    if Contains(v, t) {
      ContainsTransitive(v, t, ":");
    }
  }

  /** `(head + ":" + v).split(":")[1]` is `v` when neither part holds ':'. */
  lemma {:induction false} ColonField(head: string, v: string)
    requires !Contains(head, ":") && !Contains(v, ":")
    ensures Segment(head + ":" + v, ":", 1) == Some(v)
  {
    var s := head + ":" + v;
    FirstCharAfterFreePrefix(head, ':', v);
    assert s[|head| + 1..] == v;
    SegmentSucc(s, ":", 0);
  }

  /** Peeling one label and its field off the front of the block does not
      change another label's field, when the label cannot begin in the
      peeled anchor, is not in the peeled field, and cannot run into the
      next anchor. */
  lemma {:induction false} PeelPiece(lit: string, v: string, next: string, w: string, z: string,
                                     start: string, stop: string)
    requires |start| > 0 && |stop| > 0 && |next| > 0
    requires NoStartIn(lit, start) && !Contains(v, start) && NoRunInto(start, next)
    ensures Labelled(lit + v + (next + w + z), start, stop) == Labelled(next + w + z, start, stop)
  {
    FreeJoin(lit, v, start);
    NoRunIntoPiece(start, next, w, z);
    LabelledSkip(lit + v, next + w + z, start, stop);
  }

  /** Peeling the genre piece. */
  lemma {:induction false} PeelGenre(m: MovieFields, quality: string, tail: string,
                                     start: string, stop: string)
    requires |start| > 0 && |stop| > 0
    requires NoStartIn("Genre:", start) && !Contains(m.genre, start) && NoRunInto(start, "Actor:")
    ensures Labelled(DetailText(m, quality, tail), start, stop) ==
      Labelled(FromActor(m, quality, tail), start, stop)
  {
    PeelPiece("Genre:", m.genre, "Actor:", m.actors, FromDirector(m, quality, tail), start, stop);
  }

  /** Peeling the actors piece. */
  lemma {:induction false} PeelActors(m: MovieFields, quality: string, tail: string,
                                      start: string, stop: string)
    requires |start| > 0 && |stop| > 0
    requires NoStartIn("Actor:", start) && !Contains(m.actors, start) && NoRunInto(start, "Director:")
    ensures Labelled(FromActor(m, quality, tail), start, stop) ==
      Labelled(FromDirector(m, quality, tail), start, stop)
  {
    PeelPiece("Actor:", m.actors, "Director:", m.director, FromCountry(m, quality, tail), start, stop);
  }

  /** Peeling the director piece. */
  lemma {:induction false} PeelDirector(m: MovieFields, quality: string, tail: string,
                                        start: string, stop: string)
    requires |start| > 0 && |stop| > 0
    requires NoStartIn("Director:", start) && !Contains(m.director, start) && NoRunInto(start, "Country:")
    ensures Labelled(FromDirector(m, quality, tail), start, stop) ==
      Labelled(FromCountry(m, quality, tail), start, stop)
  {
    PeelPiece("Director:", m.director, "Country:", m.country, FromQuality(m, quality, tail), start, stop);
  }

  /** Peeling the country piece. */
  lemma {:induction false} PeelCountry(m: MovieFields, quality: string, tail: string,
                                       start: string, stop: string)
    requires |start| > 0 && |stop| > 0
    requires NoStartIn("Country:", start) && !Contains(m.country, start) && NoRunInto(start, "Quality")
    ensures Labelled(FromCountry(m, quality, tail), start, stop) ==
      Labelled(FromQuality(m, quality, tail), start, stop)
  {
    PeelPiece("Country:", m.country, "Quality", quality, FromDuration(m, tail), start, stop);
  }

  /** Peeling the quality piece. */
  lemma {:induction false} PeelQuality(m: MovieFields, quality: string, tail: string,
                                       start: string, stop: string)
    requires |start| > 0 && |stop| > 0
    requires NoStartIn("Quality", start) && !Contains(quality, start) && NoRunInto(start, "Duration:")
    ensures Labelled(FromQuality(m, quality, tail), start, stop) ==
      Labelled(FromDuration(m, tail), start, stop)
  {
    PeelPiece("Quality", quality, "Duration:", m.duration, FromRelease(m, tail), start, stop);
  }

  /** Peeling the duration piece. */
  lemma {:induction false} PeelDuration(m: MovieFields, tail: string, start: string, stop: string)
    requires |start| > 0 && |stop| > 0
    requires NoStartIn("Duration:", start) && !Contains(m.duration, start) && NoRunInto(start, "Release:")
    ensures Labelled(FromDuration(m, tail), start, stop) == Labelled(FromRelease(m, tail), start, stop)
  {
    PeelPiece("Duration:", m.duration, "Release:", m.release, FromImdb(m, tail), start, stop);
  }

  /** Peeling the release piece. */
  lemma {:induction false} PeelRelease(m: MovieFields, tail: string, start: string, stop: string)
    requires |start| > 0 && |stop| > 0
    requires NoStartIn("Release:", start) && !Contains(m.release, start) && NoRunInto(start, "IMDb:")
    ensures Labelled(FromRelease(m, tail), start, stop) == Labelled(FromImdb(m, tail), start, stop)
  {
    PeelPiece("Release:", m.release, "IMDb:", m.imdb, "/" + tail, start, stop);
  }

  /** The text before the first "Actor" is the genre piece. */
  lemma {:induction false} BeforeActor(m: MovieFields, quality: string, tail: string)
    requires FitsLayout(m, quality)
    ensures Before(DetailText(m, quality, tail), "Actor") == "Genre:" + m.genre
  {
    var rest := FromActor(m, quality, tail);
    NoStartInByChar("Genre:", "Actor");
    NoRunIntoByChar("Actor", "Actor:");
    FreeJoin("Genre:", m.genre, "Actor");
    NoRunIntoPiece("Actor", "Actor:", m.actors, FromDirector(m, quality, tail));
    SkipFree("Genre:" + m.genre, rest, "Actor");
    assert rest[..5] == "Actor";
    CutAtStart(rest, "Actor");
  }

  /** Line 39 reads the genre back. */
  lemma {:induction false} DetailGenre(m: MovieFields, quality: string, tail: string)
    requires FitsLayout(m, quality)
    ensures Segment(Before(DetailText(m, quality, tail), "Actor"), ":", 1) == Some(m.genre)
  {
    BeforeActor(m, quality, tail);
    GenreLabelSplits(m.genre);
    AnchorsWithoutColon();
    ColonField("Genre", m.genre);
  }

  /** "Genre" and "Actor" hold no ':'. */
  lemma {:induction false} AnchorsWithoutColon()
    ensures !Contains("Genre", ":") && !Contains("Actor", ":")
  {
    ContainsChar("Genre", ':');
    ContainsChar("Actor", ':');
  }

  /** The genre piece is "Genre", a ':' and the genre. */
  lemma {:induction false} GenreLabelSplits(g: string)
    ensures "Genre:" + g == "Genre" + ":" + g
  {
  }

  /** The genre and actors pieces are "Genre", a ':', the genre followed by
      "Actor", a ':' and the actors. */
  lemma {:induction false} ActorLabelSplits(g: string, a: string)
    ensures "Genre:" + g + ("Actor:" + a) == "Genre" + ":" + (g + "Actor" + ":" + a)
  {
  }

  /** `(head + ":" + (x + ":" + w)).split(":")[2]` is `w` when no part holds
      ':'. */
  lemma {:induction false} ColonSecondField(head: string, x: string, w: string)
    requires !Contains(head, ":") && !Contains(x, ":") && !Contains(w, ":")
    ensures Segment(head + ":" + (x + ":" + w), ":", 2) == Some(w)
  {
    var s := head + ":" + (x + ":" + w);
    FirstCharAfterFreePrefix(head, ':', x + ":" + w);
    assert s[|head| + 1..] == x + ":" + w;
    SegmentSucc(s, ":", 1);
    ColonField(x, w);
  }

  /** The text before the first "Director" is the genre and actors pieces. */
  lemma {:induction false} BeforeDirector(m: MovieFields, quality: string, tail: string)
    requires FitsLayout(m, quality)
    ensures Before(DetailText(m, quality, tail), "Director") == "Genre:" + m.genre + ("Actor:" + m.actors)
  {
    var t := "Director";
    var fromActor := FromActor(m, quality, tail);
    var fromDirector := FromDirector(m, quality, tail);
    NoStartInByChar("Genre:", t);
    NoStartInByChar("Actor:", t);
    NoRunIntoByChar(t, "Actor:");
    NoRunIntoByChar(t, "Director:");
    FreeJoin("Genre:", m.genre, t);
    NoRunIntoPiece(t, "Actor:", m.actors, fromDirector);
    SkipFree("Genre:" + m.genre, fromActor, t);
    FreeJoin("Actor:", m.actors, t);
    NoRunIntoPiece(t, "Director:", m.director, FromCountry(m, quality, tail));
    SkipFree("Actor:" + m.actors, fromDirector, t);
    assert fromDirector[..8] == t;
    CutAtStart(fromDirector, t);
  }

  /** Line 42 reads the actors back. */
  lemma {:induction false} DetailActors(m: MovieFields, quality: string, tail: string)
    requires FitsLayout(m, quality)
    ensures Segment(Before(DetailText(m, quality, tail), "Director"), ":", 2) == Some(m.actors)
  {
    BeforeDirector(m, quality, tail);
    ActorLabelSplits(m.genre, m.actors);
    AnchorsWithoutColon();
    ContainsCharAppend(m.genre, "Actor", ':');
    ColonSecondField("Genre", m.genre + "Actor", m.actors);
  }

  /** A field read back from a (label + field) piece followed by its
      closing anchor's piece. */
  lemma {:induction false} LabelledPiece(start: string, x: string, stop: string, v: string, z: string)
    requires |start| > 0 && |stop| > 0
    requires !Contains(x, start) && !Contains(x, stop)
    requires NoStartIn(stop, start) && NoRunInto(start, stop) && NoRunInto(stop, stop)
    ensures Labelled(start + x + (stop + v + z), start, stop) == Some(Strip(x))
  {
    assert stop + v + z == stop + (v + z);
    LabelledValue(start, x, stop, v + z);
  }

  /** Peeling the genre, actors and director pieces. */
  lemma {:induction false} PeelToCountry(m: MovieFields, quality: string, tail: string,
                                         start: string, stop: string)
    requires |start| > 0 && |stop| > 0
    requires NoStartIn("Genre:", start) && NoStartIn("Actor:", start) && NoStartIn("Director:", start)
    requires NoRunInto(start, "Actor:") && NoRunInto(start, "Director:") && NoRunInto(start, "Country:")
    requires !Contains(m.genre, start) && !Contains(m.actors, start) && !Contains(m.director, start)
    ensures Labelled(DetailText(m, quality, tail), start, stop) ==
      Labelled(FromCountry(m, quality, tail), start, stop)
  {
    PeelGenre(m, quality, tail, start, stop);
    PeelActors(m, quality, tail, start, stop);
    PeelDirector(m, quality, tail, start, stop);
  }

  /** A label searched across the genre, actors and director pieces: the
      label's first character is in none of their anchors, and none of
      their fields holds the label (no field holds a ':'). */
  lemma {:induction false} FrontApart(m: MovieFields, quality: string, t: string)
    requires FitsLayout(m, quality) && |t| > 1 && t[|t| - 1] == ':'
    requires t[0] !in "Genre:" && t[0] !in "Actor:" && t[0] !in "Director:"
    requires 'A' !in t[1..] && 'C' !in t[1..]
    ensures NoStartIn("Genre:", t) && NoStartIn("Actor:", t) && NoStartIn("Director:", t)
    ensures NoRunInto(t, "Actor:") && NoRunInto(t, "Country:")
    ensures !Contains(m.genre, t) && !Contains(m.actors, t) && !Contains(m.director, t)
  {
    NoStartInByChar("Genre:", t);
    NoStartInByChar("Actor:", t);
    NoStartInByChar("Director:", t);
    NoRunIntoByChar(t, "Actor:");
    NoRunIntoByChar(t, "Country:");
    ColonFreeLacks(m.genre, t);
    ColonFreeLacks(m.actors, t);
    ColonFreeLacks(m.director, t);
  }

  /** Line 44 reads the director back. */
  lemma {:induction false} DetailDirector(m: MovieFields, quality: string, tail: string)
    requires FitsLayout(m, quality)
    ensures Labelled(DetailText(m, quality, tail), "Director:", "Country:") == Some(Strip(m.director))
  {
    var t, stop := "Director:", "Country:";
    NoStartInByChar("Genre:", t);
    NoStartInByChar("Actor:", t);
    NoRunIntoByChar(t, "Actor:");
    NoRunIntoByChar(t, t);
    ColonFreeLacks(m.genre, t);
    ColonFreeLacks(m.actors, t);
    PeelGenre(m, quality, tail, t, stop);
    PeelActors(m, quality, tail, t, stop);
    DirectorValue(m, quality, tail);
  }

  /** The director piece reads back as the director. */
  lemma {:induction false} DirectorValue(m: MovieFields, quality: string, tail: string)
    requires FitsLayout(m, quality)
    ensures Labelled(FromDirector(m, quality, tail), "Director:", "Country:") == Some(Strip(m.director))
  {
    var t, stop := "Director:", "Country:";
    NoStartInByChar(stop, t);
    NoRunIntoByChar(t, stop);
    NoRunIntoByChar(stop, stop);
    ColonFreeLacks(m.director, t);
    ColonFreeLacks(m.director, stop);
    LabelledPiece(t, m.director, stop, m.country, FromQuality(m, quality, tail));
  }

  /** Line 47 reads the country back. */
  lemma {:induction false} DetailCountry(m: MovieFields, quality: string, tail: string)
    requires FitsLayout(m, quality)
    ensures Labelled(DetailText(m, quality, tail), "Country:", "Quality") == Some(Strip(m.country))
  {
    var t, stop := "Country:", "Quality";
    FrontApart(m, quality, t);
    NoRunIntoByChar(t, "Director:");
    PeelToCountry(m, quality, tail, t, stop);
    CountryValue(m, quality, tail);
  }

  /** The country piece reads back as the country. */
  lemma {:induction false} CountryValue(m: MovieFields, quality: string, tail: string)
    requires FitsLayout(m, quality)
    ensures Labelled(FromCountry(m, quality, tail), "Country:", "Quality") == Some(Strip(m.country))
  {
    var t, stop := "Country:", "Quality";
    NoStartInByChar(stop, t);
    NoRunIntoByChar(t, stop);
    NoRunIntoByChar(stop, stop);
    ColonFreeLacks(m.country, t);
    LabelledPiece(t, m.country, stop, quality, FromDuration(m, tail));
  }

  /** Line 50 reads the duration back. */
  lemma {:induction false} DetailDuration(m: MovieFields, quality: string, tail: string)
    requires FitsLayout(m, quality)
    ensures Labelled(DetailText(m, quality, tail), "Duration:", "Release:") == Some(Strip(m.duration))
  {
    var t, stop := "Duration:", "Release:";
    NoStartInByChar("Genre:", t);
    NoStartInByChar("Actor:", t);
    assert NoStartIn("Director:", t);
    NoRunIntoByChar(t, "Actor:");
    NoRunIntoByChar(t, "Director:");
    NoRunIntoByChar(t, "Country:");
    ColonFreeLacks(m.genre, t);
    ColonFreeLacks(m.actors, t);
    ColonFreeLacks(m.director, t);
    PeelToCountry(m, quality, tail, t, stop);
    DurationAfterCountry(m, quality, tail);
  }

  /** From the country piece on, the duration reads back. */
  lemma {:induction false} DurationAfterCountry(m: MovieFields, quality: string, tail: string)
    requires FitsLayout(m, quality)
    ensures Labelled(FromCountry(m, quality, tail), "Duration:", "Release:") == Some(Strip(m.duration))
  {
    var t, stop := "Duration:", "Release:";
    NoStartInByChar("Country:", t);
    NoStartInByChar("Quality", t);
    NoRunIntoByChar(t, "Quality");
    NoRunIntoByChar(t, t);
    ColonFreeLacks(m.country, t);
    PeelCountry(m, quality, tail, t, stop);
    PeelQuality(m, quality, tail, t, stop);
    DurationValue(m, tail);
  }

  /** The duration piece reads back as the duration. */
  lemma {:induction false} DurationValue(m: MovieFields, tail: string)
    requires !Contains(m.duration, ":")
    ensures Labelled(FromDuration(m, tail), "Duration:", "Release:") == Some(Strip(m.duration))
  {
    var t, stop := "Duration:", "Release:";
    NoStartInByChar(stop, t);
    NoRunIntoByChar(t, stop);
    NoRunIntoByChar(stop, stop);
    ColonFreeLacks(m.duration, t);
    ColonFreeLacks(m.duration, stop);
    LabelledPiece(t, m.duration, stop, m.release, FromImdb(m, tail));
  }

  /** Line 53 reads the release back. */
  lemma {:induction false} DetailRelease(m: MovieFields, quality: string, tail: string)
    requires FitsLayout(m, quality)
    ensures Labelled(DetailText(m, quality, tail), "Release:", "IMDb:") == Some(Strip(m.release))
  {
    var t, stop := "Release:", "IMDb:";
    FrontApart(m, quality, t);
    NoRunIntoByChar(t, "Director:");
    PeelToCountry(m, quality, tail, t, stop);
    ReleaseAfterCountry(m, quality, tail);
  }

  /** From the country piece on, the release reads back. */
  lemma {:induction false} ReleaseAfterCountry(m: MovieFields, quality: string, tail: string)
    requires FitsLayout(m, quality)
    ensures Labelled(FromCountry(m, quality, tail), "Release:", "IMDb:") == Some(Strip(m.release))
  {
    var t, stop := "Release:", "IMDb:";
    NoStartInByChar("Country:", t);
    NoStartInByChar("Quality", t);
    NoStartInByChar("Duration:", t);
    NoRunIntoByChar(t, "Quality");
    NoRunIntoByChar(t, "Duration:");
    NoRunIntoByChar(t, t);
    ColonFreeLacks(m.country, t);
    ColonFreeLacks(m.duration, t);
    PeelCountry(m, quality, tail, t, stop);
    PeelQuality(m, quality, tail, t, stop);
    PeelDuration(m, tail, t, stop);
    ReleaseValue(m, tail);
  }

  /** The release piece reads back as the release. */
  lemma {:induction false} ReleaseValue(m: MovieFields, tail: string)
    requires !Contains(m.release, ":")
    ensures Labelled(FromRelease(m, tail), "Release:", "IMDb:") == Some(Strip(m.release))
  {
    var t, stop := "Release:", "IMDb:";
    NoStartInByChar(stop, t);
    NoRunIntoByChar(t, stop);
    NoRunIntoByChar(stop, stop);
    ColonFreeLacks(m.release, t);
    ColonFreeLacks(m.release, stop);
    LabelledPiece(t, m.release, stop, m.imdb, "/" + tail);
  }

  /** Line 56 reads the IMDb score back. */
  lemma {:induction false} DetailImdb(m: MovieFields, quality: string, tail: string)
    requires FitsLayout(m, quality)
    ensures Labelled(DetailText(m, quality, tail), "IMDb:", "/") == Some(Strip(m.imdb))
  {
    var t, stop := "IMDb:", "/";
    NoStartInByChar("Genre:", t);
    NoStartInByChar("Actor:", t);
    NoStartInByChar("Director:", t);
    NoRunIntoByChar(t, "Actor:");
    assert NoRunInto(t, "Director:");
    NoRunIntoByChar(t, "Country:");
    ColonFreeLacks(m.genre, t);
    ColonFreeLacks(m.actors, t);
    ColonFreeLacks(m.director, t);
    PeelToCountry(m, quality, tail, t, stop);
    ImdbAfterCountry(m, quality, tail);
  }

  /** From the country piece on, the IMDb score reads back. */
  lemma {:induction false} ImdbAfterCountry(m: MovieFields, quality: string, tail: string)
    requires FitsLayout(m, quality)
    ensures Labelled(FromCountry(m, quality, tail), "IMDb:", "/") == Some(Strip(m.imdb))
  {
    var t, stop := "IMDb:", "/";
    NoStartInByChar("Country:", t);
    NoStartInByChar("Quality", t);
    NoStartInByChar("Duration:", t);
    NoStartInByChar("Release:", t);
    NoRunIntoByChar(t, "Quality");
    assert NoRunInto(t, "Duration:");
    NoRunIntoByChar(t, "Release:");
    NoRunIntoByChar(t, t);
    ColonFreeLacks(m.country, t);
    ColonFreeLacks(m.duration, t);
    ColonFreeLacks(m.release, t);
    PeelCountry(m, quality, tail, t, stop);
    PeelQuality(m, quality, tail, t, stop);
    PeelDuration(m, tail, t, stop);
    PeelRelease(m, tail, t, stop);
    ImdbValue(m, tail);
  }

  /** The IMDb piece reads back as the score. */
  lemma {:induction false} ImdbValue(m: MovieFields, tail: string)
    requires !Contains(m.imdb, ":") && !Contains(m.imdb, "/")
    ensures Labelled(FromImdb(m, tail), "IMDb:", "/") == Some(Strip(m.imdb))
  {
    var t, stop := "IMDb:", "/";
    NoStartInByChar(stop, t);
    NoRunIntoByChar(t, stop);
    NoRunIntoByChar(stop, stop);
    ColonFreeLacks(m.imdb, t);
    LabelledValue(t, m.imdb, stop, tail);
  }

  /** Round trip: lines 38-57 read every field of a block laid out as the
      pages lay it out back, stripped; fields that are already trimmed come
      back unchanged. */
  lemma {:induction false} ExtractDetailText(m: MovieFields, quality: string, tail: string)
    requires FitsLayout(m, quality)
    ensures Extract(DetailText(m, quality, tail)) == Success(MovieFields(
      Strip(m.genre), Strip(m.actors), Strip(m.director), Strip(m.country),
      Strip(m.duration), Strip(m.release), Strip(m.imdb)))
    ensures FieldsTrimmed(m) ==> Extract(DetailText(m, quality, tail)) == Success(m)
  {
    DetailGenre(m, quality, tail);
    DetailActors(m, quality, tail);
    DetailDirector(m, quality, tail);
    DetailCountry(m, quality, tail);
    DetailDuration(m, quality, tail);
    DetailRelease(m, quality, tail);
    DetailImdb(m, quality, tail);
    if FieldsTrimmed(m) {
      StripTrimmed(m.genre);
      StripTrimmed(m.actors);
      StripTrimmed(m.director);
      StripTrimmed(m.country);
      StripTrimmed(m.duration);
      StripTrimmed(m.release);
      StripTrimmed(m.imdb);
    }
  }

  /** Every field is free of surrounding whitespace. */
  predicate FieldsTrimmed(m: MovieFields) {
    IsTrimmed(m.genre) && IsTrimmed(m.actors) && IsTrimmed(m.director) &&
    IsTrimmed(m.country) && IsTrimmed(m.duration) && IsTrimmed(m.release) &&
    IsTrimmed(m.imdb)
  }
}
