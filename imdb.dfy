/**
 * The `movie` command plugin: searches the IMDb service for the query and
 * answers with a card whose ratings section lists one line per rating and
 * whose box office and awards fall back to "N/A".  The service's answer is
 * an input; the remaining caption fields are copied from the answer as
 * they are and are not modelled.
 */
module ImdbCommand {
  import opened Wrappers
  import opened JsString
  import opened Command

  datatype Rating = Rating(source: Str, value: Str)

  /** The parts of `response.data.movie` the plugin decides on; a missing list is empty, a missing string "". */
  datatype Movie = Movie(title: Str, poster: Str, ratings: seq<Rating>, boxoffice: Str, awards: Str)

  /** `response.data`: its `status` flag and its `movie`. */
  datatype ImdbData = ImdbData(status: bool, movie: Option<Movie>)

  /** The request either failed (the source's catch) or returned `data`, possibly none. */
  datatype ImdbResponse = RequestFailed | Response(data: Option<ImdbData>)

  /** The decided parts of the answer card. */
  datatype MovieCard = MovieCard(title: Str, poster: Str, ratingsSection: Str, boxOffice: Str, awards: Str)

  datatype Search = NoResults | Found(card: MovieCard) | SearchError

  /** `Searched` is the only outcome in which the service is asked, for `query`. */
  datatype MovieOutcome = Ignored | AskForQuery | Searched(query: Str, search: Search)

  /** `➣ ${rating.source}: ${rating.value}\n` */
  function RatingLine(r: Rating): Str {
    "➣ " + r.source + ": " + r.value + "\n"
  }

  /** The rating lines of `rs`, in order. */
  function RatingLines(rs: seq<Rating>): Str {
    if rs == [] then "" else RatingLines(rs[..|rs| - 1]) + RatingLine(rs[|rs| - 1])
  }

  /** The lines of two lists of ratings are the lines of the first, then those of the second. */
  lemma {:induction false} RatingLinesAppend(a: seq<Rating>, b: seq<Rating>)
    ensures RatingLines(a + b) == RatingLines(a) + RatingLines(b)
    decreases |b|
  {
    if b != [] {
      var b' := b[..|b| - 1];
      assert (a + b)[..|a + b| - 1] == a + b';
      assert (a + b)[|a + b| - 1] == b[|b| - 1];
      RatingLinesAppend(a, b');
    } else {
      assert a + b == a;
    }
  }

  /** Each rating gives exactly its own line. */
  lemma RatingLinesOne(r: Rating)
    ensures RatingLines([r]) == RatingLine(r)
  {
    assert [r][..0] == [];
  }

  /** The lines are empty exactly when there are no ratings. */
  lemma RatingLinesEmpty(rs: seq<Rating>)
    ensures RatingLines(rs) == [] <==> rs == []
  {
    if rs != [] {
      assert |RatingLine(rs[|rs| - 1])| > 0;
    }
  }

  /** `ratingText`: built by appending one line per rating, in order. */
  method RatingText(ratings: seq<Rating>) returns (text: Str)
    ensures text == RatingLines(ratings)
  {
    text := "";
    if |ratings| > 0 {
      var i := 0;
      while i < |ratings|
        invariant 0 <= i <= |ratings|
        invariant text == RatingLines(ratings[..i])
      {
        assert ratings[..i + 1][..i] == ratings[..i];
        text := text + RatingLine(ratings[i]);
        i := i + 1;
      }
      assert ratings[..i] == ratings;
    }
  }

  /** `ratingText ? '📊 *Ratings:*\n' + ratingText + '\n' : ''` */
  function RatingsSection(ratingText: Str): (r: Str)
    ensures r == [] <==> ratingText == []
    ensures ratingText != [] ==> r == "📊 *Ratings:*\n" + ratingText + "\n"
  {
    if ratingText != "" then "📊 *Ratings:*\n" + ratingText + "\n" else ""
  }

  /** `value || "N/A"` */
  function OrNA(value: Str): (r: Str)
    ensures r != ""
    ensures value != "" ==> r == value
    ensures value == "" ==> r == "N/A"
  {
    if value != "" then value else "N/A"
  }

  /** A successful answer that names a movie. */
  predicate HasMovie(response: ImdbResponse) {
    response.Response? && response.data.Some? && response.data.value.status && response.data.value.movie.Some?
  }

  /**
   * The plugin for one message.  `sent` is whether sending the card
   * succeeded; a rejected send ends in the source's catch, like a failed request.
   */
  method MovieCommand(body: Str, prefix: Str, response: ImdbResponse, sent: bool) returns (o: MovieOutcome)
    ensures o == Ignored <==> Cmd(body, prefix) != "movie"
    ensures o == AskForQuery <==> Cmd(body, prefix) == "movie" && Rest(body, prefix) == []
    ensures o.Searched? ==> o.query == Rest(body, prefix) && o.query != []
    ensures o.Searched? ==> (o.search == SearchError <==> response == RequestFailed || (HasMovie(response) && !sent))
    ensures o.Searched? ==> (o.search == NoResults <==> (response.Response? &&
      (response.data.None? || !response.data.value.status || response.data.value.movie.None?)))
    ensures o.Searched? ==> (o.search.Found? <==> HasMovie(response) && sent)
    ensures o.Searched? && o.search.Found? ==>
      response.Response? && response.data.Some? && response.data.value.movie.Some?
      && var movie := response.data.value.movie.value;
      o.search.card == MovieCard(movie.title, movie.poster, RatingsSection(RatingLines(movie.ratings)),
                                 OrNA(movie.boxoffice), OrNA(movie.awards))
      && (o.search.card.ratingsSection != [] <==> movie.ratings != [])
  {
    var cmd := Cmd(body, prefix);
    var args := Args(body, prefix);
    if cmd != "movie" {
      return Ignored;
    }
    if |args| == 0 || Join(args, " ") == [] {
      return AskForQuery;
    }
    var query := Join(args, " ");
    match response {
      case RequestFailed =>
        o := Searched(query, SearchError);
      case Response(data) =>
        if data.None? || !data.value.status || data.value.movie.None? {
          return Searched(query, NoResults);
        }
        var movie := data.value.movie.value;
        var ratingText := RatingText(movie.ratings);
        RatingLinesEmpty(movie.ratings);
        var card := MovieCard(movie.title, movie.poster, RatingsSection(ratingText), OrNA(movie.boxoffice), OrNA(movie.awards));
        if sent {
          o := Searched(query, Found(card));
        } else {
          o := Searched(query, SearchError);
        }
    }
  }
}
