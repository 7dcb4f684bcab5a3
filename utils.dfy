/** The deterministic logic of `src/utils.py`: the command-line count
    validator, movie-id extraction, the synopsis fetch decision and the
    assembly of a batch of synopsis pairs. The random sampler and the HTTP
    server are parameters. */
module Utils {
  import opened Wrappers
  import opened PyText

  /** Bounds of the number of films a run may ask for. */
  const MinFilms: int := 1
  const MaxFilms: int := 10

  /** Base of every lookup URL. */
  const ImdbUrl: string := "https://www.imdb.com/title"

  /** Marker after which a dataset URL holds the movie id. */
  const TitleMarker: string := "title"

  // ---------------------------------------------------------------------------
  // limited_movies: the argparse type function for --num
  // ---------------------------------------------------------------------------

  /** The two `ArgumentTypeError`s the validator raises. */
  datatype ArgError = NotAnInteger | OutOfRange(value: int)

  /** The text each error carries, as the program writes it. The out-of-range
      text states the bounds the wrong way round; the range actually enforced
      is the one LimitedMovies checks. */
  function ArgErrorMessage(e: ArgError): string {
    match e
    case NotAnInteger => "Must be an integer"
    case OutOfRange(_) =>
      "Argument must be < " + IntToString(MinFilms) + " and > " + IntToString(MaxFilms)
  }

  /** Convert a command-line argument to a film count in [MinFilms, MaxFilms]. */
  function LimitedMovies(arg: string): (r: Result<int, ArgError>)
    ensures r.Ok? <==> ParseInt(arg).Some? && MinFilms <= ParseInt(arg).value <= MaxFilms
    ensures r.Ok? ==> ParseInt(arg) == Some(r.value) && MinFilms <= r.value <= MaxFilms
    ensures r == Err(NotAnInteger) <==> ParseInt(arg).None?
    ensures r.Err? && r.error.OutOfRange? ==>
      ParseInt(arg) == Some(r.error.value) && (r.error.value < MinFilms || r.error.value > MaxFilms)
  {
    match ParseInt(arg)
    case None => Err(NotAnInteger)
    case Some(n) => if n < MinFilms || n > MaxFilms then Err(OutOfRange(n)) else Ok(n)
  }

  /** The decimal text of any integer is accepted exactly when the integer is
      in range, and then yields that integer. */
  lemma LimitedMoviesOfNumber(n: int)
    ensures LimitedMovies(IntToString(n)) ==
      if MinFilms <= n <= MaxFilms then Ok(n) else Err(OutOfRange(n))
  {
    IntToStringRoundTrip(n);
  }

  /** An argument that is not a number is refused as such, whatever the
      bounds; so is a digit behind a separator that `int()` does not skip. */
  lemma LimitedMoviesRejectsWord()
    ensures LimitedMovies("ten") == Err(NotAnInteger)
    ensures LimitedMovies("") == Err(NotAnInteger)
    ensures LimitedMovies("\U{1c}5") == Err(NotAnInteger)
  {
    TrimUnpadded(IntSpaces, "ten");
    ParseIntSeparators();
  }

  // ---------------------------------------------------------------------------
  // get_random_movie_id: the id is what follows the first "title"
  // ---------------------------------------------------------------------------

  /** The movie id taken from the rendered URL text of a sampled row. */
  function RandomMovieId(drawnUrl: string): (id: string)
    ensures |id| <= |drawnUrl| && drawnUrl[|drawnUrl| - |id|..] == id
    ensures !Contains(drawnUrl, TitleMarker) ==> id == []
    ensures Contains(drawnUrl, TitleMarker) ==>
      exists i :: OccursAt(drawnUrl, TitleMarker, i) && id == drawnUrl[i + |TitleMarker|..] &&
        forall j :: 0 <= j < i ==> !OccursAt(drawnUrl, TitleMarker, j)
  {
    var p := Partition(drawnUrl, TitleMarker);
    assert drawnUrl[|p.0 + p.1|..] == p.2;
    p.2
  }

  /** "title" cannot overlap itself, so an occurrence that starts inside
      `prefix` and runs into a following "title" is impossible. */
  lemma {:induction false} NoStraddle(prefix: string, rest: string, k: int)
    requires 0 <= k < |prefix| < k + |TitleMarker|
    ensures !OccursAt(prefix + TitleMarker + rest, TitleMarker, k)
  {
    var s := prefix + TitleMarker + rest;
    var p := |prefix|;
    var d := p - k;
    var w := s[k..k + |TitleMarker|];
    if d == 2 {
      assert w[3] == s[p + 1] == 'i';
      assert w[3] != TitleMarker[3];
    } else {
      assert w[d] == s[p] == 't';
      assert w[d] != TitleMarker[d];
    }
  }

  /** A row URL made of a part free of "title", the marker, and the rest
      yields exactly the rest as its id. */
  lemma {:induction false} RandomMovieIdOfUrl(prefix: string, rest: string)
    requires !Contains(prefix, TitleMarker)
    ensures RandomMovieId(prefix + TitleMarker + rest) == rest
  {
    var s := prefix + TitleMarker + rest;
    var p := |prefix|;
    assert s[p..p + 5] == TitleMarker;
    forall k | 0 <= k < p ensures !OccursAt(s, TitleMarker, k) {
      if k + 5 <= p {
        assert s[k..k + 5] == prefix[k..k + 5];
        assert !OccursAt(prefix, TitleMarker, k);
      } else {
        NoStraddle(prefix, rest, k);
      }
    }
    assert OccursAt(s, TitleMarker, p);
    assert FindFirst(s, TitleMarker) == Some(p);
    assert s[p + 5..] == rest;
  }

  // ---------------------------------------------------------------------------
  // get_synopsis: one page fetch over an abstract HTTP response
  // ---------------------------------------------------------------------------

  /** The first `meta` element with `data-id="main"` and `name="description"`;
      its `content` attribute may be missing. */
  datatype MetaTag = MetaTag(content: Option<string>)

  /** What the HTTP GET gives back: the status code and, from the parsed
      body, the description tag if the page has one. */
  datatype Response = Response(status: int, descriptionTag: Option<MetaTag>)

  /** `requests.exceptions.HTTPError`; it carries nothing the program reads. */
  datatype HttpError = HttpError

  /** The URL fetched for a movie id: the base URL and the id, verbatim. */
  function MovieUrl(movieId: string): (url: string)
    ensures |url| == |ImdbUrl| + |movieId|
    ensures url[..|ImdbUrl|] == ImdbUrl && url[|ImdbUrl|..] == movieId
  {
    ImdbUrl + movieId
  }

  /** `raise_for_status` raises for client errors (4xx) and server errors (5xx). */
  predicate RaisesForStatus(status: int) {
    400 <= status < 600
  }

  /** The synopsis a response yields: an error status raises, a page without
      the tag gives `None`, a tag gives its content stripped ('' when the
      attribute is missing). */
  function ReadSynopsis(resp: Response): (r: Result<Option<string>, HttpError>)
    ensures r.Err? <==> RaisesForStatus(resp.status)
    ensures r == Ok(None) <==> !RaisesForStatus(resp.status) && resp.descriptionTag.None?
    ensures r.Ok? && r.value.Some? ==>
      resp.descriptionTag.Some? && Unpadded(StrSpaces, r.value.value) &&
      exists i :: TrimmedAt(StrSpaces, resp.descriptionTag.value.content.GetOr([]), r.value.value, i)
  {
    if RaisesForStatus(resp.status) then Err(HttpError)
    else match resp.descriptionTag
      case None => Ok(None)
      case Some(tag) => Ok(Some(Strip(tag.content.GetOr([]))))
  }

  /** Fetch the synopsis of `movieId`; `server` answers a GET of a URL. */
  function GetSynopsis(movieId: string, server: string -> Response): (r: Result<Option<string>, HttpError>)
    ensures r.Err? <==> RaisesForStatus(server(MovieUrl(movieId)).status)
    ensures r == Ok(None) <==>
      !RaisesForStatus(server(MovieUrl(movieId)).status) && server(MovieUrl(movieId)).descriptionTag.None?
  {
    ReadSynopsis(server(MovieUrl(movieId)))
  }

  /** Only the answer for the movie's own URL matters. */
  lemma GetSynopsisReadsOnlyMovieUrl(movieId: string, s1: string -> Response, s2: string -> Response)
    requires s1(MovieUrl(movieId)) == s2(MovieUrl(movieId))
    ensures GetSynopsis(movieId, s1) == GetSynopsis(movieId, s2)
  {
  }

  /** A page whose tag has content gives that content, stripped; whitespace
      around it is dropped and a blank or missing content gives '' rather
      than `None`. */
  lemma {:induction false} ReadSynopsisOfTag(status: int, pre: string, text: string, post: string)
    requires !RaisesForStatus(status)
    requires AllSpace(StrSpaces, pre) && AllSpace(StrSpaces, post)
    ensures ReadSynopsis(Response(status, Some(MetaTag(Some(pre + text + post))))) == Ok(Some(Strip(text)))
    ensures ReadSynopsis(Response(status, Some(MetaTag(None)))) == Ok(Some([]))
  {
    TrimPadding(StrSpaces, pre, text, post);
    TrimUnpadded(StrSpaces, []);
  }

  // ---------------------------------------------------------------------------
  // get_films_dict: a batch of synopsis pairs numbered from 1
  // ---------------------------------------------------------------------------

  /** One dictionary item: the movie number and its pair of synopses. */
  datatype Entry = Entry(movieNum: int, synopses: (Option<string>, Option<string>))

  /** A Python dict from movie number to synopsis pair, in insertion order. */
  type Batch = seq<Entry>

  predicate DistinctKeys(b: Batch) {
    forall i, j :: 0 <= i < j < |b| ==> b[i].movieNum != b[j].movieNum
  }

  ghost function Keys(b: Batch): set<int> {
    set e | e in b :: e.movieNum
  }

  /** `range(numFilms)` has no element for a count below one. */
  function Count(numFilms: int): nat {
    if numFilms < 0 then 0 else numFilms
  }

  /** The id pairs drawn for a run; `draw(i)` is the URL text of the i-th
      row the sampler picks, and pair k uses the draws 2k and 2k+1. */
  function DrawMovieIds(numFilms: int, draw: nat -> string): (ids: seq<(string, string)>)
    ensures |ids| == Count(numFilms)
    ensures forall k :: 0 <= k < |ids| ==>
      ids[k] == (RandomMovieId(draw(2 * k)), RandomMovieId(draw(2 * k + 1)))
  {
    seq(Count(numFilms), k requires 0 <= k => (RandomMovieId(draw(2 * k)), RandomMovieId(draw(2 * k + 1))))
  }

  /** Some fetch of pair k fails. */
  predicate PairFails(ids: seq<(string, string)>, k: int, server: string -> Response)
    requires 0 <= k < |ids|
  {
    GetSynopsis(ids[k].0, server).Err? || GetSynopsis(ids[k].1, server).Err?
  }

  /** Entry `e` holds the fetch results of pair `p` under number `num`. */
  predicate EntryFor(e: Entry, num: int, p: (string, string), server: string -> Response) {
    && e.movieNum == num
    && GetSynopsis(p.0, server) == Ok(e.synopses.0)
    && GetSynopsis(p.1, server) == Ok(e.synopses.1)
  }

  /** Fetch both synopses of every pair in order, numbering from `firstNum`;
      the first HTTP error aborts the whole batch. */
  function FetchAll(ids: seq<(string, string)>, firstNum: int, server: string -> Response): (r: Result<Batch, HttpError>)
    ensures r.Err? <==> exists k :: 0 <= k < |ids| && PairFails(ids, k, server)
    ensures r.Ok? ==> |r.value| == |ids|
    ensures r.Ok? ==> forall k :: 0 <= k < |ids| ==> EntryFor(r.value[k], firstNum + k, ids[k], server)
  {
    if ids == [] then Ok([])
    else
      var s1 := GetSynopsis(ids[0].0, server);
      var s2 := GetSynopsis(ids[0].1, server);
      if s1.Err? || s2.Err? then
        assert PairFails(ids, 0, server);
        Err(HttpError)
      else
        var rest := FetchAll(ids[1..], firstNum + 1, server);
        if rest.Err? then
          var k :| 0 <= k < |ids[1..]| && PairFails(ids[1..], k, server);
          assert ids[1..][k] == ids[k + 1];
          assert PairFails(ids, k + 1, server);
          Err(HttpError)
        else
          var b := [Entry(firstNum, (s1.value, s2.value))] + rest.value;
          assert forall k :: 0 <= k < |ids| ==> EntryFor(b[k], firstNum + k, ids[k], server) by {
            forall k | 0 <= k < |ids| ensures EntryFor(b[k], firstNum + k, ids[k], server) {
              if k > 0 { assert ids[1..][k - 1] == ids[k] && b[k] == rest.value[k - 1]; }
            }
          }
          assert !exists k :: 0 <= k < |ids| && PairFails(ids, k, server) by {
            forall k | 0 <= k < |ids| ensures !PairFails(ids, k, server) {
              if k > 0 { assert ids[1..][k - 1] == ids[k]; }
            }
          }
          Ok(b)
  }

  /** `get_films_dict`: draw `numFilms` id pairs, then fetch both synopses of
      each pair under the numbers 1, 2, ... in draw order. */
  function GetFilmsDict(numFilms: int, draw: nat -> string, server: string -> Response): (r: Result<Batch, HttpError>)
    ensures r.Err? <==>
      exists k :: 0 <= k < Count(numFilms) && PairFails(DrawMovieIds(numFilms, draw), k, server)
    ensures r.Ok? ==> |r.value| == Count(numFilms) && DistinctKeys(r.value)
    ensures r.Ok? ==> forall k :: 0 <= k < |r.value| ==>
      EntryFor(r.value[k], k + 1, (RandomMovieId(draw(2 * k)), RandomMovieId(draw(2 * k + 1))), server)
  {
    FetchAll(DrawMovieIds(numFilms, draw), 1, server)
  }

  /** The keys of a successful batch are exactly 1..numFilms, so the dict has
      `numFilms` items and no fetch result is dropped. */
  lemma {:induction false} FilmsDictKeys(numFilms: int, draw: nat -> string, server: string -> Response)
    requires GetFilmsDict(numFilms, draw, server).Ok?
    ensures forall x :: x in Keys(GetFilmsDict(numFilms, draw, server).value) <==> 1 <= x <= numFilms
  {
    var b := GetFilmsDict(numFilms, draw, server).value;
    forall k | 1 <= k <= numFilms ensures k in Keys(b) {
      assert b[k - 1] in b && b[k - 1].movieNum == k;
    }
    forall x | x in Keys(b) ensures 1 <= x <= numFilms {
      var e :| e in b && e.movieNum == x;
      var i :| 0 <= i < |b| && b[i] == e;
    }
  }

  /** A batch fails only through an HTTP error status of one of its pages:
      a server that never answers with one yields a full batch, in which a
      slot is None exactly when that movie's page has no description tag. */
  lemma FilmsDictWithoutErrors(numFilms: int, draw: nat -> string, server: string -> Response)
    requires forall url :: !RaisesForStatus(server(url).status)
    ensures GetFilmsDict(numFilms, draw, server).Ok?
    ensures var b := GetFilmsDict(numFilms, draw, server).value;
      forall k :: 0 <= k < |b| ==>
        && (b[k].synopses.0.None? <==> server(MovieUrl(RandomMovieId(draw(2 * k)))).descriptionTag.None?)
        && (b[k].synopses.1.None? <==> server(MovieUrl(RandomMovieId(draw(2 * k + 1)))).descriptionTag.None?)
  {
  }

  /** The id of the row URL text `0    /title/tt0000001/`. */
  lemma SampleRowId()
    ensures RandomMovieId("0    /title/tt0000001/") == "/tt0000001/"
  {
    var prefix := "0    /";
    assert !Contains(prefix, TitleMarker) by {
      forall k | 0 <= k && k + |TitleMarker| <= |prefix|
        ensures !OccursAt(prefix, TitleMarker, k)
      {
        assert prefix[k..k + |TitleMarker|][0] == prefix[k] != 't';
      }
    }
    assert "0    /title/tt0000001/" == prefix + TitleMarker + "/tt0000001/";
    RandomMovieIdOfUrl(prefix, "/tt0000001/");
  }

  /** A run with one dataset row whose URL text ends in `/title/tt0000001/`
      and a site that answers every page with the same description: the
      batch is the single item 1 holding that description twice. */
  lemma OneMovieBatch()
    ensures var page := Response(200, Some(MetaTag(Some("A detective investigates."))));
      var text := Some("A detective investigates.");
      GetFilmsDict(1, (i: nat) => "0    /title/tt0000001/", (url: string) => page)
        == Ok([Entry(1, (text, text))])
  {
    var draw := (i: nat) => "0    /title/tt0000001/";
    var page := Response(200, Some(MetaTag(Some("A detective investigates."))));
    var server := (url: string) => page;
    var text := Some("A detective investigates.");
    SampleRowId();
    TrimUnpadded(StrSpaces, "A detective investigates.");
    var id := "/tt0000001/";
    assert DrawMovieIds(1, draw)[0] == (id, id);
    assert GetSynopsis(id, server) == Ok(text);
    var b := GetFilmsDict(1, draw, server);
    assert b.Ok?;
    assert EntryFor(b.value[0], 1, (id, id), server);
    assert b.value == [Entry(1, (text, text))];
  }
}
