/** The movie handlers of controllers/movie.controller.js: the list filter,
    the shaping of one movie and of its shows, and create, update and delete on
    the movie collection keyed by `movieid`. */
module Movies {
  import opened Json
  import opened Text
  import opened Catalog

  // ------------------------------------------------------------- list filter

  /** The query-string parameters the list handler reads (line 7). */
  datatype MovieQuery = MovieQuery(
    status: Option<string>,
    title: Option<string>,
    genres: Option<string>,
    artists: Option<string>,
    start_date: Option<string>,
    end_date: Option<string>)

  /** The keys a movie condition can hold. */
  const MovieFilterKeys: set<string> := {"published", "released", "title", "genres", "artists", "release_date"}

  /** Lines 10-14: a case-insensitive status word adds one flag. */
  method AddStatus(c: Condition, status: Option<string>) returns (c': Condition)
    requires "published" !in c && "released" !in c
    ensures "published" in c' <==> Present(status) && ToLower(status.value) == "published"
    ensures "released" in c' <==> Present(status) && ToLower(status.value) == "released"
    ensures "published" in c' ==> c'["published"] == Is(Bool(true))
    ensures "released" in c' ==> c'["released"] == Is(Bool(true))
    ensures c'.Keys <= c.Keys + {"published", "released"}
    ensures forall k :: k in c ==> k in c' && c'[k] == c[k]
  {
    c' := c;
    if Present(status) {
      var statusLower := ToLower(status.value);
      if statusLower == "published" {
        c' := c'["published" := Is(Bool(true))];
      } else if statusLower == "released" {
        c' := c'["released" := Is(Bool(true))];
      }
    }
  }

  /** Lines 16-18: a title adds a case-insensitive pattern. */
  method AddTitle(c: Condition, title: Option<string>) returns (c': Condition)
    requires "title" !in c
    ensures "title" in c' <==> Present(title)
    ensures "title" in c' ==> c'["title"] == Matches(title.value, "i")
    ensures c'.Keys <= c.Keys + {"title"}
    ensures forall k :: k in c ==> k in c' && c'[k] == c[k]
  {
    c' := c;
    if Present(title) {
      c' := c'["title" := Matches(title.value, "i")];
    }
  }

  /** Lines 20-32: a comma list adds `key` when it cleans to a non-empty list. */
  method AddList(c: Condition, key: string, list: Option<string>) returns (c': Condition)
    requires key !in c
    ensures key in c' <==> Present(list) && CleanList(list.value) != []
    ensures key in c' ==> c'[key] == ElemMatchIn(CleanList(list.value))
    ensures c'.Keys <= c.Keys + {key}
    ensures forall k :: k in c ==> k in c' && c'[k] == c[k]
  {
    c' := c;
    if Present(list) {
      var cleaned := CleanList(list.value);
      if |cleaned| > 0 {
        c' := c'[key := ElemMatchIn(cleaned)];
      }
    }
  }

  /** Lines 34-38: each given bound of the release-date range. */
  method AddDateRange(c: Condition, start_date: Option<string>, end_date: Option<string>) returns (c': Condition)
    requires "release_date" !in c
    ensures "release_date" in c' <==> Present(start_date) || Present(end_date)
    ensures "release_date" in c' ==>
              c'["release_date"] == Between(if Present(start_date) then start_date else None,
                                            if Present(end_date) then end_date else None)
    ensures c'.Keys <= c.Keys + {"release_date"}
    ensures forall k :: k in c ==> k in c' && c'[k] == c[k]
  {
    c' := c;
    if Present(start_date) || Present(end_date) {
      var range := Between(None, None);
      if Present(start_date) {
        range := range.(gte := start_date);
      }
      if Present(end_date) {
        range := range.(lte := end_date);
      }
      c' := c'["release_date" := range];
    }
  }

  /** Lines 8-18: the status flags and the title pattern. */
  method StatusAndTitle(q: MovieQuery) returns (c: Condition)
    ensures c.Keys <= {"published", "released", "title"}
    ensures "published" in c <==> Present(q.status) && ToLower(q.status.value) == "published"
    ensures "released" in c <==> Present(q.status) && ToLower(q.status.value) == "released"
    ensures "published" in c ==> c["published"] == Is(Bool(true))
    ensures "released" in c ==> c["released"] == Is(Bool(true))
    ensures "title" in c <==> Present(q.title)
    ensures "title" in c ==> c["title"] == Matches(q.title.value, "i")
  {
    var withStatus := AddStatus(map[], q.status);
    c := AddTitle(withStatus, q.title);
  }

  /** Lines 20-38: the genre and artist lists and the release-date range, added
      to a condition that holds none of those keys. */
  method ListsAndDates(c: Condition, q: MovieQuery) returns (c': Condition)
    requires "genres" !in c && "artists" !in c && "release_date" !in c
    ensures c'.Keys <= c.Keys + {"genres", "artists", "release_date"}
    ensures forall k :: k in c ==> k in c' && c'[k] == c[k]
    ensures "genres" in c' <==> Present(q.genres) && CleanList(q.genres.value) != []
    ensures "genres" in c' ==> c'["genres"] == ElemMatchIn(CleanList(q.genres.value))
    ensures "artists" in c' <==> Present(q.artists) && CleanList(q.artists.value) != []
    ensures "artists" in c' ==> c'["artists"] == ElemMatchIn(CleanList(q.artists.value))
    ensures "release_date" in c' <==> Present(q.start_date) || Present(q.end_date)
    ensures "release_date" in c' ==>
              c'["release_date"] == Between(if Present(q.start_date) then q.start_date else None,
                                            if Present(q.end_date) then q.end_date else None)
  {
    var withGenres := AddList(c, "genres", q.genres);
    var withArtists := AddList(withGenres, "artists", q.artists);
    c' := AddDateRange(withArtists, q.start_date, q.end_date);
  }

  /** Lines 8-38: the condition is built key by key; with no parameters it is empty. */
  method MovieCondition(q: MovieQuery) returns (c: Condition)
    ensures c.Keys <= MovieFilterKeys
    ensures "published" in c <==> Present(q.status) && ToLower(q.status.value) == "published"
    ensures "released" in c <==> Present(q.status) && ToLower(q.status.value) == "released"
    ensures "published" in c ==> c["published"] == Is(Bool(true))
    ensures "released" in c ==> c["released"] == Is(Bool(true))
    ensures "title" in c <==> Present(q.title)
    ensures "title" in c ==> c["title"] == Matches(q.title.value, "i")
    ensures "genres" in c <==> Present(q.genres) && CleanList(q.genres.value) != []
    ensures "genres" in c ==> c["genres"] == ElemMatchIn(CleanList(q.genres.value))
    ensures "artists" in c <==> Present(q.artists) && CleanList(q.artists.value) != []
    ensures "artists" in c ==> c["artists"] == ElemMatchIn(CleanList(q.artists.value))
    ensures "release_date" in c <==> Present(q.start_date) || Present(q.end_date)
    ensures "release_date" in c ==>
              c["release_date"] == Between(if Present(q.start_date) then q.start_date else None,
                                           if Present(q.end_date) then q.end_date else None)
    ensures q == MovieQuery(None, None, None, None, None, None) ==> c == map[]
  {
    var head := StatusAndTitle(q);
    c := ListsAndDates(head, q);
    if q == MovieQuery(None, None, None, None, None, None) {
      assert c.Keys == {};
    }
  }

  /** A status selects a flag exactly when it spells the flag's name with each
      letter in either case. */
  lemma StatusWordAnyCase(s: string, word: string)
    requires word == "published" || word == "released"
    ensures ToLower(s) == word <==>
              |s| == |word| && forall i :: 0 <= i < |s| ==> s[i] == word[i] || s[i] as int == word[i] as int - 32
  {
    assert forall i :: 0 <= i < |word| ==> 'a' <= word[i] <= 'z';
    ToLowerMatches(s, word);
  }

  /** The response of the list handler (lines 42-47). */
  datatype MovieList = MovieList(movies: seq<Doc>, page: int, limit: int, total: int)

  /** `found` is what the store returns for the condition. */
  function ListMovies(found: seq<Doc>): (r: MovieList)
    ensures r.movies == found && r.page == 1
    ensures r.limit == |r.movies| && r.total == |r.movies|
  {
    MovieList(found, 1, |found|, |found|)
  }

  // ----------------------------------------------------------- one movie

  /** The id checks of every handler that takes a movie id (lines 58-61,
      87-90, 160-163 and 200-203). */
  const InvalidMovieId := "Invalid movie ID format"

  /** Lines 69-74: the stored fields, with `genres` forced to an array and the
      rating and storyline read from `critic_rating` and `story_line`. */
  function SafeMovie(movie: Doc): (r: Doc)
    ensures r.Keys == movie.Keys + {"genres", "critics_rating", "storyline"}
    ensures forall k :: k in movie && k !in {"genres", "critics_rating", "storyline"} ==> r[k] == movie[k]
    ensures r["genres"].Arr?
    ensures Get(movie, "genres").Arr? ==> r["genres"] == movie["genres"]
    ensures !Get(movie, "genres").Arr? ==> r["genres"] == Arr([])
    ensures r["critics_rating"] == Coalesce(Get(movie, "critic_rating"), Num(0))
    ensures Truthy(r["storyline"])
    ensures Truthy(Get(movie, "story_line")) ==> r["storyline"] == movie["story_line"]
    ensures !Truthy(Get(movie, "story_line")) ==> r["storyline"] == Str("No storyline available")
  {
    var genres := Get(movie, "genres");
    movie["genres" := if genres.Arr? then genres else Arr([])]
         ["critics_rating" := Coalesce(Get(movie, "critic_rating"), Num(0))]
         ["storyline" := Or(Get(movie, "story_line"), Str("No storyline available"))]
  }

  /** Lines 57-76. */
  function FindOne(movies: seq<Doc>, param: string): (r: Outcome<Doc>)
    ensures r.status == 400 <==> ParseId(param).None?
    ensures r.status == 400 ==> r == Err(400, InvalidMovieId)
    ensures r.status == 404 <==> ParseId(param).Some? && FindByKey(movies, "movieid", ParseId(param).value).None?
    ensures r.Ok? <==> (ParseId(param).Some? &&
              exists i :: 0 <= i < |movies| && Get(movies[i], "movieid") == Num(ParseId(param).value))
    ensures r.Ok? ==> r.status == 200 && exists i :: (0 <= i < |movies| &&
              Get(movies[i], "movieid") == Num(ParseId(param).value) && r.value == SafeMovie(movies[i]) &&
              forall j :: 0 <= j < i ==> Get(movies[j], "movieid") != Num(ParseId(param).value))
    ensures r.Err? || r.status == 200
  {
    match ParseId(param)
    case None => Err(400, InvalidMovieId)
    case Some(movieId) =>
      match FindByKey(movies, "movieid", movieId)
      case None => Err(404, "Movie not found with id " + IntToString(movieId))
      case Some(k) => Ok(200, SafeMovie(movies[k]))
  }

  // ---------------------------------------------------------------- shows

  /** One normalised show (lines 99-106). */
  datatype Show = Show(
    city: JsValue,
    name: JsValue,
    language: JsValue,
    show_timing: JsValue,
    unit_price: JsValue,
    available_seats: int)

  /** `x || "Unknown"` */
  function OrUnknown(v: JsValue): (r: JsValue)
    ensures Truthy(r)
    ensures Truthy(v) ==> r == v
    ensures !Truthy(v) ==> r == Str("Unknown")
  {
    Or(v, Str("Unknown"))
  }

  /** Lines 99-106 for one stored show that is neither null nor undefined. */
  function NormalizeShow(show: JsValue): (r: Show)
    ensures r.city == OrUnknown(Prop(Prop(show, "theatre"), "city"))
    ensures r.name == OrUnknown(Prop(Prop(show, "theatre"), "name"))
    ensures r.language == OrUnknown(Prop(show, "language"))
    ensures r.show_timing == OrUnknown(Prop(show, "show_timing"))
    ensures Prop(show, "unit_price") in {Undefined, Null} ==> r.unit_price == Num(0)
    ensures Prop(show, "unit_price") !in {Undefined, Null} ==> r.unit_price == Prop(show, "unit_price")
    ensures r.available_seats != 0 ==> ParseIntValue(Prop(show, "available_seats")) == Some(r.available_seats)
    ensures r.available_seats == 0 <==> ParseIntValue(Prop(show, "available_seats")) in {None, Some(0)}
  {
    var theatre := Prop(show, "theatre");
    var seats := match ParseIntValue(Prop(show, "available_seats"))
      case Some(n) => n
      case None => 0;
    Show(OrUnknown(Prop(theatre, "city")), OrUnknown(Prop(theatre, "name")),
         OrUnknown(Prop(show, "language")), OrUnknown(Prop(show, "show_timing")),
         Coalesce(Prop(show, "unit_price"), Num(0)), seats)
  }

  /** A show with every field set normalises to its own values. */
  lemma NormalizeCompleteShow(city: string, name: string, language: string, timing: string, price: int, seats: int)
    requires city != "" && name != "" && language != "" && timing != "" && seats != 0
    ensures NormalizeShow(Obj(map["theatre" := Obj(map["city" := Str(city), "name" := Str(name)]),
                                  "language" := Str(language), "show_timing" := Str(timing),
                                  "unit_price" := Num(price), "available_seats" := Num(seats)]))
            == Show(Str(city), Str(name), Str(language), Str(timing), Num(price), seats)
  {
  }

  /** A show stored as an empty object gets every default. */
  lemma NormalizeEmptyShow()
    ensures NormalizeShow(Obj(map[])) == Show(Str("Unknown"), Str("Unknown"), Str("Unknown"), Str("Unknown"), Num(0), 0)
  {
  }

  /** `shows.map(...)`: one normalised show per stored show, in order. */
  function MapShows(shows: seq<JsValue>): (r: seq<Show>)
    ensures |r| == |shows|
    ensures forall i :: 0 <= i < |shows| ==> r[i] == NormalizeShow(shows[i])
  {
    if shows == [] then [] else [NormalizeShow(shows[0])] + MapShows(shows[1..])
  }

  /** Shows of one stored movie (line 98): a falsy `shows` is the empty list;
      a truthy non-array, or a null or undefined element, makes the map throw,
      which the handler reports as 500. */
  function ShowsOf(movie: Doc): (r: Outcome<seq<Show>>)
    ensures r.Err? <==> (Truthy(Get(movie, "shows")) &&
              (!Get(movie, "shows").Arr? ||
               exists i :: 0 <= i < |Get(movie, "shows").items| && Get(movie, "shows").items[i] in {Undefined, Null}))
    ensures r.Err? ==> r == Err(500, "Error retrieving shows")
    ensures r.Ok? ==> r.status == 200
    ensures r.Ok? && !Truthy(Get(movie, "shows")) ==> r.value == []
    ensures r.Ok? && Truthy(Get(movie, "shows")) ==> r.value == MapShows(Get(movie, "shows").items)
  {
    var shows := Get(movie, "shows");
    if !Truthy(shows) then Ok(200, [])
    else if !shows.Arr? || exists i :: 0 <= i < |shows.items| && shows.items[i] in {Undefined, Null} then
      Err(500, "Error retrieving shows")
    else Ok(200, MapShows(shows.items))
  }

  /** Lines 86-109. */
  function FindShows(movies: seq<Doc>, param: string): (r: Outcome<seq<Show>>)
    ensures r.status == 400 <==> ParseId(param).None?
    ensures r.status == 400 ==> r == Err(400, InvalidMovieId)
    ensures r.status == 404 <==> ParseId(param).Some? && FindByKey(movies, "movieid", ParseId(param).value).None?
    ensures ParseId(param).Some? && FindByKey(movies, "movieid", ParseId(param).value).Some? ==>
              exists i :: (0 <= i < |movies| &&
                Get(movies[i], "movieid") == Num(ParseId(param).value) && r == ShowsOf(movies[i]) &&
                forall j :: 0 <= j < i ==> Get(movies[j], "movieid") != Num(ParseId(param).value))
    ensures r.Ok? ==> exists i :: (0 <= i < |movies| &&
              Get(movies[i], "movieid") == Num(ParseId(param).value) && r == ShowsOf(movies[i]))
  {
    match ParseId(param)
    case None => Err(400, InvalidMovieId)
    case Some(movieId) =>
      match FindByKey(movies, "movieid", movieId)
      case None => Err(404, "Movie not found with id " + IntToString(movieId))
      case Some(k) => ShowsOf(movies[k])
  }

  // ---------------------------------------------------------------- create

  /** The record a create stores (lines 126-142), field by field. */
  datatype MovieRecord = MovieRecord(
    movieid: JsValue,
    title: JsValue,
    published: JsValue,
    released: JsValue,
    poster_url: JsValue,
    release_date: JsValue,
    publish_date: JsValue,
    artists: JsValue,
    genres: JsValue,
    duration: JsValue,
    critics_rating: JsValue,
    trailer_url: JsValue,
    wiki_url: JsValue,
    storyline: JsValue,
    shows: JsValue)

  /** Lines 120-142: the validation, then the defaults. */
  function NewMovie(body: Doc): (r: Outcome<MovieRecord>)
    ensures r.Err? <==> !Truthy(Get(body, "title")) || !Truthy(Get(body, "movieid"))
    ensures r.Err? ==> r == Err(400, "Movie title and ID are required")
    ensures r.Ok? ==> r.status == 201 && r.value.movieid == body["movieid"] && r.value.title == body["title"]
    ensures r.Ok? ==> r.value.published == (if Truthy(Get(body, "published")) then body["published"] else Bool(false))
    ensures r.Ok? ==> r.value.released == (if Truthy(Get(body, "released")) then body["released"] else Bool(false))
    ensures r.Ok? ==> Truthy(r.value.artists) && Truthy(r.value.shows)
    ensures r.Ok? ==> r.value.artists == (if Truthy(Get(body, "artists")) then body["artists"] else Arr([]))
    ensures r.Ok? ==> r.value.shows == (if Truthy(Get(body, "shows")) then body["shows"] else Arr([]))
    ensures r.Ok? ==> r.value.genres.Arr? && (Get(body, "genres").Arr? ==> r.value.genres == body["genres"])
    ensures r.Ok? ==> !Get(body, "genres").Arr? ==> r.value.genres == Arr([])
    ensures r.Ok? ==> r.value.poster_url == Or(Get(body, "poster_url"), Str(""))
    ensures r.Ok? ==> r.value.release_date == Or(Get(body, "release_date"), Null)
    ensures r.Ok? ==> r.value.publish_date == Or(Get(body, "publish_date"), Null)
    ensures r.Ok? ==> r.value.duration == Or(Get(body, "duration"), Num(0))
    ensures r.Ok? ==> r.value.critics_rating == Or(Get(body, "critic_rating"), Num(0))
    ensures r.Ok? ==> r.value.trailer_url == Or(Get(body, "trailer_url"), Str(""))
    ensures r.Ok? ==> r.value.wiki_url == Or(Get(body, "wiki_url"), Str(""))
    ensures r.Ok? ==> r.value.storyline == Or(Get(body, "story_line"), Str(""))
  {
    var title, movieid := Get(body, "title"), Get(body, "movieid");
    if !Truthy(title) || !Truthy(movieid) then Err(400, "Movie title and ID are required")
    else
      var genres := Get(body, "genres");
      Ok(201, MovieRecord(
        movieid,
        title,
        Or(Get(body, "published"), Bool(false)),
        Or(Get(body, "released"), Bool(false)),
        Or(Get(body, "poster_url"), Str("")),
        Or(Get(body, "release_date"), Null),
        Or(Get(body, "publish_date"), Null),
        Or(Get(body, "artists"), Arr([])),
        if genres.Arr? then genres else Arr([]),
        Or(Get(body, "duration"), Num(0)),
        Or(Get(body, "critic_rating"), Num(0)),
        Or(Get(body, "trailer_url"), Str("")),
        Or(Get(body, "wiki_url"), Str("")),
        Or(Get(body, "story_line"), Str("")),
        Or(Get(body, "shows"), Arr([]))))
  }

  /** The fields of a stored movie. */
  const MovieKeys: set<string> := {"movieid", "title", "published", "released", "poster_url", "release_date",
                                   "publish_date", "artists", "genres", "duration", "critics_rating", "trailer_url",
                                   "wiki_url", "storyline", "shows"}

  /** The value a movie record stores under field `k`. */
  function MovieField(m: MovieRecord, k: string): JsValue
  {
    if k == "movieid" then m.movieid
    else if k == "title" then m.title
    else if k == "published" then m.published
    else if k == "released" then m.released
    else if k == "poster_url" then m.poster_url
    else if k == "release_date" then m.release_date
    else if k == "publish_date" then m.publish_date
    else if k == "artists" then m.artists
    else if k == "genres" then m.genres
    else if k == "duration" then m.duration
    else if k == "critics_rating" then m.critics_rating
    else if k == "trailer_url" then m.trailer_url
    else if k == "wiki_url" then m.wiki_url
    else if k == "storyline" then m.storyline
    else m.shows
  }

  /** The stored document of a movie record: its fifteen fields under their
      own names, and no other key. */
  function MovieDoc(m: MovieRecord): (d: Doc)
    ensures forall k :: k in d <==> k in MovieKeys
  {
    map k | k in MovieKeys :: MovieField(m, k)
  }

  /** Each field of the stored document is the record's own value. */
  lemma MovieDocFields(m: MovieRecord)
    ensures MovieDoc(m)["movieid"] == m.movieid
    ensures MovieDoc(m)["title"] == m.title
    ensures MovieDoc(m)["published"] == m.published
    ensures MovieDoc(m)["released"] == m.released
    ensures MovieDoc(m)["poster_url"] == m.poster_url
    ensures MovieDoc(m)["release_date"] == m.release_date
    ensures MovieDoc(m)["publish_date"] == m.publish_date
    ensures MovieDoc(m)["artists"] == m.artists
    ensures MovieDoc(m)["genres"] == m.genres
    ensures MovieDoc(m)["duration"] == m.duration
    ensures MovieDoc(m)["critics_rating"] == m.critics_rating
    ensures MovieDoc(m)["trailer_url"] == m.trailer_url
    ensures MovieDoc(m)["wiki_url"] == m.wiki_url
    ensures MovieDoc(m)["storyline"] == m.storyline
    ensures MovieDoc(m)["shows"] == m.shows
  {
  }

  /** The names the single-movie view reads are not stored fields. */
  lemma MovieKeysOmitViewNames()
    ensures "critic_rating" !in MovieKeys && "story_line" !in MovieKeys
  {
  }

  /** So no stored document has a `critic_rating` or `story_line` field. */
  lemma MovieDocOmitsViewNames(m: MovieRecord)
    ensures "critic_rating" !in MovieDoc(m) && "story_line" !in MovieDoc(m)
  {
    MovieKeysOmitViewNames();
  }

  /** A created movie is found by its id, and the view shows the title it
      was created with. */
  lemma CreatedMovieFound(docs: seq<Doc>, body: Doc, n: int)
    requires NewMovie(body).Ok? && body["movieid"] == Num(n)
    requires FindByKey(docs, "movieid", n).None?
    ensures var m := MovieDoc(NewMovie(body).value);
            FindOne(docs + [m], IntToString(n)) == Ok(200, SafeMovie(m))
    ensures FindOne(docs + [MovieDoc(NewMovie(body).value)], IntToString(n)).value["title"] == body["title"]
  {
    var record := NewMovie(body).value;
    var m := MovieDoc(record);
    MovieDocFields(record);
    ParseIdOfNumeral(n);
    AppendedFound(docs, m, "movieid", n);
    assert FindOne(docs + [m], IntToString(n)) == Ok(200, SafeMovie(m));
    assert "title" in m && "title" !in {"genres", "critics_rating", "storyline"};
  }

  /** The record create stores holds `critics_rating` and `storyline`, but the
      single-movie view reads `critic_rating` and `story_line`: whatever rating
      and storyline a movie was created with, it is shown with rating 0 and the
      placeholder storyline. */
  lemma CreatedRatingNotShown(m: MovieRecord)
    ensures SafeMovie(MovieDoc(m))["critics_rating"] == Num(0)
    ensures SafeMovie(MovieDoc(m))["storyline"] == Str("No storyline available")
  {
    MovieDocOmitsViewNames(m);
  }

  /** Lines 119-149. */
  method Create(movies: Collection, body: Doc) returns (r: Outcome<Reply<Doc>>)
    modifies movies
    ensures NewMovie(body).Err? ==> r == Err(400, NewMovie(body).message) && movies.docs == old(movies.docs)
    ensures NewMovie(body).Ok? ==>
              && movies.docs == old(movies.docs) + [MovieDoc(NewMovie(body).value)]
              && r == Ok(201, Reply("Movie created successfully", MovieDoc(NewMovie(body).value)))
  {
    var record := NewMovie(body);
    if record.Err? {
      return Err(400, record.message);
    }
    var doc := MovieDoc(record.value);
    movies.Save(doc);
    r := Ok(201, Reply("Movie created successfully", doc));
  }

  // ---------------------------------------------------------------- update

  /** Lines 159-189: the id check, then the empty-body check, then the lookup;
      only the first movie with that `movieid` changes, and a non-array
      `genres` in the body is written as [] (lines 169-171). */
  method Update(movies: Collection, param: string, body: Option<Doc>) returns (r: Outcome<Reply<Doc>>)
    requires movies.key == "movieid"
    modifies movies
    ensures ParseId(param).None? ==> r == Err(400, InvalidMovieId) && movies.docs == old(movies.docs)
    ensures ParseId(param).Some? && BodyEmpty(body) ==>
              r == Err(400, "Update data cannot be empty") && movies.docs == old(movies.docs)
    ensures ParseId(param).Some? && !BodyEmpty(body) && FindByKey(old(movies.docs), "movieid", ParseId(param).value).None? ==>
              && r == Err(404, "Cannot update Movie with id=" + IntToString(ParseId(param).value) + ". Movie not found.")
              && movies.docs == old(movies.docs)
    ensures ParseId(param).Some? && !BodyEmpty(body) && FindByKey(old(movies.docs), "movieid", ParseId(param).value).Some? ==>
              var k := FindByKey(old(movies.docs), "movieid", ParseId(param).value).value;
              && movies.docs == old(movies.docs)[k := old(movies.docs)[k] + EmptyIfNotArray(body.value, "genres")]
              && r == Ok(200, Reply("Movie updated successfully", movies.docs[k]))
  {
    var movieId := ParseId(param);
    if movieId.None? {
      return Err(400, InvalidMovieId);
    }
    if BodyEmpty(body) {
      return Err(400, "Update data cannot be empty");
    }
    var updated := movies.FindOneAndUpdate(movieId.value, EmptyIfNotArray(body.value, "genres"));
    if updated.None? {
      return Err(404, "Cannot update Movie with id=" + IntToString(movieId.value) + ". Movie not found.");
    }
    r := Ok(200, Reply("Movie updated successfully", updated.value));
  }

  // ---------------------------------------------------------------- delete

  /** Lines 199-216: only the first movie with that `movieid` is removed. */
  method Delete(movies: Collection, param: string) returns (r: Outcome<Reply<Doc>>)
    requires movies.key == "movieid"
    modifies movies
    ensures ParseId(param).None? ==> r == Err(400, InvalidMovieId) && movies.docs == old(movies.docs)
    ensures ParseId(param).Some? && FindByKey(old(movies.docs), "movieid", ParseId(param).value).None? ==>
              && r == Err(404, "Cannot delete Movie with id=" + IntToString(ParseId(param).value) + ". Movie not found.")
              && movies.docs == old(movies.docs)
    ensures ParseId(param).Some? && FindByKey(old(movies.docs), "movieid", ParseId(param).value).Some? ==>
              var k := FindByKey(old(movies.docs), "movieid", ParseId(param).value).value;
              && movies.docs == RemoveAt(old(movies.docs), k)
              && r == Ok(200, Reply("Movie deleted successfully", old(movies.docs)[k]))
  {
    var movieId := ParseId(param);
    if movieId.None? {
      return Err(400, InvalidMovieId);
    }
    var deleted := movies.FindOneAndRemove(movieId.value);
    if deleted.None? {
      return Err(404, "Cannot delete Movie with id=" + IntToString(movieId.value) + ". Movie not found.");
    }
    r := Ok(200, Reply("Movie deleted successfully", deleted.value));
  }
}
