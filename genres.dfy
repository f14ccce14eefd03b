/** The genre handlers of controllers/genre.controller.js: the search
    condition, and create, find, update and delete on the genre collection keyed
    by `genreid`. */
module Genres {
  import opened Json
  import opened Text
  import opened Catalog

  /** Lines 10-13: with no search text the condition is empty; otherwise it
      constrains only `genre`. */
  function GenreCondition(search: Option<string>): (c: Condition)
    ensures c.Keys == {} <==> !Present(search)
    ensures Present(search) ==> c.Keys == {"genre"} && c["genre"] == Matches(search.value, "i")
  {
    if Present(search) then
      var c := map["genre" := Matches(search.value, "i")];
      assert "genre" in c.Keys;
      c
    else map[]
  }

  /** Lines 31-41: `genre` is checked before `genreid`; the stored record has
      exactly those two fields. */
  function NewGenre(body: Doc): (r: Outcome<Doc>)
    ensures !Truthy(Get(body, "genre")) ==> r == Err(400, "Genre name is required")
    ensures Truthy(Get(body, "genre")) && !Truthy(Get(body, "genreid")) ==> r == Err(400, "Genre ID is required")
    ensures r.Ok? <==> Truthy(Get(body, "genre")) && Truthy(Get(body, "genreid"))
    ensures r.Ok? ==> r.status == 201 && r.value.Keys == {"genreid", "genre"}
    ensures r.Ok? ==> r.value["genreid"] == body["genreid"] && r.value["genre"] == body["genre"]
  {
    var genre, genreid := Get(body, "genre"), Get(body, "genreid");
    if !Truthy(genre) then Err(400, "Genre name is required")
    else if !Truthy(genreid) then Err(400, "Genre ID is required")
    else Ok(201, map["genreid" := genreid, "genre" := genre])
  }

  /** Lines 29-47. */
  method Create(genres: Collection, body: Doc) returns (r: Outcome<Reply<Doc>>)
    modifies genres
    ensures NewGenre(body).Err? ==> r == Err(400, NewGenre(body).message) && genres.docs == old(genres.docs)
    ensures NewGenre(body).Ok? ==>
              && genres.docs == old(genres.docs) + [NewGenre(body).value]
              && r == Ok(201, Reply("Genre created successfully", NewGenre(body).value))
  {
    var record := NewGenre(body);
    if record.Err? {
      return Err(400, record.message);
    }
    genres.Save(record.value);
    r := Ok(201, Reply("Genre created successfully", record.value));
  }

  const InvalidGenreId := "Invalid genre ID format"

  /** Lines 60-74: the reply is `{ genre }`; the not-found message quotes the
      route parameter as sent, not the parsed number. */
  function FindOne(genres: seq<Doc>, param: string): (r: Outcome<Doc>)
    ensures r.status == 400 <==> ParseId(param).None?
    ensures r.status == 400 ==> r == Err(400, InvalidGenreId)
    ensures r.status == 404 <==> ParseId(param).Some? && FindByKey(genres, "genreid", ParseId(param).value).None?
    ensures r.Err? && r.status == 404 ==> r.message == "Genre not found with id " + param
    ensures r.Ok? <==> (ParseId(param).Some? &&
              exists i :: 0 <= i < |genres| && Get(genres[i], "genreid") == Num(ParseId(param).value))
    ensures r.Ok? ==> r.status == 200 && exists i :: (0 <= i < |genres| &&
              Get(genres[i], "genreid") == Num(ParseId(param).value) && r.value == genres[i] &&
              forall j :: 0 <= j < i ==> Get(genres[j], "genreid") != Num(ParseId(param).value))
    ensures r.Err? || r.status == 200
  {
    match ParseId(param)
    case None => Err(400, InvalidGenreId)
    case Some(genreId) =>
      match FindByKey(genres, "genreid", genreId)
      case None => Err(404, "Genre not found with id " + param)
      case Some(k) => Ok(200, genres[k])
  }

  /** A route parameter with trailing text is read by its leading number, and
      the not-found message still shows the whole parameter. */
  lemma LeadingNumberSelects(genres: seq<Doc>, n: int, rest: string)
    requires rest == [] || !IsDecDigit(rest[0])
    requires FindByKey(genres, "genreid", n).None?
    ensures FindOne(genres, IntToString(n) + rest) == Err(404, "Genre not found with id " + (IntToString(n) + rest))
  {
    var t := IntToString(n);
    var param := t + rest;
    Unpadded(t);
    ParseIntOfIntToString("", n, rest, Radix10);
    assert ParseId(param) == Some(n);
  }

  /** Lines 87-114: the id check, then the empty-body check, then the lookup;
      only the first genre with that `genreid` changes. */
  method Update(genres: Collection, param: string, body: Option<Doc>) returns (r: Outcome<Reply<Doc>>)
    requires genres.key == "genreid"
    modifies genres
    ensures ParseId(param).None? ==> r == Err(400, InvalidGenreId) && genres.docs == old(genres.docs)
    ensures ParseId(param).Some? && BodyEmpty(body) ==>
              r == Err(400, "Update data cannot be empty") && genres.docs == old(genres.docs)
    ensures ParseId(param).Some? && !BodyEmpty(body) && FindByKey(old(genres.docs), "genreid", ParseId(param).value).None? ==>
              && r == Err(404, "Cannot update Genre with id=" + param + ". Genre not found.")
              && genres.docs == old(genres.docs)
    ensures ParseId(param).Some? && !BodyEmpty(body) && FindByKey(old(genres.docs), "genreid", ParseId(param).value).Some? ==>
              var k := FindByKey(old(genres.docs), "genreid", ParseId(param).value).value;
              && genres.docs == old(genres.docs)[k := old(genres.docs)[k] + body.value]
              && r == Ok(200, Reply("Genre updated successfully", genres.docs[k]))
  {
    var genreId := ParseId(param);
    if genreId.None? {
      return Err(400, InvalidGenreId);
    }
    if BodyEmpty(body) {
      return Err(400, "Update data cannot be empty");
    }
    var updated := genres.FindOneAndUpdate(genreId.value, body.value);
    if updated.None? {
      return Err(404, "Cannot update Genre with id=" + param + ". Genre not found.");
    }
    r := Ok(200, Reply("Genre updated successfully", updated.value));
  }

  /** Lines 127-146: only the first genre with that `genreid` is removed. */
  method Delete(genres: Collection, param: string) returns (r: Outcome<Reply<Doc>>)
    requires genres.key == "genreid"
    modifies genres
    ensures ParseId(param).None? ==> r == Err(400, InvalidGenreId) && genres.docs == old(genres.docs)
    ensures ParseId(param).Some? && FindByKey(old(genres.docs), "genreid", ParseId(param).value).None? ==>
              && r == Err(404, "Cannot delete Genre with id=" + param + ". Genre not found.")
              && genres.docs == old(genres.docs)
    ensures ParseId(param).Some? && FindByKey(old(genres.docs), "genreid", ParseId(param).value).Some? ==>
              var k := FindByKey(old(genres.docs), "genreid", ParseId(param).value).value;
              && genres.docs == RemoveAt(old(genres.docs), k)
              && r == Ok(200, Reply("Genre deleted successfully", old(genres.docs)[k]))
  {
    var genreId := ParseId(param);
    if genreId.None? {
      return Err(400, InvalidGenreId);
    }
    var deleted := genres.FindOneAndRemove(genreId.value);
    if deleted.None? {
      return Err(404, "Cannot delete Genre with id=" + param + ". Genre not found.");
    }
    r := Ok(200, Reply("Genre deleted successfully", deleted.value));
  }
}
