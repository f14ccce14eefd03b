/** The artist handlers of controllers/artist.controller.js: the paged,
    filtered list, and create, find, update and delete on the artist collection
    keyed by `artistid`. */
module Artists {
  import opened Json
  import opened Text
  import opened Catalog

  // ------------------------------------------------------------------- list

  /** The query-string parameters the list handler reads (lines 6-8). */
  datatype ArtistQuery = ArtistQuery(
    page: Option<string>,
    limit: Option<string>,
    search: Option<string>,
    name: Option<string>)

  /** `parseInt(v, 10) || d`: NaN and zero both give the default. */
  function NumberOr(v: Option<string>, d: int): (n: int)
    requires d != 0
    ensures n != 0
    ensures v.Some? && ParseInt(v.value, Radix10).Some? && ParseInt(v.value, Radix10).value != 0 ==>
              n == ParseInt(v.value, Radix10).value
    ensures v.None? || ParseInt(v.value, Radix10) in {None, Some(0)} ==> n == d
  {
    if v.None? then d
    else
      match ParseInt(v.value, Radix10)
      case None => d
      case Some(n) => if n != 0 then n else d
  }

  datatype Paging = Paging(page: int, limit: int, skip: int)

  /** Lines 7-9. */
  function PagingOf(q: ArtistQuery): (p: Paging)
    ensures p.page != 0 && p.limit != 0
    ensures p.skip == (p.page - 1) * p.limit
    ensures q.page.None? ==> p.page == 1
    ensures q.limit.None? ==> p.limit == 5
    ensures q.page.Some? && ParseInt(q.page.value, Radix10) !in {None, Some(0)} ==>
              p.page == ParseInt(q.page.value, Radix10).value
    ensures q.page.Some? && ParseInt(q.page.value, Radix10) in {None, Some(0)} ==> p.page == 1
    ensures q.limit.Some? && ParseInt(q.limit.value, Radix10) !in {None, Some(0)} ==>
              p.limit == ParseInt(q.limit.value, Radix10).value
    ensures q.limit.Some? && ParseInt(q.limit.value, Radix10) in {None, Some(0)} ==> p.limit == 5
  {
    var page := NumberOr(q.page, 1);
    var limit := NumberOr(q.limit, 5);
    Paging(page, limit, (page - 1) * limit)
  }

  /** Numerals for the page and the limit are taken as given. */
  lemma PagingOfNumerals(page: int, limit: int, search: Option<string>, name: Option<string>)
    requires page != 0 && limit != 0
    ensures PagingOf(ArtistQuery(Some(IntToString(page)), Some(IntToString(limit)), search, name))
            == Paging(page, limit, (page - 1) * limit)
  {
    ParseIdOfNumeral(page);
    ParseIdOfNumeral(limit);
  }

  /** Without page parameters the first five artists are asked for. */
  lemma DefaultPaging(search: Option<string>, name: Option<string>)
    ensures PagingOf(ArtistQuery(None, None, search, name)) == Paging(1, 5, 0)
  {
  }

  /** Line 21: `name.trim().split(' ')`, with a missing segment as "": the
      trimmed name up to its first space, then the text up to the next one. */
  function NameParts(name: string): (r: (string, string))
    ensures ' ' !in r.0 && ' ' !in r.1
    ensures FirstPiece(Trim(name), ' ', r.0)
    ensures r.0 == Trim(name) ==> r.1 == ""
    ensures r.0 != Trim(name) ==> |r.0| < |Trim(name)| && FirstPiece(Trim(name)[|r.0| + 1..], ' ', r.1)
  {
    var t := Trim(name);
    var parts := Split(t, ' ');
    SplitFirst(t, ' ');
    if |parts| > 1 then
      SplitFirst(t[|parts[0]| + 1..], ' ');
      (parts[0], parts[1])
    else
      (parts[0], "")
  }

  /** Characters that are not blanks. */
  predicate Word(s: string) {
    s != "" && forall i :: 0 <= i < |s| ==> !IsSpace(s[i])
  }

  /** A single word, with any surrounding blanks, is a first name only. */
  lemma NamePartsOfOneWord(p: string, w: string, q: string)
    requires AllSpace(p) && AllSpace(q) && Word(w)
    ensures NameParts(p + w + q) == (w, "")
  {
    TrimPadded(p, w, q);
    assert ' ' !in w by {
      assert IsSpace(' ');
    }
    SplitNoSeparator(w, ' ');
  }

  /** "Cher" is a first name with no last name. */
  lemma NamePartsOfCher()
    ensures NameParts("Cher") == ("Cher", "")
  {
    NamePartsOfOneWord("", "Cher", "");
    Unpadded("Cher");
  }

  /** A first and a last name, with any surrounding blanks, give both parts. */
  lemma NamePartsOfFullName(p: string, first: string, last: string, q: string)
    requires AllSpace(p) && AllSpace(q)
    requires Word(first) && Word(last)
    ensures NameParts(p + first + " " + last + q) == (first, last)
  {
    var core := first + " " + last;
    assert p + first + " " + last + q == p + core + q;
    assert core[0] == first[0];
    TrimPadded(p, core, q);
    SplitNoSeparator(last, ' ');
    assert core == first + [' '] + last;
    SplitAfterPiece(first, ' ', last);
  }

  /** Segments after the second are ignored. */
  lemma NamePartsIgnoresRest(first: string, last: string, rest: string)
    requires Word(first) && Word(last)
    requires rest != [] && !IsSpace(rest[|rest| - 1])
    ensures NameParts(first + " " + last + " " + rest) == (first, last)
  {
    var tail := last + [' '] + rest;
    assert first + " " + last + " " + rest == first + [' '] + tail;
    assert tail[|tail| - 1] == rest[|rest| - 1];
    SplitAfterPiece(last, ' ', rest);
    NamePartsOfWords(first, tail, last);
  }

  /** Two spaces between the names leave an empty second segment, so the last
      name is not used. */
  lemma NamePartsDoubleSpace(first: string, last: string)
    requires Word(first) && Word(last)
    ensures NameParts(first + "  " + last) == (first, "")
  {
    var tail := [' '] + last;
    assert first + "  " + last == first + [' '] + tail;
    assert tail == "" + [' '] + last;
    SplitAfterPiece("", ' ', last);
    NamePartsOfWords(first, tail, "");
  }

  /** A word, a blank and text ending in a non-blank split after the word. */
  lemma NamePartsOfWords(first: string, tail: string, second: string)
    requires Word(first)
    requires tail != [] && !IsSpace(tail[|tail| - 1])
    requires Split(tail, ' ')[0] == second
    ensures NameParts(first + [' '] + tail) == (first, second)
  {
    var core := first + [' '] + tail;
    assert core[0] == first[0] && core[|core| - 1] == tail[|tail| - 1];
    TrimPadded("", core, "");
    Unpadded(core);
    SplitAfterPiece(first, ' ', tail);
  }

  /** The keys an artist condition can hold. */
  const ArtistFilterKeys: set<string> := {"$or", "first_name", "last_name"}

  /** Lines 11-24: the condition is built key by key. */
  method ArtistCondition(q: ArtistQuery) returns (c: Condition)
    ensures c.Keys <= ArtistFilterKeys
    ensures "$or" in c <==> Present(q.search)
    ensures "$or" in c ==> c["$or"] == AnyOf([map["first_name" := Matches(q.search.value, "i")],
                                              map["last_name" := Matches(q.search.value, "i")]])
    ensures "first_name" in c <==> Present(q.name) && NameParts(q.name.value).0 != ""
    ensures "first_name" in c ==> c["first_name"] == Matches(NameParts(q.name.value).0, "i")
    ensures "last_name" in c <==> Present(q.name) && NameParts(q.name.value).1 != ""
    ensures "last_name" in c ==> c["last_name"] == Matches(NameParts(q.name.value).1, "i")
  {
    c := map[];
    if Present(q.search) {
      c := c["$or" := AnyOf([map["first_name" := Matches(q.search.value, "i")],
                             map["last_name" := Matches(q.search.value, "i")]])];
    }
    if Present(q.name) {
      var (firstName, lastName) := NameParts(q.name.value);
      if firstName != "" {
        c := c["first_name" := Matches(firstName, "i")];
      }
      if lastName != "" {
        c := c["last_name" := Matches(lastName, "i")];
      }
    }
  }

  /** Lines 27-32: `found` is what the store's `find(condition)` returns; the
      reply is only the requested page of it. A negative skip is refused by the
      store (reported as 500); a negative limit caps the page at its magnitude. */
  function ArtistPage(found: seq<Doc>, p: Paging): (r: Outcome<seq<Doc>>)
    ensures r.Err? <==> p.skip < 0
    ensures r.Err? ==> r == Err(500, "Error retrieving artists")
    ensures r.Ok? ==> r.status == 200
    ensures r.Ok? ==> |r.value| <= if p.limit < 0 then -p.limit else p.limit
    ensures r.Ok? ==> forall i :: 0 <= i < |r.value| ==> p.skip + i < |found| && r.value[i] == found[p.skip + i]
    ensures r.Ok? && p.skip + (if p.limit < 0 then -p.limit else p.limit) <= |found| ==>
              |r.value| == if p.limit < 0 then -p.limit else p.limit
    ensures r.Ok? && p.skip + (if p.limit < 0 then -p.limit else p.limit) > |found| ==>
              |r.value| == if p.skip < |found| then |found| - p.skip else 0
  {
    if p.skip < 0 then Err(500, "Error retrieving artists")
    else
      var size := if p.limit < 0 then -p.limit else p.limit;
      var start := if p.skip <= |found| then p.skip else |found|;
      var end := if start + size <= |found| then start + size else |found|;
      Ok(200, found[start..end])
  }

  // ----------------------------------------------------------------- create

  /** The record a create stores (lines 55-62). */
  datatype ArtistRecord = ArtistRecord(
    artistid: JsValue,
    first_name: JsValue,
    last_name: JsValue,
    wiki_url: JsValue,
    profile_url: JsValue,
    movies: JsValue)

  /** Lines 43-62: the first missing field of `first_name`, `last_name`,
      `artistid` is reported; otherwise the record with its defaults. */
  function NewArtist(body: Doc): (r: Outcome<ArtistRecord>)
    ensures !Truthy(Get(body, "first_name")) ==> r == Err(400, "First name is required")
    ensures Truthy(Get(body, "first_name")) && !Truthy(Get(body, "last_name")) ==> r == Err(400, "Last name is required")
    ensures Truthy(Get(body, "first_name")) && Truthy(Get(body, "last_name")) && !Truthy(Get(body, "artistid")) ==>
              r == Err(400, "Artist ID is required")
    ensures r.Ok? <==> Truthy(Get(body, "first_name")) && Truthy(Get(body, "last_name")) && Truthy(Get(body, "artistid"))
    ensures r.Ok? ==> r.status == 201 && r.value.artistid == body["artistid"]
    ensures r.Ok? ==> r.value.first_name == body["first_name"] && r.value.last_name == body["last_name"]
    ensures r.Ok? ==> r.value.movies.Arr? && (Get(body, "movies").Arr? ==> r.value.movies == body["movies"])
    ensures r.Ok? ==> !Get(body, "movies").Arr? ==> r.value.movies == Arr([])
    ensures r.Ok? ==> r.value.wiki_url == Or(Get(body, "wiki_url"), Str(""))
    ensures r.Ok? ==> r.value.profile_url == Or(Get(body, "profile_url"), Str(""))
  {
    var first, last, id := Get(body, "first_name"), Get(body, "last_name"), Get(body, "artistid");
    if !Truthy(first) then Err(400, "First name is required")
    else if !Truthy(last) then Err(400, "Last name is required")
    else if !Truthy(id) then Err(400, "Artist ID is required")
    else
      var movies := Get(body, "movies");
      Ok(201, ArtistRecord(id, first, last, Or(Get(body, "wiki_url"), Str("")),
                           Or(Get(body, "profile_url"), Str("")), if movies.Arr? then movies else Arr([])))
  }

  /** The stored document of an artist record. */
  function ArtistDoc(a: ArtistRecord): (d: Doc)
    ensures d.Keys == {"artistid", "first_name", "last_name", "wiki_url", "profile_url", "movies"}
    ensures d["artistid"] == a.artistid && d["movies"] == a.movies
    ensures d["first_name"] == a.first_name && d["last_name"] == a.last_name
    ensures d["wiki_url"] == a.wiki_url && d["profile_url"] == a.profile_url
  {
    map["artistid" := a.artistid, "first_name" := a.first_name, "last_name" := a.last_name,
        "wiki_url" := a.wiki_url, "profile_url" := a.profile_url, "movies" := a.movies]
  }

  /** Lines 42-69. */
  method Create(artists: Collection, body: Doc) returns (r: Outcome<Reply<Doc>>)
    modifies artists
    ensures NewArtist(body).Err? ==> r == Err(400, NewArtist(body).message) && artists.docs == old(artists.docs)
    ensures NewArtist(body).Ok? ==>
              && artists.docs == old(artists.docs) + [ArtistDoc(NewArtist(body).value)]
              && r == Ok(201, Reply("Artist created successfully", ArtistDoc(NewArtist(body).value)))
  {
    var record := NewArtist(body);
    if record.Err? {
      return Err(400, record.message);
    }
    var doc := ArtistDoc(record.value);
    artists.Save(doc);
    r := Ok(201, Reply("Artist created successfully", doc));
  }

  // ------------------------------------------------------------ find one

  const InvalidArtistId := "Invalid artist ID format"

  /** Lines 79-94: the reply is `{ artist }`. */
  function FindOne(artists: seq<Doc>, param: string): (r: Outcome<Doc>)
    ensures r.status == 400 <==> ParseId(param).None?
    ensures r.status == 400 ==> r == Err(400, InvalidArtistId)
    ensures r.status == 404 <==> ParseId(param).Some? && FindByKey(artists, "artistid", ParseId(param).value).None?
    ensures r.Err? && r.status == 404 ==> r.message == "Artist not found with id " + IntToString(ParseId(param).value)
    ensures r.Ok? <==> (ParseId(param).Some? &&
              exists i :: 0 <= i < |artists| && Get(artists[i], "artistid") == Num(ParseId(param).value))
    ensures r.Ok? ==> r.status == 200 && exists i :: (0 <= i < |artists| &&
              Get(artists[i], "artistid") == Num(ParseId(param).value) && r.value == artists[i] &&
              forall j :: 0 <= j < i ==> Get(artists[j], "artistid") != Num(ParseId(param).value))
    ensures r.Err? || r.status == 200
  {
    match ParseId(param)
    case None => Err(400, InvalidArtistId)
    case Some(artistId) =>
      match FindByKey(artists, "artistid", artistId)
      case None => Err(404, "Artist not found with id " + IntToString(artistId))
      case Some(k) => Ok(200, artists[k])
  }

  /** A created artist is found by its id. */
  lemma CreatedArtistFound(docs: seq<Doc>, body: Doc, n: int)
    requires NewArtist(body).Ok? && body["artistid"] == Num(n)
    requires FindByKey(docs, "artistid", n).None?
    ensures var a := ArtistDoc(NewArtist(body).value);
            FindOne(docs + [a], IntToString(n)) == Ok(200, a)
  {
    var a := ArtistDoc(NewArtist(body).value);
    ParseIdOfNumeral(n);
    AppendedFound(docs, a, "artistid", n);
  }

  // ----------------------------------------------------------------- update

  /** Lines 104-135: the id check, then the empty-body check, then the lookup;
      only the first artist with that `artistid` changes, and a non-array
      `movies` in the body is written as [] (lines 115-117). */
  method Update(artists: Collection, param: string, body: Option<Doc>) returns (r: Outcome<Reply<Doc>>)
    requires artists.key == "artistid"
    modifies artists
    ensures ParseId(param).None? ==> r == Err(400, InvalidArtistId) && artists.docs == old(artists.docs)
    ensures ParseId(param).Some? && BodyEmpty(body) ==>
              r == Err(400, "Update data cannot be empty") && artists.docs == old(artists.docs)
    ensures ParseId(param).Some? && !BodyEmpty(body) && FindByKey(old(artists.docs), "artistid", ParseId(param).value).None? ==>
              && r == Err(404, "Cannot update Artist with id=" + IntToString(ParseId(param).value) + ". Artist not found.")
              && artists.docs == old(artists.docs)
    ensures ParseId(param).Some? && !BodyEmpty(body) && FindByKey(old(artists.docs), "artistid", ParseId(param).value).Some? ==>
              var k := FindByKey(old(artists.docs), "artistid", ParseId(param).value).value;
              && artists.docs == old(artists.docs)[k := old(artists.docs)[k] + EmptyIfNotArray(body.value, "movies")]
              && r == Ok(200, Reply("Artist updated successfully", artists.docs[k]))
  {
    var artistId := ParseId(param);
    if artistId.None? {
      return Err(400, InvalidArtistId);
    }
    if BodyEmpty(body) {
      return Err(400, "Update data cannot be empty");
    }
    var updated := artists.FindOneAndUpdate(artistId.value, EmptyIfNotArray(body.value, "movies"));
    if updated.None? {
      return Err(404, "Cannot update Artist with id=" + IntToString(artistId.value) + ". Artist not found.");
    }
    r := Ok(200, Reply("Artist updated successfully", updated.value));
  }

  // ----------------------------------------------------------------- delete

  /** Lines 145-164: only the first artist with that `artistid` is removed. */
  method Delete(artists: Collection, param: string) returns (r: Outcome<Reply<Doc>>)
    requires artists.key == "artistid"
    modifies artists
    ensures ParseId(param).None? ==> r == Err(400, InvalidArtistId) && artists.docs == old(artists.docs)
    ensures ParseId(param).Some? && FindByKey(old(artists.docs), "artistid", ParseId(param).value).None? ==>
              && r == Err(404, "Cannot delete Artist with id=" + IntToString(ParseId(param).value) + ". Artist not found.")
              && artists.docs == old(artists.docs)
    ensures ParseId(param).Some? && FindByKey(old(artists.docs), "artistid", ParseId(param).value).Some? ==>
              var k := FindByKey(old(artists.docs), "artistid", ParseId(param).value).value;
              && artists.docs == RemoveAt(old(artists.docs), k)
              && r == Ok(200, Reply("Artist deleted successfully", old(artists.docs)[k]))
  {
    var artistId := ParseId(param);
    if artistId.None? {
      return Err(400, InvalidArtistId);
    }
    var deleted := artists.FindOneAndRemove(artistId.value);
    if deleted.None? {
      return Err(404, "Cannot delete Artist with id=" + IntToString(artistId.value) + ". Artist not found.");
    }
    r := Ok(200, Reply("Artist deleted successfully", deleted.value));
  }
}
