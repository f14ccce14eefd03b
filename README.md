# moviesdb controllers in Dafny

moviesdb is an Express/Mongoose backend for a movie-booking site. Its four
controllers do the work: users, movies, artists and genres. This project
models those controllers, with each document collection replaced by an
in-memory table kept in the store's natural order. A `findOne` is the first
matching record in that order. Every handler returns an `Outcome`: a status
code with either the reply value or the error message the handler sends.

- `json.dfy` (module `Json`): JSON values with JavaScript truthiness, `||`
  and `??`. It also holds the status-carrying `Outcome` and the first-match
  search the store's `findOne` performs.
- `text.dfy` (module `Text`): whitespace trimming, `split` and `join`, ASCII
  lower-casing, and `parseInt`. `parseInt` skips leading blanks, takes an
  optional sign and the leading digits, and gives NaN (`None`) when there are
  none. With no radix it also accepts a `0x` prefix. The module also has
  decimal numerals, with the round trip `parseInt(String(n)) == n`.
- `base64.dfy` (module `Base64`): the base64 alphabet of RFC 4648,
  section 4, with a strict decoder. Decoding and encoding are proved to be
  inverse in both directions.
- `catalog.dfy` (module `Catalog`): what the catalog handlers share:
  - query conditions, with patterns kept as text;
  - the numeric route-id check;
  - comma-list cleaning;
  - a `Collection` class of documents keyed by a numeric field, with
    `save`, `findOneAndUpdate` and `findOneAndRemove`.
- `users.dfy` (module `Users`): the user table as the class `UserStore`:
  - sign-up, Basic-credential login, logout, update and delete, with the
    session invariant they keep or break;
  - token lookup, lookup by any identifier and the coupon listing, as
    functions of the table.
- `movies.dfy`, `artists.dfy`, `genres.dfy`:
  - the list filters, built key by key as the handlers build them;
  - the output shaping, and the normalisation of show records;
  - the create validation order and defaults;
  - update and delete by the numeric id.

The user session invariant is `SessionsValid`: a record is logged in exactly
when its session id is set, and exactly when its access token is set, and no
two records share a session id or a token. Sign-up, login (given fresh
values), logout and delete keep it. The generic update can break it.

The model records some behaviour of the code itself:

- A Basic credential is cut at its second colon.
- A 24-digit hexadecimal `_id` that starts with a digit is also read as a
  numeric `userid`, so it can select a different user.
- The stored movie has `critics_rating` and `storyline`, while the
  single-movie view reads `critic_rating` and `story_line`. So a created
  movie is always shown with rating 0 and the placeholder storyline.

## Model

| member | source | states |
|---|---|---|
| Json.FirstIndex | controllers/user.controller.js:72 | the first position satisfying the predicate, none before it; None exactly when no element satisfies it |
| Json.Or | controllers/user.controller.js:37-45 | `a \|\| b`: a when truthy, else b |
| Json.Coalesce | controllers/movie.controller.js:72 | `a ?? b`: b exactly when a is null or undefined |
| Json.RemoveAt | controllers/user.controller.js:214 | removes exactly position k: length drops by one, the others keep their order, the multiset loses one copy of the element |
| Text.Trim | controllers/artist.controller.js:21 | no longer than the text, and empty or starting and ending with a non-blank |
| Text.TrimPadded | controllers/movie.controller.js:21 | trimming blanks around a text that has no blank at either end gives that text |
| Text.Split | controllers/user.controller.js:63-65 | at least one piece, none containing the separator, and joined with it they give the text back |
| Text.SplitAfterPiece | controllers/artist.controller.js:21 | splitting `a + sep + rest` with sep not in a: a, then the pieces of rest |
| Text.SplitJoin | controllers/movie.controller.js:21 | splitting the join of separator-free pieces gives the pieces back |
| Text.SplitFirst | controllers/artist.controller.js:21 | the first piece is the text before the first separator (all of it when there is none); there is one piece exactly when the separator does not occur; the other pieces are the split of the text after the first separator |
| Text.FirstPieceUnique | controllers/artist.controller.js:21 | a text has only one first piece for a separator |
| Text.ToLower | controllers/user.controller.js:37 | same length, each character lower-cased if it is A-Z and kept otherwise |
| Text.ToLowerMatches | controllers/movie.controller.js:11-12 | a text lower-cases to a word of small letters exactly when it has the same length and each character is that letter or its capital |
| Text.LeadingDigits | controllers/movie.controller.js:58 | the length of the longest prefix of digits of the radix |
| Text.ParseInt | controllers/movie.controller.js:58 | `parseInt`: NaN (None) exactly when no digit of the radix follows the blanks, the sign and, with no radix, a `0x` prefix |
| Text.ParseIntOfIntToString | controllers/genre.controller.js:62 | blanks, then a decimal numeral of n, then text that does not start with a digit (nor with `x` when no radix is given), parse as n |
| Text.ParseIntOfNumeral | controllers/movie.controller.js:58 | the decimal numeral of any integer parses back to it |
| Text.ParseIntOfSignedNumeral | controllers/movie.controller.js:58 | blanks, an optional `-` or `+`, decimal digits and text that does not continue them parse as the signed value of the digits |
| Text.ParseIntHexPrefix | controllers/user.controller.js:142 | with no radix, ` -0x1F` reads as -31 in base 16 |
| Text.ParseIntHexPrefixRadix10 | controllers/movie.controller.js:58 | with radix 10, ` -0x1F` reads as 0, the digit before the `x` |
| Text.ParseIntValue | controllers/movie.controller.js:106 | `parseInt(v, 10)` of a JSON value: a string is parsed, a number is taken as it is, an array is read through its first element, and anything else (including the empty array) is NaN |
| Text.IntToString | controllers/movie.controller.js:66 | `String(n)`: a non-empty numeral of decimal digits, led by `-` exactly when n is negative |
| Base64.SymbolRoundTrip | controllers/user.controller.js:63 | every 6-bit value's symbol decodes to that value |
| Base64.Encode | controllers/user.controller.js:63 | the encoding has 4 characters per started block of 3 bytes |
| Base64.Decode | controllers/user.controller.js:63 | the strict decoder accepts only texts whose length is a multiple of 4, and yields at most 3 bytes per 4 characters |
| Base64.EncodeFoo | controllers/user.controller.js:63 | the bytes of "foo" encode as "Zm9v", the test vector of section 10 of RFC 4648 |
| Base64.EncodeFoobar | controllers/user.controller.js:63 | the bytes of "foobar" encode as "Zm9vYmFy", the test vector of section 10 of RFC 4648 |
| Base64.DecodeEncode | controllers/user.controller.js:63 | decoding the encoding of any bytes gives those bytes |
| Base64.EncodeDecode | controllers/user.controller.js:63 | any text the strict decoder accepts is the encoding of what it decodes to |
| Base64.DecodeIffEncode | controllers/user.controller.js:63 | `Decode(s) == Some(b)` exactly when `Encode(b) == s` |
| Base64.AsciiText | controllers/user.controller.js:64 | `toString("ascii")`: one character per byte, with the high bit cleared |
| Base64.AsciiBytes | controllers/user.controller.js:64 | for 7-bit text, the bytes `toString("ascii")` turns back into it |
| Catalog.ParseIdOfNumeral | controllers/movie.controller.js:58-61 | the numeral of any integer passes the id check as that integer |
| Catalog.ParseIdRejects | controllers/movie.controller.js:58-61 | a route id with no digit after the blanks and the sign fails the id check |
| Catalog.ParseId | controllers/movie.controller.js:58-61 | `parseInt(id, 10)`: NaN exactly when no decimal digit follows the blanks and the sign; a negative id has a leading `-` |
| Catalog.BodyEmpty | controllers/movie.controller.js:165 | a body is refused exactly when it is missing or has no key |
| Catalog.CleanList | controllers/movie.controller.js:21 | every cleaned piece is non-empty, comma-free and trimmed at both ends |
| Catalog.CleanListOne | controllers/movie.controller.js:21 | a text without commas cleans to its trimmed self, or to nothing when that is empty |
| Catalog.CleanListStep | controllers/movie.controller.js:21 | cleaning keeps order: the first piece trimmed (kept if non-empty), then the cleaned rest |
| Catalog.CleanListOfJoin | controllers/movie.controller.js:21 | cleaning the comma-join of non-empty, trimmed, comma-free items gives the items back |
| Catalog.CleanListBlank | controllers/movie.controller.js:21-22 | text of only commas and blanks cleans to the empty list, so no key is added |
| Catalog.FindByKey | controllers/movie.controller.js:64 | the first document whose key field holds the number, none before it; None exactly when none does |
| Catalog.AppendedFound | controllers/movie.controller.js:145 | a saved document with a new id is found by that id at the end |
| Catalog.UpdateKeepsLookup | controllers/movie.controller.js:174-178 | after an update that leaves the key alone, the same id finds the same document |
| Catalog.RemoveForgetsKey | controllers/movie.controller.js:206 | with unique ids, a removed id is no longer found |
| Catalog.Collection.Save | controllers/movie.controller.js:145 | the document is appended and nothing else changes |
| Catalog.Collection.FindOneAndUpdate | controllers/artist.controller.js:120-124 | none found: no change; otherwise only the first match gets the update's fields and is returned as updated |
| Catalog.Collection.FindOneAndRemove | controllers/artist.controller.js:153 | none found: no change; otherwise only the first match is removed and returned |
| Users.HighestUser | controllers/user.controller.js:28 | a record whose userid is at least every other userid |
| Users.NextUserId | controllers/user.controller.js:28-29 | 1 on an empty table; otherwise one more than the largest userid, so larger than every userid |
| Users.SessionsValid | controllers/user.controller.js:77-82 | the session invariant that login (fresh session id and token, flag set, together) and logout (all three cleared) keep: a record is logged in exactly when its session id and its token are set, and no two records share a session id or a token |
| Users.LoggedInTokenResolves | controllers/user.controller.js:170-186 | under the session invariant `SessionsValid` the token of a logged-in record resolves to that record |
| Users.StartSession | controllers/user.controller.js:80-84 | the record is logged in with the given session id and token, and is session-consistent when both are non-empty; no other field changes |
| Users.EndSession | controllers/user.controller.js:105-109 | the record is logged out with empty session id and token, so it is session-consistent; no other field changes |
| Users.NewUser | controllers/user.controller.js:31-46 | the record sign-up stores: the next userid, the hash as password, the given fields; the given username, else the lower-cased first and last name; the given role, else "user"; the given coupons and booking requests, else []; logged out with empty session id and token |
| Users.SignUpKeepsSessions | controllers/user.controller.js:41-43 | appending a logged-out record with empty session id and token keeps the session invariant |
| Users.SignUpKeepsUseridsDistinct | controllers/user.controller.js:28-33 | appending a record with the next userid keeps userids distinct |
| Users.UserStore.SignUp | controllers/user.controller.js:8-53 | a missing or empty email, password, first or last name gives 400 and no change; otherwise 201 with the new record appended, whose stored password verifies against the password; keeps the session invariant and distinct userids |
| Users.CredentialSegment | controllers/user.controller.js:63 | the header's second space-separated piece is the text after "Basic " up to the next space |
| Users.DecodeBasic | controllers/user.controller.js:59-69 | not Basic exactly when the header is missing or does not start with "Basic "; credentials always have a non-empty, colon-free username and password |
| Users.DecodeBasicText | controllers/user.controller.js:63-69 | a client header for ASCII text gives the text before the first colon and the text between the first and second colons, or Incomplete when either is empty |
| Users.BasicRoundTrip | controllers/user.controller.js:63-65 | the header of `username:password` (both non-empty and colon-free) decodes to exactly those credentials |
| Users.PasswordCutAtColon | controllers/user.controller.js:63-65 | a password followed by another colon is cut there: the header of `user:pass:rest` gives `pass` |
| Users.EncodedHasNoSpace | controllers/user.controller.js:63 | an encoding has no space, so the split on spaces keeps it whole |
| Users.Authenticate | controllers/user.controller.js:72-75 | the first record with exactly that username, only when the password verifies against its stored hash; None when there is no such record or it does not verify |
| Users.LoginReplyOf | controllers/user.controller.js:86-96 | the login body is the redacted view of the record plus the token, which is also the `access-token` header |
| Users.LoginKeepsSessions | controllers/user.controller.js:80-84 | starting a session with a fresh, non-empty session id and token keeps the session invariant |
| Users.UserStore.Login | controllers/user.controller.js:56-100 | 400/400/401 with no change for a non-Basic header, incomplete credentials and invalid credentials; otherwise only the matched record is logged in with the new session id and token, and the reply carries that id and token with no password; keeps the session invariant for fresh values |
| Users.LogoutKeepsSessions | controllers/user.controller.js:105-109 | ending one record's session keeps the session invariant |
| Users.UserStore.Logout | controllers/user.controller.js:103-119 | no record with that session id: 404 and no change; otherwise only the first such record is logged out with empty session id and token; keeps the session invariant |
| Users.BearerToken | controllers/user.controller.js:166 | present exactly when the header has a space; then the text after the first space up to the next space (or the end) |
| Users.BearerRoundTrip | controllers/user.controller.js:166 | `scheme token` gives back the token |
| Users.Redact | controllers/user.controller.js:179-186 | the view carries the session id as `id`, the username, both names, the email and the login flag, and nothing else (no password, no token) |
| Users.GetUserByToken | controllers/user.controller.js:165-190 | 401 exactly when the token is missing or empty; 404 exactly when no record holds it; 200 exactly when some record holds it, with the redacted view of the first such record |
| Users.ResolvedUserIsLoggedIn | controllers/user.controller.js:173-186 | under the session invariant, a token that resolves belongs to a logged-in record |
| Users.LogoutRevokesToken | controllers/user.controller.js:105-113 | after logout the former token gives 404 (401 if it was empty) |
| Users.ReloginRevokesToken | controllers/user.controller.js:77-84 | after a new login the former token gives 404 (401 if it was empty) and the new token resolves to that record |
| Users.NumericKey | controllers/user.controller.js:142 | `parseInt(id) \|\| -1`: the parsed number when non-zero, else -1 |
| Users.NumericKeyOfNumeral | controllers/user.controller.js:142 | the numeral of a non-zero integer is read as that integer |
| Users.LookupKeys | controllers/user.controller.js:139-146 | the `_id` disjunct exactly when the id is 24 hex digits; always the userid, username and uuid disjuncts |
| Users.FindOne | controllers/user.controller.js:137-162 | 404 exactly when no record matches any disjunct; otherwise the first record in natural order matching any of them, with its lists |
| Users.ObjectIdReadAsNumber | controllers/user.controller.js:141-142 | the `_id` "5" followed by 23 "b"s passes the `_id` guard and is also read as userid 5 |
| Users.ObjectIdCanReachAnotherUser | controllers/user.controller.js:137-158 | the `_id` of the second record returns the first record when that record's userid is 5 |
| Users.UpdateCanBreakSessions | controllers/user.controller.js:199 | some update body turns a session-consistent record into an inconsistent one |
| Users.Patched | controllers/user.controller.js:199 | the `_id` is kept; every field the body names is stored as sent, the password included; every field it does not name keeps its value; the empty body changes nothing |
| Users.PatchedTwice | controllers/user.controller.js:199 | applying the same update twice gives the same record as once |
| Users.UserStore.Update | controllers/user.controller.js:193-209 | no body: 400; unknown `_id`: 404; both with no change; otherwise only that record gets the body's fields |
| Users.DeleteKeepsSessions | controllers/user.controller.js:214 | removing a record keeps the session invariant |
| Users.UserStore.Delete | controllers/user.controller.js:212-224 | unknown `_id`: 404 and no change; otherwise exactly that record is removed; keeps the session invariant |
| Users.GetCouponCode | controllers/user.controller.js:227-249 | 404 exactly when no record has the `_id`; 401 exactly when the first such record is not logged in; 200 exactly when it is, with its coupons, page 1, and limit and total their count |
| Users.CouponsFollowSession | controllers/user.controller.js:227-245 | with distinct `_id`s, a record's coupons are listed after it logs in and refused with 401 after it logs out |
| Movies.AddStatus | controllers/movie.controller.js:10-14 | `published` or `released` is set to true exactly when the lower-cased status is that word; other keys kept |
| Movies.AddTitle | controllers/movie.controller.js:16-18 | `title` is a case-insensitive pattern exactly when a title is given; other keys kept |
| Movies.AddList | controllers/movie.controller.js:20-32 | the key holds the cleaned list exactly when it is non-empty; other keys kept |
| Movies.AddDateRange | controllers/movie.controller.js:34-38 | `release_date` present exactly when either date is; `$gte` exactly when the start date is given, `$lte` exactly when the end date is |
| Movies.StatusAndTitle | controllers/movie.controller.js:8-18 | the status flags and the title pattern, and no other key |
| Movies.ListsAndDates | controllers/movie.controller.js:20-38 | the genre and artist lists and the date range added; earlier keys kept |
| Movies.MovieCondition | controllers/movie.controller.js:7-38 | each of the six keys is present exactly when its parameter calls for it, with its value; no parameters give the empty condition |
| Movies.StatusWordAnyCase | controllers/movie.controller.js:11-12 | a status selects `published` or `released` exactly when it spells that word with each letter in either case |
| Movies.ListMovies | controllers/movie.controller.js:42-47 | the movies found, page 1, and limit and total both their number |
| Movies.SafeMovie | controllers/movie.controller.js:69-74 | the stored fields plus `genres` kept when it is an array and [] otherwise, `critics_rating` from `critic_rating ?? 0`, `storyline` from a truthy `story_line`, else "No storyline available" |
| Movies.FindOne | controllers/movie.controller.js:57-83 | 400 exactly when the id is NaN, before any lookup; 404 exactly when no movie has that id; 200 exactly when one has, with the shaped first match |
| Movies.OrUnknown | controllers/movie.controller.js:100-104 | the value when truthy, else "Unknown" |
| Movies.NormalizeShow | controllers/movie.controller.js:99-106 | falsy names become "Unknown"; the price becomes 0 only when null or undefined; the seats are the parsed number, or 0 when that is NaN or 0 |
| Movies.NormalizeCompleteShow | controllers/movie.controller.js:99-106 | a show with every field set keeps its values |
| Movies.NormalizeEmptyShow | controllers/movie.controller.js:99-106 | an empty show gets every default |
| Movies.MapShows | controllers/movie.controller.js:98-107 | one normalised show per stored show, in the same order |
| Movies.ShowsOf | controllers/movie.controller.js:98-114 | falsy shows give []; a non-array, or a null or undefined element, gives 500; otherwise the normalised list |
| Movies.FindShows | controllers/movie.controller.js:86-116 | 400 exactly when the id is NaN, before any lookup; 404 exactly when no movie has that id; otherwise exactly the shows outcome of the first match |
| Movies.NewMovie | controllers/movie.controller.js:120-142 | 400 exactly when title or movieid is falsy; otherwise the given id and title, each `\|\|` default (false flags, "" URLs and storyline, null dates, 0 duration and rating, [] artists and shows), and genres kept when an array and [] otherwise |
| Movies.MovieDoc | controllers/movie.controller.js:126-142 | the stored document has exactly the fifteen fields of the record |
| Movies.MovieDocFields | controllers/movie.controller.js:126-142 | each of the fifteen stored fields holds the record's value |
| Movies.MovieDocOmitsViewNames | controllers/movie.controller.js:126-142 | no stored document has a `critic_rating` or `story_line` field |
| Movies.CreatedMovieFound | controllers/movie.controller.js:119-149 | a created movie with a new id is found by that id's numeral, and is shown with the title it was created with |
| Movies.CreatedRatingNotShown | controllers/movie.controller.js:69-74 | a created movie is shown with rating 0 and the placeholder storyline, whatever it was created with |
| Movies.Create | controllers/movie.controller.js:119-156 | 400 and no change on invalid input; otherwise the record is appended and returned with 201 |
| Movies.Update | controllers/movie.controller.js:159-196 | 400 for a NaN id, then 400 for an empty body, then 404 for an unknown id, each with no change; otherwise only the first match gets the fixed body's fields |
| Movies.Delete | controllers/movie.controller.js:199-223 | 400 for a NaN id, 404 for an unknown id, each with no change; otherwise only the first match is removed and returned |
| Artists.NumberOr | controllers/artist.controller.js:7-8 | `parseInt(v, 10) \|\| d`: the parsed number when non-zero, else d |
| Artists.PagingOf | controllers/artist.controller.js:7-9 | page and limit are the parsed numbers when non-zero, and 1 and 5 when missing, NaN or 0; skip is `(page - 1) * limit` |
| Artists.PagingOfNumerals | controllers/artist.controller.js:7-9 | non-zero numerals are taken as given |
| Artists.DefaultPaging | controllers/artist.controller.js:7-9 | with no paging parameters: page 1, limit 5, skip 0 |
| Artists.NameParts | controllers/artist.controller.js:21 | the trimmed name up to its first space, then the text after that space up to the next one, or "" when the name has no space |
| Artists.NamePartsOfOneWord | controllers/artist.controller.js:21 | one word, with blanks around it, is a first name with an empty last name |
| Artists.NamePartsOfCher | controllers/artist.controller.js:21 | "Cher" gives ("Cher", "") |
| Artists.NamePartsOfFullName | controllers/artist.controller.js:21 | two words, with blanks around them, give those words |
| Artists.NamePartsIgnoresRest | controllers/artist.controller.js:21 | pieces after the second are ignored |
| Artists.NamePartsDoubleSpace | controllers/artist.controller.js:21 | a double space leaves the last name empty |
| Artists.ArtistCondition | controllers/artist.controller.js:11-24 | `$or` over both names exactly when search is given; each name key exactly when its piece is non-empty; no other key |
| Artists.ArtistPage | controllers/artist.controller.js:27-32 | the requested page of what was found, in order from skip: limit documents when that many remain, else all that remain after skip (none when skip is past the end); a negative skip is a 500 |
| Artists.NewArtist | controllers/artist.controller.js:43-62 | first_name, then last_name, then artistid: the first missing one is reported; otherwise the given fields, `movies` kept when an array and [] otherwise, URLs defaulting to '' |
| Artists.ArtistDoc | controllers/artist.controller.js:55-62 | the stored document has exactly the six record fields, each holding the record's value |
| Artists.Create | controllers/artist.controller.js:42-76 | 400 and no change on invalid input; otherwise the record is appended and returned with 201 |
| Artists.CreatedArtistFound | controllers/artist.controller.js:42-94 | a created artist with a new id is found by that id's numeral |
| Artists.FindOne | controllers/artist.controller.js:79-101 | 400 exactly when the id is NaN, before any lookup; 404 exactly when no artist has that id; 200 exactly when one has, with the first match |
| Catalog.EmptyIfNotArray | controllers/artist.controller.js:115-117 | a truthy field that is not an array becomes exactly []; a field that is an array or falsy, and every other field, is kept |
| Artists.Update | controllers/artist.controller.js:104-142 | 400 for a NaN id, then 400 for an empty body, then 404 for an unknown id, each with no change; otherwise only the first match gets the fixed body's fields |
| Artists.Delete | controllers/artist.controller.js:145-171 | 400 for a NaN id, 404 for an unknown id, each with no change; otherwise only the first match is removed and returned |
| Genres.GenreCondition | controllers/genre.controller.js:10-13 | empty exactly when there is no search text; otherwise it constrains only `genre` |
| Genres.NewGenre | controllers/genre.controller.js:31-41 | genre is checked before genreid; the record holds exactly those two fields |
| Genres.Create | controllers/genre.controller.js:29-54 | 400 and no change on invalid input; otherwise the record is appended and returned with 201 |
| Genres.FindOne | controllers/genre.controller.js:60-81 | 400 exactly when the id is NaN, before any lookup; 404 exactly when no genre has that id, quoting the parameter as sent; 200 exactly when one has, with the first match |
| Genres.LeadingNumberSelects | controllers/genre.controller.js:62-71 | a parameter with trailing text is looked up by its leading number, and the 404 message shows the whole parameter |
| Genres.Update | controllers/genre.controller.js:87-121 | 400 for a NaN id, then 400 for an empty body, then 404 for an unknown id, each with no change; otherwise only the first match gets the body's fields |
| Genres.Delete | controllers/genre.controller.js:127-153 | 400 for a NaN id, 404 for an unknown id, each with no change; otherwise only the first match is removed and returned |

## Left out

- Store failures are not modelled: exceptions the handlers report as 500 (`catch` blocks) do not arise. Two store behaviours do give a 500: a failing `shows.map`, where the handler's own code throws, and a negative `skip`, which the store refuses.
- Query evaluation is not modelled. Regular expressions are kept as pattern and flags, and `$or`, `$elemMatch`, `$in` and `$gte`/`$lte` are kept as data. The model does not say which documents `find(condition)` returns; the list handlers take that result as an input.
- Users.FindOne: one could read the lookup as trying the identifiers in priority order (`_id`, then userid, username, uuid). The code sends a single `$or` query, so the model follows the code and returns the first record in natural order that matches any disjunct.
- Mongoose casting, schema validation (`runValidators`) and the strict schema are not modelled: an update writes the body's fields as given, and the user `_id` is not cast.
- `Base64.Decode` is a strict RFC 4648 decoder, while Node's `Buffer.from(…, "base64")` is lenient. Text the strict decoder refuses is treated as incomplete credentials (400), whereas Node would decode something.
- Artists.ArtistCondition: `new RegExp(search, 'i')` and `new RegExp(firstName, 'i')` run before the handler's `try` (artist.controller.js:13-24), so a search or name that is not a valid pattern, such as "(", makes the handler throw without sending any reply. The model keeps patterns as text and always returns a condition.
- Text.ToLower: only ASCII letters are lower-cased; `toLowerCase` beyond ASCII is not modelled.
- Floating-point values are not modelled: prices, durations and ratings are opaque JSON numbers. `parseInt` of a JSON number is modelled for integers only, not for floats or values of 1e21 and above, whose string forms use exponents.
- Text.ParseInt: integers are unbounded. JavaScript numbers lose precision above 2^53, so `parseInt` of a longer numeral is exact here but rounded in the source.
- Dates are opaque strings; their lexicographic comparison is not modelled.
- bcrypt is the abstract `Hasher`, whose one assumed property is that a password verifies against any hash made from it. The salt, the new `_id`, the uuid (`uuidv4`) and the token (`TokenGenerator`) are parameters.
- Users.UserStore.Login keeps the session invariant only when the supplied uuid and token are held by no record, because freshness of generated values is not modelled.
- Users.UserStore.Logout requires a non-empty id, because the route parameter is never empty.
- The sign-up race between reading the highest userid and saving is not modelled; the model is sequential.
- `Promise.all` and `countDocuments` in the artist list are not modelled; the count is computed but never returned. HTTP plumbing and response headers are not modelled beyond the returned values, except login's `access-token` header.
- The negative limit of `Artists.ArtistPage` is taken to cap the page at its magnitude, as the store does; this is an assumption about the store.
- User `findAll` and the bare `find` of the genre list are pass-throughs of the store's result and are not modelled.
- The store's `_id` generation and its uniqueness are parameters: `UserStore.SignUp` requires an `_id` no record holds.
