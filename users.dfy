/** The user-account handlers of controllers/user.controller.js over an
    in-memory table of user records kept in the store's natural order:
    sign-up, Basic-credential login, logout, bearer-token lookup, lookup by any
    identifier, update, delete and the coupon listing. */
module Users {
  import opened Json
  import opened Text
  import Base64

  /** The password hasher (bcrypt in the source). Hashing is salted, so the
      only way to check a password is `verify`. */
  datatype Hasher = Hasher(hash: (string, string) -> string, verify: (string, string) -> bool)

  /** The one property assumed of the hasher: a password verifies against any
      hash made from it. */
  ghost predicate Sound(h: Hasher) {
    forall p, salt :: h.verify(p, h.hash(p, salt))
  }

  /** A stored user record; field names are the document's keys, `oid` is its `_id`. */
  datatype User = User(
    oid: string,
    userid: int,
    email: string,
    first_name: string,
    last_name: string,
    username: string,
    contact: Option<string>,
    password: string,
    role: string,
    isLoggedIn: bool,
    uuid: string,
    accesstoken: string,
    coupens: seq<JsValue>,
    bookingRequests: seq<JsValue>)

  // ---------------------------------------------------------------- sessions

  /** One record's session invariant: logged in exactly when its session id is
      set, and exactly when its access token is set. */
  predicate SessionConsistent(u: User) {
    (u.isLoggedIn <==> u.uuid != "") && (u.isLoggedIn <==> u.accesstoken != "")
  }

  /** The table's session invariant: every record is consistent, and no two
      records share a non-empty session id or a non-empty access token. */
  predicate SessionsValid(users: seq<User>) {
    && (forall i :: 0 <= i < |users| ==> SessionConsistent(users[i]))
    && (forall i, j :: 0 <= i < |users| && 0 <= j < |users| && i != j && users[i].uuid != "" ==>
          users[i].uuid != users[j].uuid)
    && (forall i, j :: 0 <= i < |users| && 0 <= j < |users| && i != j && users[i].accesstoken != "" ==>
          users[i].accesstoken != users[j].accesstoken)
  }

  /** Under the session invariant the token of a logged-in record resolves to
      that record. */
  lemma LoggedInTokenResolves(users: seq<User>, k: nat)
    requires SessionsValid(users) && k < |users| && users[k].isLoggedIn
    ensures FindByToken(users, users[k].accesstoken) == Some(k)
  {
    assert users[k].accesstoken != "";
  }

  /** A session id and a token that no record holds: what fresh values from the
      uuid and token generators are. */
  predicate Unissued(users: seq<User>, uuid: string, token: string) {
    forall i :: 0 <= i < |users| ==> users[i].uuid != uuid && users[i].accesstoken != token
  }

  /** The update a successful login writes (line 82). */
  function StartSession(u: User, uuid: string, token: string): (r: User)
    ensures r.isLoggedIn && r.uuid == uuid && r.accesstoken == token
    ensures uuid != "" && token != "" ==> SessionConsistent(r)
    ensures r.(isLoggedIn := u.isLoggedIn, uuid := u.uuid, accesstoken := u.accesstoken) == u
  {
    u.(isLoggedIn := true, uuid := uuid, accesstoken := token)
  }

  /** The update logout writes (line 107). */
  function EndSession(u: User): (r: User)
    ensures !r.isLoggedIn && SessionConsistent(r)
    ensures r.(isLoggedIn := u.isLoggedIn, uuid := u.uuid, accesstoken := u.accesstoken) == u
  {
    u.(isLoggedIn := false, uuid := "", accesstoken := "")
  }

  predicate OidsDistinct(users: seq<User>) {
    forall i, j :: 0 <= i < |users| && 0 <= j < |users| && i != j ==> users[i].oid != users[j].oid
  }

  predicate UseridsDistinct(users: seq<User>) {
    forall i, j :: 0 <= i < |users| && 0 <= j < |users| && i != j ==> users[i].userid != users[j].userid
  }

  function FindByUsername(users: seq<User>, name: string): (r: Option<nat>)
    ensures r.Some? ==> r.value < |users| && users[r.value].username == name
    ensures r.Some? ==> forall j :: 0 <= j < r.value ==> users[j].username != name
    ensures r.None? <==> forall i :: 0 <= i < |users| ==> users[i].username != name
  {
    FirstIndex(users, (u: User) => u.username == name)
  }

  function FindByUuid(users: seq<User>, id: string): (r: Option<nat>)
    ensures r.Some? ==> r.value < |users| && users[r.value].uuid == id
    ensures r.Some? ==> forall j :: 0 <= j < r.value ==> users[j].uuid != id
    ensures r.None? <==> forall i :: 0 <= i < |users| ==> users[i].uuid != id
  {
    FirstIndex(users, (u: User) => u.uuid == id)
  }

  function FindByToken(users: seq<User>, token: string): (r: Option<nat>)
    ensures r.Some? ==> r.value < |users| && users[r.value].accesstoken == token
    ensures r.Some? ==> forall j :: 0 <= j < r.value ==> users[j].accesstoken != token
    ensures r.None? <==> forall i :: 0 <= i < |users| ==> users[i].accesstoken != token
  {
    FirstIndex(users, (u: User) => u.accesstoken == token)
  }

  function FindByOid(users: seq<User>, oid: string): (r: Option<nat>)
    ensures r.Some? ==> r.value < |users| && users[r.value].oid == oid
    ensures r.Some? ==> forall j :: 0 <= j < r.value ==> users[j].oid != oid
    ensures r.None? <==> forall i :: 0 <= i < |users| ==> users[i].oid != oid
  {
    FirstIndex(users, (u: User) => u.oid == oid)
  }

  // ----------------------------------------------------------------- sign-up

  /** The fields of a sign-up body (lines 9-19); None is an absent field. */
  datatype SignUpRequest = SignUpRequest(
    email_address: Option<string>,
    password: Option<string>,
    first_name: Option<string>,
    last_name: Option<string>,
    username: Option<string>,
    mobile_number: Option<string>,
    role: Option<string>,
    coupens: Option<seq<JsValue>>,
    bookingRequests: Option<seq<JsValue>>)

  /** The guard at line 21. */
  predicate SignUpComplete(req: SignUpRequest) {
    Present(req.email_address) && Present(req.password) && Present(req.first_name) && Present(req.last_name)
  }

  /** The position of a record with the largest userid (`sort({ userid: -1 })`). */
  function HighestUser(users: seq<User>): (k: nat)
    requires |users| > 0
    ensures k < |users|
    ensures forall i :: 0 <= i < |users| ==> users[i].userid <= users[k].userid
  {
    if |users| == 1 then 0
    else
      var k := HighestUser(users[1..]) + 1;
      if users[0].userid >= users[k].userid then 0 else k
  }

  /** Lines 28-29: the userid a sign-up assigns. */
  function NextUserId(users: seq<User>): (n: int)
    ensures forall i :: 0 <= i < |users| ==> users[i].userid < n
    ensures |users| == 0 ==> n == 1
    ensures |users| > 0 ==> exists i :: 0 <= i < |users| && users[i].userid == n - 1
  {
    if users == [] then 1 else users[HighestUser(users)].userid + 1
  }

  /** Lines 31-44: the record a complete sign-up stores. The username defaults
      to the lower-cased first and last name, the role to "user"; the record
      starts logged out with no coupons or booking requests unless given. */
  function NewUser(users: seq<User>, req: SignUpRequest, oid: string, hashed: string): (u: User)
    requires SignUpComplete(req)
    ensures u.oid == oid && u.userid == NextUserId(users) && u.password == hashed
    ensures u.email == req.email_address.value && u.contact == req.mobile_number
    ensures u.first_name == req.first_name.value && u.last_name == req.last_name.value
    ensures Present(req.username) ==> u.username == req.username.value
    ensures !Present(req.username) ==> u.username == ToLower(req.first_name.value + req.last_name.value)
    ensures Present(req.role) ==> u.role == req.role.value
    ensures !Present(req.role) ==> u.role == "user"
    ensures u.coupens == (if req.coupens.Some? then req.coupens.value else [])
    ensures u.bookingRequests == (if req.bookingRequests.Some? then req.bookingRequests.value else [])
    ensures !u.isLoggedIn && u.uuid == "" && u.accesstoken == ""
  {
    var first, last := req.first_name.value, req.last_name.value;
    User(
      oid, NextUserId(users), req.email_address.value, first, last,
      if Present(req.username) then req.username.value else ToLower(first + last),
      req.mobile_number, hashed,
      if Present(req.role) then req.role.value else "user",
      false, "", "",
      if req.coupens.Some? then req.coupens.value else [],
      if req.bookingRequests.Some? then req.bookingRequests.value else [])
  }

  /** Sign-up keeps the session invariant: the new record is logged out. */
  lemma SignUpKeepsSessions(users: seq<User>, u: User)
    requires SessionsValid(users)
    requires !u.isLoggedIn && u.uuid == "" && u.accesstoken == ""
    ensures SessionsValid(users + [u])
  {
  }

  /** Sign-up keeps userids distinct: the new one exceeds every existing one. */
  lemma SignUpKeepsUseridsDistinct(users: seq<User>, u: User)
    requires UseridsDistinct(users)
    requires u.userid == NextUserId(users)
    ensures UseridsDistinct(users + [u])
  {
  }

  // ------------------------------------------------------------------- login

  /** The outcome of reading a Basic authorization header (lines 59-69). */
  datatype BasicAuth = NotBasic | Incomplete | Credentials(username: string, password: string)

  /** `authHeader.split(" ")[1]` for a header that starts with "Basic ": the text
      after the scheme, up to the next space. */
  function CredentialSegment(header: string): (r: string)
    requires StartsWith(header, "Basic ")
    ensures r == Split(header[6..], ' ')[0]
  {
    assert header == "Basic" + [' '] + header[6..];
    SplitAfterPiece("Basic", ' ', header[6..]);
    Split(header, ' ')[1]
  }

  /** Lines 59-69. The credentials are decoded with a strict base64 decoder;
      text the decoder refuses yields Incomplete. Only the text between the first
      and the second colon is the password. */
  function DecodeBasic(authorization: Option<string>): (r: BasicAuth)
    ensures r.NotBasic? <==> !(authorization.Some? && StartsWith(authorization.value, "Basic "))
    ensures r.Credentials? ==> r.username != "" && r.password != ""
    ensures r.Credentials? ==> ':' !in r.username && ':' !in r.password
  {
    if authorization.None? || !StartsWith(authorization.value, "Basic ") then NotBasic
    else
      match Base64.Decode(CredentialSegment(authorization.value))
      case None => Incomplete
      case Some(bytes) =>
        var parts := Split(Base64.AsciiText(bytes), ':');
        var username := parts[0];
        var password := if |parts| > 1 then parts[1] else "";
        if username == "" || password == "" then Incomplete else Credentials(username, password)
  }

  /** The header a client builds from a username and a password. */
  function BasicHeader(text: string): string
    requires Base64.IsAscii(text)
  {
    "Basic " + Base64.Encode(Base64.AsciiBytes(text))
  }

  lemma EncodedHasNoSpace(b: seq<Base64.Byte>)
    ensures ' ' !in Base64.Encode(b)
    decreases |b|
  {
    if |b| >= 3 {
      EncodedHasNoSpace(b[3..]);
    }
  }

  lemma {:induction false} DecodeBasicText(text: string)
    requires Base64.IsAscii(text)
    ensures var parts := Split(text, ':');
            var username := parts[0];
            var password := if |parts| > 1 then parts[1] else "";
            DecodeBasic(Some(BasicHeader(text))) ==
              if username == "" || password == "" then Incomplete else Credentials(username, password)
  {
    var bytes := Base64.AsciiBytes(text);
    var header := BasicHeader(text);
    assert header[6..] == Base64.Encode(bytes);
    EncodedHasNoSpace(bytes);
    SplitNoSeparator(Base64.Encode(bytes), ' ');
    Base64.DecodeEncode(bytes);
  }

  /** A client's header for a colon-free username and password decodes to them. */
  lemma BasicRoundTrip(username: string, password: string)
    requires username != "" && password != ""
    requires ':' !in username && ':' !in password
    requires Base64.IsAscii(username + ":" + password)
    ensures DecodeBasic(Some(BasicHeader(username + ":" + password))) == Credentials(username, password)
  {
    var text := username + ":" + password;
    DecodeBasicText(text);
    assert text == username + [':'] + password;
    SplitAfterPiece(username, ':', password);
    SplitNoSeparator(password, ':');
  }

  /** Unlike section 2 of RFC 7617, a password that contains a colon is cut at it:
      only the text up to the second colon is checked. */
  lemma PasswordCutAtColon(username: string, password: string, rest: string)
    requires username != "" && password != ""
    requires ':' !in username && ':' !in password
    requires Base64.IsAscii(username + ":" + password + ":" + rest)
    ensures DecodeBasic(Some(BasicHeader(username + ":" + password + ":" + rest))) == Credentials(username, password)
  {
    var text := username + ":" + password + ":" + rest;
    var tail := password + [':'] + rest;
    assert text == username + [':'] + tail;
    SplitAfterPiece(username, ':', tail);
    SplitAfterPiece(password, ':', rest);
    var parts := Split(text, ':');
    assert parts == [username] + ([password] + Split(rest, ':'));
    assert parts[0] == username && parts[1] == password;
    DecodeBasicText(text);
  }

  /** Lines 72-75: the record a login signs in: the first with exactly that
      username, provided the password verifies against its stored hash. */
  function Authenticate(users: seq<User>, hasher: Hasher, username: string, password: string): (r: Option<nat>)
    ensures r.Some? ==> r.value < |users| && users[r.value].username == username
    ensures r.Some? ==> hasher.verify(password, users[r.value].password)
    ensures r.Some? ==> forall j :: 0 <= j < r.value ==> users[j].username != username
    ensures r.None? ==> FindByUsername(users, username).None?
                        || !hasher.verify(password, users[FindByUsername(users, username).value].password)
  {
    match FindByUsername(users, username)
    case None => None
    case Some(k) => if hasher.verify(password, users[k].password) then Some(k) else None
  }

  /** The body of a successful login (lines 88-96): it has no password field. */
  datatype LoginBody = LoginBody(
    id: string,
    username: string,
    firstName: string,
    lastName: string,
    email: string,
    isLoggedIn: bool,
    accessToken: string)

  /** A successful login: the `access-token` response header and the body. */
  datatype LoginReply = LoginReply(accessTokenHeader: string, body: LoginBody)

  /** The login body is the redacted view of the record plus the token, which is
      also sent as the `access-token` header. */
  function LoginReplyOf(u: User, token: string): (r: LoginReply)
    ensures r.accessTokenHeader == token && r.body.accessToken == token
    ensures UserView(r.body.id, r.body.username, r.body.firstName, r.body.lastName, r.body.email,
                     r.body.isLoggedIn) == Redact(u)
  {
    LoginReply(token, LoginBody(u.uuid, u.username, u.first_name, u.last_name, u.email, u.isLoggedIn, token))
  }

  /** Login keeps the session invariant when the new session id and token are
      non-empty and held by no record. */
  lemma LoginKeepsSessions(users: seq<User>, k: nat, uuid: string, token: string)
    requires SessionsValid(users) && k < |users|
    requires uuid != "" && token != "" && Unissued(users, uuid, token)
    ensures SessionsValid(users[k := StartSession(users[k], uuid, token)])
  {
  }

  // ------------------------------------------------------------------ logout

  /** Logout keeps the session invariant. */
  lemma LogoutKeepsSessions(users: seq<User>, k: nat)
    requires SessionsValid(users) && k < |users|
    ensures SessionsValid(users[k := EndSession(users[k])])
  {
  }

  /** Deleting a record keeps the session invariant: the others are unchanged. */
  lemma DeleteKeepsSessions(users: seq<User>, k: nat)
    requires SessionsValid(users) && k < |users|
    ensures SessionsValid(RemoveAt(users, k))
  {
    var after := RemoveAt(users, k);
    forall i | 0 <= i < |after|
      ensures after[i] == users[if i < k then i else i + 1]
    {
    }
  }

  // ---------------------------------------------------------- token lookup

  /** Line 166: `authorization?.split(" ")[1]`: the text after the header's
      first space, up to the next space; none when the header has no space. */
  function BearerToken(authorization: Option<string>): (r: Option<string>)
    ensures r.Some? <==> authorization.Some? && ' ' in authorization.value
    ensures r.Some? ==> exists scheme :: (FirstPiece(authorization.value, ' ', scheme) &&
              |scheme| < |authorization.value| && FirstPiece(authorization.value[|scheme| + 1..], ' ', r.value))
  {
    if authorization.None? then None
    else
      var parts := Split(authorization.value, ' ');
      SplitFirst(authorization.value, ' ');
      if |parts| < 2 then None
      else
        SplitFirst(authorization.value[|parts[0]| + 1..], ' ');
        Some(parts[1])
  }

  lemma BearerRoundTrip(scheme: string, token: string)
    requires ' ' !in scheme && ' ' !in token
    ensures BearerToken(Some(scheme + " " + token)) == Some(token)
  {
    assert scheme + " " + token == scheme + [' '] + token;
    SplitAfterPiece(scheme, ' ', token);
    SplitNoSeparator(token, ' ');
  }

  /** The redacted view of a record (lines 179-186). */
  datatype UserView = UserView(
    id: string,
    username: string,
    firstName: string,
    lastName: string,
    email: string,
    isLoggedIn: bool)

  function Redact(u: User): (r: UserView)
    ensures r.id == u.uuid && r.isLoggedIn == u.isLoggedIn && r.email == u.email
    ensures r.username == u.username && r.firstName == u.first_name && r.lastName == u.last_name
  {
    UserView(u.uuid, u.username, u.first_name, u.last_name, u.email, u.isLoggedIn)
  }

  /** Lines 170-186: the lookup of a non-empty token. */
  function TokenLookup(users: seq<User>, token: string): (r: Outcome<UserView>)
    requires token != ""
    ensures r.status == 404 <==> forall i :: 0 <= i < |users| ==> users[i].accesstoken != token
    ensures r.Ok? <==> exists i :: 0 <= i < |users| && users[i].accesstoken == token
    ensures r.Ok? ==> r.status == 200 && exists i :: (0 <= i < |users| && users[i].accesstoken == token &&
              r.value == Redact(users[i]) && forall j :: 0 <= j < i ==> users[j].accesstoken != token)
    ensures r.Err? ==> r.status == 404
  {
    match FindByToken(users, token)
    case None => Err(404, "User not found with provided token")
    case Some(k) => Ok(200, Redact(users[k]))
  }

  /** Lines 165-186: a missing or empty token is refused before any lookup, so
      the empty token of a logged-out record is never matched. */
  function GetUserByToken(users: seq<User>, authorization: Option<string>): (r: Outcome<UserView>)
    ensures r.status == 401 <==> !Present(BearerToken(authorization))
    ensures r.status == 404 <==> (Present(BearerToken(authorization)) &&
              forall i :: 0 <= i < |users| ==> users[i].accesstoken != BearerToken(authorization).value)
    ensures r.Ok? <==> (Present(BearerToken(authorization)) &&
              exists i :: 0 <= i < |users| && users[i].accesstoken == BearerToken(authorization).value)
    ensures r.Ok? ==> r.status == 200 && exists i :: (0 <= i < |users| && users[i].accesstoken != "" &&
              users[i].accesstoken == BearerToken(authorization).value && r.value == Redact(users[i]) &&
              forall j :: 0 <= j < i ==> users[j].accesstoken != users[i].accesstoken)
    ensures r.Err? || r.status == 200
  {
    var token := BearerToken(authorization);
    if !Present(token) then Err(401, "Authentication token is required!")
    else TokenLookup(users, token.value)
  }

  /** A token that resolves belongs to a logged-in record. */
  lemma ResolvedUserIsLoggedIn(users: seq<User>, authorization: Option<string>)
    requires SessionsValid(users)
    requires GetUserByToken(users, authorization).Ok?
    ensures GetUserByToken(users, authorization).value.isLoggedIn
  {
  }

  /** After logout the record's former token no longer resolves. */
  lemma LogoutRevokesToken(users: seq<User>, k: nat, authorization: Option<string>)
    requires SessionsValid(users) && k < |users|
    requires BearerToken(authorization) == Some(users[k].accesstoken)
    ensures GetUserByToken(users[k := EndSession(users[k])], authorization).status ==
              if users[k].accesstoken == "" then 401 else 404
  {
    var after := users[k := EndSession(users[k])];
    var t := users[k].accesstoken;
    if t != "" {
      forall i | 0 <= i < |after|
        ensures after[i].accesstoken != t
      {
        if i != k {
          assert after[i] == users[i];
        }
      }
    }
  }

  /** After a new login the record's former token no longer resolves, and the
      new one resolves to that record. */
  lemma ReloginRevokesToken(users: seq<User>, k: nat, uuid: string, token: string,
                            old_header: Option<string>, new_header: Option<string>)
    requires SessionsValid(users) && k < |users|
    requires uuid != "" && token != "" && Unissued(users, uuid, token)
    requires BearerToken(old_header) == Some(users[k].accesstoken)
    requires BearerToken(new_header) == Some(token)
    ensures var after := users[k := StartSession(users[k], uuid, token)];
            && GetUserByToken(after, old_header).status == (if users[k].accesstoken == "" then 401 else 404)
            && GetUserByToken(after, new_header) == Ok(200, Redact(after[k]))
  {
    var after := users[k := StartSession(users[k], uuid, token)];
    FormerTokenUnheld(users, k, uuid, token);
    LoginKeepsSessions(users, k, uuid, token);
    LoggedInTokenResolves(after, k);
  }

  /** After a new login with a fresh token no record holds the former token. */
  lemma FormerTokenUnheld(users: seq<User>, k: nat, uuid: string, token: string)
    requires SessionsValid(users) && k < |users|
    requires Unissued(users, uuid, token)
    ensures var after := users[k := StartSession(users[k], uuid, token)];
            users[k].accesstoken != "" ==> forall i :: 0 <= i < |after| ==> after[i].accesstoken != users[k].accesstoken
  {
    var after := users[k := StartSession(users[k], uuid, token)];
    var t := users[k].accesstoken;
    if t != "" {
      forall i | 0 <= i < |after|
        ensures after[i].accesstoken != t
      {
        if i != k {
          assert after[i] == users[i];
        }
      }
    }
  }

  // ------------------------------------------------------- lookup by any id

  /** The disjuncts of the lookup at lines 139-146. */
  datatype UserKey = ById(oid: string) | ByUserid(userid: int) | ByUsername(username: string) | ByUuid(uuid: string)

  /** The guard `/^[0-9a-fA-F]{24}$/`. */
  predicate IsObjectIdText(id: string) {
    |id| == 24 && forall i :: 0 <= i < |id| ==> IsHexDigit(id[i])
  }

  /** `parseInt(id) || -1`: NaN and zero both become -1. */
  function NumericKey(id: string): (n: int)
    ensures n != 0
    ensures ParseInt(id, RadixAuto).Some? && ParseInt(id, RadixAuto).value != 0 ==> n == ParseInt(id, RadixAuto).value
    ensures ParseInt(id, RadixAuto).None? || ParseInt(id, RadixAuto) == Some(0) ==> n == -1
  {
    match ParseInt(id, RadixAuto)
    case Some(n) => if n != 0 then n else -1
    case None => -1
  }

  lemma NumericKeyOfNumeral(n: int)
    requires n != 0
    ensures NumericKey(IntToString(n)) == n
  {
    ParseIntOfNumeral(n, RadixAuto);
  }

  function LookupKeys(id: string): (keys: seq<UserKey>)
    ensures ById(id) in keys <==> IsObjectIdText(id)
    ensures ByUserid(NumericKey(id)) in keys && ByUsername(id) in keys && ByUuid(id) in keys
    ensures forall k :: k in keys ==> k in [ById(id), ByUserid(NumericKey(id)), ByUsername(id), ByUuid(id)]
  {
    (if IsObjectIdText(id) then [ById(id)] else []) + [ByUserid(NumericKey(id)), ByUsername(id), ByUuid(id)]
  }

  predicate MatchesKey(u: User, key: UserKey) {
    match key
    case ById(oid) => u.oid == oid
    case ByUserid(n) => u.userid == n
    case ByUsername(name) => u.username == name
    case ByUuid(id) => u.uuid == id
  }

  predicate MatchesAny(u: User, keys: seq<UserKey>) {
    exists i :: 0 <= i < |keys| && MatchesKey(u, keys[i])
  }

  /** A found record with the lists of lines 154-158. */
  datatype UserDetail = UserDetail(user: User, coupens: seq<JsValue>, bookingRequests: seq<JsValue>)

  /** Lines 137-158: the first record, in natural order, that matches any of
      the disjuncts; the disjuncts are not tried in priority order. */
  function FindOne(users: seq<User>, id: string): (r: Outcome<UserDetail>)
    ensures r.Err? <==> forall i :: 0 <= i < |users| ==> !MatchesAny(users[i], LookupKeys(id))
    ensures r.Err? ==> r.status == 404
    ensures r.Ok? ==> r.status == 200 && exists i :: (0 <= i < |users| && r.value.user == users[i] &&
              MatchesAny(users[i], LookupKeys(id)) &&
              forall j :: 0 <= j < i ==> !MatchesAny(users[j], LookupKeys(id)))
    ensures r.Ok? ==> r.value.coupens == r.value.user.coupens && r.value.bookingRequests == r.value.user.bookingRequests
  {
    var keys := LookupKeys(id);
    match FirstIndex(users, (u: User) => MatchesAny(u, keys))
    case None => Err(404, "User not found with id=" + id)
    case Some(k) => Ok(200, UserDetail(users[k], users[k].coupens, users[k].bookingRequests))
  }

  /** A text shaped like a store `_id`: one decimal digit, then 23 'b's. */
  function DigitLedObjectId(): string {
    "5" + seq(23, _ => 'b')
  }

  /** `parseInt` reads such an id by its leading decimal digit. */
  lemma ObjectIdReadAsNumber()
    ensures IsObjectIdText(DigitLedObjectId())
    ensures NumericKey(DigitLedObjectId()) == 5
  {
    var id := DigitLedObjectId();
    forall i | 0 <= i < |id|
      ensures IsHexDigit(id[i])
    {
      if i > 0 {
        assert id[i] == 'b';
      }
    }
    var rest: string := seq(23, _ => 'b');
    assert IntToString(5) == "5";
    assert id == "" + IntToString(5) + rest;
    ParseIntOfIntToString("", 5, rest, RadixAuto);
  }

  /** So the `_id` of one record can return another: here the `_id` of the
      second record returns the first, whose userid is that `_id`'s leading digit. */
  lemma ObjectIdCanReachAnotherUser(a: User, b: User)
    requires a.userid == 5 && b.oid == DigitLedObjectId()
    ensures FindOne([a, b], b.oid) == Ok(200, UserDetail(a, a.coupens, a.bookingRequests))
  {
    ObjectIdReadAsNumber();
    var keys := LookupKeys(b.oid);
    assert ByUserid(5) in keys;
    var i :| 0 <= i < |keys| && keys[i] == ByUserid(5);
    assert MatchesKey(a, keys[i]);
  }

  // ---------------------------------------------------------------- update

  /** A request body for the generic update; None leaves a field as it is. The
      store's `_id` cannot be changed. */
  datatype UserPatch = UserPatch(
    userid: Option<int>,
    email: Option<string>,
    first_name: Option<string>,
    last_name: Option<string>,
    username: Option<string>,
    contact: Option<string>,
    password: Option<string>,
    role: Option<string>,
    isLoggedIn: Option<bool>,
    uuid: Option<string>,
    accesstoken: Option<string>,
    coupens: Option<seq<JsValue>>,
    bookingRequests: Option<seq<JsValue>>)

  function Pick<T>(o: Option<T>, d: T): T {
    if o.Some? then o.value else d
  }

  /** The record after `findByIdAndUpdate(id, body)` (line 199): every field the
      body names is overwritten as given (a password is stored as sent). */
  function Patched(u: User, p: UserPatch): (r: User)
    ensures r.oid == u.oid
    ensures p.userid.Some? ==> r.userid == p.userid.value
    ensures p.userid.None? ==> r.userid == u.userid
    ensures p.email.Some? ==> r.email == p.email.value
    ensures p.email.None? ==> r.email == u.email
    ensures p.first_name.Some? ==> r.first_name == p.first_name.value
    ensures p.first_name.None? ==> r.first_name == u.first_name
    ensures p.last_name.Some? ==> r.last_name == p.last_name.value
    ensures p.last_name.None? ==> r.last_name == u.last_name
    ensures p.username.Some? ==> r.username == p.username.value
    ensures p.username.None? ==> r.username == u.username
    ensures p.password.Some? ==> r.password == p.password.value
    ensures p.password.None? ==> r.password == u.password
    ensures p.role.Some? ==> r.role == p.role.value
    ensures p.role.None? ==> r.role == u.role
    ensures p.isLoggedIn.Some? ==> r.isLoggedIn == p.isLoggedIn.value
    ensures p.isLoggedIn.None? ==> r.isLoggedIn == u.isLoggedIn
    ensures p.uuid.Some? ==> r.uuid == p.uuid.value
    ensures p.uuid.None? ==> r.uuid == u.uuid
    ensures p.accesstoken.Some? ==> r.accesstoken == p.accesstoken.value
    ensures p.accesstoken.None? ==> r.accesstoken == u.accesstoken
    ensures p.coupens.Some? ==> r.coupens == p.coupens.value
    ensures p.coupens.None? ==> r.coupens == u.coupens
    ensures p.bookingRequests.Some? ==> r.bookingRequests == p.bookingRequests.value
    ensures p.bookingRequests.None? ==> r.bookingRequests == u.bookingRequests
    ensures p.contact.Some? ==> r.contact == p.contact
    ensures p.contact.None? ==> r.contact == u.contact
    ensures p == UserPatch(None, None, None, None, None, None, None, None, None, None, None, None, None) ==> r == u
  {
    User(u.oid, Pick(p.userid, u.userid), Pick(p.email, u.email), Pick(p.first_name, u.first_name),
         Pick(p.last_name, u.last_name), Pick(p.username, u.username),
         if p.contact.Some? then p.contact else u.contact,
         Pick(p.password, u.password), Pick(p.role, u.role), Pick(p.isLoggedIn, u.isLoggedIn),
         Pick(p.uuid, u.uuid), Pick(p.accesstoken, u.accesstoken), Pick(p.coupens, u.coupens),
         Pick(p.bookingRequests, u.bookingRequests))
  }

  /** Sending the same body twice changes nothing the first did not. */
  lemma PatchedTwice(u: User, p: UserPatch)
    ensures Patched(Patched(u, p), p) == Patched(u, p)
  {
  }

  /** The generic update does not keep the session invariant. */
  lemma UpdateCanBreakSessions()
    ensures exists u: User, p: UserPatch :: SessionConsistent(u) && !SessionConsistent(Patched(u, p))
  {
    var u := User("000000000000000000000001", 1, "a@b.com", "A", "B", "ab", None, "h", "user",
                  false, "", "", [], []);
    var p := UserPatch(None, None, None, None, None, None, None, None, Some(true), None, None, None, None);
    assert SessionConsistent(u) && !SessionConsistent(Patched(u, p));
  }

  // ---------------------------------------------------------------- coupons

  /** The coupon listing of lines 239-245. */
  datatype CouponPage = CouponPage(coupens: seq<JsValue>, page: int, limit: int, total: int)

  /** Lines 227-245: 404 for an unknown `_id`, 401 unless that record is logged in. */
  function GetCouponCode(users: seq<User>, id: string): (r: Outcome<CouponPage>)
    ensures r.status == 404 <==> forall i :: 0 <= i < |users| ==> users[i].oid != id
    ensures r.status == 401 <==> exists i :: (0 <= i < |users| && users[i].oid == id && !users[i].isLoggedIn &&
              forall j :: 0 <= j < i ==> users[j].oid != id)
    ensures r.Ok? <==> exists i :: (0 <= i < |users| && users[i].oid == id && users[i].isLoggedIn &&
              forall j :: 0 <= j < i ==> users[j].oid != id)
    ensures r.Ok? ==> r.status == 200 && exists i :: (0 <= i < |users| && users[i].oid == id &&
              users[i].isLoggedIn && r.value == CouponPage(users[i].coupens, 1, |users[i].coupens|, |users[i].coupens|) &&
              forall j :: 0 <= j < i ==> users[j].oid != id)
  {
    match FindByOid(users, id)
    case None => Err(404, "User not found with id=" + id)
    case Some(k) =>
      if !users[k].isLoggedIn then Err(401, "User must be logged in to get coupons")
      else
        var coupons := users[k].coupens;
        Ok(200, CouponPage(coupons, 1, |coupons|, |coupons|))
  }

  /** The coupons of a record are listed while it is logged in, and refused
      with 401 once it has logged out. */
  lemma CouponsFollowSession(users: seq<User>, k: nat, uuid: string, token: string)
    requires OidsDistinct(users) && k < |users|
    ensures var u := users[k];
            GetCouponCode(users[k := StartSession(u, uuid, token)], u.oid) ==
              Ok(200, CouponPage(u.coupens, 1, |u.coupens|, |u.coupens|))
    ensures GetCouponCode(users[k := EndSession(users[k])], users[k].oid).status == 401
  {
    var u := users[k];
    var a, b := users[k := StartSession(u, uuid, token)], users[k := EndSession(u)];
    assert FindByOid(a, u.oid) == Some(k) by {
      assert a[k].oid == u.oid;
      forall j | 0 <= j < k
        ensures a[j].oid != u.oid
      {
        assert a[j] == users[j];
      }
    }
    assert FindByOid(b, u.oid) == Some(k) by {
      assert b[k].oid == u.oid;
      forall j | 0 <= j < k
        ensures b[j].oid != u.oid
      {
        assert b[j] == users[j];
      }
    }
  }

  // ------------------------------------------------------------- the table

  /** The user collection. Its `_id`s are distinct, as the store guarantees. */
  class UserStore {
    const hasher: Hasher
    var users: seq<User>

    ghost predicate Valid()
      reads this
    {
      Sound(hasher) && OidsDistinct(users)
    }

    constructor (hasher: Hasher)
      requires Sound(hasher)
      ensures Valid() && this.hasher == hasher && users == []
    {
      this.hasher := hasher;
      users := [];
    }

    /** Lines 8-53. `oid` is the `_id` the store gives the new record and `salt`
        the output of `genSaltSync(10)`. */
    method SignUp(req: SignUpRequest, oid: string, salt: string) returns (r: Outcome<User>)
      requires Valid()
      requires forall i :: 0 <= i < |users| ==> users[i].oid != oid
      modifies this
      ensures Valid()
      ensures !SignUpComplete(req) ==>
                r == Err(400, "Email, password, first name, and last name are required!") && users == old(users)
      ensures SignUpComplete(req) ==>
                && r == Ok(201, NewUser(old(users), req, oid, hasher.hash(req.password.value, salt)))
                && users == old(users) + [r.value]
      ensures SignUpComplete(req) ==> hasher.verify(req.password.value, r.value.password)
      ensures SessionsValid(old(users)) ==> SessionsValid(users)
      ensures UseridsDistinct(old(users)) ==> UseridsDistinct(users)
    {
      if !SignUpComplete(req) {
        return Err(400, "Email, password, first name, and last name are required!");
      }
      var user := NewUser(users, req, oid, hasher.hash(req.password.value, salt));
      if SessionsValid(users) {
        SignUpKeepsSessions(users, user);
      }
      if UseridsDistinct(users) {
        SignUpKeepsUseridsDistinct(users, user);
      }
      users := users + [user];
      r := Ok(201, user);
    }

    /** Lines 56-100. `uuid` and `token` are the fresh values of `uuidv4()` and
        the token generator, which are never empty. */
    method Login(authorization: Option<string>, uuid: string, token: string) returns (r: Outcome<LoginReply>)
      requires Valid()
      requires uuid != "" && token != ""
      modifies this
      ensures Valid()
      ensures DecodeBasic(authorization).NotBasic? ==>
                r == Err(400, "Authentication header is required!") && users == old(users)
      ensures DecodeBasic(authorization).Incomplete? ==>
                r == Err(400, "Username and password are required!") && users == old(users)
      ensures var a := DecodeBasic(authorization);
              a.Credentials? && Authenticate(old(users), hasher, a.username, a.password).None? ==>
                r == Err(401, "Invalid credentials") && users == old(users)
      ensures var a := DecodeBasic(authorization);
              a.Credentials? && Authenticate(old(users), hasher, a.username, a.password).Some? ==>
                var k := Authenticate(old(users), hasher, a.username, a.password).value;
                && users == old(users)[k := StartSession(old(users)[k], uuid, token)]
                && r == Ok(200, LoginReplyOf(users[k], token))
      ensures r.Ok? ==> r.value.body.id == uuid && r.value.accessTokenHeader == token && r.value.body.accessToken == token
      ensures r.Ok? ==> r.value.body.isLoggedIn
      ensures SessionsValid(old(users)) && Unissued(old(users), uuid, token) ==> SessionsValid(users)
    {
      var credentials := DecodeBasic(authorization);
      if credentials.NotBasic? {
        return Err(400, "Authentication header is required!");
      }
      if credentials.Incomplete? {
        return Err(400, "Username and password are required!");
      }
      var found := Authenticate(users, hasher, credentials.username, credentials.password);
      if found.None? {
        return Err(401, "Invalid credentials");
      }
      var k := found.value;
      if SessionsValid(users) && Unissued(users, uuid, token) {
        LoginKeepsSessions(users, k, uuid, token);
      }
      users := users[k := StartSession(users[k], uuid, token)];
      r := Ok(200, LoginReplyOf(users[k], token));
    }

    /** Lines 103-119; the route parameter is never empty. */
    method Logout(id: string) returns (r: Outcome<string>)
      requires Valid()
      requires id != ""
      modifies this
      ensures Valid()
      ensures FindByUuid(old(users), id).None? ==>
                r == Err(404, "User not found with uuid=" + id) && users == old(users)
      ensures FindByUuid(old(users), id).Some? ==>
                var k := FindByUuid(old(users), id).value;
                && users == old(users)[k := EndSession(old(users)[k])]
                && r == Ok(200, "User logged out successfully")
      ensures SessionsValid(old(users)) ==> SessionsValid(users)
    {
      var found := FindByUuid(users, id);
      if found.None? {
        return Err(404, "User not found with uuid=" + id);
      }
      var k := found.value;
      if SessionsValid(users) {
        LogoutKeepsSessions(users, k);
      }
      users := users[k := EndSession(users[k])];
      r := Ok(200, "User logged out successfully");
    }

    /** Lines 193-209: `body` is None when the request has no body. */
    method Update(id: string, body: Option<UserPatch>) returns (r: Outcome<Reply<User>>)
      requires Valid()
      modifies this
      ensures Valid()
      ensures body.None? ==> r == Err(400, "Data to update cannot be empty!") && users == old(users)
      ensures body.Some? && FindByOid(old(users), id).None? ==>
                r == Err(404, "User not found with id=" + id) && users == old(users)
      ensures body.Some? && FindByOid(old(users), id).Some? ==>
                var k := FindByOid(old(users), id).value;
                && users == old(users)[k := Patched(old(users)[k], body.value)]
                && r == Ok(200, Reply("User updated successfully", users[k]))
    {
      if body.None? {
        return Err(400, "Data to update cannot be empty!");
      }
      var found := FindByOid(users, id);
      if found.None? {
        return Err(404, "User not found with id=" + id);
      }
      var k := found.value;
      users := users[k := Patched(users[k], body.value)];
      r := Ok(200, Reply("User updated successfully", users[k]));
    }

    /** Lines 212-224. */
    method Delete(id: string) returns (r: Outcome<string>)
      requires Valid()
      modifies this
      ensures Valid()
      ensures FindByOid(old(users), id).None? ==>
                r == Err(404, "User not found with id=" + id) && users == old(users)
      ensures FindByOid(old(users), id).Some? ==>
                users == RemoveAt(old(users), FindByOid(old(users), id).value)
                && r == Ok(200, "User deleted successfully")
      ensures SessionsValid(old(users)) ==> SessionsValid(users)
    {
      var found := FindByOid(users, id);
      if found.None? {
        return Err(404, "User not found with id=" + id);
      }
      if SessionsValid(users) {
        DeleteKeepsSessions(users, found.value);
      }
      users := RemoveAt(users, found.value);
      r := Ok(200, "User deleted successfully");
    }
  }
}
