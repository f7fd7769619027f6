/**
 * The Google Apps Script backend (gas/Code.js): user registration and
 * login with multi-device refresh tokens, access-token lookup, and a
 * per-user data store with optimistic locking.
 *
 * The spreadsheet's "Users" and "Data" sheets are a header row plus typed
 * rows; a sheet that does not exist is None. Dates are milliseconds since
 * the epoch, and a blank or invalid date cell is None. SHA-256,
 * `JSON.parse`/`JSON.stringify` of the refresh-token list, fresh UUIDs and
 * the clock are parameters.
 */
module GasBackend {
  import opened Wrappers

  /** An element of `Utilities.computeDigest`'s result: a signed byte. */
  type SignedByte = b: int | -128 <= b < 128

  /** 60 * 60 * 1000: an access token lives one hour. */
  const AccessLifetime: int := 3600000
  /** 60 * 24 * 60 * 60 * 1000: a refresh token lives sixty days. */
  const RefreshLifetime: int := 5184000000

  /** An element of the RefreshTokens array, `{token, expiry}`; an expiry that is not a valid date is None. */
  datatype RefreshToken = RefreshToken(token: string, expiry: Option<int>)

  /** A row of the Users sheet. */
  datatype UserRow = UserRow(userId: string, passwordHash: string, accessToken: string,
                             accessExpiry: Option<int>, refreshTokens: string)

  /** A row of the Data sheet; `json` is the `JSON.stringify` text of the saved data. */
  datatype DataRow = DataRow(userId: string, json: string, lastUpdated: Option<int>, version: Option<int>)

  /** A sheet: its header row (`data[0]`) and the rows below it (`data[1..]`). */
  datatype Sheet<R> = Sheet(headers: seq<string>, rows: seq<R>)

  /** The JSON objects the backend answers with. */
  datatype Response =
    | Failure(error: string)                                       // `{error}`
    | Conflict(currentVersion: int)                                // `{error: 'ConflictError', currentVersion}`
    | Success(message: string)                                     // `{success: true, message}`
    | LoginOk(accessToken: string, refreshToken: string, userId: string)
    | RefreshOk(accessToken: string, userId: string)
    | Valid(userId: string)                                        // `{valid: true, userId}`
    | Invalid                                                      // `{valid: false}`
    | Saved(version: int)                                          // `{success: true, version}`
    | Loaded(data: Option<string>, version: int)                   // `{data, version}`; None is `{}`

  /** A response together with the sheet as the operation leaves it. */
  datatype Outcome<S> = Outcome(response: Response, sheet: S)

  const UserHeaders: seq<string> := ["UserId", "PasswordHash", "AccessToken", "AccessTokenExpiry", "RefreshTokens"]
  const DataHeaders: seq<string> := ["UserId", "JSON_Data", "LastUpdated", "Version"]

  const MissingCredentials: string := "Missing userId or password"
  const UserExists: string := "User already exists"
  const Registered: string := "User registered successfully"
  const NoUserSheet: string := "User sheet not found"
  const UsersNotInitialized: string := "Users sheet is not initialized correctly for multi-device support."
  const UserNotFound: string := "User not found"
  const WrongPassword: string := "Invalid password"
  const NoRefreshToken: string := "No refresh token provided."
  const NoUserSheetDot: string := "User sheet not found."
  const BadRefreshToken: string := "Invalid or expired refresh token."
  const Unauthorized: string := "Unauthorized or Access Token Expired"
  const DataNotInitialized: string := "Data sheet is not initialized correctly. Missing required headers for optimistic locking."
  const NothingToClear: string := "Data sheet not found, no data to clear."
  const NoUserIdHeader: string := "Data sheet is not initialized correctly. Missing UserId header."

  /** A request parameter that is absent or the empty string (falsy). */
  predicate Missing(s: Option<string>) {
    s.None? || s.value == ""
  }

  /** `new Date(expiry) > now`: false for an invalid date. */
  predicate Live(expiry: Option<int>, now: int) {
    expiry.Some? && expiry.value > now
  }

  // ---------------------------------------------------------------- hashing

  const HexDigits: string := "0123456789abcdef"

  predicate IsLowerHex(c: char) {
    '0' <= c <= '9' || 'a' <= c <= 'f'
  }

  /** The value of a lowercase hexadecimal digit. */
  function HexValue(c: char): (v: nat)
    requires IsLowerHex(c)
    ensures v < 16
  {
    if c <= '9' then c as int - '0' as int else c as int - 'a' as int + 10
  }

  function HexDigit(d: nat): (c: char)
    requires d < 16
    ensures IsLowerHex(c) && HexValue(c) == d
  {
    HexDigits[d]
  }

  /** `n.toString(16)` for a byte value: one digit below 16, else two. */
  function ToHex(n: nat): string
    requires n < 256
  {
    if n < 16 then [HexDigit(n)] else [HexDigit(n / 16), HexDigit(n % 16)]
  }

  /** The byte value of a signed byte: 256 is added to negative bytes. */
  function Unsigned(b: SignedByte): (r: nat)
    ensures r < 256
  {
    if b < 0 then b + 256 else b
  }

  /** The two characters `hashPassword` emits for one digest byte. */
  function ByteHex(b: SignedByte): string {
    var h := ToHex(Unsigned(b));
    if |h| == 1 then "0" + h else h
  }

  /** The text `hashPassword` builds from a digest. */
  function HashText(digest: seq<SignedByte>): string {
    if digest == [] then "" else HashText(digest[..|digest| - 1]) + ByteHex(digest[|digest| - 1])
  }

  /** The value of a two-digit lowercase hexadecimal text. */
  function PairValue(s: string): nat
    requires |s| == 2 && IsLowerHex(s[0]) && IsLowerHex(s[1])
  {
    HexValue(s[0]) * 16 + HexValue(s[1])
  }

  predicate AllLowerHex(s: string) {
    forall i :: 0 <= i < |s| ==> IsLowerHex(s[i])
  }

  /** Reads a hash text back as byte values, two digits per byte. */
  function DecodeHex(s: string): seq<nat>
    requires |s| % 2 == 0 && AllLowerHex(s)
  {
    if s == [] then [] else DecodeHex(s[..|s| - 2]) + [PairValue(s[|s| - 2..])]
  }

  /** The byte values of a digest, in order. */
  function UnsignedAll(digest: seq<SignedByte>): (r: seq<nat>)
    ensures |r| == |digest|
    ensures forall i :: 0 <= i < |r| ==> r[i] == Unsigned(digest[i])
  {
    if digest == [] then [] else UnsignedAll(digest[..|digest| - 1]) + [Unsigned(digest[|digest| - 1])]
  }

  /** Each byte becomes exactly two lowercase hex digits whose value is the byte plus 256 when negative. */
  lemma ByteHexSpec(b: SignedByte)
    ensures |ByteHex(b)| == 2 && AllLowerHex(ByteHex(b))
    ensures PairValue(ByteHex(b)) == Unsigned(b)
  {
    var n := Unsigned(b);
    if n >= 16 {
      assert n / 16 * 16 + n % 16 == n;
    }
  }

  /** The hash text is twice as long as the digest and made of lowercase hex digits only. */
  lemma {:induction false} HashTextShape(digest: seq<SignedByte>)
    ensures |HashText(digest)| == 2 * |digest| && AllLowerHex(HashText(digest))
  {
    if digest != [] {
      HashTextShape(digest[..|digest| - 1]);
      ByteHexSpec(digest[|digest| - 1]);
    }
  }

  /** Decoding a text with one more digit pair appends that pair's value. */
  lemma DecodeHexSnoc(t: string, pair: string)
    requires |t| % 2 == 0 && AllLowerHex(t) && |pair| == 2 && AllLowerHex(pair)
    ensures |t + pair| % 2 == 0 && AllLowerHex(t + pair)
    ensures DecodeHex(t + pair) == DecodeHex(t) + [PairValue(pair)]
  {
    var s := t + pair;
    assert s[..|s| - 2] == t;
    assert s[|s| - 2..] == pair;
  }

  /** Decoding the hash text gives back the digest's byte values, in order. */
  lemma {:induction false} HashTextDecodes(digest: seq<SignedByte>)
    ensures |HashText(digest)| % 2 == 0 && AllLowerHex(HashText(digest))
    ensures DecodeHex(HashText(digest)) == UnsignedAll(digest)
  {
    HashTextShape(digest);
    if digest != [] {
      var front := digest[..|digest| - 1];
      var last := digest[|digest| - 1];
      HashTextDecodes(front);
      ByteHexSpec(last);
      DecodeHexSnoc(HashText(front), ByteHex(last));
    }
  }

  /** Different digests never give the same hash text. */
  lemma HashTextInjective(d1: seq<SignedByte>, d2: seq<SignedByte>)
    requires HashText(d1) == HashText(d2)
    ensures d1 == d2
  {
    HashTextDecodes(d1);
    HashTextDecodes(d2);
    assert UnsignedAll(d1) == UnsignedAll(d2);
    forall i | 0 <= i < |d1|
      ensures d1[i] == d2[i]
    {
      assert UnsignedAll(d1)[i] == UnsignedAll(d2)[i];
    }
  }

  /** `hashPassword`: the digest's bytes as two-digit lowercase hex, built one byte at a time. */
  method HashPassword(password: string, digest: string -> seq<SignedByte>) returns (txtHash: string)
    ensures txtHash == HashText(digest(password))
  {
    var rawHash := digest(password);
    txtHash := "";
    var i := 0;
    while i < |rawHash|
      invariant 0 <= i <= |rawHash|
      invariant txtHash == HashText(rawHash[..i])
    {
      txtHash := AppendByte(txtHash, rawHash[i]);
      HashTextStep(rawHash, i);
      i := i + 1;
    }
    assert rawHash[..i] == rawHash;
  }

  /** The body of `hashPassword`'s loop: one byte appended as two hex digits. */
  method AppendByte(txtHash: string, hashByte: SignedByte) returns (extended: string)
    ensures extended == txtHash + ByteHex(hashByte)
  {
    var hashVal: int := hashByte;
    if hashVal < 0 {
      hashVal := hashVal + 256;
    }
    var digits := ToHex(hashVal);
    extended := txtHash;
    if |digits| == 1 {
      extended := extended + "0";
    }
    extended := extended + digits;
  }

  /** One more byte of the digest adds its two characters to the hash text. */
  lemma HashTextStep(digest: seq<SignedByte>, i: nat)
    requires i < |digest|
    ensures HashText(digest[..i + 1]) == HashText(digest[..i]) + ByteHex(digest[i])
  {
    assert digest[..i + 1][..i] == digest[..i];
  }

  // ---------------------------------------------------------------- row scans

  /** The index of the first row satisfying `p`, if any. */
  function FirstMatch<R>(rows: seq<R>, p: R -> bool): (r: Option<nat>)
    ensures r.Some? ==> r.value < |rows| && p(rows[r.value]) && forall j :: 0 <= j < r.value ==> !p(rows[j])
    ensures r.None? <==> forall j :: 0 <= j < |rows| ==> !p(rows[j])
  {
    if rows == [] then None
    else if p(rows[0]) then Some(0)
    else match FirstMatch(rows[1..], p)
      case None => None
      case Some(k) => Some(k + 1)
  }

  /** A first match is the only index with the match property and no match before it. */
  lemma FirstMatchAt<R>(rows: seq<R>, p: R -> bool, k: nat)
    requires k < |rows| && p(rows[k]) && forall j :: 0 <= j < k ==> !p(rows[j])
    ensures FirstMatch(rows, p) == Some(k)
  {
    assert p(rows[k]);
  }

  /**
   * The row-scan loop with an early exit that registerUser, loginUser,
   * refreshTokenFlow, getUserByAccessToken, saveDataWithAuth and
   * loadDataWithAuth each run over `data[1..]`.
   */
  method FindRow<R>(rows: seq<R>, p: R -> bool) returns (found: Option<nat>)
    ensures found == FirstMatch(rows, p)
  {
    var i := 0;
    while i < |rows|
      invariant 0 <= i <= |rows|
      invariant forall j :: 0 <= j < i ==> !p(rows[j])
    {
      if p(rows[i]) {
        FirstMatchAt(rows, p, i);
        return Some(i);
      }
      i := i + 1;
    }
    return None;
  }

  /** `data[i][userIdColIdx] === userId` on the Users sheet. */
  function HasUserId(userId: string): UserRow -> bool {
    (row: UserRow) => row.userId == userId
  }

  /** `data[i][userIdColIdx] === user.userId` on the Data sheet. */
  function OwnedBy(userId: string): DataRow -> bool {
    (row: DataRow) => row.userId == userId
  }

  /** The stored access token is `token` and its expiry is after `now`. */
  function HoldsAccess(token: Option<string>, now: int): UserRow -> bool {
    (row: UserRow) => token == Some(row.accessToken) && Live(row.accessExpiry, now)
  }

  /**
   * The refresh-token list of a RefreshTokens cell: parsed when the text is
   * non-empty and starts with '[', else empty; None when `JSON.parse` throws.
   */
  function StoredTokens(cell: string, parse: string -> Option<seq<RefreshToken>>): Option<seq<RefreshToken>> {
    if |cell| > 0 && cell[0] == '[' then parse(cell) else Some([])
  }

  /** The row's refresh list parses and holds `token` with an expiry after `now`. */
  function HoldsRefresh(token: string, now: int, parse: string -> Option<seq<RefreshToken>>): UserRow -> bool {
    (row: UserRow) =>
      match StoredTokens(row.refreshTokens, parse)
      case None => false
      case Some(ts) => exists i :: 0 <= i < |ts| && ts[i].token == token && Live(ts[i].expiry, now)
  }

  /** `refreshTokens.filter(rt => new Date(rt.expiry) > now)`. */
  function Unexpired(tokens: seq<RefreshToken>, now: int): (r: seq<RefreshToken>)
    ensures |r| <= |tokens|
    ensures forall i :: 0 <= i < |r| ==> Live(r[i].expiry, now)
  {
    if tokens == [] then []
    else (if Live(tokens[0].expiry, now) then [tokens[0]] else []) + Unexpired(tokens[1..], now)
  }

  /** Every unexpired token of the list is kept by the filter. */
  lemma {:induction false} UnexpiredKeeps(tokens: seq<RefreshToken>, now: int, i: nat)
    requires i < |tokens| && Live(tokens[i].expiry, now)
    ensures tokens[i] in Unexpired(tokens, now)
  {
    if i > 0 {
      UnexpiredKeeps(tokens[1..], now, i - 1);
    }
  }

  // ---------------------------------------------------------------- Users sheet rules

  predicate LoginColumns(h: seq<string>) {
    "UserId" in h && "PasswordHash" in h && "AccessToken" in h && "AccessTokenExpiry" in h && "RefreshTokens" in h
  }

  predicate RefreshColumns(h: seq<string>) {
    "RefreshTokens" in h && "AccessToken" in h && "AccessTokenExpiry" in h && "UserId" in h
  }

  predicate TokenColumns(h: seq<string>) {
    "AccessToken" in h && "AccessTokenExpiry" in h && "UserId" in h
  }

  /** The row `registerUser` appends: no access token yet and an empty refresh list. */
  function NewUser(userId: string, passwordHash: string): UserRow {
    UserRow(userId, passwordHash, "", None, "[]")
  }

  /** The Users sheet, created with its headers when missing. */
  function UsersOrNew(users: Option<Sheet<UserRow>>): Sheet<UserRow> {
    users.GetOr(Sheet(UserHeaders, []))
  }

  /** `registerUser`. */
  function Register(users: Option<Sheet<UserRow>>, userId: Option<string>, password: Option<string>,
                    digest: string -> seq<SignedByte>): Outcome<Option<Sheet<UserRow>>>
  {
    if Missing(userId) || Missing(password) then Outcome(Failure(MissingCredentials), users)
    else
      var sheet := UsersOrNew(users);
      if FirstMatch(sheet.rows, HasUserId(userId.value)).Some? then Outcome(Failure(UserExists), Some(sheet))
      else Outcome(Success(Registered),
                   Some(sheet.(rows := sheet.rows + [NewUser(userId.value, HashText(digest(password.value)))])))
  }

  /** The refresh list after a login: the old unexpired tokens, then the new one. */
  function LoginTokens(cell: string, now: int, refreshUuid: string, parse: string -> Option<seq<RefreshToken>>): seq<RefreshToken> {
    Unexpired(StoredTokens(cell, parse).GetOr([]), now) + [RefreshToken(refreshUuid, Some(now + RefreshLifetime))]
  }

  /** The user's row after a successful login. */
  function LoggedIn(row: UserRow, now: int, accessUuid: string, refreshUuid: string,
                    parse: string -> Option<seq<RefreshToken>>, stringify: seq<RefreshToken> -> string): UserRow
  {
    row.(accessToken := accessUuid, accessExpiry := Some(now + AccessLifetime),
         refreshTokens := stringify(LoginTokens(row.refreshTokens, now, refreshUuid, parse)))
  }

  /** `loginUser`; `accessUuid` and `refreshUuid` are the two `Utilities.getUuid()` values. */
  function Login(users: Option<Sheet<UserRow>>, userId: Option<string>, password: Option<string>, now: int,
                 accessUuid: string, refreshUuid: string, digest: string -> seq<SignedByte>,
                 parse: string -> Option<seq<RefreshToken>>, stringify: seq<RefreshToken> -> string): Outcome<Option<Sheet<UserRow>>>
  {
    if Missing(userId) || Missing(password) then Outcome(Failure(MissingCredentials), users)
    else if users.None? then Outcome(Failure(NoUserSheet), users)
    else if !LoginColumns(users.value.headers) then Outcome(Failure(UsersNotInitialized), users)
    else
      var rows := users.value.rows;
      match FirstMatch(rows, HasUserId(userId.value))
      case None => Outcome(Failure(UserNotFound), users)
      case Some(k) =>
        if rows[k].passwordHash != HashText(digest(password.value)) then Outcome(Failure(WrongPassword), users)
        else Outcome(LoginOk(accessUuid, refreshUuid, userId.value),
                     Some(users.value.(rows := rows[k := LoggedIn(rows[k], now, accessUuid, refreshUuid, parse, stringify)])))
  }

  /** `getUserByAccessToken`: the user id of the first row whose access token matches and is unexpired. */
  function UserByAccessToken(users: Option<Sheet<UserRow>>, token: Option<string>, now: int): Option<string> {
    if users.None? || !TokenColumns(users.value.headers) then None
    else match FirstMatch(users.value.rows, HoldsAccess(token, now))
      case None => None
      case Some(k) => Some(users.value.rows[k].userId)
  }

  /** `validateToken`. */
  function Validate(users: Option<Sheet<UserRow>>, token: Option<string>, now: int): Response {
    if Missing(token) then Invalid
    else match UserByAccessToken(users, token, now)
      case Some(u) => Valid(u)
      case None => Invalid
  }

  /** `refreshTokenFlow`; `accessUuid` is the `Utilities.getUuid()` value. */
  function Refresh(users: Option<Sheet<UserRow>>, provided: Option<string>, now: int, accessUuid: string,
                   parse: string -> Option<seq<RefreshToken>>): Outcome<Option<Sheet<UserRow>>>
  {
    if Missing(provided) then Outcome(Failure(NoRefreshToken), users)
    else if users.None? then Outcome(Failure(NoUserSheetDot), users)
    else if !RefreshColumns(users.value.headers) then Outcome(Failure(UsersNotInitialized), users)
    else
      var rows := users.value.rows;
      match FirstMatch(rows, HoldsRefresh(provided.value, now, parse))
      case None => Outcome(Failure(BadRefreshToken), users)
      case Some(k) =>
        Outcome(RefreshOk(accessUuid, rows[k].userId),
                Some(users.value.(rows := rows[k := rows[k].(accessToken := accessUuid, accessExpiry := Some(now + AccessLifetime))])))
  }

  // ---------------------------------------------------------------- Data sheet rules

  predicate SaveColumns(h: seq<string>) {
    "UserId" in h && "JSON_Data" in h && "LastUpdated" in h && "Version" in h
  }

  predicate LoadColumns(h: seq<string>) {
    "UserId" in h && "JSON_Data" in h && "Version" in h
  }

  /** `parseInt(data[i][versionColIdx] || 0)`: a blank cell reads as 0. */
  function StoredVersion(row: DataRow): int {
    row.version.GetOr(0)
  }

  /** The Data sheet, created with its headers when missing. */
  function DataOrNew(data: Option<Sheet<DataRow>>): Sheet<DataRow> {
    data.GetOr(Sheet(DataHeaders, []))
  }

  /** `saveDataWithAuth`; `payload` is `JSON.stringify(jsonData)`, `clientVersion` None when undefined. */
  function Save(users: Option<Sheet<UserRow>>, data: Option<Sheet<DataRow>>, token: Option<string>, payload: string,
                clientVersion: Option<int>, now: int): Outcome<Option<Sheet<DataRow>>>
  {
    match UserByAccessToken(users, token, now)
    case None => Outcome(Failure(Unauthorized), data)
    case Some(uid) =>
      var sheet := DataOrNew(data);
      if !SaveColumns(sheet.headers) then Outcome(Failure(DataNotInitialized), Some(sheet))
      else SaveRow(sheet, uid, payload, clientVersion, now)
  }

  /** The optimistic-lock check and the write of `saveDataWithAuth` on a set-up Data sheet. */
  function SaveRow(sheet: Sheet<DataRow>, uid: string, payload: string, clientVersion: Option<int>, now: int): Outcome<Option<Sheet<DataRow>>> {
    match FirstMatch(sheet.rows, OwnedBy(uid))
    case None =>
      Outcome(Saved(1), Some(sheet.(rows := sheet.rows + [DataRow(uid, payload, Some(now), Some(1))])))
    case Some(k) =>
      var stored := StoredVersion(sheet.rows[k]);
      if clientVersion.Some? && clientVersion.value != stored then Outcome(Conflict(stored), Some(sheet))
      else Outcome(Saved(stored + 1),
                   Some(sheet.(rows := sheet.rows[k := sheet.rows[k].(json := payload, lastUpdated := Some(now), version := Some(stored + 1))])))
  }

  /** `loadDataWithAuth`; the data is the stored JSON text, None standing for `{}`. */
  function Load(users: Option<Sheet<UserRow>>, data: Option<Sheet<DataRow>>, token: Option<string>, now: int): Response {
    match UserByAccessToken(users, token, now)
    case None => Failure(Unauthorized)
    case Some(uid) =>
      if data.None? then Loaded(None, 0)
      else if !LoadColumns(data.value.headers) then Failure(DataNotInitialized)
      else match FirstMatch(data.value.rows, OwnedBy(uid))
        case None => Loaded(None, 0)
        case Some(k) => Loaded(Some(data.value.rows[k].json), StoredVersion(data.value.rows[k]))
  }

  /** The rows that do not belong to `userId`, in order. */
  function Keep(rows: seq<DataRow>, userId: string): (r: seq<DataRow>)
    ensures forall i :: 0 <= i < |r| ==> r[i].userId != userId
  {
    if rows == [] then []
    else Keep(rows[..|rows| - 1], userId) + (if rows[|rows| - 1].userId == userId then [] else [rows[|rows| - 1]])
  }

  /** The rows that belong to `owner`, in order. */
  function RowsOf(rows: seq<DataRow>, owner: string): seq<DataRow> {
    if rows == [] then []
    else RowsOf(rows[..|rows| - 1], owner) + (if rows[|rows| - 1].userId == owner then [rows[|rows| - 1]] else [])
  }

  /** `clearUserData`. */
  function Clear(users: Option<Sheet<UserRow>>, data: Option<Sheet<DataRow>>, token: Option<string>, now: int): Outcome<Option<Sheet<DataRow>>> {
    match UserByAccessToken(users, token, now)
    case None => Outcome(Failure(Unauthorized), data)
    case Some(uid) =>
      if data.None? then Outcome(Success(NothingToClear), data)
      else if "UserId" !in data.value.headers then Outcome(Failure(NoUserIdHeader), data)
      else Outcome(Success("Data for user " + uid + " cleared."), Some(data.value.(rows := Keep(data.value.rows, uid))))
  }

  /** The sheet row numbers (`i + 1` over `data`, so 2 for the first row under the header) of the user's rows. */
  function MatchingRowNumbers(rows: seq<DataRow>, userId: string): (r: seq<nat>)
    ensures forall t :: 0 <= t < |r| ==> 2 <= r[t] < |rows| + 2 && rows[r[t] - 2].userId == userId
    ensures forall s, t :: 0 <= s < t < |r| ==> r[s] < r[t]
  {
    if rows == [] then []
    else
      var front := rows[..|rows| - 1];
      assert forall j :: 0 <= j < |front| ==> front[j] == rows[j];
      MatchingRowNumbers(front, userId) + (if rows[|rows| - 1].userId == userId then [|rows| + 1] else [])
  }

  /** `sheet.deleteRow(n)`: removes sheet row n, that is `rows[n - 2]`. */
  function DeleteRow(rows: seq<DataRow>, n: nat): (r: seq<DataRow>)
    requires 2 <= n < |rows| + 2
    ensures |r| == |rows| - 1
  {
    rows[..n - 2] + rows[n - 1..]
  }

  /** The first `j` of the sheet row numbers `ns` are strictly increasing and all exist in `rows`. */
  predicate Deletable(rows: seq<DataRow>, ns: seq<nat>, j: nat) {
    && j <= |ns|
    && (forall t :: 0 <= t < j ==> 2 <= ns[t] < |rows| + 2)
    && (forall s, t :: 0 <= s < t < j ==> ns[s] < ns[t])
  }

  /** Deleting the rows `ns[j - 1]`, ..., `ns[0]` in that order, as the second loop of `clearUserData` does. */
  function DeleteDown(rows: seq<DataRow>, ns: seq<nat>, j: nat): seq<DataRow>
    requires Deletable(rows, ns, j)
  {
    if j == 0 then rows
    else
      var rest := DeleteRow(rows, ns[j - 1]);
      assert Deletable(rest, ns, j - 1) by {
        forall t | 0 <= t < j - 1
          ensures ns[t] < |rest| + 2
        {
          assert ns[t] < ns[j - 1];
        }
      }
      DeleteDown(rest, ns, j - 1)
  }

  /** One step of `DeleteDown`: delete row `ns[j - 1]`, then the first `j - 1`. */
  lemma DeleteDownStep(rows: seq<DataRow>, ns: seq<nat>, j: nat)
    requires 0 < j && Deletable(rows, ns, j)
    ensures 2 <= ns[j - 1] < |rows| + 2 && Deletable(DeleteRow(rows, ns[j - 1]), ns, j - 1)
    ensures DeleteDown(rows, ns, j) == DeleteDown(DeleteRow(rows, ns[j - 1]), ns, j - 1)
  {
  }

  /** What the deletion loop keeps: deleting the first `j` row numbers from `rows` gives `target`. */
  ghost predicate DeletesTo(rows: seq<DataRow>, ns: seq<nat>, j: nat, target: seq<DataRow>) {
    Deletable(rows, ns, j) && DeleteDown(rows, ns, j) == target
  }

  /** The deletion loop's step keeps `DeletesTo`. */
  lemma DeletesToStep(rows: seq<DataRow>, ns: seq<nat>, j: nat, target: seq<DataRow>)
    requires 0 < j && DeletesTo(rows, ns, j, target)
    ensures 2 <= ns[j - 1] < |rows| + 2 && DeletesTo(DeleteRow(rows, ns[j - 1]), ns, j - 1, target)
  {
    DeleteDownStep(rows, ns, j);
  }

  /** Only the first `j` row numbers matter to `DeleteDown`. */
  lemma {:induction false} DeleteDownPrefix(rows: seq<DataRow>, ns: seq<nat>, ms: seq<nat>, j: nat)
    requires Deletable(rows, ns, j) && j <= |ms| && forall t :: 0 <= t < j ==> ns[t] == ms[t]
    ensures Deletable(rows, ms, j) && DeleteDown(rows, ns, j) == DeleteDown(rows, ms, j)
  {
    if j > 0 {
      var rest := DeleteRow(rows, ns[j - 1]);
      DeleteDownPrefix(rest, ns, ms, j - 1);
    }
  }

  /** Deleting rows that are all above the last one commutes with that last row. */
  lemma {:induction false} DeleteDownAppend(rows: seq<DataRow>, last: DataRow, ns: seq<nat>, j: nat)
    requires Deletable(rows, ns, j)
    ensures Deletable(rows + [last], ns, j)
    ensures DeleteDown(rows + [last], ns, j) == DeleteDown(rows, ns, j) + [last]
  {
    if j > 0 {
      var rest := DeleteRow(rows, ns[j - 1]);
      assert DeleteRow(rows + [last], ns[j - 1]) == rest + [last];
      DeleteDownAppend(rest, last, ns, j - 1);
    }
  }

  /** Deleting every row of the user from the bottom up leaves exactly the other rows, in order. */
  lemma {:induction false} DeleteMatchingKeeps(rows: seq<DataRow>, userId: string)
    ensures var ns := MatchingRowNumbers(rows, userId);
      Deletable(rows, ns, |ns|) && DeleteDown(rows, ns, |ns|) == Keep(rows, userId)
  {
    if rows != [] {
      var front := rows[..|rows| - 1];
      var last := rows[|rows| - 1];
      DeleteMatchingKeeps(front, userId);
      assert rows == front + [last];
      if last.userId == userId {
        DeleteMatchingHit(front, last, userId);
      } else {
        DeleteMatchingMiss(front, last, userId);
      }
    }
  }

  /** The inductive step of `DeleteMatchingKeeps` when the last row is the user's. */
  lemma DeleteMatchingHit(front: seq<DataRow>, last: DataRow, userId: string)
    requires last.userId == userId
    requires var ns := MatchingRowNumbers(front, userId);
      Deletable(front, ns, |ns|) && DeleteDown(front, ns, |ns|) == Keep(front, userId)
    ensures var ns := MatchingRowNumbers(front + [last], userId);
      Deletable(front + [last], ns, |ns|) && DeleteDown(front + [last], ns, |ns|) == Keep(front + [last], userId)
  {
    var rows := front + [last];
    var ns := MatchingRowNumbers(front, userId);
    var all := ns + [|rows| + 1];
    SnocHit(front, last, userId);
    DeleteDownStep(rows, all, |all|);
    DeleteDownPrefix(front, ns, all, |ns|);
  }

  /** Appending one of the user's rows adds its row number and drops it from the kept rows. */
  lemma SnocHit(front: seq<DataRow>, last: DataRow, userId: string)
    requires last.userId == userId
    ensures MatchingRowNumbers(front + [last], userId) == MatchingRowNumbers(front, userId) + [|front| + 2]
    ensures Keep(front + [last], userId) == Keep(front, userId)
    ensures DeleteRow(front + [last], |front| + 2) == front
  {
    var rows := front + [last];
    assert rows[..|rows| - 1] == front;
  }

  /** The inductive step of `DeleteMatchingKeeps` when the last row belongs to someone else. */
  lemma DeleteMatchingMiss(front: seq<DataRow>, last: DataRow, userId: string)
    requires last.userId != userId
    requires var ns := MatchingRowNumbers(front, userId);
      Deletable(front, ns, |ns|) && DeleteDown(front, ns, |ns|) == Keep(front, userId)
    ensures var ns := MatchingRowNumbers(front + [last], userId);
      Deletable(front + [last], ns, |ns|) && DeleteDown(front + [last], ns, |ns|) == Keep(front + [last], userId)
  {
    var rows := front + [last];
    assert rows[..|rows| - 1] == front;
    var ns := MatchingRowNumbers(front, userId);
    assert MatchingRowNumbers(rows, userId) == ns;
    assert Keep(rows, userId) == Keep(front, userId) + [last];
    DeleteDownAppend(front, last, ns, |ns|);
  }

  /** The first loop of `clearUserData`: the sheet row numbers of the user's rows, in ascending order. */
  method CollectRows(rows: seq<DataRow>, userId: string) returns (rowsToDelete: seq<nat>)
    ensures rowsToDelete == MatchingRowNumbers(rows, userId)
  {
    rowsToDelete := [];
    var i := 0;
    while i < |rows|
      invariant 0 <= i <= |rows|
      invariant rowsToDelete == MatchingRowNumbers(rows[..i], userId)
    {
      if rows[i].userId == userId {
        rowsToDelete := rowsToDelete + [i + 2];
      }
      assert rows[..i + 1][..i] == rows[..i];
      i := i + 1;
    }
    assert rows[..i] == rows;
  }

  /** The second loop of `clearUserData`: deletes the collected rows from the highest number down. */
  method DeleteRows(rows: seq<DataRow>, rowsToDelete: seq<nat>) returns (remaining: seq<DataRow>)
    requires Deletable(rows, rowsToDelete, |rowsToDelete|)
    ensures remaining == DeleteDown(rows, rowsToDelete, |rowsToDelete|)
  {
    ghost var target := DeleteDown(rows, rowsToDelete, |rowsToDelete|);
    remaining := rows;
    var j := |rowsToDelete|;
    while j > 0
      invariant 0 <= j && DeletesTo(remaining, rowsToDelete, j, target)
    {
      DeletesToStep(remaining, rowsToDelete, j, target);
      remaining := DeleteRow(remaining, rowsToDelete[j - 1]);
      j := j - 1;
    }
  }

  /** The second half of `saveDataWithAuth`: find the user's row, check the version, write. */
  method WriteData(sheet: Sheet<DataRow>, uid: string, payload: string, clientVersion: Option<int>, now: int)
    returns (response: Response, written: Sheet<DataRow>)
    ensures Outcome(response, Some(written)) == SaveRow(sheet, uid, payload, clientVersion, now)
  {
    var found := FindRow(sheet.rows, OwnedBy(uid));
    var storedVersion := if found.Some? then StoredVersion(sheet.rows[found.value]) else 0;
    if found.Some? && clientVersion.Some? && clientVersion.value != storedVersion {
      return Conflict(storedVersion), sheet;
    }
    var newVersion := storedVersion + 1;
    if found.Some? {
      var k := found.value;
      written := sheet.(rows := sheet.rows[k := sheet.rows[k].(json := payload, lastUpdated := Some(now), version := Some(newVersion))]);
    } else {
      written := sheet.(rows := sheet.rows + [DataRow(uid, payload, Some(now), Some(newVersion))]);
    }
    response := Saved(newVersion);
  }

  // ---------------------------------------------------------------- properties of the rules

  /**
   * `registerUser` succeeds exactly when both credentials are given and no
   * row holds the user id; it then appends exactly one row, with the
   * password's hash and an empty refresh list. Any failure leaves the rows
   * as they were.
   */
  lemma RegisterOutcome(users: Option<Sheet<UserRow>>, userId: Option<string>, password: Option<string>,
                        digest: string -> seq<SignedByte>)
    ensures var o := Register(users, userId, password, digest);
      && (o.response.Success? <==>
            !Missing(userId) && !Missing(password)
            && forall j :: 0 <= j < |UsersOrNew(users).rows| ==> UsersOrNew(users).rows[j].userId != userId.value)
      && (o.response.Success? ==>
            o.sheet == Some(Sheet(UsersOrNew(users).headers,
                                  UsersOrNew(users).rows + [NewUser(userId.value, HashText(digest(password.value)))])))
      && (!o.response.Success? ==> o.sheet.GetOr(Sheet(UserHeaders, [])).rows == UsersOrNew(users).rows)
  {
  }

  /** Registering an id a second time fails with 'User already exists' and adds no row. */
  lemma RegisterTwice(users: Option<Sheet<UserRow>>, userId: Option<string>, password: Option<string>, other: Option<string>,
                      digest: string -> seq<SignedByte>)
    requires Register(users, userId, password, digest).response.Success?
    ensures var after := Register(users, userId, password, digest).sheet;
      Register(after, userId, other, digest) == (if Missing(other) then Outcome(Failure(MissingCredentials), after)
                                                  else Outcome(Failure(UserExists), after))
  {
    var after := Register(users, userId, password, digest).sheet;
    var rows := after.value.rows;
    assert rows[|rows| - 1].userId == userId.value;
    assert HasUserId(userId.value)(rows[|rows| - 1]);
  }

  /** The conditions under which `loginUser` accepts the credentials. */
  predicate LoginAccepted(users: Option<Sheet<UserRow>>, userId: Option<string>, password: Option<string>,
                          digest: string -> seq<SignedByte>)
  {
    && !Missing(userId) && !Missing(password) && users.Some? && LoginColumns(users.value.headers)
    && var f := FirstMatch(users.value.rows, HasUserId(userId.value));
       f.Some? && users.value.rows[f.value].passwordHash == HashText(digest(password.value))
  }

  /**
   * `loginUser` succeeds exactly when the credentials are accepted; a
   * failure writes nothing. On success only the first row with the user id
   * changes: a new access token expiring an hour from now, and a refresh
   * list made of the old unexpired tokens (none when the cell does not
   * parse) followed by the new token expiring sixty days from now.
   */
  lemma LoginOutcome(users: Option<Sheet<UserRow>>, userId: Option<string>, password: Option<string>, now: int,
                     accessUuid: string, refreshUuid: string, digest: string -> seq<SignedByte>,
                     parse: string -> Option<seq<RefreshToken>>, stringify: seq<RefreshToken> -> string)
    ensures var o := Login(users, userId, password, now, accessUuid, refreshUuid, digest, parse, stringify);
      && (o.response.LoginOk? <==> LoginAccepted(users, userId, password, digest))
      && (!o.response.LoginOk? ==> o.sheet == users)
      && (o.response.LoginOk? ==>
            var old_ := users.value.rows;
            var k := FirstMatch(old_, HasUserId(userId.value)).value;
            && o.response == LoginOk(accessUuid, refreshUuid, userId.value)
            && o.sheet.Some? && o.sheet.value.headers == users.value.headers
            && |o.sheet.value.rows| == |old_|
            && (forall j :: 0 <= j < |old_| && j != k ==> o.sheet.value.rows[j] == old_[j])
            && var row := o.sheet.value.rows[k];
               && row.userId == userId.value && row.passwordHash == old_[k].passwordHash
               && row.accessToken == accessUuid && row.accessExpiry == Some(now + AccessLifetime)
               && row.refreshTokens == stringify(Unexpired(StoredTokens(old_[k].refreshTokens, parse).GetOr([]), now)
                                                 + [RefreshToken(refreshUuid, Some(now + RefreshLifetime))]))
  {
  }

  /**
   * After a login, the returned access token identifies the user exactly
   * until an hour has passed, provided the fresh UUID was held by no row.
   */
  lemma LoginAccessWindow(users: Option<Sheet<UserRow>>, userId: Option<string>, password: Option<string>, now: int,
                          accessUuid: string, refreshUuid: string, digest: string -> seq<SignedByte>,
                          parse: string -> Option<seq<RefreshToken>>, stringify: seq<RefreshToken> -> string, later: int)
    requires LoginAccepted(users, userId, password, digest)
    requires forall j :: 0 <= j < |users.value.rows| ==> users.value.rows[j].accessToken != accessUuid
    ensures var after := Login(users, userId, password, now, accessUuid, refreshUuid, digest, parse, stringify).sheet;
      UserByAccessToken(after, Some(accessUuid), later) == if later < now + AccessLifetime then Some(userId.value) else None
  {
    var o := Login(users, userId, password, now, accessUuid, refreshUuid, digest, parse, stringify);
    var rows := users.value.rows;
    var k := FirstMatch(rows, HasUserId(userId.value)).value;
    var after := o.sheet.value.rows;
    assert after == rows[k := LoggedIn(rows[k], now, accessUuid, refreshUuid, parse, stringify)];
    var p := HoldsAccess(Some(accessUuid), later);
    forall j | 0 <= j < |after| && j != k
      ensures !p(after[j])
    {
      assert after[j] == rows[j];
    }
    if later < now + AccessLifetime {
      assert p(after[k]);
      FirstMatchAt(after, p, k);
    } else {
      assert !p(after[k]);
      assert FirstMatch(after, p).None?;
    }
  }

  /**
   * After a login, the returned refresh token renews access for sixty days:
   * `refreshTokenFlow` finds the user's row, provided the stored list reads
   * back as written and no row already held a live token with the fresh UUID.
   */
  lemma LoginThenRefresh(users: Option<Sheet<UserRow>>, userId: Option<string>, password: Option<string>, now: int,
                         accessUuid: string, refreshUuid: string, digest: string -> seq<SignedByte>,
                         parse: string -> Option<seq<RefreshToken>>, stringify: seq<RefreshToken> -> string,
                         later: int, nextUuid: string)
    requires LoginAccepted(users, userId, password, digest)
    requires refreshUuid != "" && now <= later < now + RefreshLifetime
    requires forall ts: seq<RefreshToken> {:trigger stringify(ts)} ::
               |stringify(ts)| > 0 && stringify(ts)[0] == '[' && parse(stringify(ts)) == Some(ts)
    requires forall j :: 0 <= j < |users.value.rows| ==> !HoldsRefresh(refreshUuid, later, parse)(users.value.rows[j])
    ensures var after := Login(users, userId, password, now, accessUuid, refreshUuid, digest, parse, stringify).sheet;
      Refresh(after, Some(refreshUuid), later, nextUuid, parse).response == RefreshOk(nextUuid, userId.value)
  {
    var o := Login(users, userId, password, now, accessUuid, refreshUuid, digest, parse, stringify);
    var rows := users.value.rows;
    var k := FirstMatch(rows, HasUserId(userId.value)).value;
    var after := o.sheet.value.rows;
    var tokens := LoginTokens(rows[k].refreshTokens, now, refreshUuid, parse);
    assert after[k].refreshTokens == stringify(tokens);
    assert StoredTokens(after[k].refreshTokens, parse) == Some(tokens);
    var p := HoldsRefresh(refreshUuid, later, parse);
    assert tokens[|tokens| - 1] == RefreshToken(refreshUuid, Some(now + RefreshLifetime));
    assert p(after[k]);
    forall j | 0 <= j < k
      ensures !p(after[j])
    {
      assert after[j] == rows[j];
    }
    FirstMatchAt(after, p, k);
    assert RefreshColumns(o.sheet.value.headers);
    assert after[k].userId == userId.value;
  }

  /**
   * `refreshTokenFlow` succeeds exactly when a token is given, the sheet is
   * set up and some row holds that token unexpired; the first such row wins.
   * Only that row's access token and expiry change: its refresh list, id
   * and hash are untouched. A failure writes nothing.
   */
  lemma RefreshOutcome(users: Option<Sheet<UserRow>>, provided: Option<string>, now: int, accessUuid: string,
                       parse: string -> Option<seq<RefreshToken>>)
    ensures var o := Refresh(users, provided, now, accessUuid, parse);
      && (o.response.RefreshOk? <==>
            && !Missing(provided) && users.Some? && RefreshColumns(users.value.headers)
            && exists j :: 0 <= j < |users.value.rows| && HoldsRefresh(provided.value, now, parse)(users.value.rows[j]))
      && (!o.response.RefreshOk? ==> o.sheet == users)
      && (o.response.RefreshOk? ==>
            var old_ := users.value.rows;
            var k := FirstMatch(old_, HoldsRefresh(provided.value, now, parse)).value;
            && (forall j :: 0 <= j < k ==> !HoldsRefresh(provided.value, now, parse)(old_[j]))
            && o.response == RefreshOk(accessUuid, old_[k].userId)
            && o.sheet.Some? && o.sheet.value.headers == users.value.headers && |o.sheet.value.rows| == |old_|
            && (forall j :: 0 <= j < |old_| && j != k ==> o.sheet.value.rows[j] == old_[j])
            && var row := o.sheet.value.rows[k];
               && row.userId == old_[k].userId && row.passwordHash == old_[k].passwordHash
               && row.refreshTokens == old_[k].refreshTokens
               && row.accessToken == accessUuid && row.accessExpiry == Some(now + AccessLifetime))
  {
  }

  /**
   * `getUserByAccessToken` names a user exactly when the sheet is set up and
   * some row holds the token with an expiry after now; it is the first such
   * row's user.
   */
  lemma UserByAccessTokenSpec(users: Option<Sheet<UserRow>>, token: Option<string>, now: int)
    ensures UserByAccessToken(users, token, now).Some? <==>
      && users.Some? && TokenColumns(users.value.headers)
      && exists j :: 0 <= j < |users.value.rows|
           && token == Some(users.value.rows[j].accessToken) && Live(users.value.rows[j].accessExpiry, now)
    ensures UserByAccessToken(users, token, now).Some? ==>
      exists j :: 0 <= j < |users.value.rows|
        && token == Some(users.value.rows[j].accessToken) && Live(users.value.rows[j].accessExpiry, now)
        && UserByAccessToken(users, token, now).value == users.value.rows[j].userId
        && forall i :: 0 <= i < j ==> !(token == Some(users.value.rows[i].accessToken) && Live(users.value.rows[i].accessExpiry, now))
  {
    if users.Some? && TokenColumns(users.value.headers) {
      var rows := users.value.rows;
      var p := HoldsAccess(token, now);
      match FirstMatch(rows, p)
      case Some(k) =>
        assert p(rows[k]);
        forall i | 0 <= i < k
          ensures !(token == Some(rows[i].accessToken) && Live(rows[i].accessExpiry, now))
        {
          assert !p(rows[i]);
        }
      case None =>
        forall j | 0 <= j < |rows|
          ensures !(token == Some(rows[j].accessToken) && Live(rows[j].accessExpiry, now))
        {
          assert !p(rows[j]);
        }
    }
  }

  /** An absent or empty token never validates; otherwise validation agrees with the token lookup. */
  lemma ValidateSpec(users: Option<Sheet<UserRow>>, token: Option<string>, now: int)
    ensures Missing(token) ==> Validate(users, token, now) == Invalid
    ensures !Missing(token) ==>
      (Validate(users, token, now).Valid? <==> UserByAccessToken(users, token, now).Some?)
      && (Validate(users, token, now).Valid? ==> Validate(users, token, now).userId == UserByAccessToken(users, token, now).value)
  {
  }

  /** The conditions under which `saveDataWithAuth` reports a version conflict. */
  predicate SaveConflicts(users: Option<Sheet<UserRow>>, data: Option<Sheet<DataRow>>, token: Option<string>,
                          clientVersion: Option<int>, now: int)
  {
    && UserByAccessToken(users, token, now).Some?
    && data.Some? && SaveColumns(data.value.headers)
    && var f := FirstMatch(data.value.rows, OwnedBy(UserByAccessToken(users, token, now).value));
       f.Some? && clientVersion.Some? && clientVersion.value != StoredVersion(data.value.rows[f.value])
  }

  /**
   * Optimistic locking: `saveDataWithAuth` conflicts exactly when the user
   * already has a row, a client version is given and it differs from the
   * stored one; a conflict writes nothing and reports the stored version.
   * A save writes version stored + 1 (1 for a new user), in place when the
   * user has a row and as one appended row otherwise.
   */
  lemma SaveOutcome(users: Option<Sheet<UserRow>>, data: Option<Sheet<DataRow>>, token: Option<string>, payload: string,
                    clientVersion: Option<int>, now: int)
    ensures var o := Save(users, data, token, payload, clientVersion, now);
      && (o.response.Conflict? <==> SaveConflicts(users, data, token, clientVersion, now))
      && (o.response.Conflict? ==>
            o.sheet == data
            && o.response.currentVersion ==
                 StoredVersion(data.value.rows[FirstMatch(data.value.rows, OwnedBy(UserByAccessToken(users, token, now).value)).value]))
      && (o.response.Saved? ==>
            var uid := UserByAccessToken(users, token, now).value;
            var old_ := DataOrNew(data).rows;
            o.sheet.Some? && o.sheet.value.headers == DataOrNew(data).headers &&
            match FirstMatch(old_, OwnedBy(uid))
            case None =>
              o.response.version == 1 && o.sheet.value.rows == old_ + [DataRow(uid, payload, Some(now), Some(1))]
            case Some(k) =>
              && o.response.version == StoredVersion(old_[k]) + 1
              && |o.sheet.value.rows| == |old_|
              && (forall j :: 0 <= j < |old_| && j != k ==> o.sheet.value.rows[j] == old_[j])
              && o.sheet.value.rows[k] == DataRow(uid, payload, Some(now), Some(o.response.version)))
  {
  }

  /** Loading right after a save returns the saved data and the version the save reported. */
  lemma SaveThenLoad(users: Option<Sheet<UserRow>>, data: Option<Sheet<DataRow>>, token: Option<string>, payload: string,
                     clientVersion: Option<int>, now: int)
    requires Save(users, data, token, payload, clientVersion, now).response.Saved?
    ensures var o := Save(users, data, token, payload, clientVersion, now);
      Load(users, o.sheet, token, now) == Loaded(Some(payload), o.response.version)
  {
    var o := Save(users, data, token, payload, clientVersion, now);
    var uid := UserByAccessToken(users, token, now).value;
    var old_ := DataOrNew(data).rows;
    var rows := o.sheet.value.rows;
    var p := OwnedBy(uid);
    match FirstMatch(old_, p)
    case None =>
      assert rows == old_ + [DataRow(uid, payload, Some(now), Some(1))];
      forall j | 0 <= j < |old_|
        ensures !p(rows[j])
      {
        assert rows[j] == old_[j];
        assert !p(old_[j]);
      }
      assert p(rows[|old_|]);
      FirstMatchAt(rows, p, |old_|);
    case Some(k) =>
      forall j | 0 <= j < k
        ensures !p(rows[j])
      {
        assert rows[j] == old_[j];
      }
      FirstMatchAt(rows, p, k);
  }

  /**
   * Two clients saving from the version they both loaded: once the first
   * save is accepted, the second is rejected with the version the first
   * wrote and changes nothing.
   */
  lemma StaleVersionConflicts(users: Option<Sheet<UserRow>>, data: Option<Sheet<DataRow>>, token: Option<string>,
                              first: string, second: string, version: int, now: int)
    requires Load(users, data, token, now).Loaded? && Load(users, data, token, now).version == version
    requires Save(users, data, token, first, Some(version), now).response.Saved?
    ensures var o := Save(users, data, token, first, Some(version), now);
      Save(users, o.sheet, token, second, Some(version), now) == Outcome(Conflict(o.response.version), o.sheet)
  {
    var o := Save(users, data, token, first, Some(version), now);
    SaveThenLoad(users, data, token, first, Some(version), now);
    var uid := UserByAccessToken(users, token, now).value;
    var rows := o.sheet.value.rows;
    var k := FirstMatch(rows, OwnedBy(uid)).value;
    assert StoredVersion(rows[k]) == o.response.version;
    match FirstMatch(DataOrNew(data).rows, OwnedBy(uid))
    case None =>
    case Some(j) =>
  }

  /** Only the user's own rows are removed, and every other user's rows stay, in order. */
  lemma {:induction false} KeepSpec(rows: seq<DataRow>, userId: string, other: string)
    requires other != userId
    ensures RowsOf(Keep(rows, userId), other) == RowsOf(rows, other)
    ensures RowsOf(Keep(rows, userId), userId) == []
    ensures |Keep(rows, userId)| + |RowsOf(rows, userId)| == |rows|
  {
    if rows != [] {
      var front := rows[..|rows| - 1];
      var last := rows[|rows| - 1];
      KeepSpec(front, userId, other);
      RowsOfAppend(Keep(front, userId), if last.userId == userId then [] else [last], other);
      RowsOfAppend(Keep(front, userId), if last.userId == userId then [] else [last], userId);
    }
  }

  /** `RowsOf` distributes over concatenation. */
  lemma {:induction false} RowsOfAppend(a: seq<DataRow>, b: seq<DataRow>, owner: string)
    ensures RowsOf(a + b, owner) == RowsOf(a, owner) + RowsOf(b, owner)
    decreases |b|
  {
    if b != [] {
      var b' := b[..|b| - 1];
      assert (a + b)[..|a + b| - 1] == a + b';
      RowsOfAppend(a, b', owner);
    } else {
      assert a + b == a;
    }
  }

  /** After `clearUserData`, loading the user's data finds nothing: empty data and version 0. */
  lemma ClearThenLoad(users: Option<Sheet<UserRow>>, data: Option<Sheet<DataRow>>, token: Option<string>, now: int)
    requires Clear(users, data, token, now).response.Success?
    ensures Load(users, Clear(users, data, token, now).sheet, token, now) == Loaded(None, 0)
           || (data.Some? && !LoadColumns(data.value.headers))
  {
    var o := Clear(users, data, token, now);
    if data.Some? && LoadColumns(data.value.headers) {
      var uid := UserByAccessToken(users, token, now).value;
      var rows := o.sheet.value.rows;
      assert rows == Keep(data.value.rows, uid);
      forall j | 0 <= j < |rows|
        ensures !OwnedBy(uid)(rows[j])
      {
      }
    }
  }

  // ---------------------------------------------------------------- the spreadsheet

  /** The bound spreadsheet: its Users and Data sheets, each None until created. */
  class Spreadsheet {
    var users: Option<Sheet<UserRow>>
    var data: Option<Sheet<DataRow>>

    constructor (users: Option<Sheet<UserRow>>, data: Option<Sheet<DataRow>>)
      ensures this.users == users && this.data == data
    {
      this.users := users;
      this.data := data;
    }

    /** `registerUser`. */
    method RegisterUser(userId: Option<string>, password: Option<string>, digest: string -> seq<SignedByte>)
      returns (response: Response)
      modifies this
      ensures Outcome(response, users) == Register(old(users), userId, password, digest)
      ensures data == old(data)
    {
      if Missing(userId) || Missing(password) {
        return Failure(MissingCredentials);
      }
      if users.None? {
        users := Some(Sheet(UserHeaders, []));
      }
      var sheet := users.value;
      var existing := FindRow(sheet.rows, HasUserId(userId.value));
      if existing.Some? {
        return Failure(UserExists);
      }
      var passwordHash := HashPassword(password.value, digest);
      users := Some(sheet.(rows := sheet.rows + [NewUser(userId.value, passwordHash)]));
      response := Success(Registered);
    }

    /** `loginUser`. */
    method LoginUser(userId: Option<string>, password: Option<string>, now: int, accessUuid: string, refreshUuid: string,
                     digest: string -> seq<SignedByte>, parse: string -> Option<seq<RefreshToken>>,
                     stringify: seq<RefreshToken> -> string)
      returns (response: Response)
      modifies this
      ensures Outcome(response, users) == Login(old(users), userId, password, now, accessUuid, refreshUuid, digest, parse, stringify)
      ensures data == old(data)
    {
      if Missing(userId) || Missing(password) {
        return Failure(MissingCredentials);
      }
      if users.None? {
        return Failure(NoUserSheet);
      }
      var sheet := users.value;
      if !LoginColumns(sheet.headers) {
        return Failure(UsersNotInitialized);
      }
      var found := FindRow(sheet.rows, HasUserId(userId.value));
      if found.None? {
        return Failure(UserNotFound);
      }
      var rowIndex := found.value;
      var userRow := sheet.rows[rowIndex];
      var inputHash := HashPassword(password.value, digest);
      if userRow.passwordHash != inputHash {
        return Failure(WrongPassword);
      }
      var refreshTokens := StoredTokens(userRow.refreshTokens, parse).GetOr([]);
      var validRefreshTokens := Unexpired(refreshTokens, now);
      validRefreshTokens := validRefreshTokens + [RefreshToken(refreshUuid, Some(now + RefreshLifetime))];
      var updated := userRow.(accessToken := accessUuid, accessExpiry := Some(now + AccessLifetime),
                              refreshTokens := stringify(validRefreshTokens));
      users := Some(sheet.(rows := sheet.rows[rowIndex := updated]));
      response := LoginOk(accessUuid, refreshUuid, userId.value);
    }

    /** `getUserByAccessToken`. */
    method GetUserByAccessToken(token: Option<string>, now: int) returns (userId: Option<string>)
      ensures userId == UserByAccessToken(users, token, now)
    {
      if users.None? || !TokenColumns(users.value.headers) {
        return None;
      }
      var found := FindRow(users.value.rows, HoldsAccess(token, now));
      if found.None? {
        return None;
      }
      return Some(users.value.rows[found.value].userId);
    }

    /** `validateToken`. */
    method ValidateToken(accessToken: Option<string>, now: int) returns (response: Response)
      ensures response == Validate(users, accessToken, now)
    {
      if Missing(accessToken) {
        return Invalid;
      }
      var user := GetUserByAccessToken(accessToken, now);
      if user.Some? {
        return Valid(user.value);
      }
      return Invalid;
    }

    /** `refreshTokenFlow`. */
    method RefreshTokenFlow(provided: Option<string>, now: int, accessUuid: string, parse: string -> Option<seq<RefreshToken>>)
      returns (response: Response)
      modifies this
      ensures Outcome(response, users) == Refresh(old(users), provided, now, accessUuid, parse)
      ensures data == old(data)
    {
      if Missing(provided) {
        return Failure(NoRefreshToken);
      }
      if users.None? {
        return Failure(NoUserSheetDot);
      }
      var sheet := users.value;
      if !RefreshColumns(sheet.headers) {
        return Failure(UsersNotInitialized);
      }
      var found := FindRow(sheet.rows, HoldsRefresh(provided.value, now, parse));
      if found.None? {
        return Failure(BadRefreshToken);
      }
      var target := found.value;
      var userRow := sheet.rows[target];
      users := Some(sheet.(rows := sheet.rows[target := userRow.(accessToken := accessUuid, accessExpiry := Some(now + AccessLifetime))]));
      response := RefreshOk(accessUuid, userRow.userId);
    }

    /** `saveDataWithAuth`. */
    method SaveDataWithAuth(accessToken: Option<string>, payload: string, clientVersion: Option<int>, now: int)
      returns (response: Response)
      modifies this
      ensures Outcome(response, data) == Save(old(users), old(data), accessToken, payload, clientVersion, now)
      ensures users == old(users)
    {
      var user := GetUserByAccessToken(accessToken, now);
      if user.None? {
        return Failure(Unauthorized);
      }
      if data.None? {
        data := Some(Sheet(DataHeaders, []));
      }
      var sheet := data.value;
      if !SaveColumns(sheet.headers) {
        return Failure(DataNotInitialized);
      }
      var written;
      response, written := WriteData(sheet, user.value, payload, clientVersion, now);
      data := Some(written);
    }

    /** `loadDataWithAuth`. */
    method LoadDataWithAuth(accessToken: Option<string>, now: int) returns (response: Response)
      ensures response == Load(users, data, accessToken, now)
    {
      var user := GetUserByAccessToken(accessToken, now);
      if user.None? {
        return Failure(Unauthorized);
      }
      if data.None? {
        return Loaded(None, 0);
      }
      var sheet := data.value;
      if !LoadColumns(sheet.headers) {
        return Failure(DataNotInitialized);
      }
      var found := FindRow(sheet.rows, OwnedBy(user.value));
      if found.Some? {
        var row := sheet.rows[found.value];
        return Loaded(Some(row.json), StoredVersion(row));
      }
      return Loaded(None, 0);
    }

    /** `clearUserData`: collects the user's row numbers, then deletes them from the highest down. */
    method ClearUserData(accessToken: Option<string>, now: int) returns (response: Response)
      modifies this
      ensures Outcome(response, data) == Clear(old(users), old(data), accessToken, now)
      ensures users == old(users)
    {
      var user := GetUserByAccessToken(accessToken, now);
      if user.None? {
        return Failure(Unauthorized);
      }
      if data.None? {
        return Success(NothingToClear);
      }
      var sheet := data.value;
      if "UserId" !in sheet.headers {
        return Failure(NoUserIdHeader);
      }
      var uid := user.value;
      var rowsToDelete := CollectRows(sheet.rows, uid);
      DeleteMatchingKeeps(sheet.rows, uid);
      var rows := DeleteRows(sheet.rows, rowsToDelete);
      data := Some(sheet.(rows := rows));
      response := Success("Data for user " + uid + " cleared.");
    }
  }
}
