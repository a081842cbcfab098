/**
 The temporary-file share service: a bearer-token gate in front of upload
 and delete, and share links that expire. Redis is the map `Store` from key
 to stored file and remaining time to live; JWT verification is the
 uninterpreted `Verifier`.
 */
module TempFile {
  import opened Wrappers
  import opened Text

  /** The JSON object `upload_file` stores and `get_file` returns. */
  datatype FileData = FileData(title: string, code: string, language: string, expiryTime: string)

  /** A stored value and its remaining time to live in seconds, as Redis `TTL` reports it. */
  datatype Entry = Entry(data: FileData, ttl: int)

  type Store = map<string, Entry>

  /** `jwt.decode(token, SECRET_KEY, algorithms=["HS256"])` succeeds. */
  type Verifier = string -> bool

  /** Request headers by name. */
  type Headers = map<string, string>

  datatype Body =
    | Error(error: string)
    | Message(message: string)
    | Uploaded(message: string, fileUrl: string, expiryTime: string)
    | File(data: FileData)
    | RedirectTo(location: string)

  datatype Response = Response(status: int, body: Body)

  /** Redis `GET key`. */
  function GetData(store: Store, key: string): Option<FileData> {
    if key in store then Some(store[key].data) else None
  }

  /** Redis `TTL key`: -2 when the key does not exist. */
  function Ttl(store: Store, key: string): int {
    if key in store then store[key].ttl else -2
  }

  // ---------------------------------------------------------------------
  // The bearer-token gate (`token_required`)
  // ---------------------------------------------------------------------

  const BearerPrefix := "Bearer "

  /**
   The token of an `Authorization: Bearer <token>` header, as
   `auth_header.split(" ")[1]`: the text after the prefix up to the next
   space. The scheme name is matched case-sensitively, with exactly one
   space after it.
   */
  function BearerToken(headers: Headers): (t: Option<string>)
    ensures t.Some? <==> "Authorization" in headers && StartsWith(headers["Authorization"], BearerPrefix)
    ensures t.Some? ==>
      var rest := headers["Authorization"][|BearerPrefix|..];
      && StartsWith(rest, t.value)
      && ' ' !in t.value
      && (|t.value| == |rest| || rest[|t.value|] == ' ')
  {
    if "Authorization" in headers && StartsWith(headers["Authorization"], BearerPrefix) then
      var h := headers["Authorization"];
      var rest := h[|BearerPrefix|..];
      assert h[..7] == BearerPrefix;
      assert ' ' !in h[..6] by {
        forall k | 0 <= k < 6 ensures h[..6][k] != ' ' { assert h[k] == BearerPrefix[k]; }
      }
      FirstIndexAt(h, ' ', 6);
      assert h[..6] == "Bearer" && h[7..] == rest;
      assert Split(h, ' ') == ["Bearer"] + Split(rest, ' ');
      SplitFirst(rest, ' ');
      Some(Split(h, ' ')[1])
    else
      None
  }

  /** The gate's decision: a rejection, or the verified token. */
  datatype Gate = Denied(response: Response) | Admitted(token: string)

  function Authorize(headers: Headers, verify: Verifier): (g: Gate)
    ensures g.Denied? && g.response.status == 403 <==>
      BearerToken(headers).None? || BearerToken(headers).value == ""
    ensures g.Denied? && g.response.status == 401 <==>
      BearerToken(headers).Some? && BearerToken(headers).value != "" && !verify(BearerToken(headers).value)
    ensures g.Admitted? ==> Some(g.token) == BearerToken(headers) && g.token != "" && verify(g.token)
    ensures g.Denied? ==> g.response.status in {401, 403}
  {
    match BearerToken(headers)
    case None => Denied(Response(403, Message("Token is missing!")))
    case Some(t) =>
      if t == "" then Denied(Response(403, Message("Token is missing!")))
      else if !verify(t) then Denied(Response(401, Message("Invalid token!")))
      else Admitted(t)
  }

  // ---------------------------------------------------------------------
  // Keys and links
  // ---------------------------------------------------------------------

  /** The `<shareId>` of a link: language and file id joined by '-'. */
  function ShareId(language: string, fileId: string): (id: string)
    ensures |id| == |language| + 1 + |fileId|
    ensures id[..|language|] == language && id[|language|] == '-' && id[|language| + 1..] == fileId
  {
    language + "-" + fileId
  }

  /** The Redis key of a share id. */
  function KeyOfShare(shareId: string): string { "file:" + shareId + ":data" }

  /** The Redis key `upload_file` writes: the key of the upload's share id. */
  function FileKey(language: string, fileId: string): (k: string)
    ensures k == KeyOfShare(ShareId(language, fileId))
  {
    "file:" + language + "-" + fileId + ":data"
  }

  /** The link `upload_file` returns: the base URL, then `/file/` and the share id. */
  function FileUrl(baseUrl: string, language: string, fileId: string): (url: string)
    ensures url == baseUrl + "/file/" + ShareId(language, fileId)
  {
    baseUrl + "/file/" + language + "-" + fileId
  }

  /**
   The key `get_file` and `delete_file` look up for a share id: split at the
   first '-', then rebuilt; `None` when the id has no '-'.
   */
  function LookupKey(shareId: string): (k: Option<string>)
    ensures k.None? <==> '-' !in shareId
    ensures k.Some? ==> k.value == KeyOfShare(shareId)
  {
    match SplitOnce(shareId, '-')
    case None => None
    case Some((language, fileId)) =>
      assert language + "-" + fileId == shareId;
      Some("file:" + language + "-" + fileId + ":data")
  }

  /** The share id of an upload leads back to the key it was stored under, for any language. */
  lemma ShareKeyRoundTrip(language: string, fileId: string)
    ensures LookupKey(ShareId(language, fileId)) == Some(FileKey(language, fileId))
  {
    assert '-' in ShareId(language, fileId) by {
      assert ShareId(language, fileId)[|language|] == '-';
    }
    assert KeyOfShare(ShareId(language, fileId)) == FileKey(language, fileId);
  }

  /** When the language has no '-', splitting the share id gives back language and file id. */
  lemma ShareIdSplitRoundTrip(language: string, fileId: string)
    requires '-' !in language
    ensures SplitOnce(ShareId(language, fileId), '-') == Some((language, fileId))
  {
    var s := ShareId(language, fileId);
    assert s[|language|] == '-' && s[..|language|] == language;
    assert FirstIndex(s, '-') == Some(|language|);
    assert s[|language| + 1..] == fileId;
  }

  /** With a '-' in the language, the split point moves into it. */
  lemma ShareIdSplitWithHyphen()
    ensures SplitOnce(ShareId("objective-c", "42"), '-') == Some(("objective", "c-42"))
  {
    var s := ShareId("objective-c", "42");
    assert s == "objective-c-42";
    assert s[9] == '-' && '-' !in s[..9];
    assert FirstIndex(s, '-') == Some(9);
    assert s[..9] == "objective" && s[10..] == "c-42";
  }

  // ---------------------------------------------------------------------
  // Upload
  // ---------------------------------------------------------------------

  /** The upload request's JSON fields; `None` when absent. */
  datatype UploadRequest = UploadRequest(
    code: Option<string>, language: Option<string>, title: Option<string>, expiryTime: Option<int>)

  /** The expiry choices in minutes: ten minutes, half an hour, an hour, a day, a week. */
  const ValidExpiryTimes: set<int> := {10, 30, 60, 1440, 10080}

  predicate Complete(req: UploadRequest) {
    Truthy(req.code) && Truthy(req.language) && Truthy(req.title)
    && req.expiryTime.Some? && req.expiryTime.value != 0
  }

  /**
   `upload_file` after the gate. The file id and the formatted expiry time
   are inputs (a fresh UUID and the clock in the service).
   */
  function UploadFile(req: UploadRequest, fileId: string, expiryStamp: string, baseUrl: string, store: Store)
    : (r: (Response, Store))
    ensures !Complete(req) ==>
      r == (Response(400, Error("Code, language, title, and expiry time are required")), store)
    ensures Complete(req) && req.expiryTime.value !in ValidExpiryTimes ==>
      r == (Response(400, Error("Invalid expiry time. Please choose a valid value.")), store)
    ensures r.0.status == 200 <==> Complete(req) && req.expiryTime.value in ValidExpiryTimes
    ensures r.0.status == 200 ==>
      var (code, language, title) := (req.code.value, req.language.value, req.title.value);
      && r.0.body == Uploaded("Code uploaded successfully", FileUrl(baseUrl, language, fileId), expiryStamp)
      && r.1 == store[FileKey(language, fileId) :=
           Entry(FileData(title, code, language, expiryStamp), req.expiryTime.value * 60)]
  {
    if !Complete(req) then
      (Response(400, Error("Code, language, title, and expiry time are required")), store)
    else if req.expiryTime.value !in ValidExpiryTimes then
      (Response(400, Error("Invalid expiry time. Please choose a valid value.")), store)
    else
      var minutes := req.expiryTime.value;
      var code, language, title := req.code.value, req.language.value, req.title.value;
      var data := FileData(title, code, language, expiryStamp);
      var key := FileKey(language, fileId);
      (Response(200, Uploaded("Code uploaded successfully", FileUrl(baseUrl, language, fileId), expiryStamp)),
       store[key := Entry(data, minutes * 60)])
  }

  /** Every upload lives between ten minutes and a week, never without expiry. */
  lemma UploadTtlBounds(req: UploadRequest, fileId: string, expiryStamp: string, baseUrl: string, store: Store)
    requires UploadFile(req, fileId, expiryStamp, baseUrl, store).0.status == 200
    ensures var key := FileKey(req.language.value, fileId);
      var s := UploadFile(req, fileId, expiryStamp, baseUrl, store).1;
      key in s && 600 <= s[key].ttl <= 604800 && s[key].ttl % 60 == 0
  {
  }

  /** POST /temp-file-upload: the gate, then the upload. */
  function UploadEndpoint(headers: Headers, verify: Verifier, req: UploadRequest, fileId: string,
                          expiryStamp: string, baseUrl: string, store: Store): (r: (Response, Store))
    ensures Authorize(headers, verify).Denied? ==> r == (Authorize(headers, verify).response, store)
    ensures Authorize(headers, verify).Admitted? ==> r == UploadFile(req, fileId, expiryStamp, baseUrl, store)
    ensures r.0.status == 200 ==> Authorize(headers, verify).Admitted?
  {
    match Authorize(headers, verify)
    case Denied(response) => (response, store)
    case Admitted(_) => UploadFile(req, fileId, expiryStamp, baseUrl, store)
  }

  // ---------------------------------------------------------------------
  // Retrieval
  // ---------------------------------------------------------------------

  /** The response for what Redis reported about a key: its data and its TTL. */
  function FileStatus(data: Option<FileData>, ttl: int): (r: Response)
    ensures ttl == -2 ==> r == Response(404, Error("File not found"))
    ensures ttl == -1 || ttl == 0 ==> r == Response(410, Error("File has expired"))
    ensures ttl !in {-2, -1, 0} && data.None? ==> r == Response(404, Error("File not found"))
    ensures r.status == 200 <==> ttl !in {-2, -1, 0} && data.Some?
    ensures r.status == 200 ==> r.body == File(data.value)
    ensures r.status in {200, 404, 410}
  {
    if ttl == -2 then Response(404, Error("File not found"))
    else if ttl == -1 || ttl == 0 then Response(410, Error("File has expired"))
    else if data.Some? then Response(200, File(data.value))
    else Response(404, Error("File not found"))
  }

  const BadShareId := "Invalid 'shareId' format. It should be 'language-file_id'."

  /** GET /file/<shareId>, with the `X-File-ID` header. */
  function GetFile(shareId: string, headerId: Option<string>, store: Store): (r: Response)
    ensures !(Truthy(headerId) && headerId.value == shareId) ==> r == Response(302, RedirectTo("/"))
    ensures Truthy(headerId) && headerId.value == shareId && '-' !in shareId ==>
      r == Response(400, Error(BadShareId))
    ensures r.status == 200 <==>
      && Truthy(headerId) && headerId.value == shareId
      && KeyOfShare(shareId) in store && store[KeyOfShare(shareId)].ttl !in {-2, -1, 0}
      && '-' in shareId
    ensures r.status == 200 ==> r.body == File(store[KeyOfShare(shareId)].data)
    ensures Truthy(headerId) && headerId.value == shareId && '-' in shareId ==>
      var key := KeyOfShare(shareId);
      && (key !in store ==> r == Response(404, Error("File not found")))
      && (key in store && store[key].ttl in {-1, 0} ==> r == Response(410, Error("File has expired")))
      && r == FileStatus(GetData(store, key), Ttl(store, key))
  {
    if !Truthy(headerId) || headerId.value != shareId then Response(302, RedirectTo("/"))
    else
      match LookupKey(shareId)
      case None => Response(400, Error(BadShareId))
      case Some(key) => FileStatus(GetData(store, key), Ttl(store, key))
  }

  // ---------------------------------------------------------------------
  // Deletion
  // ---------------------------------------------------------------------

  /**
   `delete_file` after the gate. A file id without '-' makes the tuple
   unpacking raise, which the handler's catch-all turns into a 500.
   */
  function DeleteFile(fileId: string, store: Store): (r: (Response, Store))
    ensures '-' !in fileId ==> r == (Response(500, Error("An unexpected error occurred")), store)
    ensures r.0.status == 200 <==> '-' in fileId && KeyOfShare(fileId) in store
    ensures r.0.status == 200 ==> r.1 == store - {KeyOfShare(fileId)}
    ensures r.0.status == 200 ==> r.0.body == Message("File deleted successfully")
    ensures '-' in fileId && KeyOfShare(fileId) !in store ==> r == (Response(404, Error("File not found")), store)
    ensures r.0.status != 200 ==> r.1 == store
    ensures forall k :: k != KeyOfShare(fileId) ==> (k in r.1 <==> k in store)
    ensures forall k :: k in r.1 ==> r.1[k] == store[k]
  {
    match LookupKey(fileId)
    case None => (Response(500, Error("An unexpected error occurred")), store)
    case Some(key) =>
      if GetData(store, key).Some? then (Response(200, Message("File deleted successfully")), store - {key})
      else (Response(404, Error("File not found")), store)
  }

  /** DELETE /file/<file_id>/delete: the gate, then the deletion. */
  function DeleteEndpoint(headers: Headers, verify: Verifier, fileId: string, store: Store): (r: (Response, Store))
    ensures Authorize(headers, verify).Denied? ==> r == (Authorize(headers, verify).response, store)
    ensures Authorize(headers, verify).Admitted? ==> r == DeleteFile(fileId, store)
    ensures r.0.status == 200 ==> Authorize(headers, verify).Admitted?
  {
    match Authorize(headers, verify)
    case Denied(response) => (response, store)
    case Admitted(_) => DeleteFile(fileId, store)
  }

  // ---------------------------------------------------------------------
  // Upload, retrieval and deletion together
  // ---------------------------------------------------------------------

  /** A fresh upload can be fetched through its share id and returns what was uploaded. */
  lemma UploadThenGet(req: UploadRequest, fileId: string, expiryStamp: string, baseUrl: string, store: Store)
    requires UploadFile(req, fileId, expiryStamp, baseUrl, store).0.status == 200
    ensures var share := ShareId(req.language.value, fileId);
      var s := UploadFile(req, fileId, expiryStamp, baseUrl, store).1;
      GetFile(share, Some(share), s) ==
        Response(200, File(FileData(req.title.value, req.code.value, req.language.value, expiryStamp)))
  {
    var language := req.language.value;
    var share := ShareId(language, fileId);
    ShareKeyRoundTrip(language, fileId);
    assert share != "" by { assert share[|language|] == '-'; }
  }

  /**
   The link a successful upload returns ends in `/file/` and a share id that
   `get_file` accepts, and fetching it returns the uploaded file.
   */
  lemma UploadLinkServesFile(req: UploadRequest, fileId: string, expiryStamp: string, baseUrl: string,
                             store: Store)
    requires UploadFile(req, fileId, expiryStamp, baseUrl, store).0.status == 200
    ensures var (r, s) := UploadFile(req, fileId, expiryStamp, baseUrl, store);
      var url := r.body.fileUrl;
      var share := url[|baseUrl| + 6..];
      && |baseUrl| + 6 <= |url| && url == baseUrl + "/file/" + share
      && LookupKey(share) == Some(FileKey(req.language.value, fileId))
      && GetFile(share, Some(share), s) ==
        Response(200, File(FileData(req.title.value, req.code.value, req.language.value, expiryStamp)))
  {
    var language := req.language.value;
    var share := ShareId(language, fileId);
    var url := FileUrl(baseUrl, language, fileId);
    var prefix := baseUrl + "/file/";
    assert url == prefix + share && |prefix| == |baseUrl| + 6;
    assert url[|prefix|..] == share;
    ShareKeyRoundTrip(language, fileId);
    UploadThenGet(req, fileId, expiryStamp, baseUrl, store);
  }

  /** After a successful delete the share link reports the file as not found. */
  lemma DeleteThenGet(fileId: string, store: Store)
    requires DeleteFile(fileId, store).0.status == 200
    ensures GetFile(fileId, Some(fileId), DeleteFile(fileId, store).1) == Response(404, Error("File not found"))
  {
  }
}
