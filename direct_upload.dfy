/**
 * `POST /api/direct-upload`: checks the caller and the requested file name,
 * derives a storage key from a fresh id and the name's extension, asks the
 * object store for a pre-signed upload URL valid for five minutes, and records
 * an unanalysed video file under the fresh id.
 */
module DirectUpload {
  import opened Wrappers
  import opened Db
  import opened Gate

  const KeyPrefix := "inference/"
  const UploadExpirySeconds := 60 * 5

  function LowerAscii(c: char): (r: char)
    ensures ('A' <= c <= 'Z') ==> r == c + ('a' - 'A')
    ensures !('A' <= c <= 'Z') ==> r == c
  {
    if 'A' <= c <= 'Z' then c + ('a' - 'A') else c
  }

  /** The extension in lower case. The `i` flag of a regular expression without the
      `u` flag folds only ASCII letters onto these patterns. */
  function LowerExtension(ext: string): (r: string)
    requires |ext| == 3
    ensures |r| == 3
  {
    [LowerAscii(ext[0]), LowerAscii(ext[1]), LowerAscii(ext[2])]
  }

  predicate IsVideoExtension(ext: string)
  {
    |ext| == 3 && LowerExtension(ext) in {"mp4", "mov", "avi"}
  }

  /** `s` in lower case, ASCII letters only. */
  function LowerString(s: string): (r: string)
    ensures |r| == |s| && forall i :: 0 <= i < |s| ==> r[i] == LowerAscii(s[i])
  {
    seq(|s|, i requires 0 <= i < |s| => LowerAscii(s[i]))
  }

  /** `s` ends in `suffix`, compared without regard to ASCII letter case. */
  predicate EndsWithFolded(s: string, suffix: string)
  {
    |suffix| <= |s| && LowerString(s[|s| - |suffix|..]) == suffix
  }

  /** `fileName.match(/\.(mp4|mov|avi)$/i)`: the name ends in ".mp4", ".mov" or
      ".avi", in any letter case. */
  function HasVideoExtension(name: string): (matched: bool)
    ensures matched <==> EndsWithFolded(name, ".mp4") || EndsWithFolded(name, ".mov") || EndsWithFolded(name, ".avi")
  {
    if |name| < 4 then false
    else
      var tail := name[|name| - 4..];
      assert LowerString(tail) == [LowerAscii(tail[0])] + LowerExtension(name[|name| - 3..]);
      tail[0] == '.' && IsVideoExtension(name[|name| - 3..])
  }

  /** The index of the last dot among the first `n` characters of `s`, if any. */
  function LastDotBefore(s: string, n: nat): (r: Option<nat>)
    requires n <= |s|
    ensures r.Some? ==> r.value < n && s[r.value] == '.'
    ensures r.Some? ==> forall j :: r.value < j < n ==> s[j] != '.'
    ensures r.None? ==> forall j :: 0 <= j < n ==> s[j] != '.'
  {
    if n == 0 then None
    else if s[n - 1] == '.' then Some(n - 1)
    else LastDotBefore(s, n - 1)
  }

  /** `s.split(".").pop()`: the text after the last dot, or all of `s` when it has none. */
  function LastSegment(s: string): (r: string)
    ensures |r| <= |s| && r == s[|s| - |r|..]
    ensures forall i :: 0 <= i < |r| ==> r[i] != '.'
    ensures |r| < |s| ==> s[|s| - |r| - 1] == '.'
  {
    match LastDotBefore(s, |s|)
    case None => s
    case Some(i) => s[i + 1..]
  }

  /** The object key: `inference/<id>.<text after the last dot of fileName>`. */
  function StorageKey(id: FileId, fileName: string): (key: string)
    ensures |key| == |KeyPrefix| + |id| + 1 + |LastSegment(fileName)|
    ensures key[..|KeyPrefix|] == KeyPrefix && key[|KeyPrefix|..|KeyPrefix| + |id|] == id
    ensures LastSegment(key) == LastSegment(fileName)
  {
    KeyLayout(id, LastSegment(fileName));
    KeyPrefix + id + "." + LastSegment(fileName)
  }

  /** A key built from an id and a dot-free extension has the prefix, then the id,
      and its own last segment is that extension. */
  lemma KeyLayout(id: FileId, ext: string)
    requires forall i :: 0 <= i < |ext| ==> ext[i] != '.'
    ensures var key := KeyPrefix + id + "." + ext;
      && key[..|KeyPrefix|] == KeyPrefix && key[|KeyPrefix|..|KeyPrefix| + |id|] == id
      && LastSegment(key) == ext
  {
    var rest := id + "." + ext;
    assert KeyPrefix + id + "." + ext == KeyPrefix + rest;
    assert rest[..|id|] == id;
    ExtensionEndsKey(KeyPrefix + id + ".", ext);
  }

  /** Appending a dot-free extension to a text that ends in a dot makes that
      extension the last segment. */
  lemma ExtensionEndsKey(head: string, ext: string)
    requires |head| > 0 && head[|head| - 1] == '.'
    requires forall i :: 0 <= i < |ext| ==> ext[i] != '.'
    ensures LastSegment(head + ext) == ext
  {
    var key := head + ext;
    assert key[|head| - 1] == '.';
    assert forall i :: |head| <= i < |key| ==> key[i] == ext[i - |head|];
    LastSegmentAfterDot(key, |ext|);
    assert key[|key| - |ext|..] == ext;
  }

  /** The segment after a dot that is followed by `k` dot-free characters is
      exactly those `k` characters. */
  lemma LastSegmentAfterDot(s: string, k: nat)
    requires k < |s| && s[|s| - k - 1] == '.'
    requires forall i :: |s| - k <= i < |s| ==> s[i] != '.'
    ensures LastSegment(s) == s[|s| - k..]
  {
  }

  /** None of the accepted extensions, in any letter case, contains a dot. */
  lemma VideoExtensionHasNoDot(ext: string)
    requires IsVideoExtension(ext)
    ensures forall i :: 0 <= i < |ext| ==> ext[i] != '.'
  {
    forall i | 0 <= i < |ext|
      ensures ext[i] != '.'
    {
      assert LowerAscii(ext[i]) != '.';
    }
  }

  /** A name made of anything that ends in a dot, then an accepted extension,
      passes the extension check. */
  lemma DotThenExtension(head: string, ext: string)
    requires |head| > 0 && head[|head| - 1] == '.'
    requires |ext| == 3 && IsVideoExtension(ext)
    ensures HasVideoExtension(head + ext)
  {
    var name := head + ext;
    assert name[|name| - 3..] == ext;
    assert name[|name| - 4] == head[|head| - 1];
  }

  /** For an accepted name, the key ends in the name's own extension, with its
      letter case kept, so the key itself passes the extension check. */
  lemma KeyKeepsExtension(id: FileId, fileName: string)
    requires HasVideoExtension(fileName)
    ensures LastSegment(fileName) == fileName[|fileName| - 3..]
    ensures StorageKey(id, fileName) == KeyPrefix + id + "." + fileName[|fileName| - 3..]
    ensures HasVideoExtension(StorageKey(id, fileName))
  {
    var ext := fileName[|fileName| - 3..];
    VideoExtensionHasNoDot(ext);
    assert forall i :: |fileName| - 3 <= i < |fileName| ==> fileName[i] == ext[i - (|fileName| - 3)];
    LastSegmentAfterDot(fileName, 3);
    DotThenExtension(KeyPrefix + id + ".", ext);
  }

  /** The parsed JSON body, or `Unparseable` when `req.json()` throws. */
  datatype UploadBody = Unparseable | UploadBody(fileName: Option<string>, fileType: Option<string>)

  /** The `PutObjectCommand` handed to `getSignedUrl`, with its expiry in seconds. */
  datatype PresignRequest = PresignRequest(bucket: string, key: string, contentType: string, expiresIn: int)

  datatype UploadReply = Issued(uploadUrl: string, key: string, fileId: FileId) | Refused(denial: Denial)

  /** The reply, the requests made to the URL signer, and the file table afterwards. */
  datatype Upload = Upload(reply: UploadReply, presigned: seq<PresignRequest>, files: map<FileId, VideoFile>)

  /** A freshly registered upload: owned by the caller, unanalysed, no utterances. */
  function NewFile(id: FileId, key: string, owner: UserId): VideoFile
  {
    VideoFile(id, key, owner, false, [])
  }

  /** The handler as a function of the tables, the request, the bucket the
      environment names (`AWS_INFERENCE_BUCKET`), the id that
      `crypto.randomUUID()` returns and the URL signer. Creating a file whose id is
      already taken throws, which the handler turns into a 500 after the URL has
      been signed. */
  function Issue(quotas: map<UserId, ApiQuota>, keys: map<string, UserId>, files: map<FileId, VideoFile>,
                 authorization: Option<string>, body: UploadBody, bucket: string, id: FileId,
                 presign: PresignRequest -> string): (r: Upload)
    requires QuotasIndexed(quotas, keys)
    ensures Authenticate(quotas, keys, authorization).Failure? ==>
      r == Upload(Refused(Authenticate(quotas, keys, authorization).error), [], files)
    ensures Authenticate(quotas, keys, authorization).Success? && body.Unparseable? ==>
      r == Upload(Refused(Denial(InternalError, "Internal server error")), [], files)
    ensures (Authenticate(quotas, keys, authorization).Success? && body.UploadBody?
             && (!Present(body.fileName) || !Present(body.fileType))) ==>
      r == Upload(Refused(Denial(BadRequest, "fileName and fileType required")), [], files)
    ensures (Authenticate(quotas, keys, authorization).Success? && body.UploadBody?
             && Present(body.fileName) && Present(body.fileType) && !HasVideoExtension(body.fileName.value)) ==>
      r == Upload(Refused(Denial(BadRequest, "Invalid file type")), [], files)
    ensures r.reply.Issued? <==>
      (Authenticate(quotas, keys, authorization).Success? && body.UploadBody?
       && Present(body.fileName) && Present(body.fileType) && HasVideoExtension(body.fileName.value)
       && id !in files)
    ensures r.reply.Issued? ==>
      var request := PresignRequest(bucket, StorageKey(id, body.fileName.value), body.fileType.value, UploadExpirySeconds);
      var owner := Authenticate(quotas, keys, authorization).value.userId;
      && r.reply == Issued(presign(request), request.key, id)
      && r.presigned == [request]
      && r.files == files[id := NewFile(id, request.key, owner)]
    ensures (Authenticate(quotas, keys, authorization).Success? && body.UploadBody?
             && Present(body.fileName) && Present(body.fileType) && HasVideoExtension(body.fileName.value)
             && id in files) ==>
      r == Upload(Refused(Denial(InternalError, "Internal server error")),
                  [PresignRequest(bucket, StorageKey(id, body.fileName.value), body.fileType.value, UploadExpirySeconds)],
                  files)
    ensures r.reply.Refused? ==> r.files == files
    ensures r.presigned != [] ==> HasVideoExtension(body.fileName.value) && r.presigned[0].expiresIn == 300
  {
    match Authenticate(quotas, keys, authorization)
    case Failure(denial) => Upload(Refused(denial), [], files)
    case Success(quota) =>
      match body
      case Unparseable => Upload(Refused(Denial(InternalError, "Internal server error")), [], files)
      case UploadBody(fileName, fileType) =>
        if !Present(fileName) || !Present(fileType) then
          Upload(Refused(Denial(BadRequest, "fileName and fileType required")), [], files)
        else if !HasVideoExtension(fileName.value) then
          Upload(Refused(Denial(BadRequest, "Invalid file type")), [], files)
        else
          var key := StorageKey(id, fileName.value);
          var request := PresignRequest(bucket, key, fileType.value, UploadExpirySeconds);
          var uploadUrl := presign(request);
          if id in files then
            Upload(Refused(Denial(InternalError, "Internal server error")), [request], files)
          else
            Upload(Issued(uploadUrl, key, id), [request], files[id := NewFile(id, key, quota.userId)])
  }

  lemma AddsOneKey(files: map<FileId, VideoFile>, id: FileId, f: VideoFile)
    requires id !in files
    ensures files[id := f].Keys == files.Keys + {id}
    ensures |files[id := f]| == |files| + 1
  {
  }

  /** An issued upload adds exactly one file, under the returned id, keyed by the
      returned key, and its key carries an accepted extension. */
  lemma IssuedAddsOneFile(quotas: map<UserId, ApiQuota>, keys: map<string, UserId>, files: map<FileId, VideoFile>,
                          authorization: Option<string>, body: UploadBody, bucket: string, id: FileId,
                          presign: PresignRequest -> string)
    requires QuotasIndexed(quotas, keys)
    requires Issue(quotas, keys, files, authorization, body, bucket, id, presign).reply.Issued?
    ensures var r := Issue(quotas, keys, files, authorization, body, bucket, id, presign);
      && r.files.Keys == files.Keys + {r.reply.fileId}
      && |r.files| == |files| + 1
      && r.files[r.reply.fileId].key == r.reply.key
      && !r.files[r.reply.fileId].analyzed && r.files[r.reply.fileId].utterances == []
      && HasVideoExtension(r.reply.key)
  {
    var r := Issue(quotas, keys, files, authorization, body, bucket, id, presign);
    var key := StorageKey(id, body.fileName.value);
    var owner := Authenticate(quotas, keys, authorization).value.userId;
    KeyKeepsExtension(id, body.fileName.value);
    AddsOneKey(files, id, NewFile(id, key, owner));
  }

  /** The handler, writing the new file into the store. */
  method DirectUpload(db: Store, authorization: Option<string>, body: UploadBody, bucket: string, id: FileId,
                      presign: PresignRequest -> string) returns (reply: UploadReply, presigned: seq<PresignRequest>)
    requires db.Valid()
    modifies db
    ensures db.Valid()
    ensures Upload(reply, presigned, db.files) == Issue(old(db.quotas), old(db.keys), old(db.files), authorization, body, bucket, id, presign)
    ensures db.quotas == old(db.quotas) && db.keys == old(db.keys) && db.users == old(db.users)
  {
    ghost var expected := Issue(db.quotas, db.keys, db.files, authorization, body, bucket, id, presign);
    var quota := Authenticate(db.quotas, db.keys, authorization);
    if quota.Failure? {
      return Refused(quota.error), [];
    }
    if body.Unparseable? {
      return Refused(Denial(InternalError, "Internal server error")), [];
    }
    if !Present(body.fileName) || !Present(body.fileType) {
      return Refused(Denial(BadRequest, "fileName and fileType required")), [];
    }
    var fileName := body.fileName.value;
    if !HasVideoExtension(fileName) {
      return Refused(Denial(BadRequest, "Invalid file type")), [];
    }
    var key := StorageKey(id, fileName);
    var request := PresignRequest(bucket, key, body.fileType.value, UploadExpirySeconds);
    var uploadUrl := presign(request);
    presigned := [request];
    if id in db.files {
      return Refused(Denial(InternalError, "Internal server error")), presigned;
    }
    var file := NewFile(id, key, quota.value.userId);
    assert expected == Upload(Issued(uploadUrl, key, id), presigned, db.files[id := file]);
    FilesKeyedInsert(db.files, file);
    db.files := db.files[id := file];
    reply := Issued(uploadUrl, key, id);
  }
}
