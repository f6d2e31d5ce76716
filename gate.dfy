/**
 * The checks the start-analysis and analysis-status routes run, in the same
 * order, before touching a video file: the API key (401), the file id (400),
 * the file (404) and its owner (403).
 */
module Gate {
  import opened Wrappers
  import opened Db
  import opened ApiKey

  const BadRequest := 400
  const Unauthorized := 401
  const Forbidden := 403
  const NotFound := 404
  const InternalError := 500

  /** An error response: HTTP status and the `error` message of its JSON body. */
  datatype Denial = Denial(status: int, error: string)

  /** The quota record whose secret key the `Authorization` header carries. */
  function Authenticate(quotas: map<UserId, ApiQuota>, keys: map<string, UserId>, authorization: Option<string>)
    : (r: Result<ApiQuota, Denial>)
    requires QuotasIndexed(quotas, keys)
    ensures ParseApiKey(authorization).None? ==> r == Failure(Denial(Unauthorized, "API key required"))
    ensures ParseApiKey(authorization).Some? && ParseApiKey(authorization).value !in keys
      ==> r == Failure(Denial(Unauthorized, "Invalid API key"))
    ensures r.Success? <==> ParseApiKey(authorization).Some? && ParseApiKey(authorization).value in keys
    ensures r.Success? ==>
      (r.value.secretKey == ParseApiKey(authorization).value
       && r.value.userId in quotas && quotas[r.value.userId] == r.value)
  {
    match ParseApiKey(authorization)
    case None => Failure(Denial(Unauthorized, "API key required"))
    case Some(key) =>
      match QuotaByKey(quotas, keys, key)
      case None => Failure(Denial(Unauthorized, "Invalid API key"))
      case Some(quota) => Success(quota)
  }

  /** The video file `fileId` names, provided `owner` owns it. */
  function LocateOwned(files: map<FileId, VideoFile>, owner: UserId, fileId: Option<string>, missingIdError: string)
    : (r: Result<VideoFile, Denial>)
    ensures r.Success? <==> Present(fileId) && fileId.value in files && files[fileId.value].userId == owner
    ensures r.Success? ==> r.value == files[fileId.value]
    ensures !Present(fileId) ==> r == Failure(Denial(BadRequest, missingIdError))
    ensures Present(fileId) && fileId.value !in files ==> r == Failure(Denial(NotFound, "Video file not found"))
    ensures Present(fileId) && fileId.value in files && files[fileId.value].userId != owner
      ==> r == Failure(Denial(Forbidden, "Unauthorized"))
  {
    if !Present(fileId) then Failure(Denial(BadRequest, missingIdError))
    else if fileId.value !in files then Failure(Denial(NotFound, "Video file not found"))
    else if files[fileId.value].userId != owner then Failure(Denial(Forbidden, "Unauthorized"))
    else Success(files[fileId.value])
  }
}
