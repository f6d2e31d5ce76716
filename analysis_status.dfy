/**
 * `GET /api/analysis-status?fileId=...`: a read-only query. After the shared
 * checks, the job status is derived from the file's `analyzed` flag and the
 * number of its utterances, and a completed job's utterances are returned with
 * their fields renamed back to snake_case, nested as `analysis.analysis.utterances`.
 */
module AnalysisStatus {
  import opened Wrappers
  import opened Db
  import opened Gate

  /** `{ utterances: [...] }` */
  datatype UtteranceList = UtteranceList(utterances: seq<WireUtterance>)

  /** `analysisData`, which the reply nests once more under `analysis`. */
  datatype AnalysisData = AnalysisData(analysis: UtteranceList)

  datatype StatusReply =
    | Processing
    | Failed
    | Completed(analysis: AnalysisData)
    | Denied(denial: Denial)

  const ProcessingMessage := "Analysis in progress"
  const FailedMessage := "Analysis completed but no utterances found"

  /** One stored utterance as the reply shows it. */
  function ToWire(u: Utterance): WireUtterance
  {
    WireUtterance(u.startTime, u.endTime, u.text, u.emotions, u.sentiments)
  }

  /** The stored utterances with their fields renamed back to snake_case, in order. */
  function ToWireAll(us: seq<Utterance>): (r: seq<WireUtterance>)
    ensures |r| == |us|
    ensures forall i :: 0 <= i < |us| ==>
      r[i].start_time == us[i].startTime && r[i].end_time == us[i].endTime && r[i].text == us[i].text
      && r[i].emotions == us[i].emotions && r[i].sentiments == us[i].sentiments
  {
    seq(|us|, i requires 0 <= i < |us| => ToWire(us[i]))
  }

  /** The status of a file the caller owns: `processing` while it is unanalysed,
      whatever utterances it has; `failed` when analysed with no utterances;
      otherwise `completed` with every utterance, in stored order. */
  function Report(f: VideoFile): (r: StatusReply)
    ensures !r.Denied?
    ensures r.Processing? <==> !f.analyzed
    ensures r.Failed? <==> f.analyzed && |f.utterances| == 0
    ensures r.Completed? <==> f.analyzed && |f.utterances| > 0
    ensures r.Completed? ==>
      (|r.analysis.analysis.utterances| == |f.utterances|
       && forall i :: 0 <= i < |f.utterances| ==>
            var w := r.analysis.analysis.utterances[i];
            var u := f.utterances[i];
            w.start_time == u.startTime && w.end_time == u.endTime && w.text == u.text
            && w.emotions == u.emotions && w.sentiments == u.sentiments)
  {
    if !f.analyzed then Processing
    else if |f.utterances| == 0 then Failed
    else Completed(AnalysisData(UtteranceList(ToWireAll(f.utterances))))
  }

  /** The whole handler. It takes the tables as values and returns only a reply:
      it writes nothing, so asking twice gives the same answer. */
  function Status(quotas: map<UserId, ApiQuota>, keys: map<string, UserId>, files: map<FileId, VideoFile>,
                  authorization: Option<string>, fileId: Option<string>): (r: StatusReply)
    requires QuotasIndexed(quotas, keys)
    ensures Authenticate(quotas, keys, authorization).Failure? ==>
      r == Denied(Authenticate(quotas, keys, authorization).error)
    ensures Authenticate(quotas, keys, authorization).Success? ==>
      var owner := Authenticate(quotas, keys, authorization).value.userId;
      match LocateOwned(files, owner, fileId, "File ID required")
      case Failure(denial) => r == Denied(denial)
      case Success(file) => r == Report(file)
    ensures !r.Denied? <==>
      (Authenticate(quotas, keys, authorization).Success? && Present(fileId) && fileId.value in files
       && files[fileId.value].userId == Authenticate(quotas, keys, authorization).value.userId)
  {
    match Authenticate(quotas, keys, authorization)
    case Failure(denial) => Denied(denial)
    case Success(quota) =>
      match LocateOwned(files, quota.userId, fileId, "File ID required")
      case Failure(denial) => Denied(denial)
      case Success(file) => Report(file)
  }
}
