/**
 * `POST /api/start-analysis` and its background step `processVideoAsync`.
 *
 * The request handler checks the caller and the file, marks the file
 * unanalysed and hands back a job; the caller (the route) launches the job
 * without waiting for it. The job is modelled as a separate call,
 * `ProcessVideoAsync`, that receives the inference endpoint's behaviour as a
 * function of the video path it is asked about.
 */
module StartAnalysis {
  import opened Wrappers
  import opened Db
  import opened Gate

  /** The JSON body of the request, or `Unparseable` when `req.json()` throws. */
  datatype StartBody = Unparseable | StartBody(fileId: Option<string>)

  /** What the background step needs: the file, its storage key and the user to charge. */
  datatype Job = Job(fileId: FileId, key: string, userId: UserId)

  /** The JSON reply: `{ fileId, status: "processing", ... }` or an error status. */
  datatype StartReply = Accepted(fileId: FileId, status: string) | Rejected(denial: Denial)

  const ProcessingStatus := "processing"

  /** The request checks, in the handler's order: API key (401), body (500 when it
      is not JSON), file id (400), file (404), owner (403). */
  function Admit(quotas: map<UserId, ApiQuota>, keys: map<string, UserId>, files: map<FileId, VideoFile>,
                 authorization: Option<string>, body: StartBody): (r: Result<Job, Denial>)
    requires QuotasIndexed(quotas, keys)
    ensures Authenticate(quotas, keys, authorization).Failure? ==>
      r == Failure(Authenticate(quotas, keys, authorization).error)
    ensures Authenticate(quotas, keys, authorization).Success? && body.Unparseable? ==>
      r == Failure(Denial(InternalError, "Failed to start analysis"))
    ensures Authenticate(quotas, keys, authorization).Success? && body.StartBody? ==>
      var owner := Authenticate(quotas, keys, authorization).value.userId;
      var found := LocateOwned(files, owner, body.fileId, "fileId required");
      (found.Failure? ==> r == Failure(found.error))
    ensures r.Success? ==>
      (r.value.fileId in files && r.value.userId in quotas
       && files[r.value.fileId].userId == r.value.userId
       && files[r.value.fileId].key == r.value.key
       && Authenticate(quotas, keys, authorization) == Success(quotas[r.value.userId])
       && body == StartBody(Some(r.value.fileId)))
    ensures Authenticate(quotas, keys, authorization).Success? && body.StartBody? ==>
      var owner := Authenticate(quotas, keys, authorization).value.userId;
      var found := LocateOwned(files, owner, body.fileId, "fileId required");
      (found.Success? ==> r == Success(Job(body.fileId.value, found.value.key, owner)))
  {
    match Authenticate(quotas, keys, authorization)
    case Failure(denial) => Failure(denial)
    case Success(quota) =>
      match body
      case Unparseable => Failure(Denial(InternalError, "Failed to start analysis"))
      case StartBody(fileId) =>
        match LocateOwned(files, quota.userId, fileId, "fileId required")
        case Failure(denial) => Failure(denial)
        case Success(file) => Success(Job(fileId.value, file.key, quota.userId))
  }

  /** The file a job was admitted for, reset to unanalysed. */
  function Dispatched(files: map<FileId, VideoFile>, job: Job): (r: map<FileId, VideoFile>)
    requires job.fileId in files
    ensures r.Keys == files.Keys
    ensures !r[job.fileId].analyzed
    ensures r[job.fileId] == files[job.fileId].(analyzed := false)
    ensures forall id :: id in files && id != job.fileId ==> r[id] == files[id]
  {
    files[job.fileId := files[job.fileId].(analyzed := false)]
  }

  method Start(db: Store, authorization: Option<string>, body: StartBody) returns (reply: StartReply, job: Option<Job>)
    requires db.Valid()
    modifies db
    ensures db.Valid()
    ensures
      match Admit(old(db.quotas), old(db.keys), old(db.files), authorization, body)
      case Failure(denial) => reply == Rejected(denial) && job == None && db.files == old(db.files)
      case Success(j) =>
        reply == Accepted(j.fileId, ProcessingStatus) && job == Some(j)
        && db.files == Dispatched(old(db.files), j)
    ensures db.quotas == old(db.quotas) && db.keys == old(db.keys) && db.users == old(db.users)
  {
    var quota := Authenticate(db.quotas, db.keys, authorization);
    if quota.Failure? {
      return Rejected(quota.error), None;
    }
    if body.Unparseable? {
      return Rejected(Denial(InternalError, "Failed to start analysis")), None;
    }
    var file := LocateOwned(db.files, quota.value.userId, body.fileId, "fileId required");
    if file.Failure? {
      return Rejected(file.error), None;
    }
    var fileId := body.fileId.value;
    db.files := db.files[fileId := db.files[fileId].(analyzed := false)];
    job := Some(Job(fileId, file.value.key, quota.value.userId));
    reply := Accepted(fileId, ProcessingStatus);
  }

  // ---------------------------------------------------------------------------
  // The background step.

  const InferenceBucket := "meld-sentiment-analysis-saas"

  /** The `s3://` URL of an object. */
  function ObjectUrl(bucket: string, key: string): string
  {
    "s3://" + bucket + "/" + key
  }

  /** Two URLs of the same key name the same bucket exactly when they are equal. */
  lemma ObjectUrlNamesBucket(bucket: string, other: string, key: string)
    ensures ObjectUrl(bucket, key) == ObjectUrl(other, key) <==> bucket == other
  {
    var u, v := ObjectUrl(bucket, key), ObjectUrl(other, key);
    if u == v {
      assert |bucket| == |other|;
      assert bucket == u[5..5 + |bucket|] && other == v[5..5 + |other|];
    }
  }

  /** The `video_path` the inference endpoint is asked to analyse: the key in a
      bucket whose name is written into the handler, not read from the environment. */
  function VideoPath(key: string): string
  {
    ObjectUrl(InferenceBucket, key)
  }

  /** The points at which the background step can throw, in the order it reaches them:
      the endpoint call and the parsing of its reply, marking the file analysed,
      reading the reply's utterance list and inserting it, reading the quota,
      writing the quota. */
  datatype Step = Invoke | MarkAnalyzed | SaveUtterances | ReadQuota | WriteQuota

  function Rank(s: Step): nat
  {
    match s
    case Invoke => 0
    case MarkAnalyzed => 1
    case SaveUtterances => 2
    case ReadQuota => 3
    case WriteQuota => 4
  }

  /** What the environment does with one call: the utterance list the endpoint
      reports (`None` when the reply has none) and the first step that throws. */
  datatype InferenceOutcome = InferenceOutcome(utterances: Option<seq<WireUtterance>>, failsAt: Option<Step>)

  function Reported(o: InferenceOutcome): seq<WireUtterance>
  {
    if o.utterances.Some? then o.utterances.value else []
  }

  /** Step `s` is reached and completes when nothing fails before or at it. */
  predicate Passes(failure: Option<Step>, s: Step)
  {
    failure.None? || Rank(s) < Rank(failure.value)
  }

  /** The step that actually throws: updating a file that does not exist throws,
      and the quota write is only attempted when the quota record exists. */
  function EffectiveFailure(files: map<FileId, VideoFile>, quotas: map<UserId, ApiQuota>, job: Job, o: InferenceOutcome)
    : (r: Option<Step>)
    ensures Passes(r, MarkAnalyzed) ==> job.fileId in files
    ensures o.failsAt == Some(Invoke) ==> r == Some(Invoke)
    ensures o.failsAt != Some(Invoke) && job.fileId !in files ==> r == Some(MarkAnalyzed)
    ensures job.fileId in files && o.failsAt == Some(WriteQuota) && job.userId !in quotas ==> r.None?
    ensures job.fileId in files && (o.failsAt != Some(WriteQuota) || job.userId in quotas) ==> r == o.failsAt
  {
    if o.failsAt == Some(Invoke) then Some(Invoke)
    else if job.fileId !in files then Some(MarkAnalyzed)
    else if o.failsAt == Some(WriteQuota) && job.userId !in quotas then None
    else o.failsAt
  }

  /** One reported utterance as `createMany` stores it. */
  function ToStored(w: WireUtterance): Utterance
  {
    Utterance(w.start_time, w.end_time, w.text, w.emotions, w.sentiments)
  }

  /** The `createMany` rows: each reported utterance under its camelCase names, in order. */
  function ToStoredAll(ws: seq<WireUtterance>): (r: seq<Utterance>)
    ensures |r| == |ws|
    ensures forall i :: 0 <= i < |ws| ==>
      r[i].startTime == ws[i].start_time && r[i].endTime == ws[i].end_time && r[i].text == ws[i].text
      && r[i].emotions == ws[i].emotions && r[i].sentiments == ws[i].sentiments
  {
    seq(|ws|, i requires 0 <= i < |ws| => ToStored(ws[i]))
  }

  /** The file and quota tables after the background step, written step by step as
      the source writes them: the file marked analysed, the reported utterances
      appended, the owner charged, or, on a failure, the file marked unanalysed
      again. `CompleteEffects` states what this amounts to. */
  function Complete(files: map<FileId, VideoFile>, quotas: map<UserId, ApiQuota>, job: Job, o: InferenceOutcome)
    : (r: (map<FileId, VideoFile>, map<UserId, ApiQuota>))
    ensures r.0.Keys == files.Keys && r.1.Keys == quotas.Keys
    ensures EffectiveFailure(files, quotas, job, o).Some? ==> r.1 == quotas
  {
    var failure := EffectiveFailure(files, quotas, job, o);
    var saved := Saved(Marked(files, job, failure), job, failure, Reported(o));
    if failure.None? then (saved, Charged(quotas, job.userId))
    else (Unmarked(saved, job.fileId), quotas)
  }

  /** On success the file is analysed, the reported utterances follow the ones it
      had, and the owner's count rises by one without any limit or window check.
      On failure the file ends unanalysed, keeps whatever utterances were inserted
      before the failing step, and no quota is charged. No other record changes,
      and no record's identity changes. */
  lemma CompleteEffects(files: map<FileId, VideoFile>, quotas: map<UserId, ApiQuota>, job: Job, o: InferenceOutcome)
    ensures Complete(files, quotas, job, o).0.Keys == files.Keys
    ensures Complete(files, quotas, job, o).1.Keys == quotas.Keys
    ensures forall id :: id in files && id != job.fileId ==> Complete(files, quotas, job, o).0[id] == files[id]
    ensures forall u :: u in quotas && u != job.userId ==> Complete(files, quotas, job, o).1[u] == quotas[u]
    ensures EffectiveFailure(files, quotas, job, o).None? ==>
      var (fs, qs) := Complete(files, quotas, job, o);
      && job.fileId in files
      && fs[job.fileId].analyzed
      && fs[job.fileId].utterances == files[job.fileId].utterances + ToStoredAll(Reported(o))
      && (job.userId in quotas ==>
            qs[job.userId] == quotas[job.userId].(requestUsed := quotas[job.userId].requestUsed + 1))
    ensures EffectiveFailure(files, quotas, job, o).Some? ==>
      var (fs, qs) := Complete(files, quotas, job, o);
      var failure := EffectiveFailure(files, quotas, job, o);
      && qs == quotas
      && (job.fileId in files ==> !fs[job.fileId].analyzed)
      && (job.fileId in files && !Passes(failure, SaveUtterances) ==>
            fs[job.fileId].utterances == files[job.fileId].utterances)
      && (job.fileId in files && Passes(failure, SaveUtterances) ==>
            fs[job.fileId].utterances == files[job.fileId].utterances + ToStoredAll(Reported(o)))
    ensures forall id :: id in files ==>
      var f := Complete(files, quotas, job, o).0[id];
      f.id == files[id].id && f.key == files[id].key && f.userId == files[id].userId
    ensures forall u :: u in quotas ==>
      var q := Complete(files, quotas, job, o).1[u];
      q.userId == quotas[u].userId && q.secretKey == quotas[u].secretKey && q.maxRequests == quotas[u].maxRequests
  {
  }

  /** A step that completes leaves the file analysed with the reported utterances
      appended, and charges the owner; stated without quantifiers for callers
      that need only the job's own records. */
  lemma CompleteSucceeds(files: map<FileId, VideoFile>, quotas: map<UserId, ApiQuota>, job: Job, o: InferenceOutcome)
    requires EffectiveFailure(files, quotas, job, o).None?
    ensures job.fileId in files && job.fileId in Complete(files, quotas, job, o).0
    ensures Complete(files, quotas, job, o).0[job.fileId]
      == files[job.fileId].(analyzed := true, utterances := files[job.fileId].utterances + ToStoredAll(Reported(o)))
    ensures Complete(files, quotas, job, o).1 == Charged(quotas, job.userId)
  {
  }

  /** Step 1 of the background step: the file marked analysed, if the step is reached. */
  function Marked(files: map<FileId, VideoFile>, job: Job, failure: Option<Step>): map<FileId, VideoFile>
  {
    if Passes(failure, MarkAnalyzed) && job.fileId in files
    then files[job.fileId := files[job.fileId].(analyzed := true)]
    else files
  }

  /** Step 2: the reported utterances appended, if the step is reached and there are any. */
  function Saved(files: map<FileId, VideoFile>, job: Job, failure: Option<Step>, us: seq<WireUtterance>)
    : map<FileId, VideoFile>
  {
    if Passes(failure, SaveUtterances) && |us| > 0 && job.fileId in files
    then files[job.fileId := files[job.fileId].(utterances := files[job.fileId].utterances + ToStoredAll(us))]
    else files
  }

  /** Step 3: the owner charged one request, when there is a record to charge. */
  function Charged(quotas: map<UserId, ApiQuota>, userId: UserId): map<UserId, ApiQuota>
  {
    if userId in quotas then quotas[userId := quotas[userId].(requestUsed := quotas[userId].requestUsed + 1)]
    else quotas
  }

  /** The failure path: the file marked unanalysed again, if it still exists. */
  function Unmarked(files: map<FileId, VideoFile>, fileId: FileId): map<FileId, VideoFile>
  {
    if fileId in files then files[fileId := files[fileId].(analyzed := false)] else files
  }

  /** The background step keeps every file under its own id and the secret-key
      index intact, so the same key still identifies the caller afterwards. */
  lemma CompleteKeepsStore(files: map<FileId, VideoFile>, quotas: map<UserId, ApiQuota>, keys: map<string, UserId>,
                           job: Job, o: InferenceOutcome)
    requires QuotasIndexed(quotas, keys)
    ensures FilesKeyed(files) ==> FilesKeyed(Complete(files, quotas, job, o).0)
    ensures QuotasIndexed(Complete(files, quotas, job, o).1, keys)
  {
    CompleteEffects(files, quotas, job, o);
  }

  /** `processVideoAsync(fileId, key, userId)`; `infer` stands for the inference
      endpoint and the store's failures, given the video path it is invoked with. */
  method ProcessVideoAsync(db: Store, job: Job, infer: string -> InferenceOutcome)
    requires db.Valid()
    modifies db
    ensures db.Valid()
    ensures (db.files, db.quotas) == Complete(old(db.files), old(db.quotas), job, infer(VideoPath(job.key)))
    ensures db.keys == old(db.keys) && db.users == old(db.users)
  {
    var o := infer(VideoPath(job.key));
    var fid, uid := job.fileId, job.userId;
    ghost var files0, quotas0 := db.files, db.quotas;
    ghost var effective := EffectiveFailure(files0, quotas0, job, o);
    var failure: Option<Step> := None;
    if o.failsAt == Some(Invoke) {
      failure := Some(Invoke);
    }
    // Step 1: mark the video analysed.
    if failure.None? {
      if fid !in db.files || o.failsAt == Some(MarkAnalyzed) {
        failure := Some(MarkAnalyzed);
      } else {
        db.files := db.files[fid := db.files[fid].(analyzed := true)];
      }
    }
    assert failure.None? <==> Passes(effective, MarkAnalyzed);
    assert db.files == Marked(files0, job, effective);
    // Step 2: insert the reported utterances, if there are any.
    if failure.None? {
      var us := Reported(o);
      if o.failsAt == Some(SaveUtterances) {
        failure := Some(SaveUtterances);
      } else if |us| > 0 {
        db.files := db.files[fid := db.files[fid].(utterances := db.files[fid].utterances + ToStoredAll(us))];
      }
    }
    assert failure.None? <==> Passes(effective, SaveUtterances);
    assert db.files == Saved(Marked(files0, job, effective), job, effective, Reported(o));
    assert db.quotas == quotas0;
    // Step 3: charge the owner's quota, when there is a record to charge.
    if failure.None? {
      if o.failsAt == Some(ReadQuota) {
        failure := Some(ReadQuota);
      } else if uid in db.quotas {
        if o.failsAt == Some(WriteQuota) {
          failure := Some(WriteQuota);
        } else {
          db.quotas := db.quotas[uid := db.quotas[uid].(requestUsed := db.quotas[uid].requestUsed + 1)];
        }
      }
    }
    assert failure == effective;
    // On any failure: mark the video unanalysed again (this update fails silently
    // when the file is gone).
    if failure.Some? && fid in db.files {
      db.files := db.files[fid := db.files[fid].(analyzed := false)];
    }
    assert (db.files, db.quotas) == Complete(files0, quotas0, job, o);
    CompleteKeepsStore(files0, quotas0, db.keys, job, o);
  }
}
