/**
 * Properties that span the routes: an analysis job from dispatch through the
 * background step to what the status route and the polling client then see.
 */
module Lifecycle {
  import opened Wrappers
  import opened Db
  import opened Gate
  import opened StartAnalysis
  import opened AnalysisStatus
  import UploadVideo
  import DirectUpload

  /** The upload URL is signed for the bucket the environment names, while the
      background step asks the endpoint about the key in the bucket written into
      it: the endpoint is sent the uploaded object exactly when the two agree. */
  lemma EndpointFindsUpload(quotas: map<UserId, ApiQuota>, keys: map<string, UserId>, files: map<FileId, VideoFile>,
                            authorization: Option<string>, body: DirectUpload.UploadBody, bucket: string, id: FileId,
                            presign: DirectUpload.PresignRequest -> string)
    requires QuotasIndexed(quotas, keys)
    requires DirectUpload.Issue(quotas, keys, files, authorization, body, bucket, id, presign).reply.Issued?
    ensures var r := DirectUpload.Issue(quotas, keys, files, authorization, body, bucket, id, presign);
      && |r.presigned| == 1
      && r.presigned[0].key == r.reply.key
      && (VideoPath(r.reply.key) == ObjectUrl(r.presigned[0].bucket, r.presigned[0].key) <==> bucket == InferenceBucket)
  {
    var r := DirectUpload.Issue(quotas, keys, files, authorization, body, bucket, id, presign);
    ObjectUrlNamesBucket(InferenceBucket, bucket, r.reply.key);
  }

  /** Storing reported utterances and reading them back gives them back field
      for field, in order. */
  lemma WireRoundTrip(ws: seq<WireUtterance>)
    ensures ToWireAll(ToStoredAll(ws)) == ws
  {
    var back := ToWireAll(ToStoredAll(ws));
    forall i | 0 <= i < |ws|
      ensures back[i] == ws[i]
    {
      assert ToStoredAll(ws)[i] == ToStored(ws[i]);
    }
  }

  lemma ToWireAllAppend(us: seq<Utterance>, vs: seq<Utterance>)
    ensures ToWireAll(us + vs) == ToWireAll(us) + ToWireAll(vs)
  {
    var l, r := ToWireAll(us + vs), ToWireAll(us) + ToWireAll(vs);
    forall i | 0 <= i < |us + vs|
      ensures l[i] == r[i]
    {
      if i < |us| {
        assert (us + vs)[i] == us[i];
      } else {
        assert (us + vs)[i] == vs[i - |us|];
      }
    }
  }

  /** While the job runs, the status route answers `processing` for the file. */
  lemma DispatchedReportsProcessing(quotas: map<UserId, ApiQuota>, keys: map<string, UserId>,
                                    files: map<FileId, VideoFile>, authorization: Option<string>, body: StartBody)
    requires QuotasIndexed(quotas, keys)
    requires Admit(quotas, keys, files, authorization, body).Success?
    ensures var job := Admit(quotas, keys, files, authorization, body).value;
      Status(quotas, keys, Dispatched(files, job), authorization, Some(job.fileId)) == Processing
  {
    var job := Admit(quotas, keys, files, authorization, body).value;
    assert Present(Some(job.fileId)) by {
      assert body == StartBody(Some(job.fileId));
    }
  }

  /** A job that completes makes the status route report every utterance the
      file had followed by the ones just reported, with the field names the
      endpoint used, or `failed` when there are none at all; and the owner is
      charged exactly one request. */
  lemma CompletedJobReports(quotas: map<UserId, ApiQuota>, keys: map<string, UserId>,
                            files: map<FileId, VideoFile>, authorization: Option<string>, body: StartBody,
                            o: InferenceOutcome)
    requires QuotasIndexed(quotas, keys)
    requires Admit(quotas, keys, files, authorization, body).Success?
    requires o.failsAt.None?
    ensures var job := Admit(quotas, keys, files, authorization, body).value;
      var after := Complete(Dispatched(files, job), quotas, job, o);
      var prior := files[job.fileId].utterances;
      && QuotasIndexed(after.1, keys)
      && after.1[job.userId].requestUsed == quotas[job.userId].requestUsed + 1
      && Status(after.1, keys, after.0, authorization, Some(job.fileId))
         == (if |prior| + |Reported(o)| == 0 then Failed
             else Completed(AnalysisData(UtteranceList(ToWireAll(prior) + Reported(o)))))
  {
    var job := Admit(quotas, keys, files, authorization, body).value;
    var dispatched := Dispatched(files, job);
    var after := Complete(dispatched, quotas, job, o);
    CompleteKeepsStore(dispatched, quotas, keys, job, o);
    CompleteSucceeds(dispatched, quotas, job, o);
    assert body == StartBody(Some(job.fileId));
    var prior := files[job.fileId].utterances;
    assert after.0[job.fileId].utterances == prior + ToStoredAll(Reported(o));
    ToWireAllAppend(prior, ToStoredAll(Reported(o)));
    WireRoundTrip(Reported(o));
    assert Authenticate(after.1, keys, authorization) == Success(after.1[job.userId]);
  }

  /** What the polling client makes of a status reply. */
  function Observe(reply: StatusReply): (r: UploadVideo.PollResponse)
    ensures UploadVideo.IsProcessing(r) <==> reply.Processing?
    ensures reply.Completed? ==> UploadVideo.PollStep(1, r) == UploadVideo.Stop(UploadVideo.Delivered(Some(reply.analysis)))
    ensures reply.Failed? ==> UploadVideo.PollStep(1, r) == UploadVideo.Stop(UploadVideo.Errored(FailedMessage))
    ensures reply.Denied? ==> UploadVideo.PollStep(1, r) == UploadVideo.Stop(UploadVideo.Errored(UploadVideo.StatusCheckFailedMessage))
  {
    match reply
    case Processing => UploadVideo.Answered("processing", Some(ProcessingMessage), None)
    case Failed => UploadVideo.Answered("failed", Some(FailedMessage), None)
    case Completed(analysis) => UploadVideo.Answered("completed", None, Some(analysis))
    case Denied(_) => UploadVideo.NotOk
  }

  /** A job whose background step fails leaves the file `processing` for good, so
      a client polling it gives up with the timeout message after 60 requests. */
  lemma FailedJobTimesOut(quotas: map<UserId, ApiQuota>, keys: map<string, UserId>,
                          files: map<FileId, VideoFile>, authorization: Option<string>, body: StartBody,
                          o: InferenceOutcome)
    requires QuotasIndexed(quotas, keys)
    requires Admit(quotas, keys, files, authorization, body).Success?
    requires var job := Admit(quotas, keys, files, authorization, body).value;
      EffectiveFailure(Dispatched(files, job), quotas, job, o).Some?
    ensures var job := Admit(quotas, keys, files, authorization, body).value;
      var after := Complete(Dispatched(files, job), quotas, job, o);
      var reply := Status(after.1, keys, after.0, authorization, Some(job.fileId));
      && reply == Processing
      && UploadVideo.Run(k => Observe(reply), 0)
         == UploadVideo.PollRun(UploadVideo.MaxAttempts, UploadVideo.Errored(UploadVideo.TimeoutMessage))
  {
    var job := Admit(quotas, keys, files, authorization, body).value;
    var after := Complete(Dispatched(files, job), quotas, job, o);
    assert body == StartBody(Some(job.fileId));
    assert after.1 == quotas;
    var reply := Status(after.1, keys, after.0, authorization, Some(job.fileId));
    assert reply == Processing;
    UploadVideo.AlwaysProcessingTimesOut(k => Observe(reply));
  }

  /** A job that completes with nothing to report, on a file with no earlier
      utterances, ends the client's polling at the first request with the
      status route's `failed` message. */
  lemma EmptyJobFailsAtOnce(quotas: map<UserId, ApiQuota>, keys: map<string, UserId>,
                            files: map<FileId, VideoFile>, authorization: Option<string>, body: StartBody,
                            o: InferenceOutcome)
    requires QuotasIndexed(quotas, keys)
    requires Admit(quotas, keys, files, authorization, body).Success?
    requires o.failsAt.None? && Reported(o) == []
    requires files[Admit(quotas, keys, files, authorization, body).value.fileId].utterances == []
    ensures var job := Admit(quotas, keys, files, authorization, body).value;
      var after := Complete(Dispatched(files, job), quotas, job, o);
      var reply := Status(after.1, keys, after.0, authorization, Some(job.fileId));
      UploadVideo.Run(k => Observe(reply), 0) == UploadVideo.PollRun(1, UploadVideo.Errored(FailedMessage))
  {
    CompletedJobReports(quotas, keys, files, authorization, body, o);
  }
}
