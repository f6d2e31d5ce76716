/**
 * The upload component on the client: the file pre-checks, the phases the
 * upload steps through, and the polling loop that asks for the analysis status
 * every five seconds, at most 60 times. The component's state setters become
 * fields of `Uploader`; the server's answers are parameters; the five-second
 * delay is left out, so polling is a sequence of discrete steps.
 */
module UploadVideo {
  import opened Wrappers
  import AnalysisStatus

  datatype Phase = Idle | Uploading | Processing | Polling

  const MaxAttempts := 60
  const MinFileSize := 1000

  const TimeoutMessage := "Analysis timeout - processing too long"
  const StatusCheckFailedMessage := "Failed to check analysis status"
  const AnalysisFailedMessage := "Analysis failed"

  // ---------------------------------------------------------------------------
  // Text shown for each phase.

  function DigitChar(d: nat): (c: char)
    requires d < 10
    ensures '0' <= c <= '9'
  {
    '0' + d as char
  }

  /** The number a string of decimal digits denotes, most significant digit first. */
  function DecimalValue(s: string): nat
    requires forall i :: 0 <= i < |s| ==> '0' <= s[i] <= '9'
  {
    if s == [] then 0 else DecimalValue(s[..|s| - 1]) * 10 + (s[|s| - 1] - '0') as nat
  }

  /** The decimal rendering of a count, as a template literal shows it: digits
      only, no leading zero, and reading them back gives the count. */
  function NatToString(n: nat): (s: string)
    ensures |s| > 0
    ensures forall i :: 0 <= i < |s| ==> '0' <= s[i] <= '9'
    ensures s[0] == '0' ==> s == "0"
    ensures DecimalValue(s) == n
  {
    if n < 10 then [DigitChar(n)]
    else
      var prefix := NatToString(n / 10);
      var s := prefix + [DigitChar(n % 10)];
      assert s[..|s| - 1] == prefix;
      s
  }

  /** The heading: only the polling one shows a number, and that number is the poll count. */
  function StatusText(status: Phase, pollCount: nat): (text: string)
    ensures status == Polling ==> |text| > 15 && text[14..|text| - 1] == NatToString(pollCount)
    ensures DigitFree(text) <==> status != Polling
  {
    match status
    case Uploading => "Uploading..."
    case Processing => "Starting analysis..."
    case Polling => "Analyzing... (" + NatToString(pollCount) + ")"
    case Idle => "Upload a video"
  }

  /** The line under the heading: only the polling one gives a time estimate
      (and so is the only one with digits in it). */
  function StatusDescription(status: Phase): (d: string)
    ensures DigitFree(d) <==> status != Polling
  {
    match status
    case Uploading =>
      var a, b, c := "Uploading ", "your video ", "to the cloud";
      assert DigitFree(a) && DigitFree(b) && DigitFree(c);
      DigitFreeConcat(a, b);
      DigitFreeConcat(a + b, c);
      a + b + c
    case Processing =>
      var a, b, c := "Initializing ", "sentiment ", "analysis";
      assert DigitFree(a) && DigitFree(b) && DigitFree(c);
      DigitFreeConcat(a, b);
      DigitFreeConcat(a + b, c);
      a + b + c
    case Polling =>
      var d := "Processing video - this may take 1-2 minutes";
      assert d[33] == '1';
      d
    case Idle =>
      var a, b, c, e := "Get started ", "with sentiment ", "detection by ", "uploading a video.";
      assert DigitFree(a) && DigitFree(b) && DigitFree(c) && DigitFree(e);
      DigitFreeConcat(a, b);
      DigitFreeConcat(a + b, c);
      DigitFreeConcat(a + b + c, e);
      a + b + c + e
  }

  predicate DigitFree(s: string)
  {
    forall i :: 0 <= i < |s| ==> !('0' <= s[i] <= '9')
  }

  lemma DigitFreeConcat(a: string, b: string)
    requires DigitFree(a) && DigitFree(b)
    ensures DigitFree(a + b)
  {
    forall i | 0 <= i < |a + b|
      ensures !('0' <= (a + b)[i] <= '9')
    {
      if i >= |a| {
        assert (a + b)[i] == b[i - |a|];
      }
    }
  }

  /** The heading tells the phases apart, whatever the poll counts are, and in
      the polling phase it tells the counts apart too; so does the description. */
  lemma StatusTextDistinguishes(p: Phase, q: Phase, n: nat, m: nat)
    requires p != q || (p == Polling && n != m)
    ensures StatusText(p, n) != StatusText(q, m)
    ensures p != q ==> StatusDescription(p) != StatusDescription(q)
  {
    var s, t := StatusText(p, n), StatusText(q, m);
    if p == q {
      var a, b := NatToString(n), NatToString(m);
      var pre := "Analyzing... (";
      assert s == pre + a + ")" && t == pre + b + ")";
      assert DecimalValue(a) != DecimalValue(b);
      assert a == s[|pre|..|s| - 1] && b == t[|pre|..|t| - 1];
    } else {
      assert |s| != |t| || s[0] != t[0];
    }
  }

  // ---------------------------------------------------------------------------
  // The file pre-checks of `handleUpload`.

  datatype LocalFile = LocalFile(name: string, size: nat, mimeType: string)

  predicate StartsWith(s: string, prefix: string)
  {
    |prefix| <= |s| && s[..|prefix|] == prefix
  }

  /** The error a file is rejected with before any request is made: an AppleDouble
      `._` companion file, or a file under 1000 bytes. */
  function PreCheck(file: LocalFile): (error: Option<string>)
    ensures error.None? <==> !StartsWith(file.name, "._") && file.size >= MinFileSize
    ensures StartsWith(file.name, "._") ==> error == Some("Invalid file - select the real video file")
    ensures !StartsWith(file.name, "._") && file.size < MinFileSize ==>
      error == Some("File too small (" + NatToString(file.size) + " bytes) - select a valid video")
  {
    if StartsWith(file.name, "._") then Some("Invalid file - select the real video file")
    else if file.size < MinFileSize then
      Some("File too small (" + NatToString(file.size) + " bytes) - select a valid video")
    else None
  }

  // ---------------------------------------------------------------------------
  // The polling rule of `pollForResults`.

  /** One status request as the component sees it: a non-2xx response, a thrown
      error (network or JSON), or a JSON body with `status`, `message` and `analysis`. */
  datatype PollResponse =
    | NotOk
    | Threw(reason: string)
    | Answered(status: string, message: Option<string>, analysis: Option<AnalysisStatus.AnalysisData>)

  /** A status `poll` has a branch for. */
  predicate KnownStatus(status: string)
  {
    status == "completed" || status == "failed" || status == "processing"
  }

  predicate IsProcessing(r: PollResponse)
  {
    r.Answered? && r.status == "processing"
  }

  /** How polling ends: the analysis handed to `onAnalysis`, an error message,
      or neither (a status the component does not recognise). */
  datatype PollEnd = Delivered(analysis: Option<AnalysisStatus.AnalysisData>) | Errored(message: string) | Stalled

  datatype StepResult = Again | Stop(end: PollEnd)

  /** `err.message` of `new Error(message || fallback)`. */
  function OrElse(message: Option<string>, fallback: string): string
  {
    if message.Some? && message.value != [] then message.value else fallback
  }

  /** The decision after request number `attempt` (counted from 1). */
  function PollStep(attempt: nat, response: PollResponse): (r: StepResult)
    ensures r.Again? <==> IsProcessing(response) && attempt < MaxAttempts
    ensures IsProcessing(response) && attempt >= MaxAttempts ==> r == Stop(Errored(TimeoutMessage))
    ensures response.NotOk? ==> r == Stop(Errored(StatusCheckFailedMessage))
    ensures response.Threw? ==> r == Stop(Errored(response.reason))
    ensures response.Answered? && response.status == "completed" ==> r == Stop(Delivered(response.analysis))
    ensures response.Answered? && response.status == "failed" ==>
      r == Stop(Errored(OrElse(response.message, AnalysisFailedMessage)))
    ensures r == Stop(Stalled) <==>
      response.Answered? && !KnownStatus(response.status)
  {
    match response
    case NotOk => Stop(Errored(StatusCheckFailedMessage))
    case Threw(reason) => Stop(Errored(reason))
    case Answered(status, message, analysis) =>
      if status == "completed" then Stop(Delivered(analysis))
      else if status == "failed" then Stop(Errored(OrElse(message, AnalysisFailedMessage)))
      else if status == "processing" then
        if attempt >= MaxAttempts then Stop(Errored(TimeoutMessage)) else Again
      else Stop(Stalled)
  }

  datatype PollRun = PollRun(requests: nat, end: PollEnd)

  /** Polling after `done` requests, where `answer(k)` is the reply to request
      `k + 1`: it stops at the first reply that is not a `processing` one, or at
      the 60th request, and never makes more than 60 requests. */
  function Run(answer: nat -> PollResponse, done: nat): (r: PollRun)
    requires done < MaxAttempts
    ensures done < r.requests <= MaxAttempts
    ensures PollStep(r.requests, answer(r.requests - 1)) == Stop(r.end)
    decreases MaxAttempts - done
  {
    match PollStep(done + 1, answer(done))
    case Again => Run(answer, done + 1)
    case Stop(end) => PollRun(done + 1, end)
  }

  /** Every request before the last one that `Run` makes is answered `processing`,
      so polling goes on after it. */
  lemma {:induction false} RunKeepsPolling(answer: nat -> PollResponse, done: nat, k: nat)
    requires done < MaxAttempts && done <= k < Run(answer, done).requests - 1
    ensures PollStep(k + 1, answer(k)) == Again
    decreases MaxAttempts - done
  {
    if k > done {
      RunKeepsPolling(answer, done + 1, k);
    }
  }

  /** One request of `Run`: a `processing` reply leaves the rest of the run to
      the next request, any other reply ends it there. */
  lemma RunUnfolds(answer: nat -> PollResponse, done: nat)
    requires done < MaxAttempts
    ensures PollStep(done + 1, answer(done)).Again? ==>
      done + 1 < MaxAttempts && Run(answer, done + 1) == Run(answer, done)
    ensures PollStep(done + 1, answer(done)).Stop? ==>
      Run(answer, done) == PollRun(done + 1, PollStep(done + 1, answer(done)).end)
  {
  }

  /** A job that stays `processing` is given up on after exactly 60 requests. */
  lemma AlwaysProcessingTimesOut(answer: nat -> PollResponse)
    requires forall k :: 0 <= k < MaxAttempts ==> IsProcessing(answer(k))
    ensures Run(answer, 0) == PollRun(MaxAttempts, Errored(TimeoutMessage))
  {
  }

  /** The first reply that is not `processing`, if it comes within 60 requests,
      decides how polling ends; `done` requests have been made before. */
  lemma {:induction false} FirstAnswerDecides(answer: nat -> PollResponse, done: nat, k: nat)
    requires done <= k < MaxAttempts && !IsProcessing(answer(k))
    requires forall j :: done <= j < k ==> IsProcessing(answer(j))
    ensures Run(answer, done).requests == k + 1
    ensures Stop(Run(answer, done).end) == PollStep(k + 1, answer(k))
    decreases k - done
  {
    if done < k {
      assert IsProcessing(answer(done));
      FirstAnswerDecides(answer, done + 1, k);
    }
  }

  // ---------------------------------------------------------------------------
  // The component state.

  /** The answer to `POST /api/direct-upload` as the component sees it. */
  datatype UploadUrlResponse = UrlRefused(error: Option<string>) | UrlGranted(uploadUrl: Option<string>, fileId: Option<string>)

  /** The answer to `POST /api/start-analysis` as the component sees it. */
  datatype StartResponse = StartRefused(error: Option<string>) | StartOk

  /** How the steps before polling end: an error, with whether the `processing`
      phase had been entered, or the file id to poll for. */
  datatype Prep = Abort(message: string, reachedProcessing: bool) | PollFile(fileId: string)

  /** How the direct PUT to the signed URL ends: a 2xx response, any other
      response, or a `fetch` that rejects (a network or CORS failure) with its
      error's message. */
  datatype PutOutcome = PutOk | PutNotOk | PutThrew(message: string)

  function Prepare(file: LocalFile, url: UploadUrlResponse, put: PutOutcome, start: StartResponse): (r: Prep)
    ensures PreCheck(file).Some? ==> r == Abort(PreCheck(file).value, false)
    ensures PreCheck(file).None? && url.UrlRefused? ==> r == Abort(OrElse(url.error, "Failed to get upload URL"), false)
    ensures PreCheck(file).None? && url.UrlGranted? && !(Present(url.uploadUrl) && Present(url.fileId)) ==>
      r == Abort("Upload initialization failed", false)
    ensures PreCheck(file).None? && url.UrlGranted? && Present(url.uploadUrl) && Present(url.fileId) && put.PutNotOk? ==>
      r == Abort("Failed to upload to S3", false)
    ensures PreCheck(file).None? && url.UrlGranted? && Present(url.uploadUrl) && Present(url.fileId) && put.PutThrew? ==>
      r == Abort(put.message, false)
    ensures PreCheck(file).None? && url.UrlGranted? && Present(url.uploadUrl) && Present(url.fileId) && put.PutOk?
            && start.StartRefused? ==>
      r == Abort(OrElse(start.error, "Failed to start analysis"), true)
    ensures r.PollFile? <==>
      (PreCheck(file).None? && url.UrlGranted? && Present(url.uploadUrl) && Present(url.fileId)
       && put.PutOk? && start.StartOk?)
    ensures r.PollFile? ==> url.UrlGranted? && Present(url.fileId) && r.fileId == url.fileId.value
  {
    if PreCheck(file).Some? then Abort(PreCheck(file).value, false)
    else match url
      case UrlRefused(error) => Abort(OrElse(error, "Failed to get upload URL"), false)
      case UrlGranted(uploadUrl, fileId) =>
        if !Present(uploadUrl) || !Present(fileId) then Abort("Upload initialization failed", false)
        else match put
          case PutThrew(message) => Abort(message, false)
          case PutNotOk => Abort("Failed to upload to S3", false)
          case PutOk =>
            match start
            case StartRefused(error) => Abort(OrElse(error, "Failed to start analysis"), true)
            case StartOk => PollFile(fileId.value)
  }

  class Uploader {
    var status: Phase
    var error: Option<string>
    var pollCount: nat
    /** The counter `pollForResults` closes over. */
    var attempts: nat
    /** The arguments `onAnalysis` was called with, in order. */
    var delivered: seq<Option<AnalysisStatus.AnalysisData>>
    /** Every phase passed to `setStatus`, in order. */
    ghost var phases: seq<Phase>

    constructor ()
      ensures status == Idle && error == None && pollCount == 0 && attempts == 0
      ensures delivered == [] && phases == []
    {
      status, error, pollCount, attempts, delivered := Idle, None, 0, 0, [];
      phases := [];
    }

    method SetStatus(p: Phase)
      modifies this
      ensures status == p && phases == old(phases) + [p]
      ensures error == old(error) && pollCount == old(pollCount) && attempts == old(attempts)
      ensures delivered == old(delivered)
    {
      status := p;
      phases := phases + [p];
    }

    /** The state a poll leaves behind once it stops with `end` after `requests` requests. */
    twostate predicate Settled(end: PollEnd, requests: nat)
      reads this
    {
      match end
      case Delivered(a) =>
        delivered == old(delivered) + [a] && status == Idle && pollCount == 0
        && error == old(error) && phases == old(phases) + [Idle]
      case Errored(m) =>
        error == Some(m) && status == Idle && pollCount == 0
        && delivered == old(delivered) && phases == old(phases) + [Idle]
      case Stalled =>
        status == old(status) && pollCount == requests && error == old(error)
        && delivered == old(delivered) && phases == old(phases)
    }

    /** One call of `poll`. */
    method Poll(response: PollResponse) returns (result: StepResult)
      requires attempts < MaxAttempts
      modifies this
      ensures attempts == old(attempts) + 1
      ensures result == PollStep(attempts, response)
      ensures result.Again? ==>
        pollCount == attempts && status == old(status) && error == old(error)
        && delivered == old(delivered) && phases == old(phases)
      ensures result.Stop? ==> Settled(result.end, attempts)
    {
      attempts := attempts + 1;
      pollCount := attempts;
      result := PollStep(attempts, response);
      match result
      case Again =>
      case Stop(end) =>
        match end
        case Delivered(analysis) =>
          delivered := delivered + [analysis];
          SetStatus(Idle);
          pollCount := 0;
        case Errored(message) =>
          error := Some(message);
          SetStatus(Idle);
          pollCount := 0;
        case Stalled =>
    }

    /** `pollForResults`: polls until a reply stops it; `answer(k)` is the reply to
        request `k + 1`. Returns the number of status requests made. */
    method PollForResults(answer: nat -> PollResponse) returns (requests: nat)
      modifies this
      ensures requests == Run(answer, 0).requests && 1 <= requests <= MaxAttempts
      ensures attempts == requests
      ensures Settled(Run(answer, 0).end, requests)
    {
      attempts := 0;
      var result := Poll(answer(0));
      while result.Again?
        invariant 1 <= attempts <= MaxAttempts
        invariant result == PollStep(attempts, answer(attempts - 1))
        invariant Run(answer, attempts - 1) == Run(answer, 0)
        invariant result.Again? ==>
          status == old(status) && error == old(error) && delivered == old(delivered) && phases == old(phases)
        invariant result.Stop? ==> Settled(result.end, attempts)
        decreases MaxAttempts - attempts
      {
        RunUnfolds(answer, attempts - 1);
        result := Poll(answer(attempts));
      }
      RunUnfolds(answer, attempts - 1);
      requests := attempts;
    }

    /** `handleUpload`: the pre-checks, the three requests, then polling. Every
        error before polling ends in `idle` with the error shown. The file input
        is disabled outside `idle`, so an upload only starts from there. */
    method HandleUpload(file: LocalFile, url: UploadUrlResponse, put: PutOutcome, start: StartResponse,
                        answer: nat -> PollResponse)
      requires status == Idle
      modifies this
      ensures
        match Prepare(file, url, put, start)
        case Abort(message, reached) =>
          status == Idle && error == Some(message) && pollCount == 0 && delivered == old(delivered)
          && phases == old(phases) + [Uploading] + (if reached then [Processing] else []) + [Idle]
        case PollFile(_) =>
          var run := Run(answer, 0);
          attempts == run.requests
          && (match run.end
              case Delivered(a) =>
                delivered == old(delivered) + [a] && status == Idle && pollCount == 0 && error == None
                && phases == old(phases) + [Uploading, Processing, Polling, Idle]
              case Errored(m) =>
                error == Some(m) && status == Idle && pollCount == 0 && delivered == old(delivered)
                && phases == old(phases) + [Uploading, Processing, Polling, Idle]
              case Stalled =>
                status == Polling && pollCount == run.requests && error == None
                && delivered == old(delivered) && phases == old(phases) + [Uploading, Processing, Polling])
    {
      SetStatus(Uploading);
      error := None;
      pollCount := 0;
      var prep := Prepare(file, url, put, start);
      match prep
      case Abort(message, reached) =>
        if reached {
          SetStatus(Processing);
        }
        error := Some(message);
        SetStatus(Idle);
      case PollFile(_) =>
        SetStatus(Processing);
        SetStatus(Polling);
        var _ := PollForResults(answer);
    }
  }
}
