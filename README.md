# Video sentiment analysis: job lifecycle model

A Dafny model of how the video sentiment-analysis service runs an analysis job.

- **Upload registration.** An API-key holder registers an upload. The service hands back a pre-signed URL and records an unanalysed video file (`POST /api/direct-upload`).
- **Dispatch and background step.** The holder starts the analysis (`POST /api/start-analysis`). The file is marked unanalysed and a background step calls the inference endpoint. That step stores the utterances it reports, marks the file analysed and charges the owner one request.
- **Status.** The status route derives `processing`, `failed` or `completed` from the stored file (`GET /api/analysis-status`).
- **Client.** The browser component pre-checks the file, steps through its phases and polls the status route at most 60 times.
- **Around the core.** The model also covers the 30-day request quota (`checkAndUpdateQuota`), the page guard in `middleware.ts`, the signup and login form rules, and the `RegisterUser` action.

Pure code is modelled as functions over values. This covers header parsing, the check ladders, the status derivation, the polling rule, the redirect rule and the form rules.

Code that writes to the database is modelled as methods on one `Db.Store` class. Its tables are maps: quotas by user id with an index from secret key to user id, video files by id, and users by email. Each method is proved to leave exactly the tables that a pure specification function computes from the old tables. These methods are the quota check, the two POST handlers, the background step and the registration action. The lemmas are stated about those functions.

The client component is a class, `UploadVideo.Uploader`. Its fields stand for the React state (`status`, `error`, `pollCount`), the polling counter and the analyses handed to `onAnalysis`.

Foreign calls are parameters of the operations that use them:
- the URL signer, and the bucket the environment names for uploads (`AWS_INFERENCE_BUCKET`);
- `crypto.randomUUID()`, as the id the call returns;
- the inference endpoint, as a function from the video path to an `InferenceOutcome`: the reported utterances and the first step that throws;
- bcrypt's `hash`;
- zod's email check;
- the session token, as a boolean.

Time is integer milliseconds. The code's day count `(now - lastReset) / 86 400 000 >= 30` is then exactly `now - lastReset >= 2 592 000 000`.

Files: `wrappers.dfy` (Option and Result), `db.dfy` (records and the store), `api_key.dfy` (the `Authorization` header), `gate.dfy` (the 401/400/404/403 ladder the routes share), `quota.dfy`, `start_analysis.dfy`, `analysis_status.dfy`, `direct_upload.dfy`, `upload_video.dfy`, `middleware.dfy`, `auth_schemas.dfy`, `auth_actions.dfy`, and `lifecycle.dfy` (properties across routes).

## Model

| member | source | states |
|---|---|---|
| ApiKey.IndexOf | video-sentiment-saas/src/app/api/start-analysis/route.ts:19 | the position `replace` acts on is the first occurrence of "Bearer ", and there is none when it returns nothing |
| ApiKey.ReplaceFirst | video-sentiment-saas/src/app/api/start-analysis/route.ts:19 | `replace` with a string pattern changes only the first occurrence: the text before it is kept, the replacement follows, then the text after the pattern; with no occurrence the string is unchanged |
| ApiKey.Trim | video-sentiment-saas/src/app/api/start-analysis/route.ts:19 | the result is no longer than the input and has no JavaScript white space at either end |
| ApiKey.TrimIsSlice | video-sentiment-saas/src/app/api/start-analysis/route.ts:19 | trimming removes only white space, and only from the two ends |
| ApiKey.TrimKeepsTrimmed | video-sentiment-saas/src/app/api/start-analysis/route.ts:19 | trimming a string with no white space at its ends changes nothing |
| ApiKey.ParseApiKey | video-sentiment-saas/src/app/api/start-analysis/route.ts:19-23 | a missing header gives no key, and a key is never empty and never has white space at its ends |
| ApiKey.BearerRoundTrip | video-sentiment-saas/src/app/api/start-analysis/route.ts:19-23 | the header `"Bearer " + key` that the client sends is read back as exactly `key` |
| ApiKey.SchemeNotRequired | video-sentiment-saas/src/app/api/start-analysis/route.ts:19-23 | a header without "Bearer " is taken whole as the key |
| Db.QuotaByKey | video-sentiment-saas/src/app/api/start-analysis/route.ts:25-27 | the lookup by secret key finds a record exactly when one has that key, and finds that record |
| Gate.Authenticate | video-sentiment-saas/src/app/api/start-analysis/route.ts:19-32 | 401 "API key required" without a key, 401 "Invalid API key" for an unknown key, otherwise the caller's quota record, both directions |
| Gate.LocateOwned | video-sentiment-saas/src/app/api/start-analysis/route.ts:43-63 | 400 for a missing id, then 404 "Video file not found", then 403 "Unauthorized"; succeeds exactly when the caller owns an existing file |
| QuotaLedger.Consume | video-sentiment-saas/src/lib/quota.ts:13-45 | allowed iff the window has expired or `requestUsed <= maxRequests`; the record changes only with deduct and when allowed; expired gives count 1 and reset at now; otherwise count + 1 and the same reset; identity and limit fields are kept |
| QuotaLedger.CheckAndUpdateQuota | video-sentiment-saas/src/lib/quota.ts:4-46 | no record gives an error and writes nothing; otherwise the verdict and the caller's new record are those of `Consume`, and every other record and table is unchanged |
| QuotaLedger.WindowAdmits | video-sentiment-saas/src/lib/quota.ts:32-45 | within one window, successive deducting calls are admitted exactly `maxRequests + 1 - requestUsed` times, and the count grows by that many |
| QuotaLedger.FreshWindowAdmits | video-sentiment-saas/src/lib/quota.ts:15-45 | a call that finds the window expired opens a new one that admits `1 + min(n, maxRequests)` of `1 + n` calls |
| StartAnalysis.Admit | video-sentiment-saas/src/app/api/start-analysis/route.ts:14-63 | the check order 401, 500 for a body that is not JSON, 400 "fileId required", 404, 403; a request that passes every check is admitted, and an admitted job names the requested file, its key and the caller, who owns it |
| StartAnalysis.Dispatched | video-sentiment-saas/src/app/api/start-analysis/route.ts:67-73 | only the admitted file changes, and only its `analyzed` flag, which becomes false |
| StartAnalysis.Start | video-sentiment-saas/src/app/api/start-analysis/route.ts:14-98 | a rejection writes nothing; acceptance replies `{fileId, status: "processing"}` and leaves the files as `Dispatched` gives them |
| StartAnalysis.EffectiveFailure | video-sentiment-saas/src/app/api/start-analysis/route.ts:114-152 | the step that throws: an endpoint failure first; otherwise updating a file that is gone throws; a missing quota record skips the quota write rather than failing; in every other case the reported failure, or none |
| StartAnalysis.ToStoredAll | video-sentiment-saas/src/app/api/start-analysis/route.ts:129-140 | `createMany` stores one row per reported utterance, in order, with `start_time`, `end_time`, `text`, `emotions` and `sentiments` under their camelCase names |
| StartAnalysis.Complete | video-sentiment-saas/src/app/api/start-analysis/route.ts:101-167 | the background step neither creates nor deletes a file or quota record, and a failed step charges no quota; `CompleteEffects` states the rest of its effect |
| StartAnalysis.CompleteEffects | video-sentiment-saas/src/app/api/start-analysis/route.ts:119-166 | for the table the background step leaves (`Complete`): success marks the file analysed, appends the reported utterances in order and adds 1 to the owner's `requestUsed` with no limit check; failure leaves it unanalysed with the utterances inserted before the failing step, and charges nothing; nothing else changes |
| StartAnalysis.CompleteSucceeds | video-sentiment-saas/src/app/api/start-analysis/route.ts:119-151 | when no step throws, the job's file is analysed with its earlier utterances followed by the reported ones, and the owner's record is charged one request |
| StartAnalysis.CompleteKeepsStore | video-sentiment-saas/src/app/api/start-analysis/route.ts:119-166 | the background step keeps every file under its own id and the secret-key index intact, so the same key still identifies the caller |
| StartAnalysis.ProcessVideoAsync | video-sentiment-saas/src/app/api/start-analysis/route.ts:101-167 | the step-by-step writes leave the file and quota tables as `Complete` gives them, for the endpoint's reply to `s3://meld-sentiment-analysis-saas/<key>` |
| StartAnalysis.ObjectUrlNamesBucket | video-sentiment-saas/src/app/api/start-analysis/route.ts:110 | two `s3://` URLs of the same key are equal exactly when they name the same bucket |
| AnalysisStatus.Report | video-sentiment-saas/src/app/api/analysis-status/route.ts:58-90 | processing iff unanalysed; failed iff analysed with no utterances; completed iff analysed with some, listing each one, in stored order, under its snake_case names |
| AnalysisStatus.ToWireAll | video-sentiment-saas/src/app/api/analysis-status/route.ts:77-83 | the reply lists every stored utterance, in order, with its fields renamed back to `start_time`, `end_time`, `text`, `emotions` and `sentiments` |
| AnalysisStatus.Status | video-sentiment-saas/src/app/api/analysis-status/route.ts:5-90 | the same 401/400/404/403 ladder ("File ID required") before the report, and a report exactly when the caller owns an existing file; it is a function of the tables, so it writes nothing |
| DirectUpload.HasVideoExtension | video-sentiment-saas/src/app/api/direct-upload/route.ts:30 | a name is accepted exactly when it ends in ".mp4", ".mov" or ".avi", compared without regard to letter case |
| DirectUpload.LastSegment | video-sentiment-saas/src/app/api/direct-upload/route.ts:46 | the result is a dot-free suffix of the name, preceded by a dot unless it is the whole name |
| DirectUpload.LastSegmentAfterDot | video-sentiment-saas/src/app/api/direct-upload/route.ts:46 | the segment after the last dot is exactly the characters that follow it |
| DirectUpload.StorageKey | video-sentiment-saas/src/app/api/direct-upload/route.ts:45-46 | the key is "inference/", then the generated id, then a dot and the file name's last segment, which is also the key's own last segment |
| DirectUpload.KeyKeepsExtension | video-sentiment-saas/src/app/api/direct-upload/route.ts:30-46 | for an accepted name, the key is `inference/<id>.<ext>` with the extension's own letter case, and the key passes the extension check itself |
| DirectUpload.Issue | video-sentiment-saas/src/app/api/direct-upload/route.ts:7-77 | 401, then 500 for a body that is not JSON, then 400 for a missing name or type, then 400 "Invalid file type", all before any signing or write; issued iff all checks pass and the id is free, signing one 300-second request for the configured bucket and adding the file; a taken id gives 500 after that one signing request, with no write |
| DirectUpload.IssuedAddsOneFile | video-sentiment-saas/src/app/api/direct-upload/route.ts:45-71 | an issued upload adds exactly one file, under the returned id and key, unanalysed and with no utterances, and its key has an accepted extension |
| DirectUpload.DirectUpload | video-sentiment-saas/src/app/api/direct-upload/route.ts:7-77 | the reply, the signing requests and the new file table are those of `Issue`; the other tables are unchanged |
| UploadVideo.NatToString | video-sentiment-saas/src/components/client/UploadVideo.tsx:166 | a count is rendered as a non-empty string of decimal digits with no leading zero, and reading the digits back gives the count, so different counts render differently |
| UploadVideo.StatusText | video-sentiment-saas/src/components/client/UploadVideo.tsx:163-169 | only the polling heading contains digits, and they are the poll count as `NatToString` renders it |
| UploadVideo.StatusDescription | video-sentiment-saas/src/components/client/UploadVideo.tsx:170-181 | only the polling description, the one with the time estimate, contains digits |
| UploadVideo.StatusTextDistinguishes | video-sentiment-saas/src/components/client/UploadVideo.tsx:163-181 | each phase has its own heading and description, and the polling heading shows each count differently |
| UploadVideo.PreCheck | video-sentiment-saas/src/components/client/UploadVideo.tsx:76-84 | a name starting with "._" is rejected first; otherwise a file under 1000 bytes is rejected with its size in the message; 1000 bytes passes |
| UploadVideo.PollStep | video-sentiment-saas/src/components/client/UploadVideo.tsx:38-63 | another poll iff the reply is `processing` and fewer than 60 requests have been made; the timeout, non-ok, failed and completed outcomes with their messages; a thrown error ends with its own message; an unknown status stops without an error |
| UploadVideo.Run | video-sentiment-saas/src/components/client/UploadVideo.tsx:20-66 | polling makes between 1 and 60 requests, and the reply to the last one stops polling with the run's outcome |
| UploadVideo.RunKeepsPolling | video-sentiment-saas/src/components/client/UploadVideo.tsx:52-56 | every reply before the last request of a run asks for another poll |
| UploadVideo.AlwaysProcessingTimesOut | video-sentiment-saas/src/components/client/UploadVideo.tsx:52-56 | a job that stays `processing` is abandoned after exactly 60 requests with the timeout message |
| UploadVideo.FirstAnswerDecides | video-sentiment-saas/src/components/client/UploadVideo.tsx:45-57 | after any number of earlier requests, the first reply that is not `processing`, within 60 requests, ends polling at that request and decides the outcome |
| UploadVideo.Prepare | video-sentiment-saas/src/components/client/UploadVideo.tsx:75-154 | polling starts exactly after the pre-checks, a granted URL with both fields, a successful PUT and an accepted start, and names the server's file id; each earlier failure aborts with its own message (the server's error or "Failed to get upload URL", "Upload initialization failed", the thrown error's message when the PUT rejects, "Failed to upload to S3" when it answers with an error status, the server's error or "Failed to start analysis"); only a refused start comes after the `processing` phase |
| UploadVideo.Uploader.constructor | video-sentiment-saas/src/components/client/UploadVideo.tsx:15-17 | the component starts idle, with no error and a poll count of 0 |
| UploadVideo.Uploader.Poll | video-sentiment-saas/src/components/client/UploadVideo.tsx:24-64 | the counter rises by one before each request and is shown as the poll count; the state then changes as `PollStep` says: delivered once and idle, or error and idle, or left as it was |
| UploadVideo.Uploader.PollForResults | video-sentiment-saas/src/components/client/UploadVideo.tsx:20-67 | the number of requests and the final state are those of `Run` |
| UploadVideo.Uploader.HandleUpload | video-sentiment-saas/src/components/client/UploadVideo.tsx:69-161 | the phases go idle, uploading, processing, polling; every error before polling returns to idle with its message; after polling the state is the polling outcome |
| Middleware.Route | video-sentiment-saas/src/middleware.ts:5-31 | no token on "/" redirects to "/login"; a token on "/login" or "/signup" redirects to "/"; everything else passes through, both directions; redirects only happen on matched paths and never to the same path |
| Middleware.RedirectSettles | video-sentiment-saas/src/middleware.ts:17-24 | following a redirect with the same session passes through |
| AuthSchemas.LoginIssues | video-sentiment-saas/src/schemas/auth.ts:3-6 | valid iff the email passes the format check and the password has at least 8 characters, with exactly one issue per failed rule |
| AuthSchemas.SignupIssues | video-sentiment-saas/src/schemas/auth.ts:8-17 | valid iff name >= 3, the email passes, password >= 8 and the two passwords match; one issue per failed rule; the mismatch is reported on `confirmPassword` as "Passwords don't match" |
| AuthSchemas.ConfirmationLengthFollows | video-sentiment-saas/src/schemas/auth.ts:11-13 | `confirmPassword` has no length rule; it is long enough in a valid signup only because it equals the password |
| AuthSchemas.SignupPassesLogin | video-sentiment-saas/src/schemas/auth.ts:3-17 | a valid signup's email and password pass the login rules |
| AuthActions.Register | video-sentiment-saas/src/actions/auth.ts:8-42 | "Invalid data" for a failing form, "User already exists" for a taken email, "Something went wrong." when a call throws, and no write on any of these; success iff valid, new and fault-free, inserting one user whose password is `hash(password, 12)` |
| AuthActions.RegisterTwice | video-sentiment-saas/src/actions/auth.ts:19-37 | after a registration the email is taken, users stay keyed by email, and the same signup is refused with "User already exists" |
| AuthActions.RegisterUser | video-sentiment-saas/src/actions/auth.ts:8-42 | the reply and the user table are those of `Register`; the other tables are unchanged |
| Lifecycle.EndpointFindsUpload | video-sentiment-saas/src/app/api/start-analysis/route.ts:110 | the upload is signed for the key in the configured bucket; the background step sends the endpoint that same object exactly when the configured bucket is `meld-sentiment-analysis-saas`, the name written into the background step |
| Lifecycle.WireRoundTrip | video-sentiment-saas/src/app/api/analysis-status/route.ts:77-83 | utterances stored by the background step come back field for field, in order |
| Lifecycle.DispatchedReportsProcessing | video-sentiment-saas/src/app/api/analysis-status/route.ts:59-64 | between dispatch and completion the status route answers `processing` |
| Lifecycle.CompletedJobReports | video-sentiment-saas/src/app/api/analysis-status/route.ts:66-90 | after a successful job the status is `completed` with the earlier utterances followed by exactly the reported ones, or `failed` when there are none; the owner is charged exactly one request |
| Lifecycle.Observe | video-sentiment-saas/src/components/client/UploadVideo.tsx:38-57 | the client keeps polling exactly on a `processing` reply and reads `completed`, `failed` and error replies as their outcomes |
| Lifecycle.FailedJobTimesOut | video-sentiment-saas/src/app/api/start-analysis/route.ts:156-166 | a failed background step leaves the file `processing`, and a polling client gives up after 60 requests with the timeout message |
| Lifecycle.EmptyJobFailsAtOnce | video-sentiment-saas/src/app/api/start-analysis/route.ts:129 | a job that reports no utterances for a fresh file ends the client's polling at the first request with "Analysis completed but no utterances found" |

## Left out

- Concurrency is not modelled. The background step runs fire-and-forget and is modelled as a separate call after the request. Races between two dispatches of one file, and the non-atomic read-then-write of `requestUsed`, are not modelled.
- Store failures are modelled only where they change the outcome:
  - the 500 for a body that is not JSON;
  - a file id that is already taken, which gives a 500 in the upload route after signing;
  - updating a vanished file, which throws in the background step;
  - the throws named by `AuthActions.Call`.
  Other database or network errors that end in a 500 in the three routes are not modelled.
- Request bodies are modelled as optional strings. A JSON body whose `fileId`, `fileName` or `fileType` is not a string is not represented.
- The inference reply is not parsed. Its JSON parsing and `TextDecoder` count as part of the `Invoke` step, and the reply's utterances are given already typed.
- The background step's `.catch` on the failure reset is modelled only for a file that no longer exists. The reset of an existing file is taken to succeed.
- Reading a file's utterances has no `orderBy`, so the database may return them in any order. The model returns them in insertion order.
- Lengths are not counted the JavaScript way. Strings are sequences of Unicode scalar values, while zod's `min` counts UTF-16 code units, so a character outside the Basic Multilingual Plane counts once here and twice in the source.
- `.trim()` uses the JavaScript white-space set, and header name matching is taken as done: the header is given as present or absent.
- The email format check of zod is a parameter. So are bcrypt's `hash`, the URL signer, `crypto.randomUUID()`, `getToken`, whose result is reduced to token presence, and the bucket that `AWS_INFERENCE_BUCKET` names.
- AuthSchemas.SignupIssues: the password-match issue is always listed after the field issues, whatever those are. This is zod 3's behaviour for string inputs. Validity, the only thing `RegisterUser` uses, does not depend on that ordering.
- UploadVideo.Uploader.PollForResults: the five-second `setTimeout` between polls and the fact that `handleUpload` only awaits the first poll are not modelled. Polling is a sequence of steps with no other event in between.
- UploadVideo.Uploader.HandleUpload: the file id is not checked against the polled file. The status replies are given as a parameter.
- The messages for a non-`Error` throw ("Failed to get results", "Upload failed") are not modelled, because every value thrown in the component is an `Error`. A JSON parse failure of an error reply's body is not modelled either.
- Logging, `NextResponse` construction, the React rendering and the deployment scripts of the sentiment model are not modelled.
