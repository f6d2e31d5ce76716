/**
 * The persistent records the API routes share (API quota, video file, utterance,
 * user) and one in-memory store holding them: quotas by user id with an index
 * from secret key to user id, video files by id (each with its ordered
 * utterances), and users by email.
 */
module Db {
  import opened Wrappers

  type UserId = string
  type FileId = string
  type Email = string

  /** An emotion or sentiment distribution: label to score. */
  type Scores = map<string, real>

  /** Times are integer milliseconds since the epoch. */
  datatype ApiQuota = ApiQuota(
    userId: UserId,
    secretKey: string,
    maxRequests: int,
    requestUsed: int,
    lastResetDate: int)

  /** An utterance as stored, with camelCase fields. */
  datatype Utterance = Utterance(
    startTime: real,
    endTime: real,
    text: string,
    emotions: Scores,
    sentiments: Scores)

  datatype VideoFile = VideoFile(
    id: FileId,
    key: string,
    userId: UserId,
    analyzed: bool,
    utterances: seq<Utterance>)

  /** `password` holds the bcrypt hash, never the plaintext. */
  datatype User = User(name: string, email: Email, password: string)

  /** An utterance as the inference endpoint reports it and as the status route
      returns it, with snake_case fields. */
  datatype WireUtterance = WireUtterance(
    start_time: real,
    end_time: real,
    text: string,
    emotions: Scores,
    sentiments: Scores)

  /** Every quota is filed under its own user id, and `keys` maps each quota's
      secret key to that user id and nothing else (secret keys are unique). */
  ghost predicate QuotasIndexed(quotas: map<UserId, ApiQuota>, keys: map<string, UserId>)
  {
    && (forall u :: u in quotas ==>
          quotas[u].userId == u && quotas[u].secretKey in keys && keys[quotas[u].secretKey] == u)
    && (forall k :: k in keys ==> keys[k] in quotas && quotas[keys[k]].secretKey == k)
  }

  ghost predicate FilesKeyed(files: map<FileId, VideoFile>)
  {
    forall id :: id in files ==> files[id].id == id
  }

  lemma FilesKeyedInsert(files: map<FileId, VideoFile>, f: VideoFile)
    requires FilesKeyed(files)
    ensures FilesKeyed(files[f.id := f])
  {
  }

  ghost predicate UsersKeyed(users: map<Email, User>)
  {
    forall e :: e in users ==> users[e].email == e
  }

  /** `apiQuota.findUnique({ where: { secretKey } })`. */
  function QuotaByKey(quotas: map<UserId, ApiQuota>, keys: map<string, UserId>, key: string): (r: Option<ApiQuota>)
    requires QuotasIndexed(quotas, keys)
    ensures r.Some? <==> key in keys
    ensures r.Some? ==> r.value.secretKey == key && r.value.userId in quotas && quotas[r.value.userId] == r.value
  {
    if key in keys then Some(quotas[keys[key]]) else None
  }

  class Store {
    var quotas: map<UserId, ApiQuota>
    var keys: map<string, UserId>
    var files: map<FileId, VideoFile>
    var users: map<Email, User>

    ghost predicate Valid()
      reads this
    {
      QuotasIndexed(quotas, keys) && FilesKeyed(files) && UsersKeyed(users)
    }

    constructor ()
      ensures Valid()
      ensures quotas == map[] && keys == map[] && files == map[] && users == map[]
    {
      quotas, keys, files, users := map[], map[], map[], map[];
    }
  }
}
