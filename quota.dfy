/**
 * The per-user request quota: a 30-day window that restarts once it has expired,
 * and a usage limit checked with a strict `>`, so that a user whose count equals
 * `maxRequests` is still let through.
 */
module QuotaLedger {
  import opened Wrappers
  import opened Db

  const DayMs := 1000 * 60 * 60 * 24
  /** Thirty days in milliseconds: 2 592 000 000. */
  const WindowMs := 30 * DayMs

  predicate WindowExpired(lastResetDate: int, now: int)
  {
    now - lastResetDate >= WindowMs
  }

  /** The verdict of one check and the quota record as it stands afterwards. */
  datatype Decision = Decision(allowed: bool, quota: ApiQuota)

  /** One call of the quota check at time `now`, as a function of the record it reads. */
  function Consume(q: ApiQuota, now: int, deduct: bool): (d: Decision)
    ensures d.allowed <==> WindowExpired(q.lastResetDate, now) || q.requestUsed <= q.maxRequests
    ensures d.quota.userId == q.userId && d.quota.secretKey == q.secretKey
      && d.quota.maxRequests == q.maxRequests
    ensures !deduct || !d.allowed ==> d.quota == q
    ensures deduct && WindowExpired(q.lastResetDate, now)
      ==> d.quota.requestUsed == 1 && d.quota.lastResetDate == now
    ensures deduct && !WindowExpired(q.lastResetDate, now) && d.allowed
      ==> d.quota.requestUsed == q.requestUsed + 1 && d.quota.lastResetDate == q.lastResetDate
  {
    if WindowExpired(q.lastResetDate, now) then
      Decision(true, if deduct then q.(lastResetDate := now, requestUsed := 1) else q)
    else if q.requestUsed > q.maxRequests then
      Decision(false, q)
    else
      Decision(true, if deduct then q.(requestUsed := q.requestUsed + 1) else q)
  }

  /** `findUniqueOrThrow` finds no quota record for the user. */
  datatype QuotaError = NoQuotaRecord

  /** `checkAndUpdateQuota(userId, deductFromQuota)` at time `now`. */
  method CheckAndUpdateQuota(db: Store, userId: UserId, now: int, deductFromQuota: bool := true)
    returns (r: Result<bool, QuotaError>)
    requires db.Valid()
    modifies db
    ensures db.Valid()
    ensures userId !in old(db.quotas) ==> r == Failure(NoQuotaRecord) && db.quotas == old(db.quotas)
    ensures userId in old(db.quotas) ==>
      var d := Consume(old(db.quotas[userId]), now, deductFromQuota);
      r == Success(d.allowed) && db.quotas == old(db.quotas)[userId := d.quota]
    ensures db.keys == old(db.keys) && db.files == old(db.files) && db.users == old(db.users)
  {
    if userId !in db.quotas {
      return Failure(NoQuotaRecord);
    }
    var quota := db.quotas[userId];
    if WindowExpired(quota.lastResetDate, now) {
      if deductFromQuota {
        db.quotas := db.quotas[userId := quota.(lastResetDate := now, requestUsed := 1)];
      }
      return Success(true);
    }
    if quota.requestUsed > quota.maxRequests {
      return Success(false);
    }
    if deductFromQuota {
      db.quotas := db.quotas[userId := quota.(requestUsed := quota.requestUsed + 1)];
    }
    return Success(true);
  }

  /** Deducting checks at the given times, one after another: how many were
      allowed, and the record afterwards. */
  ghost function ConsumeAll(q: ApiQuota, times: seq<int>): (nat, ApiQuota)
    decreases |times|
  {
    if times == [] then (0, q)
    else
      var d := Consume(q, times[0], true);
      var (n, last) := ConsumeAll(d.quota, times[1..]);
      (if d.allowed then n + 1 else n, last)
  }

  function Min(a: int, b: int): int { if a <= b then a else b }

  /** Within one unexpired window the count only grows, and the window admits
      exactly `maxRequests + 1 - requestUsed` further deducting calls: because the
      limit test is a strict `>`, a record at `maxRequests` still passes once more. */
  lemma {:induction false} WindowAdmits(q: ApiQuota, times: seq<int>)
    requires forall i :: 0 <= i < |times| ==> !WindowExpired(q.lastResetDate, times[i])
    requires q.requestUsed <= q.maxRequests + 1
    ensures ConsumeAll(q, times).0 == Min(|times|, q.maxRequests + 1 - q.requestUsed)
    ensures ConsumeAll(q, times).1.requestUsed == q.requestUsed + ConsumeAll(q, times).0
    ensures ConsumeAll(q, times).1.lastResetDate == q.lastResetDate
    decreases |times|
  {
    if times != [] {
      var d := Consume(q, times[0], true);
      WindowAdmits(d.quota, times[1..]);
    }
  }

  /** A call that finds the window expired opens a fresh one at `now`; counting that
      call, a window admits at most `maxRequests + 1` deducting calls. */
  lemma FreshWindowAdmits(q: ApiQuota, now: int, times: seq<int>)
    requires WindowExpired(q.lastResetDate, now)
    requires q.maxRequests >= 0
    requires forall i :: 0 <= i < |times| ==> !WindowExpired(now, times[i])
    ensures ConsumeAll(q, [now] + times).0 == 1 + Min(|times|, q.maxRequests)
  {
    var d := Consume(q, now, true);
    assert ([now] + times)[1..] == times;
    WindowAdmits(d.quota, times);
  }
}
