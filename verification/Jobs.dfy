/** Migration jobs and the repository that leases them. Times are whole seconds. */
module Jobs {
  import opened Common

  datatype JobStatus = Queued | Running | Completed | FailedJob

  datatype JobError = NoError | CancelRequested | CancelledByUser | Crashed(name: string)

  datatype Job = Job(
    migrationId: string,
    operatorHuid: string,
    sourceChatIds: seq<string>,
    status: JobStatus,
    workerId: Option<string>,
    leaseExpiresAt: Option<int>,
    lastError: JobError)

  type JobTable = map<string, Job>

  predicate IsActive(job: Job) {
    job.status == Queued || job.status == Running
  }

  predicate IsTerminal(job: Job) {
    !IsActive(job)
  }

  predicate IsClaimable(job: Job, now: int) {
    || job.status == Queued
    || (job.status == Running && job.lastError != CancelRequested
        && (job.leaseExpiresAt == None || job.leaseExpiresAt.value < now))
  }

  /** `claim` of one job; `acquire_next` is the claim of the oldest claimable one. */
  function Claimed(jobs: JobTable, key: string, worker: string, now: int, lease: int): JobTable {
    if key in jobs && IsClaimable(jobs[key], now) then
      jobs[key := jobs[key].(
        status := Running, workerId := Some(worker), leaseExpiresAt := Some(now + lease), lastError := NoError)]
    else jobs
  }

  predicate HoldsLease(jobs: JobTable, key: string, worker: string) {
    key in jobs && jobs[key].workerId == Some(worker) && jobs[key].status == Running
  }

  function Beaten(jobs: JobTable, key: string, worker: string, now: int, lease: int): JobTable {
    if HoldsLease(jobs, key, worker) then jobs[key := jobs[key].(leaseExpiresAt := Some(now + lease))] else jobs
  }

  /** `mark_completed` and `mark_failed`: only the lease owner of a running job succeeds. */
  function Terminated(jobs: JobTable, key: string, worker: string, status: JobStatus, error: JobError): JobTable
    requires status == Completed || status == FailedJob
  {
    if HoldsLease(jobs, key, worker) then
      jobs[key := jobs[key].(
        status := status, leaseExpiresAt := None, lastError := if status == FailedJob then error else jobs[key].lastError)]
    else jobs
  }

  /** `request_cancel`: a queued job fails at once, a running one is only flagged. */
  function CancelAsked(jobs: JobTable, key: string, operatorHuid: string): JobTable {
    if key !in jobs || jobs[key].operatorHuid != operatorHuid then jobs
    else if jobs[key].status == Queued then
      jobs[key := jobs[key].(status := FailedJob, leaseExpiresAt := None, lastError := CancelledByUser)]
    else if jobs[key].status == Running then jobs[key := jobs[key].(lastError := CancelRequested)]
    else jobs
  }

  /** What repository operations may do to a table over time: jobs never
      disappear, never change hands between migrations, and an ended job stays as
      it is. */
  predicate Evolves(before: JobTable, after: JobTable) {
    forall k :: k in before ==>
      && k in after
      && (IsTerminal(before[k]) ==> after[k] == before[k])
      && after[k].migrationId == before[k].migrationId
      && after[k].operatorHuid == before[k].operatorHuid
      && after[k].sourceChatIds == before[k].sourceChatIds
      && (after[k].status == Queued ==> before[k].status == Queued)
  }

  lemma EvolvesTransitive(a: JobTable, b: JobTable, c: JobTable)
    requires Evolves(a, b) && Evolves(b, c)
    ensures Evolves(a, c)
  {
  }

  lemma ClaimedEvolves(jobs: JobTable, key: string, worker: string, now: int, lease: int)
    ensures Evolves(jobs, Claimed(jobs, key, worker, now, lease))
  {
  }

  lemma TerminatedEvolves(jobs: JobTable, key: string, worker: string, status: JobStatus, error: JobError)
    requires status == Completed || status == FailedJob
    ensures Evolves(jobs, Terminated(jobs, key, worker, status, error))
  {
  }

  class JobRepository {
    var items: JobTable

    constructor ()
      ensures items == map[]
    {
      items := map[];
    }

    method Enqueue(key: string, job: Job) returns (registered: bool)
      modifies this
      ensures registered <==> key !in old(items)
      ensures items == if registered then old(items)[key := job] else old(items)
    {
      registered := key !in items;
      if registered {
        items := items[key := job];
      }
    }

    method ListActive(migrationId: string) returns (active: map<string, Job>)
      ensures active == map k | k in items && items[k].migrationId == migrationId && IsActive(items[k]) :: items[k]
    {
      active := map k | k in items && items[k].migrationId == migrationId && IsActive(items[k]) :: items[k];
    }

    method Claim(key: string, worker: string, now: int, lease: int) returns (claimed: Option<Job>)
      modifies this
      ensures items == Claimed(old(items), key, worker, now, lease)
      ensures claimed.Some? <==> key in old(items) && IsClaimable(old(items)[key], now)
      ensures claimed.Some? ==> claimed.value == items[key] && HoldsLease(items, key, worker)
    {
      claimed := None;
      if key in items && IsClaimable(items[key], now) {
        items := Claimed(items, key, worker, now, lease);
        claimed := Some(items[key]);
      }
    }
  }
}
