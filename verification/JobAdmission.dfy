/** Admission of background migration jobs: conflicts, backpressure, fan-out. */
module JobAdmission {
  import opened Common
  import opened Jobs

  datatype Limits = Limits(maxQueued: int, maxRunning: int)

  /** `_jobs_conflict`: an empty selection stands for every chat. */
  predicate Conflicts(active: seq<string>, requested: seq<string>) {
    active == [] || requested == [] || exists c | c in active :: c in requested
  }

  /** `_is_effectively_active_job` */
  predicate IsEffectivelyActive(job: Job, now: int) {
    || job.status == Queued
    || (job.status == Running && (job.leaseExpiresAt == None || job.leaseExpiresAt.value >= now))
  }

  function KeysIn(jobs: JobTable, status: JobStatus): set<string> {
    set k | k in jobs && jobs[k].status == status
  }

  function Positive(n: int): int {
    if n > 0 then n else 0
  }

  /** `_backpressure_reason` is not none. */
  predicate IsBackpressured(jobs: JobTable, limits: Limits) {
    || (limits.maxQueued > 0 && |KeysIn(jobs, Queued)| >= limits.maxQueued)
    || (limits.maxRunning > 0 && |KeysIn(jobs, Running)| >= limits.maxRunning)
  }

  predicate HasConflict(jobs: JobTable, migrationId: string, chats: seq<string>, now: int) {
    exists k | k in jobs ::
      jobs[k].migrationId == migrationId && IsEffectivelyActive(jobs[k], now) && Conflicts(jobs[k].sourceChatIds, chats)
  }

  /** A request to start one job. `key` is the generated job key; `progressBlocks`
      stands for the checks on existing import progress. */
  datatype Request = Request(key: string, migrationId: string, operatorHuid: string, chats: seq<string>, progressBlocks: bool)

  datatype Verdict = Accepted | AlreadyRunning | Blocked

  predicate Admits(jobs: JobTable, limits: Limits, request: Request, now: int) {
    && !HasConflict(jobs, request.migrationId, request.chats, now)
    && !IsBackpressured(jobs, limits)
    && !request.progressBlocks
    && request.key !in jobs
  }

  function QueuedJob(request: Request): Job {
    Job(request.migrationId, request.operatorHuid, request.chats, Queued, None, None, NoError)
  }

  function Started(jobs: JobTable, limits: Limits, request: Request, now: int): JobTable {
    if Admits(jobs, limits, request, now) then jobs[request.key := QueuedJob(request)] else jobs
  }

  // ----- the service

  class AdmissionService {
    const repository: JobRepository
    const limits: Limits

    constructor (repository: JobRepository, limits: Limits)
      ensures this.repository == repository && this.limits == limits
    {
      this.repository := repository;
      this.limits := limits;
    }

    method BackpressureReached() returns (reached: bool)
      ensures reached <==> IsBackpressured(repository.items, limits)
    {
      var queued := |KeysIn(repository.items, Queued)|;
      var running := |KeysIn(repository.items, Running)|;
      var maxQueued := Positive(limits.maxQueued);
      var maxRunning := Positive(limits.maxRunning);
      reached := (maxQueued != 0 && queued >= maxQueued) || (maxRunning != 0 && running >= maxRunning);
    }

    /** `_start_background_operation` */
    method Start(request: Request, now: int) returns (verdict: Verdict)
      modifies repository
      ensures repository.items == Started(old(repository.items), limits, request, now)
      ensures verdict == Accepted <==> old(Admits(repository.items, limits, request, now))
      ensures old(HasConflict(repository.items, request.migrationId, request.chats, now)) ==> verdict == AlreadyRunning
      ensures |repository.items| == |old(repository.items)| + if verdict == Accepted then 1 else 0
    {
      var active := repository.ListActive(request.migrationId);
      var conflicting := set k | k in active && IsEffectivelyActive(active[k], now) && Conflicts(active[k].sourceChatIds, request.chats);
      if conflicting != {} {
        var k :| k in conflicting;
        assert k in repository.items;
        return AlreadyRunning;
      }
      assert !HasConflict(repository.items, request.migrationId, request.chats, now) by {
        forall k | k in repository.items && repository.items[k].migrationId == request.migrationId
          && IsEffectivelyActive(repository.items[k], now)
          ensures !Conflicts(repository.items[k].sourceChatIds, request.chats)
        {
          assert k in active && k !in conflicting;
        }
      }
      var backpressure := BackpressureReached();
      if backpressure || request.progressBlocks {
        return Blocked;
      }
      var registered := repository.Enqueue(request.key, QueuedJob(request));
      verdict := if registered then Accepted else AlreadyRunning;
    }

    method Report(chat: string, verdict: Verdict, accepted0: seq<string>, running0: seq<string>, blocked0: seq<string>)
      returns (accepted: seq<string>, running: seq<string>, blocked: seq<string>)
      ensures multiset(accepted) + multiset(running) + multiset(blocked)
        == multiset(accepted0) + multiset(running0) + multiset(blocked0) + multiset{chat}
      ensures accepted == if verdict == Accepted then accepted0 + [chat] else accepted0
    {
      accepted, running, blocked := accepted0, running0, blocked0;
      match verdict {
        case Accepted => accepted := accepted + [chat];
        case AlreadyRunning => running := running + [chat];
        case Blocked => blocked := blocked + [chat];
      }
    }

    /** `_start_fan_out_background_operation`: one start a chat, given as the
        requests it builds. Every chat is reported exactly once. */
    method StartFanOut(requests: seq<Request>, now: int) returns (accepted: seq<string>, running: seq<string>, blocked: seq<string>)
      requires forall request | request in requests :: |request.chats| == 1
      modifies repository
      ensures multiset(accepted) + multiset(running) + multiset(blocked) == multiset(Chats(requests))
      ensures repository.items == FannedOut(old(repository.items), limits, requests, now)
      ensures |repository.items| == |old(repository.items)| + |accepted|
    {
      accepted, running, blocked := [], [], [];
      ghost var jobs0 := repository.items;
      var i := 0;
      while i < |requests|
        invariant i <= |requests|
        invariant multiset(accepted) + multiset(running) + multiset(blocked) == multiset(Chats(requests[..i]))
        invariant repository.items == FannedOut(jobs0, limits, requests[..i], now)
        invariant |repository.items| == |jobs0| + |accepted|
      {
        var verdict := Start(requests[i], now);
        FanOutStep(jobs0, limits, requests, i, now);
        accepted, running, blocked := Report(requests[i].chats[0], verdict, accepted, running, blocked);
        i := i + 1;
      }
      assert requests[..|requests|] == requests;
    }
  }

  function Chats(requests: seq<Request>): seq<string>
    requires forall request | request in requests :: |request.chats| == 1
  {
    seq(|requests|, i requires 0 <= i < |requests| => requests[i].chats[0])
  }

  function FannedOut(jobs: JobTable, limits: Limits, requests: seq<Request>, now: int): JobTable {
    if requests == [] then jobs
    else
      var n := |requests| - 1;
      Started(FannedOut(jobs, limits, requests[..n], now), limits, requests[n], now)
  }

  lemma FanOutStep(jobs: JobTable, limits: Limits, requests: seq<Request>, i: nat, now: int)
    requires i < |requests|
    requires forall request | request in requests :: |request.chats| == 1
    ensures FannedOut(jobs, limits, requests[..i + 1], now)
      == Started(FannedOut(jobs, limits, requests[..i], now), limits, requests[i], now)
    ensures multiset(Chats(requests[..i + 1])) == multiset(Chats(requests[..i])) + multiset{requests[i].chats[0]}
  {
    assert requests[..i + 1][..i] == requests[..i];
    assert Chats(requests[..i + 1]) == Chats(requests[..i]) + [requests[i].chats[0]];
  }

  // ----- all runs

  datatype State = State(jobs: JobTable, now: int)

  datatype Event =
    | StartJob(request: Request)
    | ClaimJob(key: string, worker: string, lease: int)
    | Heartbeat(key: string, worker: string, lease: int)
    | EndJob(key: string, worker: string, status: JobStatus, error: JobError)
    | AskCancel(key: string, operatorHuid: string)
    | Tick(seconds: nat)

  /** The updates workers make at the end of a job; none of them writes the code
      that asks for a cancellation. */
  predicate IsEnding(status: JobStatus, error: JobError) {
    status == Completed || (status == FailedJob && error != CancelRequested)
  }

  /** Each repository call and each start is one atomic step. */
  function Next(s: State, limits: Limits, e: Event): State {
    match e
    case StartJob(request) => s.(jobs := Started(s.jobs, limits, request, s.now))
    case ClaimJob(key, worker, lease) => s.(jobs := Claimed(s.jobs, key, worker, s.now, lease))
    case Heartbeat(key, worker, lease) => s.(jobs := Beaten(s.jobs, key, worker, s.now, lease))
    case EndJob(key, worker, status, error) =>
      if IsEnding(status, error) then s.(jobs := Terminated(s.jobs, key, worker, status, error)) else s
    case AskCancel(key, operatorHuid) => s.(jobs := CancelAsked(s.jobs, key, operatorHuid))
    case Tick(seconds) => s.(now := s.now + seconds)
  }

  function Run(s: State, limits: Limits, events: seq<Event>): State {
    if events == [] then s else Next(Run(s, limits, events[..|events| - 1]), limits, events[|events| - 1])
  }

  /** Whatever happens, jobs only move forward. */
  lemma NextEvolves(s: State, limits: Limits, e: Event)
    ensures Evolves(s.jobs, Next(s, limits, e).jobs)
  {
  }

  predicate QueueWithin(jobs: JobTable, limits: Limits) {
    limits.maxQueued > 0 ==> |KeysIn(jobs, Queued)| <= limits.maxQueued
  }

  lemma NextKeepsQueue(s: State, limits: Limits, e: Event)
    requires QueueWithin(s.jobs, limits)
    ensures QueueWithin(Next(s, limits, e).jobs, limits)
  {
    var before := KeysIn(s.jobs, Queued);
    var after := KeysIn(Next(s, limits, e).jobs, Queued);
    if e.StartJob? && Admits(s.jobs, limits, e.request, s.now) {
      assert after == before + {e.request.key};
    } else {
      SubsetIsSmaller(after, before);
    }
  }

  lemma {:induction false} SubsetIsSmaller(a: set<string>, b: set<string>)
    requires a <= b
    ensures |a| <= |b|
  {
    assert b == a + (b - a);
  }

  /** With a positive threshold the queue never grows past it, in any run. */
  lemma {:induction false} QueueNeverExceedsThreshold(s: State, limits: Limits, events: seq<Event>)
    requires QueueWithin(s.jobs, limits)
    ensures QueueWithin(Run(s, limits, events).jobs, limits)
    decreases |events|
  {
    if events != [] {
      var before := events[..|events| - 1];
      QueueNeverExceedsThreshold(s, limits, before);
      NextKeepsQueue(Run(s, limits, before), limits, events[|events| - 1]);
    }
  }

  /** Active jobs of one migration work on disjoint chats. */
  ghost predicate Exclusive(jobs: JobTable) {
    forall k, l | k in jobs && l in jobs && k != l ::
      jobs[k].migrationId == jobs[l].migrationId && IsActive(jobs[k]) && IsActive(jobs[l]) ==>
        !Conflicts(jobs[k].sourceChatIds, jobs[l].sourceChatIds)
  }

  /** No running job has outlived its lease. */
  ghost predicate LeasesHold(s: State) {
    forall k | k in s.jobs && s.jobs[k].status == Running ::
      s.jobs[k].leaseExpiresAt == None || s.jobs[k].leaseExpiresAt.value >= s.now
  }

  lemma ConflictsSymmetric(a: seq<string>, b: seq<string>)
    ensures Conflicts(a, b) <==> Conflicts(b, a)
  {
  }

  lemma NextKeepsExclusive(s: State, limits: Limits, e: Event)
    requires Exclusive(s.jobs) && LeasesHold(s)
    ensures Exclusive(Next(s, limits, e).jobs)
  {
    if e.StartJob? && Admits(s.jobs, limits, e.request, s.now) {
      forall k | k in s.jobs && s.jobs[k].migrationId == e.request.migrationId && IsActive(s.jobs[k])
        ensures !Conflicts(s.jobs[k].sourceChatIds, e.request.chats)
        ensures !Conflicts(e.request.chats, s.jobs[k].sourceChatIds)
      {
        assert IsEffectivelyActive(s.jobs[k], s.now);
        ConflictsSymmetric(s.jobs[k].sourceChatIds, e.request.chats);
      }
    }
  }

  /** While no running lease expires, active jobs of a migration never conflict. */
  lemma {:induction false} ActiveJobsNeverConflict(s: State, limits: Limits, events: seq<Event>)
    requires Exclusive(s.jobs)
    requires forall n: nat | n < |events| :: LeasesHold(Run(s, limits, events[..n]))
    ensures Exclusive(Run(s, limits, events).jobs)
    decreases |events|
  {
    if events != [] {
      var n := |events| - 1;
      forall m: nat | m < n ensures LeasesHold(Run(s, limits, events[..n][..m])) {
        assert events[..n][..m] == events[..m];
      }
      ActiveJobsNeverConflict(s, limits, events[..n]);
      NextKeepsExclusive(Run(s, limits, events[..n]), limits, events[n]);
    }
  }

  /** At one step the condition is exact: from an exclusive table, a start leaves
      it exclusive unless the requested chats meet those of a job that is running
      on an expired lease. */
  lemma StartKeepsExclusiveExactly(s: State, limits: Limits, request: Request)
    requires Exclusive(s.jobs)
    ensures Exclusive(Started(s.jobs, limits, request, s.now)) <==>
      !(Admits(s.jobs, limits, request, s.now)
        && exists k | k in s.jobs ::
             && s.jobs[k].migrationId == request.migrationId
             && s.jobs[k].status == Running && !IsEffectivelyActive(s.jobs[k], s.now)
             && Conflicts(s.jobs[k].sourceChatIds, request.chats))
  {
    var after := Started(s.jobs, limits, request, s.now);
    if Admits(s.jobs, limits, request, s.now) {
      forall k | k in s.jobs ensures Conflicts(s.jobs[k].sourceChatIds, request.chats) <==> Conflicts(request.chats, s.jobs[k].sourceChatIds) {
        ConflictsSymmetric(s.jobs[k].sourceChatIds, request.chats);
      }
      assert forall k | k in s.jobs :: k in after && after[k] == s.jobs[k] && k != request.key;
      assert after[request.key] == QueuedJob(request);
    }
  }

  lemma RunMore(s: State, limits: Limits, events: seq<Event>, e: Event)
    ensures Run(s, limits, events + [e]) == Next(Run(s, limits, events), limits, e)
  {
    assert (events + [e])[..|events|] == events;
  }

  const FIRST_REQUEST := Request("a", "m", "o", ["c"], false)
  const SECOND_REQUEST := Request("b", "m", "o", ["c"], false)
  const UNLIMITED := Limits(0, 0)

  function ClaimedFirst(): Job {
    QueuedJob(FIRST_REQUEST).(status := Running, workerId := Some("w"), leaseExpiresAt := Some(5))
  }

  lemma OverlapSteps()
    ensures Next(State(map[], 0), UNLIMITED, StartJob(FIRST_REQUEST)) == State(map["a" := QueuedJob(FIRST_REQUEST)], 0)
    ensures Next(State(map["a" := QueuedJob(FIRST_REQUEST)], 0), UNLIMITED, ClaimJob("a", "w", 5))
      == State(map["a" := ClaimedFirst()], 0)
    ensures Next(State(map["a" := ClaimedFirst()], 0), UNLIMITED, Tick(6)) == State(map["a" := ClaimedFirst()], 6)
    ensures Next(State(map["a" := ClaimedFirst()], 6), UNLIMITED, StartJob(SECOND_REQUEST))
      == State(map["a" := ClaimedFirst(), "b" := QueuedJob(SECOND_REQUEST)], 6)
  {
    assert Admits(map[], UNLIMITED, FIRST_REQUEST, 0);
    assert Admits(map["a" := ClaimedFirst()], UNLIMITED, SECOND_REQUEST, 6);
  }

  lemma OverlapIsOverlap(jobs: JobTable)
    requires jobs == map["a" := ClaimedFirst(), "b" := QueuedJob(SECOND_REQUEST)]
    ensures !Exclusive(jobs)
  {
    assert "a" in jobs && "b" in jobs && "a" != "b";
    assert "c" in jobs["a"].sourceChatIds && "c" in jobs["b"].sourceChatIds;
  }

  /** Four steps to an overlap: a job is started and claimed, its lease runs out, and
      the same chat is started once more. */
  lemma ExpiredLeaseAllowsOverlap() returns (events: seq<Event>)
    ensures |events| == 4 && Exclusive(map[]) && !Exclusive(Run(State(map[], 0), UNLIMITED, events).jobs)
  {
    var start := State(map[], 0);
    var e0, e1, e2, e3 := StartJob(FIRST_REQUEST), ClaimJob("a", "w", 5), Tick(6), StartJob(SECOND_REQUEST);
    var one, two, three := [e0], [e0] + [e1], [e0] + [e1] + [e2];
    events := three + [e3];
    OverlapSteps();
    assert [] + [e0] == one;
    RunMore(start, UNLIMITED, [], e0);
    RunMore(start, UNLIMITED, one, e1);
    RunMore(start, UNLIMITED, two, e2);
    RunMore(start, UNLIMITED, three, e3);
    OverlapIsOverlap(Run(start, UNLIMITED, events).jobs);
  }
}
