/** The broker consumer: one inbox entry a handled message, one claim an execution.
    While the handler waits, other workers, operators and the clock move the shared
    state on, and any wait may be cut short. */
module CommandHandler {
  import opened Common
  import opened Jobs
  import JobAdmission
  import JobWorker

  datatype Envelope = Envelope(messageId: string, messageType: string, jobKey: Option<string>)

  const JOB_REQUESTED := "migration.job.requested"

  predicate WantsJob(envelope: Envelope) {
    envelope.messageType == JOB_REQUESTED && envelope.jobKey.Some? && envelope.jobKey.value != ""
  }

  /** The settings of one consumer, and of the worker it hands its jobs to. */
  datatype Consumer = Consumer(
    name: string, token: string, leaseSeconds: int, executor: string, heartbeatLease: int, limits: JobAdmission.Limits)
  {
    /** `f"{consumer_name}:{uuid4().hex}"` */
    function Worker(): (worker: string)
      ensures worker != ""
    {
      name + ":" + token
    }

    /** `max(5.0, lease_duration_seconds)` */
    function Lease(): int {
      if leaseSeconds < 5 then 5 else leaseSeconds
    }

    function Setting(key: string): (setting: JobWorker.Setting)
      ensures setting.LeaseOwner() == Worker() && setting.key == key
    {
      JobWorker.Setting(key, Some(Worker()), executor, heartbeatLease, limits)
    }
  }

  /** One call of `execute_claimed_job`: the shared state in which the job was
      claimed, and everything that happened from the claim to the end of the call. A
      run that does not finish stands for a consumer that died. */
  datatype Execution = Execution(
    messageId: string, consumer: Consumer, jobKey: string, start: JobAdmission.State, events: seq<JobWorker.Event>)
  {
    function Setting(): JobWorker.Setting {
      consumer.Setting(jobKey)
    }

    /** The shared state right after the claim. */
    function Claim(): JobAdmission.State {
      start.(jobs := Claimed(start.jobs, jobKey, consumer.Worker(), start.now, consumer.Lease()))
    }

    function End(): JobWorker.World {
      JobWorker.Run(JobWorker.World(Claim(), JobWorker.NewTask()), Setting(), events)
    }

    /** The call ran to return. */
    predicate IsReturned() {
      End().task.location == JobWorker.Finished(true)
    }

    /** It made its terminal update, while it still held the lease. */
    predicate IsSettled() {
      End().task.settled
    }

    ghost predicate IsTakenOver() {
      JobWorker.TakenOver(Claim(), Setting(), events)
    }

    /** It began with a successful claim, and nobody else acts under its worker id. */
    predicate IsClaimed() {
      && jobKey in start.jobs && IsClaimable(start.jobs[jobKey], start.now)
      && JobWorker.OthersAreForeign(events, consumer.Worker())
    }
  }

  datatype World = World(inbox: map<string, string>, shared: JobAdmission.State, executions: seq<Execution>)

  // ----- what the environment does during one call of `handle`

  datatype Wait = Wait(moves: seq<JobAdmission.Event>, interruption: Option<Error>)

  /** The waits of one call, in order: for the inbox, for the claim (which may also be
      cut short when it has taken effect), the run of the execution and what it raises,
      the look at the job, the inbox entry (likewise). */
  datatype Choices = Choices(
    atInbox: Wait,
    atClaim: Wait,
    afterClaim: Option<Error>,
    run: seq<JobWorker.Event>,
    fault: Error,
    atLook: Wait,
    atMark: Wait,
    afterMark: Option<Error>)

  predicate AreForeign(moves: seq<JobAdmission.Event>, worker: string) {
    forall e | e in moves :: JobWorker.IsForeign(e, worker)
  }

  predicate IsCut(e: Option<Error>) {
    e.Some? ==> IsInterruption(e.value)
  }

  predicate IsWait(wait: Wait, worker: string) {
    AreForeign(wait.moves, worker) && IsCut(wait.interruption)
  }

  /** Nobody else acts under the consumer's worker id, which is unique. */
  predicate ArePossible(c: Consumer, choices: Choices) {
    && IsWait(choices.atInbox, c.Worker()) && IsWait(choices.atClaim, c.Worker())
    && IsWait(choices.atLook, c.Worker()) && IsWait(choices.atMark, c.Worker())
    && IsCut(choices.afterClaim) && IsCut(choices.afterMark) && IsInterruption(choices.fault)
    && JobWorker.OthersAreForeign(choices.run, c.Worker())
  }

  // ----- `handle` as a function of them

  function Moved(w: World, c: Consumer, moves: seq<JobAdmission.Event>): World {
    w.(shared := JobAdmission.Run(w.shared, c.limits, moves))
  }

  function ResultCode(jobs: JobTable, key: string): string {
    if key in jobs && jobs[key].status == FailedJob then "job_failed"
    else if key in jobs && jobs[key].status == Completed then "job_completed"
    else "processed"
  }

  /** `_mark_processed` and the return of the code. */
  function Marked(
    w: World, c: Consumer, messageId: string, code: string, atMark: Wait, afterMark: Option<Error>): (World, Result<string>)
  {
    var moved := Moved(w, c, atMark.moves);
    if atMark.interruption.Some? then (moved, Raised(atMark.interruption.value))
    else
      var marked := moved.(inbox := moved.inbox[messageId := code]);
      (marked, if afterMark.Some? then Raised(afterMark.value) else Ok(code))
  }

  function ExecutionAt(w: World, c: Consumer, messageId: string, key: string, run: seq<JobWorker.Event>): Execution {
    Execution(messageId, c, key, w.shared, run)
  }

  /** The execution of a job claimed in `w`, and what follows it. */
  function Executed(w: World, c: Consumer, messageId: string, key: string, choices: Choices): (World, Result<string>) {
    var execution := ExecutionAt(w, c, messageId, key, choices.run);
    var done := World(w.inbox, execution.End().shared, w.executions + [execution]);
    if !execution.IsReturned() then (done, Raised(choices.fault))
    else
      var looked := Moved(done, c, choices.atLook.moves);
      if choices.atLook.interruption.Some? then (looked, Raised(choices.atLook.interruption.value))
      else Marked(looked, c, messageId, ResultCode(looked.shared.jobs, key), choices.atMark, choices.afterMark)
  }

  /** The claim in `w`, and what follows it. */
  function Claiming(w: World, c: Consumer, messageId: string, key: string, choices: Choices): (World, Result<string>) {
    if !(key in w.shared.jobs && IsClaimable(w.shared.jobs[key], w.shared.now)) then
      if choices.afterClaim.Some? then (w, Raised(choices.afterClaim.value))
      else Marked(w, c, messageId, "not_claimed", choices.atMark, choices.afterMark)
    else if choices.afterClaim.Some? then
      (w.(shared := ExecutionAt(w, c, messageId, key, []).Claim()), Raised(choices.afterClaim.value))
    else Executed(w, c, messageId, key, choices)
  }

  function Handled(w: World, c: Consumer, envelope: Envelope, choices: Choices): (World, Result<string>) {
    var reached := Moved(w, c, choices.atInbox.moves);
    if choices.atInbox.interruption.Some? then (reached, Raised(choices.atInbox.interruption.value))
    else if envelope.messageId in w.inbox then (reached, Ok("duplicate"))
    else if envelope.messageType != JOB_REQUESTED then
      Marked(reached, c, envelope.messageId, "ignored_message_type", choices.atMark, choices.afterMark)
    else if !WantsJob(envelope) then
      Marked(reached, c, envelope.messageId, "invalid_payload", choices.atMark, choices.afterMark)
    else
      var atClaim := Moved(reached, c, choices.atClaim.moves);
      if choices.atClaim.interruption.Some? then (atClaim, Raised(choices.atClaim.interruption.value))
      else Claiming(atClaim, c, envelope.messageId, envelope.jobKey.value, choices)
  }

  // ----- the handler

  class Handler {
    const repository: JobRepository
    const consumer: Consumer
    var inbox: map<string, string>
    /** The clock of the repository. */
    var now: int
    ghost var executions: seq<Execution>

    constructor (repository: JobRepository, consumer: Consumer, now: int)
      ensures this.repository == repository && this.consumer == consumer
      ensures inbox == map[] && executions == []
    {
      this.repository := repository;
      this.consumer := consumer;
      this.now := now;
      inbox := map[];
      executions := [];
    }

    ghost function Now(): World
      reads this, repository
    {
      World(inbox, JobAdmission.State(repository.items, now), executions)
    }

    /** A suspension point: others move the shared state on, and the wait may be cut. */
    method Await() returns (r: Result<()>, ghost wait: Wait)
      modifies repository, this`now
      ensures Now() == Moved(old(Now()), consumer, wait.moves) && IsWait(wait, consumer.Worker())
      ensures wait.interruption == if r.Raised? then Some(r.error) else None
    {
      var moves: seq<JobAdmission.Event> := *;
      if !AreForeign(moves, consumer.Worker()) {
        moves := [];
      }
      var state := JobAdmission.Run(JobAdmission.State(repository.items, now), consumer.limits, moves);
      repository.items := state.jobs;
      now := state.now;
      r := Pause();
      wait := Wait(moves, if r.Raised? then Some(r.error) else None);
    }

    method Mark(messageId: string, code: string) returns (r: Result<string>, ghost atMark: Wait, ghost afterMark: Option<Error>)
      modifies this`inbox, this`now, repository
      ensures (Now(), r) == Marked(old(Now()), consumer, messageId, code, atMark, afterMark)
      ensures IsWait(atMark, consumer.Worker()) && IsCut(afterMark)
    {
      afterMark := None;
      var waited;
      waited, atMark := Await();
      if waited.Raised? {
        return Raised(waited.error), atMark, afterMark;
      }
      inbox := inbox[messageId := code];
      var cut := Suspend();
      afterMark := cut;
      r := if cut.Some? then Raised(cut.value) else Ok(code);
    }

    /** `execute_claimed_job`: any run of the job worker on the claimed job. */
    method Execute(messageId: string, key: string, ghost start: JobAdmission.State)
      returns (returned: bool, ghost run: seq<JobWorker.Event>)
      requires Now().shared == Execution(messageId, consumer, key, start, []).Claim()
      modifies this`executions, this`now, repository
      ensures var execution := Execution(messageId, consumer, key, start, run);
        && Now() == World(old(inbox), execution.End().shared, old(executions) + [execution])
        && returned == execution.IsReturned()
      ensures JobWorker.OthersAreForeign(run, consumer.Worker())
    {
      var events: seq<JobWorker.Event> := *;
      if !JobWorker.OthersAreForeign(events, consumer.Worker()) {
        events := [];
      }
      var claimed := JobAdmission.State(repository.items, now);
      var end := JobWorker.Run(JobWorker.World(claimed, JobWorker.NewTask()), consumer.Setting(key), events);
      repository.items := end.shared.jobs;
      now := end.shared.now;
      executions := executions + [Execution(messageId, consumer, key, start, events)];
      returned := end.task.location == JobWorker.Finished(true);
      run := events;
    }

    /** The job claimed in state `start` is executed and the message recorded. */
    method ExecuteClaimed(messageId: string, key: string, ghost claim: World, ghost before: Choices)
      returns (r: Result<string>, ghost choices: Choices)
      requires Now() == claim.(shared := Execution(messageId, consumer, key, claim.shared, []).Claim())
      requires ArePossible(consumer, before)
      modifies this, repository
      ensures (Now(), r) == Executed(claim, consumer, messageId, key, choices)
      ensures ArePossible(consumer, choices) && SameApproach(before, choices)
    {
      choices := before;
      var returned;
      ghost var run;
      returned, run := Execute(messageId, key, claim.shared);
      choices := choices.(run := run);
      if !returned {
        var fault: Error := *;
        if !IsInterruption(fault) {
          fault := Error(Other, "execution did not return");
        }
        choices := choices.(fault := fault);
        return Raised(fault), choices;
      }
      var looked;
      ghost var atLook;
      looked, atLook := Await();
      choices := choices.(atLook := atLook);
      if looked.Raised? {
        return Raised(looked.error), choices;
      }
      var code := ResultCode(repository.items, key);
      ghost var atMark, afterMark;
      r, atMark, afterMark := Mark(messageId, code);
      choices := choices.(atMark := atMark, afterMark := afterMark);
    }

    /** `handle` from the claim on. */
    method ClaimAndExecute(messageId: string, key: string, ghost before: Choices)
      returns (r: Result<string>, ghost choices: Choices)
      requires ArePossible(consumer, before) && before.afterClaim == None
      modifies this, repository
      ensures (Now(), r) == Claiming(old(Now()), consumer, messageId, key, choices)
      ensures ArePossible(consumer, choices)
      ensures choices.atInbox == before.atInbox && choices.atClaim == before.atClaim
    {
      ghost var claim := Now();
      choices := before;
      var claimed := repository.Claim(key, consumer.Worker(), now, consumer.Lease());
      var cut := Suspend();
      choices := choices.(afterClaim := cut);
      if cut.Some? {
        return Raised(cut.value), choices;
      }
      if claimed.None? {
        ghost var atMark, afterMark;
        r, atMark, afterMark := Mark(messageId, "not_claimed");
        choices := choices.(atMark := atMark, afterMark := afterMark);
        return;
      }
      r, choices := ExecuteClaimed(messageId, key, claim, choices);
    }

    /** `handle` */
    method Handle(envelope: Envelope) returns (r: Result<string>, ghost choices: Choices)
      modifies this, repository
      ensures (Now(), r) == Handled(old(Now()), consumer, envelope, choices) && ArePossible(consumer, choices)
    {
      ghost var idle := Wait([], None);
      choices := Choices(idle, idle, None, [], Error(Other, ""), idle, idle, None);
      var reached;
      ghost var atInbox;
      reached, atInbox := Await();
      choices := choices.(atInbox := atInbox);
      if reached.Raised? {
        return Raised(reached.error), choices;
      }
      if envelope.messageId in inbox {
        return Ok("duplicate"), choices;
      }
      if !WantsJob(envelope) {
        var code := if envelope.messageType != JOB_REQUESTED then "ignored_message_type" else "invalid_payload";
        ghost var atMark, afterMark;
        r, atMark, afterMark := Mark(envelope.messageId, code);
        choices := choices.(atMark := atMark, afterMark := afterMark);
        return;
      }
      var claiming;
      ghost var atClaim;
      claiming, atClaim := Await();
      choices := choices.(atClaim := atClaim);
      if claiming.Raised? {
        return Raised(claiming.error), choices;
      }
      r, choices := ClaimAndExecute(envelope.messageId, envelope.jobKey.value, choices);
    }
  }

  /** The choices up to the execution are the same. */
  predicate SameApproach(a: Choices, b: Choices) {
    a.atInbox == b.atInbox && a.atClaim == b.atClaim && a.afterClaim == b.afterClaim
  }

  // ----- what one call promises

  /** The state in which the call reaches its claim, if it does. */
  function AtClaim(w: World, c: Consumer, choices: Choices): World {
    Moved(Moved(w, c, choices.atInbox.moves), c, choices.atClaim.moves)
  }

  /** The message asks for a job and no wait before the execution is cut short. */
  predicate Proceeds(envelope: Envelope, choices: Choices) {
    && WantsJob(envelope)
    && choices.atInbox.interruption == None && choices.atClaim.interruption == None && choices.afterClaim == None
  }

  predicate ClaimSucceeds(w: World, c: Consumer, envelope: Envelope, choices: Choices)
    requires WantsJob(envelope)
  {
    var at := AtClaim(w, c, choices).shared;
    envelope.jobKey.value in at.jobs && IsClaimable(at.jobs[envelope.jobKey.value], at.now)
  }

  /** The call starts an execution. */
  predicate Starts(w: World, c: Consumer, envelope: Envelope, choices: Choices) {
    |Handled(w, c, envelope, choices).0.executions| > |w.executions|
  }

  /** The call writes the inbox entry of its message. */
  predicate Records(w: World, c: Consumer, envelope: Envelope, choices: Choices) {
    envelope.messageId !in w.inbox && envelope.messageId in Handled(w, c, envelope, choices).0.inbox
  }

  /** An execution is started exactly when the message is not in the inbox, the call
      proceeds, and the job is claimable in the state of the claim. It begins with
      that claim, which makes the consumer the owner of the lease. */
  lemma StartsExactly(w: World, c: Consumer, envelope: Envelope, choices: Choices)
    requires ArePossible(c, choices)
    ensures Starts(w, c, envelope, choices) <==>
      envelope.messageId !in w.inbox && Proceeds(envelope, choices) && ClaimSucceeds(w, c, envelope, choices)
    ensures var after := Handled(w, c, envelope, choices).0;
      if Starts(w, c, envelope, choices) then
        var e := Execution(envelope.messageId, c, envelope.jobKey.value, AtClaim(w, c, choices).shared, choices.run);
        && after.executions == w.executions + [e]
        && e.IsClaimed() && HoldsLease(e.Claim().jobs, e.jobKey, c.Worker())
      else after.executions == w.executions
  {
  }

  /** A claim that fails is the only reason for "not_claimed". */
  lemma NotClaimedExactly(w: World, c: Consumer, envelope: Envelope, choices: Choices)
    ensures Handled(w, c, envelope, choices).1 == Ok("not_claimed") <==>
      && envelope.messageId !in w.inbox && Proceeds(envelope, choices) && !ClaimSucceeds(w, c, envelope, choices)
      && choices.atMark.interruption == None && choices.afterMark == None
  {
  }

  predicate IsJobCode(code: string) {
    code == "processed" || code == "job_failed" || code == "job_completed"
  }

  /** What the part of a call from `w` on does to the inbox entry of its message. */
  ghost predicate WritesEntry(w: World, messageId: string, after: World, r: Result<string>, afterMark: Option<Error>) {
    && OnlyAt(w.inbox, after.inbox, messageId) && (messageId in w.inbox ==> messageId in after.inbox)
    && (r.Ok? ==> after.inbox == w.inbox[messageId := r.value])
    && (messageId !in w.inbox && messageId in after.inbox && afterMark == None ==> r.Ok?)
  }

  lemma MarkedWritesEntry(w: World, c: Consumer, messageId: string, code: string, atMark: Wait, afterMark: Option<Error>)
    ensures var (after, r) := Marked(w, c, messageId, code, atMark, afterMark);
      WritesEntry(w, messageId, after, r, afterMark) && after.executions == w.executions && (r.Ok? ==> r.value == code)
  {
  }

  lemma ExecutedReturns(w: World, c: Consumer, messageId: string, key: string, choices: Choices)
    ensures var (after, r) := Executed(w, c, messageId, key, choices);
      var e := ExecutionAt(w, c, messageId, key, choices.run);
      && WritesEntry(w, messageId, after, r, choices.afterMark)
      && after.executions == w.executions + [e]
      && (r.Ok? ==> IsJobCode(r.value) && e.IsReturned())
  {
    var e := ExecutionAt(w, c, messageId, key, choices.run);
    var looked := Moved(World(w.inbox, e.End().shared, w.executions + [e]), c, choices.atLook.moves);
    MarkedWritesEntry(looked, c, messageId, ResultCode(looked.shared.jobs, key), choices.atMark, choices.afterMark);
  }

  lemma ClaimingReturns(w: World, c: Consumer, messageId: string, key: string, choices: Choices)
    ensures var (after, r) := Claiming(w, c, messageId, key, choices);
      && WritesEntry(w, messageId, after, r, choices.afterMark)
      && (after.executions == w.executions || after.executions == w.executions + [ExecutionAt(w, c, messageId, key, choices.run)])
      && (r.Ok? ==> if after.executions == w.executions then r.value == "not_claimed"
                    else IsJobCode(r.value) && after.executions[|w.executions|].IsReturned())
  {
    MarkedWritesEntry(w, c, messageId, "not_claimed", choices.atMark, choices.afterMark);
    ExecutedReturns(w, c, messageId, key, choices);
  }

  /** What a return says: "duplicate" exactly for a message in the inbox, with no
      effect of the handler's own; otherwise the message is now in the inbox under its
      result code, and a code about the job means an execution that returned. */
  lemma ReturnsExactly(w: World, c: Consumer, envelope: Envelope, choices: Choices)
    ensures var (after, r) := Handled(w, c, envelope, choices);
      && (r.Ok? ==> envelope.messageId in after.inbox)
      && (envelope.messageId in w.inbox ==>
            after.inbox == w.inbox && after.executions == w.executions && (r.Ok? ==> r.value == "duplicate"))
      && (r.Ok? && envelope.messageId !in w.inbox ==>
            && after.inbox == w.inbox[envelope.messageId := r.value]
            && (r.value == "ignored_message_type" <==> envelope.messageType != JOB_REQUESTED)
            && (r.value == "invalid_payload" <==> envelope.messageType == JOB_REQUESTED && !WantsJob(envelope))
            && (IsJobCode(r.value) <==> Starts(w, c, envelope, choices))
            && (Starts(w, c, envelope, choices) ==> after.executions[|w.executions|].IsReturned()))
      && (forall id | id in w.inbox :: id in after.inbox && after.inbox[id] == w.inbox[id])
      && (forall id | id in after.inbox :: id in w.inbox || id == envelope.messageId)
      && (Records(w, c, envelope, choices) && choices.afterMark == None ==> r.Ok?)
  {
    var reached := Moved(w, c, choices.atInbox.moves);
    var id := envelope.messageId;
    if !WantsJob(envelope) {
      var code := if envelope.messageType != JOB_REQUESTED then "ignored_message_type" else "invalid_payload";
      MarkedWritesEntry(reached, c, id, code, choices.atMark, choices.afterMark);
    } else {
      ClaimingReturns(AtClaim(w, c, choices), c, id, envelope.jobKey.value, choices);
    }
  }

  // ----- jobs only move forward

  lemma {:induction false} MovesEvolve(s: JobAdmission.State, limits: JobAdmission.Limits, moves: seq<JobAdmission.Event>)
    ensures Evolves(s.jobs, JobAdmission.Run(s, limits, moves).jobs)
    decreases |moves|
  {
    if moves != [] {
      var n := |moves| - 1;
      var before := JobAdmission.Run(s, limits, moves[..n]);
      MovesEvolve(s, limits, moves[..n]);
      JobAdmission.NextEvolves(before, limits, moves[n]);
      EvolvesTransitive(s.jobs, before.jobs, JobAdmission.Run(s, limits, moves).jobs);
    }
  }

  lemma MovedEvolves(w: World, c: Consumer, moves: seq<JobAdmission.Event>, a: JobTable)
    requires Evolves(a, w.shared.jobs)
    ensures Evolves(a, Moved(w, c, moves).shared.jobs)
  {
    MovesEvolve(w.shared, c.limits, moves);
    EvolvesTransitive(a, w.shared.jobs, Moved(w, c, moves).shared.jobs);
  }

  predicate JobEnded(jobs: JobTable, key: string) {
    key in jobs && IsTerminal(jobs[key])
  }

  /** An execution moves jobs forward, and leaves its job ended if it settled it. */
  lemma ExecutionMovesOn(e: Execution)
    ensures Evolves(e.start.jobs, e.Claim().jobs) && Evolves(e.start.jobs, e.End().shared.jobs)
    ensures e.IsSettled() ==> JobEnded(e.End().shared.jobs, e.jobKey)
  {
    ClaimedEvolves(e.start.jobs, e.jobKey, e.consumer.Worker(), e.start.now, e.consumer.Lease());
    JobWorker.ExecutionEvolves(e.Claim(), e.Setting(), e.events);
    EvolvesTransitive(e.start.jobs, e.Claim().jobs, e.End().shared.jobs);
  }

  lemma MarkedEvolves(
      w: World, c: Consumer, messageId: string, code: string, atMark: Wait, afterMark: Option<Error>, a: JobTable)
    requires Evolves(a, w.shared.jobs)
    ensures Evolves(a, Marked(w, c, messageId, code, atMark, afterMark).0.shared.jobs)
  {
    MovedEvolves(w, c, atMark.moves, a);
  }

  lemma ExecutedEvolves(w: World, c: Consumer, messageId: string, key: string, choices: Choices)
    ensures var e := ExecutionAt(w, c, messageId, key, choices.run);
      var after := Executed(w, c, messageId, key, choices).0;
      Evolves(w.shared.jobs, after.shared.jobs) && Evolves(e.End().shared.jobs, after.shared.jobs)
  {
    var e := ExecutionAt(w, c, messageId, key, choices.run);
    var done := World(w.inbox, e.End().shared, w.executions + [e]);
    var looked := Moved(done, c, choices.atLook.moves);
    var ended := e.End().shared.jobs;
    ExecutionMovesOn(e);
    MovedEvolves(done, c, choices.atLook.moves, ended);
    MarkedEvolves(looked, c, messageId, ResultCode(looked.shared.jobs, key), choices.atMark, choices.afterMark, ended);
    EvolvesTransitive(w.shared.jobs, ended, Executed(w, c, messageId, key, choices).0.shared.jobs);
  }

  lemma ClaimingEvolves(w: World, c: Consumer, messageId: string, key: string, choices: Choices)
    ensures Evolves(w.shared.jobs, Claiming(w, c, messageId, key, choices).0.shared.jobs)
  {
    MarkedEvolves(w, c, messageId, "not_claimed", choices.atMark, choices.afterMark, w.shared.jobs);
    ExecutionMovesOn(ExecutionAt(w, c, messageId, key, []));
    ExecutedEvolves(w, c, messageId, key, choices);
  }

  lemma HandledEvolves(w: World, c: Consumer, envelope: Envelope, choices: Choices)
    ensures Evolves(w.shared.jobs, Handled(w, c, envelope, choices).0.shared.jobs)
  {
    var jobs := w.shared.jobs;
    var reached := Moved(w, c, choices.atInbox.moves);
    MovedEvolves(w, c, choices.atInbox.moves, jobs);
    MarkedEvolves(reached, c, envelope.messageId, "ignored_message_type", choices.atMark, choices.afterMark, jobs);
    MarkedEvolves(reached, c, envelope.messageId, "invalid_payload", choices.atMark, choices.afterMark, jobs);
    MovedEvolves(reached, c, choices.atClaim.moves, jobs);
    if WantsJob(envelope) {
      var at := AtClaim(w, c, choices);
      ClaimingEvolves(at, c, envelope.messageId, envelope.jobKey.value, choices);
      EvolvesTransitive(
        jobs, at.shared.jobs, Claiming(at, c, envelope.messageId, envelope.jobKey.value, choices).0.shared.jobs);
    }
  }

  /** The execution of a call starts on a table its job has not ended in, and a settled
      one leaves the job ended when the call is over. */
  lemma StartedBetween(w: World, c: Consumer, envelope: Envelope, choices: Choices)
    requires ArePossible(c, choices) && Starts(w, c, envelope, choices)
    ensures var (after, e) := (Handled(w, c, envelope, choices).0, Handled(w, c, envelope, choices).0.executions[|w.executions|]);
      !JobEnded(w.shared.jobs, e.jobKey) && (e.IsSettled() ==> JobEnded(after.shared.jobs, e.jobKey))
  {
    StartsExactly(w, c, envelope, choices);
    var at := AtClaim(w, c, choices);
    var key := envelope.jobKey.value;
    MovedEvolves(w, c, choices.atInbox.moves, w.shared.jobs);
    MovedEvolves(Moved(w, c, choices.atInbox.moves), c, choices.atClaim.moves, w.shared.jobs);
    ExecutedEvolves(at, c, envelope.messageId, key, choices);
    ExecutionMovesOn(ExecutionAt(at, c, envelope.messageId, key, choices.run));
  }

  lemma ExecutedCode(w: World, c: Consumer, messageId: string, key: string, choices: Choices)
    ensures var (after, r) := Executed(w, c, messageId, key, choices);
      r.Ok? ==>
        && (r.value == "job_completed" ==> key in after.shared.jobs && after.shared.jobs[key].status == Completed)
        && (r.value == "job_failed" ==> key in after.shared.jobs && after.shared.jobs[key].status == FailedJob)
        && (ExecutionAt(w, c, messageId, key, choices.run).IsSettled() ==> r.value != "processed")
  {
    var e := ExecutionAt(w, c, messageId, key, choices.run);
    var done := World(w.inbox, e.End().shared, w.executions + [e]);
    var looked := Moved(done, c, choices.atLook.moves);
    ExecutionMovesOn(e);
    MovedEvolves(done, c, choices.atLook.moves, e.End().shared.jobs);
    MovedEvolves(looked, c, choices.atMark.moves, looked.shared.jobs);
  }

  /** The result code of an execution tells how its job ended; after one that settled
      the job it is never the undecided one. */
  lemma CodeTellsTheEnd(w: World, c: Consumer, envelope: Envelope, choices: Choices)
    requires ArePossible(c, choices) && Starts(w, c, envelope, choices)
    ensures var (after, r) := Handled(w, c, envelope, choices);
      var e := after.executions[|w.executions|];
      r.Ok? ==>
        && (r.value == "job_completed" ==> e.jobKey in after.shared.jobs && after.shared.jobs[e.jobKey].status == Completed)
        && (r.value == "job_failed" ==> e.jobKey in after.shared.jobs && after.shared.jobs[e.jobKey].status == FailedJob)
        && (e.IsSettled() ==> r.value != "processed")
  {
    StartsExactly(w, c, envelope, choices);
    ExecutedCode(AtClaim(w, c, choices), c, envelope.messageId, envelope.jobKey.value, choices);
  }

  // ----- any sequence of deliveries

  /** One delivery by the broker, after moves of others since the last one. */
  datatype Delivery = Delivery(between: seq<JobAdmission.Event>, envelope: Envelope, choices: Choices)

  /** Deliveries handled one at a time. */
  function After(w: World, c: Consumer, ds: seq<Delivery>): World
    decreases |ds|
  {
    if ds == [] then w
    else
      var last := ds[|ds| - 1];
      Handled(Moved(After(w, c, ds[..|ds| - 1]), c, last.between), c, last.envelope, last.choices).0
  }

  function Before(w: World, c: Consumer, ds: seq<Delivery>, n: nat): World
    requires n < |ds|
  {
    Moved(After(w, c, ds[..n]), c, ds[n].between)
  }

  function ResultOf(w: World, c: Consumer, ds: seq<Delivery>, n: nat): Result<string>
    requires n < |ds|
  {
    Handled(Before(w, c, ds, n), c, ds[n].envelope, ds[n].choices).1
  }

  predicate StartsAt(w: World, c: Consumer, ds: seq<Delivery>, n: nat)
    requires n < |ds|
  {
    Starts(Before(w, c, ds, n), c, ds[n].envelope, ds[n].choices)
  }

  predicate RecordsAt(w: World, c: Consumer, ds: seq<Delivery>, n: nat)
    requires n < |ds|
  {
    Records(Before(w, c, ds, n), c, ds[n].envelope, ds[n].choices)
  }

  predicate AllPossible(c: Consumer, ds: seq<Delivery>) {
    forall d | d in ds :: ArePossible(c, d.choices) && AreForeign(d.between, c.Worker())
  }

  lemma AfterMore(w: World, c: Consumer, ds: seq<Delivery>, n: nat)
    requires n < |ds|
    ensures After(w, c, ds[..n + 1]) == Handled(Before(w, c, ds, n), c, ds[n].envelope, ds[n].choices).0
  {
    assert ds[..n + 1][..n] == ds[..n];
  }

  predicate RecordedBy(w: World, c: Consumer, ds: seq<Delivery>, n: nat, messageId: string)
    requires n <= |ds|
  {
    exists i: nat | i < n :: ds[i].envelope.messageId == messageId && RecordsAt(w, c, ds, i)
  }

  lemma RecordedByOneMore(w: World, c: Consumer, ds: seq<Delivery>, n: nat, messageId: string)
    requires n < |ds|
    ensures RecordedBy(w, c, ds, n + 1, messageId) <==>
      RecordedBy(w, c, ds, n, messageId) || (ds[n].envelope.messageId == messageId && RecordsAt(w, c, ds, n))
  {
  }

  lemma EntryOfOneCall(w: World, c: Consumer, envelope: Envelope, choices: Choices, messageId: string)
    ensures messageId in Handled(w, c, envelope, choices).0.inbox <==>
      messageId in w.inbox || (envelope.messageId == messageId && Records(w, c, envelope, choices))
  {
    ReturnsExactly(w, c, envelope, choices);
  }

  /** The inbox holds what it held and what the deliveries have recorded. */
  lemma {:induction false} InboxIsRecorded(w: World, c: Consumer, ds: seq<Delivery>, n: nat, messageId: string)
    requires n <= |ds|
    ensures messageId in After(w, c, ds[..n]).inbox <==> messageId in w.inbox || RecordedBy(w, c, ds, n, messageId)
    decreases n
  {
    if n == 0 {
      assert ds[..0] == [];
    } else {
      InboxIsRecorded(w, c, ds, n - 1, messageId);
      AfterMore(w, c, ds, n - 1);
      RecordedByOneMore(w, c, ds, n - 1, messageId);
      EntryOfOneCall(Before(w, c, ds, n - 1), c, ds[n - 1].envelope, ds[n - 1].choices, messageId);
    }
  }

  /** Delivery `j` starts an execution exactly when no earlier delivery has recorded
      its message, it proceeds, and the job is claimable in the state of its claim. */
  lemma RedeliveryExecutesExactly(w: World, c: Consumer, ds: seq<Delivery>, j: nat)
    requires AllPossible(c, ds) && j < |ds| && ds[j].envelope.messageId !in w.inbox
    ensures StartsAt(w, c, ds, j) <==>
      && !RecordedBy(w, c, ds, j, ds[j].envelope.messageId)
      && Proceeds(ds[j].envelope, ds[j].choices)
      && ClaimSucceeds(Before(w, c, ds, j), c, ds[j].envelope, ds[j].choices)
  {
    assert ds[j] in ds;
    InboxIsRecorded(w, c, ds, j, ds[j].envelope.messageId);
    StartsExactly(Before(w, c, ds, j), c, ds[j].envelope, ds[j].choices);
  }

  predicate ReturnedBefore(w: World, c: Consumer, ds: seq<Delivery>, n: nat, messageId: string)
    requires n <= |ds|
  {
    exists i: nat | i < n :: ds[i].envelope.messageId == messageId && ResultOf(w, c, ds, i).Ok?
  }

  /** A delivery that returned has recorded its message, now or before; and one that
      has recorded it has returned, unless it was cut short right after. */
  lemma RecordedMeansReturned(w: World, c: Consumer, ds: seq<Delivery>, n: nat, messageId: string)
    requires n <= |ds| && messageId !in w.inbox
    ensures ReturnedBefore(w, c, ds, n, messageId) ==> RecordedBy(w, c, ds, n, messageId)
    ensures (forall i: nat | i < n :: ds[i].choices.afterMark == None) ==>
      (RecordedBy(w, c, ds, n, messageId) ==> ReturnedBefore(w, c, ds, n, messageId))
  {
    forall i: nat | i < n && ds[i].envelope.messageId == messageId
      ensures ResultOf(w, c, ds, i).Ok? ==> RecordsAt(w, c, ds, i) || RecordedBy(w, c, ds, i, messageId)
      ensures ds[i].choices.afterMark == None && RecordsAt(w, c, ds, i) ==> ResultOf(w, c, ds, i).Ok?
    {
      ReturnsExactly(Before(w, c, ds, i), c, ds[i].envelope, ds[i].choices);
      InboxIsRecorded(w, c, ds, i, messageId);
    }
  }

  /** In terms of returns: when no delivery is cut short between its inbox entry and
      its return, delivery `j` starts an execution exactly when no earlier delivery of
      its message returned, it proceeds, and the job is claimable at its claim. */
  lemma RedeliveryAfterReturns(w: World, c: Consumer, ds: seq<Delivery>, j: nat)
    requires AllPossible(c, ds) && j < |ds| && ds[j].envelope.messageId !in w.inbox
    requires forall i: nat | i < j :: ds[i].choices.afterMark == None
    ensures StartsAt(w, c, ds, j) <==>
      && !ReturnedBefore(w, c, ds, j, ds[j].envelope.messageId)
      && Proceeds(ds[j].envelope, ds[j].choices)
      && ClaimSucceeds(Before(w, c, ds, j), c, ds[j].envelope, ds[j].choices)
  {
    RedeliveryExecutesExactly(w, c, ds, j);
    RecordedMeansReturned(w, c, ds, j, ds[j].envelope.messageId);
  }

  /** Once `handle` has returned for a message, every later delivery of it starts
      nothing and leaves the inbox alone, and says "duplicate" if it returns. */
  lemma LaterDeliveriesAreDuplicates(w: World, c: Consumer, ds: seq<Delivery>, i: nat, j: nat)
    requires AllPossible(c, ds) && i < j < |ds|
    requires ds[i].envelope.messageId == ds[j].envelope.messageId && ResultOf(w, c, ds, i).Ok?
    ensures ResultOf(w, c, ds, j).Ok? ==> ResultOf(w, c, ds, j) == Ok("duplicate")
    ensures var before := Before(w, c, ds, j); var after := Handled(before, c, ds[j].envelope, ds[j].choices).0;
      after.executions == before.executions && after.inbox == before.inbox
  {
    var id := ds[j].envelope.messageId;
    ReturnsExactly(Before(w, c, ds, i), c, ds[i].envelope, ds[i].choices);
    InboxIsRecorded(w, c, ds, i, id);
    if id !in w.inbox && !RecordedBy(w, c, ds, i, id) {
      assert RecordsAt(w, c, ds, i);
    }
    InboxIsRecorded(w, c, ds, j, id);
    ReturnsExactly(Before(w, c, ds, j), c, ds[j].envelope, ds[j].choices);
  }

  // ----- executions of one job

  /** Every execution began with a claim, no execution follows one that settled its
      job, and a settled job has ended. */
  ghost predicate SettledIsLast(executions: seq<Execution>, jobs: JobTable) {
    && (forall e | e in executions :: e.IsClaimed())
    && (forall i, j | 0 <= i < j < |executions| && executions[i].jobKey == executions[j].jobKey :: !executions[i].IsSettled())
    && (forall e | e in executions && e.IsSettled() :: JobEnded(jobs, e.jobKey))
  }

  lemma SettledSurvives(executions: seq<Execution>, before: JobTable, after: JobTable)
    requires SettledIsLast(executions, before) && Evolves(before, after)
    ensures SettledIsLast(executions, after)
  {
  }

  lemma OneMoreExecution(executions: seq<Execution>, before: JobTable, after: JobTable, e: Execution)
    requires SettledIsLast(executions, before) && Evolves(before, after) && e.IsClaimed()
    requires !JobEnded(before, e.jobKey) && (e.IsSettled() ==> JobEnded(after, e.jobKey))
    ensures SettledIsLast(executions + [e], after)
  {
    SettledSurvives(executions, before, after);
    forall i | 0 <= i < |executions| && executions[i].jobKey == e.jobKey ensures !executions[i].IsSettled() {
      assert executions[i] in executions;
    }
  }

  /** No job is executed again after an execution that settled it, whether that one
      returned or not, whatever is redelivered, wherever a call was cut short. */
  lemma {:induction false} NoExecutionAfterSettled(w: World, c: Consumer, ds: seq<Delivery>)
    requires AllPossible(c, ds) && w.executions == []
    ensures SettledIsLast(After(w, c, ds).executions, After(w, c, ds).shared.jobs)
    decreases |ds|
  {
    if ds != [] {
      var n := |ds| - 1;
      var d := ds[n];
      var earlier := After(w, c, ds[..n]);
      var before := Before(w, c, ds, n);
      assert d in ds && forall x | x in ds[..n] :: x in ds;
      NoExecutionAfterSettled(w, c, ds[..n]);
      MovedEvolves(earlier, c, d.between, earlier.shared.jobs);
      SettledSurvives(earlier.executions, earlier.shared.jobs, before.shared.jobs);
      HandledEvolves(before, c, d.envelope, d.choices);
      StartsExactly(before, c, d.envelope, d.choices);
      var after := Handled(before, c, d.envelope, d.choices).0;
      if Starts(before, c, d.envelope, d.choices) {
        StartedBetween(before, c, d.envelope, d.choices);
        OneMoreExecution(before.executions, before.shared.jobs, after.shared.jobs, after.executions[|before.executions|]);
      } else {
        SettledSurvives(before.executions, before.shared.jobs, after.shared.jobs);
      }
    }
  }

  lemma SettledExactly(e: Execution)
    requires e.IsClaimed() && e.End().task.updates != []
    ensures e.IsSettled() <==> !e.IsTakenOver()
  {
    JobWorker.UpdateSettlesExactly(e.Claim(), e.Setting(), e.events);
  }

  lemma ReturnedMadeUpdate(e: Execution)
    requires e.IsReturned()
    ensures |e.End().task.updates| == 1
  {
    JobWorker.TerminalUpdates(e.Claim(), e.Setting(), e.events);
  }

  /** A job is executed again after an execution that made its update, returned or not,
      only if another worker had claimed it in between. */
  lemma SecondExecutionMeansTakeover(w: World, c: Consumer, ds: seq<Delivery>, i: nat, j: nat)
    requires AllPossible(c, ds) && w.executions == []
    requires var executions := After(w, c, ds).executions;
      && i < j < |executions| && executions[i].jobKey == executions[j].jobKey
      && executions[i].End().task.updates != []
    ensures After(w, c, ds).executions[i].IsTakenOver()
  {
    NoExecutionAfterSettled(w, c, ds);
    var executions := After(w, c, ds).executions;
    assert executions[i] in executions;
    SettledExactly(executions[i]);
  }

  /** While no other worker takes a job over from an execution, each job and each
      message has at most one execution that ran to return. Redeliveries of a message
      carry the same job key. */
  lemma AtMostOneReturnedExecution(w: World, c: Consumer, ds: seq<Delivery>, i: nat, j: nat)
    requires AllPossible(c, ds) && w.executions == []
    requires var executions := After(w, c, ds).executions;
      && i < j < |executions| && executions[i].IsReturned() && !executions[i].IsTakenOver()
      && (executions[i].messageId == executions[j].messageId ==> executions[i].jobKey == executions[j].jobKey)
    ensures var executions := After(w, c, ds).executions;
      executions[i].jobKey != executions[j].jobKey && executions[i].messageId != executions[j].messageId
  {
    var executions := After(w, c, ds).executions;
    ReturnedMadeUpdate(executions[i]);
    if executions[i].jobKey == executions[j].jobKey {
      SecondExecutionMeansTakeover(w, c, ds, i, j);
      assert false;
    }
  }

  /** An execution whose lease never runs out is not taken over. */
  lemma KeptLeaseIsEnough(e: Execution)
    requires e.IsClaimed()
    requires forall n: nat | n <= |e.events| ::
      JobWorker.LeaseKept(JobWorker.Run(JobWorker.World(e.Claim(), JobWorker.NewTask()), e.Setting(), e.events[..n]), e.Setting())
    ensures !e.IsTakenOver()
  {
    JobWorker.KeptLeaseIsNotTakenOver(e.Claim(), e.Setting(), e.events);
  }

  // ----- a run with two executions of one message

  const SAMPLE_CONSUMER := Consumer("c", "t", 30, "w", 30, JobAdmission.Limits(0, 0))
  const SAMPLE_ENVELOPE := Envelope("id", JOB_REQUESTED, Some("k"))
  const IDLE := Wait([], None)
  const FINISH := [
    JobWorker.BodyEnds(JobWorker.BodyReturned, true), JobWorker.JoinEnds(false, true), JobWorker.AuditEnds(false)]

  function SampleJob(): Job {
    Job("m", "o", [], Queued, None, None, NoError)
  }

  function OwnedBy(worker: string, until: int): Job {
    SampleJob().(status := Running, workerId := Some(worker), leaseExpiresAt := Some(until))
  }

  function SampleTable(job: Job): JobTable {
    map["k" := job]
  }

  lemma JobRunMore(w: JobWorker.World, c: JobWorker.Setting, events: seq<JobWorker.Event>, e: JobWorker.Event)
    ensures JobWorker.Run(w, c, events + [e]) == JobWorker.Next(JobWorker.Run(w, c, events), c, e)
  {
    assert (events + [e])[..|events|] == events;
  }

  /** A body that returns undisturbed: the update is made, and the task returns. */
  lemma {:induction false} FinishedRun(w: JobWorker.World, c: JobWorker.Setting, events: seq<JobWorker.Event>)
    requires JobWorker.Run(w, c, events).task == JobWorker.NewTask()
    ensures var before := JobWorker.Run(w, c, events).shared;
      var end := JobWorker.Run(w, c, events + FINISH);
      && end.task.location == JobWorker.Finished(true)
      && end.shared == before.(jobs := Terminated(before.jobs, c.key, c.LeaseOwner(), Completed, NoError))
  {
    var one := events + [FINISH[0]];
    var two := one + [FINISH[1]];
    JobRunMore(w, c, events, FINISH[0]);
    JobRunMore(w, c, one, FINISH[1]);
    JobRunMore(w, c, two, FINISH[2]);
    assert events + FINISH == two + [FINISH[2]];
  }

  /** While the job runs its lease runs out and another worker claims the job. */
  const LOSE_LEASE := [
    JobWorker.Elsewhere(JobAdmission.Tick(31)), JobWorker.Elsewhere(JobAdmission.ClaimJob("k", "other", 5))]

  lemma LosingRun(w: JobWorker.World, c: JobWorker.Setting)
    requires w == JobWorker.World(JobAdmission.State(SampleTable(OwnedBy("c:t", 30)), 0), JobWorker.NewTask())
    requires c == SAMPLE_CONSUMER.Setting("k")
    ensures JobWorker.Run(w, c, LOSE_LEASE)
      == JobWorker.World(JobAdmission.State(SampleTable(OwnedBy("other", 36)), 31), JobWorker.NewTask())
  {
    JobRunMore(w, c, [], LOSE_LEASE[0]);
    JobRunMore(w, c, [LOSE_LEASE[0]], LOSE_LEASE[1]);
    assert [] + [LOSE_LEASE[0]] == [LOSE_LEASE[0]] && [LOSE_LEASE[0]] + [LOSE_LEASE[1]] == LOSE_LEASE;
    assert JobWorker.Run(w, c, []) == w;
  }

  function FirstDelivery(): Delivery {
    Delivery([], SAMPLE_ENVELOPE,
      Choices(IDLE, IDLE, None, LOSE_LEASE + FINISH, Error(Other, ""), IDLE, Wait([], Some(Error(Cancelled, ""))), None))
  }

  function SecondDelivery(): Delivery {
    Delivery([JobAdmission.Tick(6)], SAMPLE_ENVELOPE, Choices(IDLE, IDLE, None, FINISH, Error(Other, ""), IDLE, IDLE, None))
  }

  function SampleStart(): World {
    World(map[], JobAdmission.State(SampleTable(SampleJob()), 0), [])
  }

  function FirstExecution(): Execution {
    Execution("id", SAMPLE_CONSUMER, "k", JobAdmission.State(SampleTable(SampleJob()), 0), LOSE_LEASE + FINISH)
  }

  function SecondExecution(): Execution {
    Execution("id", SAMPLE_CONSUMER, "k", JobAdmission.State(SampleTable(OwnedBy("other", 36)), 37), FINISH)
  }

  lemma NoMoves(w: World, c: Consumer)
    ensures Moved(w, c, []) == w
  {
  }

  lemma FirstExecutionEnds()
    ensures FirstExecution().IsReturned()
    ensures FirstExecution().End().shared == JobAdmission.State(SampleTable(OwnedBy("other", 36)), 31)
  {
    var e := FirstExecution();
    assert SAMPLE_CONSUMER.Worker() == "c:t";
    assert e.Claim() == JobAdmission.State(SampleTable(OwnedBy("c:t", 30)), 0);
    var w := JobWorker.World(e.Claim(), JobWorker.NewTask());
    LosingRun(w, e.Setting());
    FinishedRun(w, e.Setting(), LOSE_LEASE);
    assert OwnedBy("other", 36).workerId != Some(e.Setting().LeaseOwner());
  }

  lemma SecondExecutionEnds()
    ensures SecondExecution().IsReturned()
    ensures "k" in SecondExecution().End().shared.jobs && SecondExecution().End().shared.jobs["k"].status == Completed
  {
    var e := SecondExecution();
    assert SAMPLE_CONSUMER.Worker() == "c:t";
    assert e.Claim() == JobAdmission.State(SampleTable(OwnedBy("c:t", 67)), 37);
    var w := JobWorker.World(e.Claim(), JobWorker.NewTask());
    assert JobWorker.Run(w, e.Setting(), []) == w;
    FinishedRun(w, e.Setting(), []);
    assert [] + FINISH == FINISH;
  }

  lemma FirstDeliveryRuns()
    ensures Handled(SampleStart(), SAMPLE_CONSUMER, SAMPLE_ENVELOPE, FirstDelivery().choices)
      == (World(map[], JobAdmission.State(SampleTable(OwnedBy("other", 36)), 31), [FirstExecution()]),
          Raised(Error(Cancelled, "")))
  {
    var w := SampleStart();
    NoMoves(w, SAMPLE_CONSUMER);
    FirstExecutionEnds();
    var done := World(map[], FirstExecution().End().shared, [FirstExecution()]);
    NoMoves(done, SAMPLE_CONSUMER);
    assert [] + [FirstExecution()] == [FirstExecution()];
    assert ExecutionAt(w, SAMPLE_CONSUMER, "id", "k", LOSE_LEASE + FINISH) == FirstExecution();
  }

  lemma SecondDeliveryRuns(w: World)
    requires w == World(map[], JobAdmission.State(SampleTable(OwnedBy("other", 36)), 37), [FirstExecution()])
    ensures var (after, r) := Handled(w, SAMPLE_CONSUMER, SAMPLE_ENVELOPE, SecondDelivery().choices);
      after.executions == [FirstExecution(), SecondExecution()] && r == Ok("job_completed")
  {
    NoMoves(w, SAMPLE_CONSUMER);
    SecondExecutionEnds();
    var done := World(map[], SecondExecution().End().shared, [FirstExecution()] + [SecondExecution()]);
    NoMoves(done, SAMPLE_CONSUMER);
    assert [FirstExecution()] + [SecondExecution()] == [FirstExecution(), SecondExecution()];
    assert ExecutionAt(w, SAMPLE_CONSUMER, "id", "k", FINISH) == SecondExecution();
  }

  lemma BetweenDeliveries(w: World)
    requires w.shared.now == 31
    ensures Moved(w, SAMPLE_CONSUMER, SecondDelivery().between) == w.(shared := w.shared.(now := 37))
  {
    JobAdmission.RunMore(w.shared, SAMPLE_CONSUMER.limits, [], JobAdmission.Tick(6));
    assert [] + [JobAdmission.Tick(6)] == [JobAdmission.Tick(6)];
  }

  function SampleDeliveries(): seq<Delivery> {
    [FirstDelivery(), SecondDelivery()]
  }

  lemma SampleAfterFirst()
    ensures Before(SampleStart(), SAMPLE_CONSUMER, SampleDeliveries(), 1)
      == World(map[], JobAdmission.State(SampleTable(OwnedBy("other", 36)), 37), [FirstExecution()])
  {
    var w, c, ds := SampleStart(), SAMPLE_CONSUMER, SampleDeliveries();
    assert ds[..0] == [] && After(w, c, []) == w;
    NoMoves(w, c);
    AfterMore(w, c, ds, 0);
    FirstDeliveryRuns();
    BetweenDeliveries(After(w, c, ds[..1]));
  }

  lemma SampleIsPossible()
    ensures AllPossible(SAMPLE_CONSUMER, SampleDeliveries())
  {
    assert SAMPLE_CONSUMER.Worker() == "c:t";
    assert "c:t" != "other";
  }

  /** Step by step: the job is claimed, its lease runs out, another worker claims it,
      the update of the first execution finds the lease lost, the inbox entry is cut
      short, the other lease runs out too, and the redelivery claims the job again.
      Both executions of the one message return. */
  lemma LostLeaseAllowsSecondExecution()
    ensures SampleDeliveries()[0].envelope == SampleDeliveries()[1].envelope
    ensures AllPossible(SAMPLE_CONSUMER, SampleDeliveries())
    ensures ResultOf(SampleStart(), SAMPLE_CONSUMER, SampleDeliveries(), 1) == Ok("job_completed")
    ensures var executions := After(SampleStart(), SAMPLE_CONSUMER, SampleDeliveries()).executions;
      |executions| == 2 && executions[0].IsReturned() && executions[1].IsReturned()
        && executions[0].jobKey == executions[1].jobKey && executions[0].messageId == executions[1].messageId
  {
    var ds := SampleDeliveries();
    SampleIsPossible();
    SampleAfterFirst();
    SecondDeliveryRuns(Before(SampleStart(), SAMPLE_CONSUMER, ds, 1));
    AfterMore(SampleStart(), SAMPLE_CONSUMER, ds, 1);
    assert ds[..2] == ds;
    FirstExecutionEnds();
    SecondExecutionEnds();
  }
}
