/** Execution of one claimed job beside its heartbeat, and the polling loop. Each
    repository call is one atomic step; the steps of the job task, the heartbeat
    task, other workers and operators interleave in any order. */
module JobWorker {
  import opened Common
  import opened Jobs
  import JobAdmission

  /** How the job body ended: `CancelledError`, another exception, or a return. */
  datatype BodyEnd = BodyReturned | BodyRaised(name: string) | BodyCancelled

  datatype After = ThenComplete | ThenReturn | ThenRaise

  /** Where the job task is. `Joining` is the `finally` block, in which the
      heartbeat has been cancelled and is awaited. */
  datatype Location =
    | InBody
    | AuditingFailure
    | Joining(after: After)
    | AuditingCompletion
    | Finished(returned: bool)

  datatype HeartbeatLocation = Sleeping | Beating | Stopped

  datatype Update = Update(worker: string, status: JobStatus, error: JobError)

  /** The job task and its heartbeat. `pending` is a cancellation delivered to the
      task that it has not raised yet. From `bodyEnd` on, the fields record what
      has happened: how the body ended, the terminal updates the repository was
      asked for, whether the task held its lease then, a failing update, an
      interrupted join, a cancellation from outside. */
  datatype Task = Task(
    location: Location,
    heartbeat: HeartbeatLocation,
    requestSeen: bool,
    pending: bool,
    bodyEnd: Option<BodyEnd>,
    updates: seq<Update>,
    settled: bool,
    updateFailed: bool,
    joinInterrupted: bool,
    cancelledOutside: bool)

  datatype World = World(shared: JobAdmission.State, task: Task)

  /** What `execute_claimed_job` is called with, and by whom. */
  datatype Setting = Setting(key: string, claimedBy: Option<string>, executor: string, lease: int, limits: JobAdmission.Limits) {
    /** `job.worker_id or self._worker_id` */
    function LeaseOwner(): string {
      if claimedBy.Some? && claimedBy.value != "" then claimedBy.value else executor
    }
  }

  function NewTask(): Task {
    Task(InBody, Sleeping, false, false, None, [], false, false, false, false)
  }

  datatype Event =
    | BodyEnds(end: BodyEnd, saved: bool)
    | AuditEnds(raises: bool)
    | JoinEnds(interrupted: bool, saved: bool)
    | HeartbeatReads
    | HeartbeatWrites
    | HeartbeatStops
    | CancelFromOutside
    | Elsewhere(event: JobAdmission.Event)

  /** A terminal update by the lease owner; `saved` tells whether the call came
      through or raised. */
  function Ended(w: World, c: Setting, status: JobStatus, error: JobError, saved: bool, next: Location): World
    requires status == Completed || status == FailedJob
  {
    if saved then
      var task := w.task.(
        location := next,
        updates := w.task.updates + [Update(c.LeaseOwner(), status, error)],
        settled := HoldsLease(w.shared.jobs, c.key, c.LeaseOwner()));
      World(w.shared.(jobs := Terminated(w.shared.jobs, c.key, c.LeaseOwner(), status, error)), task)
    else
      var leaving := if next == AuditingFailure then Joining(ThenRaise) else Finished(false);
      w.(task := Leaving(w.task.(updateFailed := true), leaving))
  }

  /** Entering the `finally` block cancels the heartbeat. */
  function Leaving(task: Task, location: Location): Task {
    if location.Joining? then task.(location := location, heartbeat := Stopped) else task.(location := location)
  }

  function AfterBody(w: World, c: Setting, end: BodyEnd, saved: bool): World {
    var ended := w.(task := w.task.(bodyEnd := Some(end), pending := false));
    match end
    case BodyReturned => ended.(task := Leaving(ended.task, Joining(ThenComplete)))
    case BodyRaised(name) => Ended(ended, c, FailedJob, Crashed(name), saved, AuditingFailure)
    case BodyCancelled =>
      if w.task.requestSeen then Ended(ended, c, FailedJob, CancelledByUser, saved, AuditingFailure)
      else ended.(task := Leaving(ended.task, Joining(ThenRaise)))
  }

  function AfterAudit(task: Task, raises: bool): Task {
    if task.location == AuditingFailure then
      Leaving(task.(pending := false), Joining(if raises then ThenRaise else ThenReturn))
    else if task.location == AuditingCompletion then
      task.(location := Finished(!raises), pending := false)
    else task
  }

  function AfterJoin(w: World, c: Setting, interrupted: bool, saved: bool): World {
    if !w.task.location.Joining? then w
    else if interrupted && w.task.pending then
      w.(task := w.task.(location := Finished(false), pending := false, joinInterrupted := true))
    else
      match w.task.location.after
      case ThenComplete => Ended(w, c, Completed, NoError, saved, AuditingCompletion)
      case ThenReturn => w.(task := w.task.(location := Finished(true)))
      case ThenRaise => w.(task := w.task.(location := Finished(false)))
  }

  predicate CancellationAsked(jobs: JobTable, key: string) {
    key in jobs && jobs[key].lastError == CancelRequested
  }

  function AfterHeartbeatReads(w: World, c: Setting): World {
    if w.task.heartbeat != Sleeping then w
    else if c.key !in w.shared.jobs then w.(task := w.task.(heartbeat := Stopped))
    else if CancellationAsked(w.shared.jobs, c.key) then
      w.(task := w.task.(heartbeat := Stopped, requestSeen := true, pending := true))
    else w.(task := w.task.(heartbeat := Beating))
  }

  function AfterHeartbeatWrites(w: World, c: Setting): World {
    if w.task.heartbeat != Beating then w
    else
      var held := HoldsLease(w.shared.jobs, c.key, c.LeaseOwner());
      World(
        w.shared.(jobs := Beaten(w.shared.jobs, c.key, c.LeaseOwner(), w.shared.now, c.lease)),
        w.task.(heartbeat := if held then Sleeping else Stopped))
  }

  function Next(w: World, c: Setting, e: Event): World {
    match e
    case BodyEnds(end, saved) => if w.task.location == InBody then AfterBody(w, c, end, saved) else w
    case AuditEnds(raises) => w.(task := AfterAudit(w.task, raises))
    case JoinEnds(interrupted, saved) => AfterJoin(w, c, interrupted, saved)
    case HeartbeatReads => AfterHeartbeatReads(w, c)
    case HeartbeatWrites => AfterHeartbeatWrites(w, c)
    case HeartbeatStops => w.(task := w.task.(heartbeat := Stopped))
    case CancelFromOutside =>
      if w.task.location.Finished? then w else w.(task := w.task.(pending := true, cancelledOutside := true))
    case Elsewhere(event) => w.(shared := JobAdmission.Next(w.shared, c.limits, event))
  }

  function Run(w: World, c: Setting, events: seq<Event>): World {
    if events == [] then w else Next(Run(w, c, events[..|events| - 1]), c, events[|events| - 1])
  }

  // ----- terminal updates

  /** The update each end of the body calls for. */
  function ExpectedUpdate(c: Setting, end: BodyEnd): Update {
    match end
    case BodyReturned => Update(c.LeaseOwner(), Completed, NoError)
    case BodyRaised(name) => Update(c.LeaseOwner(), FailedJob, Crashed(name))
    case BodyCancelled => Update(c.LeaseOwner(), FailedJob, CancelledByUser)
  }

  predicate UpdateIsDue(task: Task) {
    && task.bodyEnd.Some?
    && (task.bodyEnd.value == BodyCancelled ==> task.requestSeen)
    && !task.updateFailed
    && (task.bodyEnd.value == BodyReturned ==> !task.joinInterrupted && !task.location.Joining?)
  }

  /** What holds at every moment: the updates made are exactly those that are due. */
  ghost predicate Consistent(task: Task, c: Setting) {
    && (task.location == InBody <==> task.bodyEnd == None)
    && task.updates == (if UpdateIsDue(task) then [ExpectedUpdate(c, task.bodyEnd.value)] else [])
    && (task.heartbeat != Stopped ==> task.location == InBody || task.location == AuditingFailure)
    && (task.location == AuditingFailure ==> task.bodyEnd != Some(BodyReturned) && UpdateIsDue(task))
    && (task.location == AuditingCompletion ==> task.bodyEnd == Some(BodyReturned) && UpdateIsDue(task))
    && (task.location.Joining? ==> (task.location.after == ThenComplete <==> task.bodyEnd == Some(BodyReturned)))
    && (task.location.Joining? && task.location.after == ThenReturn ==> UpdateIsDue(task))
    && (task.location.Joining? && task.location.after == ThenComplete ==> !task.updateFailed)
    && (task.location == Finished(true) ==> UpdateIsDue(task))
    && (task.joinInterrupted ==> task.location == Finished(false))
    && (task.location == InBody ==> !task.updateFailed && !task.joinInterrupted)
    && (task.bodyEnd == Some(BodyReturned) && task.pending ==> task.cancelledOutside)
    && (task.bodyEnd == Some(BodyReturned) && task.joinInterrupted ==> task.cancelledOutside)
  }

  lemma BodyKeepsConsistent(w: World, c: Setting, end: BodyEnd, saved: bool)
    requires Consistent(w.task, c) && w.task.location == InBody
    ensures Consistent(AfterBody(w, c, end, saved).task, c)
  {
  }

  lemma AuditKeepsConsistent(task: Task, c: Setting, raises: bool)
    requires Consistent(task, c)
    ensures Consistent(AfterAudit(task, raises), c)
  {
  }

  lemma JoinKeepsConsistent(w: World, c: Setting, interrupted: bool, saved: bool)
    requires Consistent(w.task, c)
    ensures Consistent(AfterJoin(w, c, interrupted, saved).task, c)
  {
  }

  lemma HeartbeatKeepsConsistent(w: World, c: Setting)
    requires Consistent(w.task, c)
    ensures Consistent(AfterHeartbeatReads(w, c).task, c) && Consistent(AfterHeartbeatWrites(w, c).task, c)
  {
  }

  lemma NextKeepsConsistent(w: World, c: Setting, e: Event)
    requires Consistent(w.task, c)
    ensures Consistent(Next(w, c, e).task, c)
  {
    match e
    case BodyEnds(end, saved) =>
      if w.task.location == InBody {
        BodyKeepsConsistent(w, c, end, saved);
      }
    case AuditEnds(raises) => AuditKeepsConsistent(w.task, c, raises);
    case JoinEnds(interrupted, saved) => JoinKeepsConsistent(w, c, interrupted, saved);
    case HeartbeatReads => HeartbeatKeepsConsistent(w, c);
    case HeartbeatWrites => HeartbeatKeepsConsistent(w, c);
    case HeartbeatStops =>
    case CancelFromOutside =>
    case Elsewhere(event) =>
  }

  lemma {:induction false} RunIsConsistent(shared: JobAdmission.State, c: Setting, events: seq<Event>)
    ensures Consistent(Run(World(shared, NewTask()), c, events).task, c)
    decreases |events|
  {
    if events != [] {
      var before := events[..|events| - 1];
      RunIsConsistent(shared, c, before);
      NextKeepsConsistent(Run(World(shared, NewTask()), c, before), c, events[|events| - 1]);
    }
  }

  /** In every interleaving a claimed job gets at most one terminal update, under
      the lease owner of the claimed record and matching the end of its body; a
      normal return means exactly one. */
  lemma TerminalUpdates(shared: JobAdmission.State, c: Setting, events: seq<Event>)
    ensures var task := Run(World(shared, NewTask()), c, events).task;
      && |task.updates| <= 1
      && (forall u | u in task.updates :: u.worker == c.LeaseOwner())
      && (forall u | u in task.updates :: u.status == Completed <==> task.bodyEnd == Some(BodyReturned))
      && (forall u | u in task.updates ::
            u.error == CancelledByUser <==> task.bodyEnd == Some(BodyCancelled) && task.requestSeen)
      && (task.location == Finished(true) ==> |task.updates| == 1)
  {
    RunIsConsistent(shared, c, events);
  }

  /** When the repository accepts the update, a finished task has made none
      exactly when it was cancelled with no request seen, or interrupted in the
      join after its body had returned. */
  lemma NoUpdateExactlyWhenCancelled(shared: JobAdmission.State, c: Setting, events: seq<Event>)
    ensures var task := Run(World(shared, NewTask()), c, events).task;
      task.location.Finished? && !task.updateFailed ==>
        (task.updates == [] <==>
          || (task.bodyEnd == Some(BodyCancelled) && !task.requestSeen)
          || (task.bodyEnd == Some(BodyReturned) && task.joinInterrupted))
  {
    RunIsConsistent(shared, c, events);
  }

  predicate UpdatesComeThrough(events: seq<Event>) {
    forall e | e in events :: (e.BodyEnds? || e.JoinEnds?) ==> e.saved
  }

  predicate NotCancelledOutside(events: seq<Event>) {
    CancelFromOutside !in events
  }

  /** The body is only cancelled by cancellations the task received. */
  predicate OnlyDelivered(shared: JobAdmission.State, c: Setting, events: seq<Event>) {
    forall n: nat | n < |events| && events[n].BodyEnds? && events[n].end == BodyCancelled ::
      Run(World(shared, NewTask()), c, events[..n]).task.pending
  }

  /** No update failed, and every cancellation the task got came with a request. */
  predicate IsUndisturbed(task: Task) {
    && !task.updateFailed && !task.cancelledOutside
    && (task.pending ==> task.requestSeen)
    && (task.bodyEnd == Some(BodyCancelled) ==> task.requestSeen)
  }

  lemma NextKeepsUndisturbed(w: World, c: Setting, e: Event)
    requires IsUndisturbed(w.task) && e != CancelFromOutside
    requires (e.BodyEnds? || e.JoinEnds?) ==> e.saved
    requires e.BodyEnds? && e.end == BodyCancelled ==> w.task.pending
    ensures IsUndisturbed(Next(w, c, e).task)
  {
  }

  lemma PrefixIsDelivered(shared: JobAdmission.State, c: Setting, events: seq<Event>, n: nat)
    requires OnlyDelivered(shared, c, events) && n <= |events|
    ensures OnlyDelivered(shared, c, events[..n])
  {
    forall m: nat | m < n && events[..n][m].BodyEnds? && events[..n][m].end == BodyCancelled
      ensures Run(World(shared, NewTask()), c, events[..n][..m]).task.pending
    {
      assert events[..n][m] == events[m] && events[..n][..m] == events[..m];
    }
  }

  lemma {:induction false} HistoryOfRun(shared: JobAdmission.State, c: Setting, events: seq<Event>)
    requires UpdatesComeThrough(events) && NotCancelledOutside(events) && OnlyDelivered(shared, c, events)
    ensures IsUndisturbed(Run(World(shared, NewTask()), c, events).task)
    decreases |events|
  {
    if events != [] {
      var n := |events| - 1;
      assert forall e | e in events[..n] :: e in events;
      PrefixIsDelivered(shared, c, events, n);
      HistoryOfRun(shared, c, events[..n]);
      assert events[n] in events;
      NextKeepsUndisturbed(Run(World(shared, NewTask()), c, events[..n]), c, events[n]);
    }
  }

  /** Left alone from outside, over a repository that answers, every finished
      task has made exactly one terminal update. */
  lemma ExactlyOneUpdate(shared: JobAdmission.State, c: Setting, events: seq<Event>)
    requires UpdatesComeThrough(events) && NotCancelledOutside(events) && OnlyDelivered(shared, c, events)
    ensures var task := Run(World(shared, NewTask()), c, events).task;
      task.location.Finished? ==> |task.updates| == 1
  {
    HistoryOfRun(shared, c, events);
    RunIsConsistent(shared, c, events);
  }

  // ----- who asked for a cancellation

  predicate AskedByOperator(events: seq<Event>, key: string, operatorHuid: string) {
    Elsewhere(JobAdmission.AskCancel(key, operatorHuid)) in events
  }

  /** Elsewhere a request is put on a job only by its operator's own call. */
  lemma RequestAppearsElsewhere(s: JobAdmission.State, limits: JobAdmission.Limits, e: JobAdmission.Event, key: string)
    requires key in s.jobs
    ensures var after := JobAdmission.Next(s, limits, e).jobs;
      && key in after && after[key].operatorHuid == s.jobs[key].operatorHuid
      && (CancellationAsked(after, key) ==>
            CancellationAsked(s.jobs, key) || e == JobAdmission.AskCancel(key, s.jobs[key].operatorHuid))
  {
    JobAdmission.NextEvolves(s, limits, e);
  }

  /** Between two moments a request appears, or is seen, only if the operator asked. */
  lemma RequestAppears(w: World, c: Setting, e: Event)
    requires c.key in w.shared.jobs
    ensures var after := Next(w, c, e);
      && c.key in after.shared.jobs
      && after.shared.jobs[c.key].operatorHuid == w.shared.jobs[c.key].operatorHuid
      && (CancellationAsked(after.shared.jobs, c.key) ==>
            || CancellationAsked(w.shared.jobs, c.key)
            || e == Elsewhere(JobAdmission.AskCancel(c.key, w.shared.jobs[c.key].operatorHuid)))
      && (after.task.requestSeen ==> w.task.requestSeen || CancellationAsked(w.shared.jobs, c.key))
  {
    match e
    case Elsewhere(event) => RequestAppearsElsewhere(w.shared, c.limits, event, c.key);
    case BodyEnds(end, saved) =>
    case JoinEnds(interrupted, saved) =>
    case HeartbeatWrites =>
    case _ =>
  }

  lemma {:induction false} RequestWasAsked(shared: JobAdmission.State, c: Setting, events: seq<Event>)
    requires c.key in shared.jobs && shared.jobs[c.key].lastError != CancelRequested
    ensures var w := Run(World(shared, NewTask()), c, events);
      && c.key in w.shared.jobs && w.shared.jobs[c.key].operatorHuid == shared.jobs[c.key].operatorHuid
      && (CancellationAsked(w.shared.jobs, c.key) || w.task.requestSeen ==>
            AskedByOperator(events, c.key, shared.jobs[c.key].operatorHuid))
    decreases |events|
  {
    if events != [] {
      var n := |events| - 1;
      RequestWasAsked(shared, c, events[..n]);
      RequestAppears(Run(World(shared, NewTask()), c, events[..n]), c, events[n]);
      assert forall e | e in events[..n] :: e in events;
      assert events[n] in events;
    }
  }

  /** A job ends with the cancelled code only if its own operator asked for it
      while the job ran. */
  lemma CancelledCodeWasAsked(shared: JobAdmission.State, c: Setting, events: seq<Event>)
    requires c.key in shared.jobs && shared.jobs[c.key].lastError != CancelRequested
    ensures var task := Run(World(shared, NewTask()), c, events).task;
      (exists u | u in task.updates :: u.error == CancelledByUser) ==>
        AskedByOperator(events, c.key, shared.jobs[c.key].operatorHuid)
  {
    RequestWasAsked(shared, c, events);
    TerminalUpdates(shared, c, events);
  }

  // ----- what an execution leaves in the job table

  lemma NextEvolves(w: World, c: Setting, e: Event)
    ensures Evolves(w.shared.jobs, Next(w, c, e).shared.jobs)
  {
    if e.Elsewhere? {
      JobAdmission.NextEvolves(w.shared, c.limits, e.event);
    }
  }

  predicate SettledMeansEnded(w: World, c: Setting) {
    w.task.settled ==> c.key in w.shared.jobs && IsTerminal(w.shared.jobs[c.key])
  }

  lemma UpdateKeepsSettled(w: World, c: Setting, status: JobStatus, error: JobError, saved: bool, next: Location)
    requires status == Completed || status == FailedJob
    requires SettledMeansEnded(w, c)
    ensures SettledMeansEnded(Ended(w, c, status, error, saved, next), c)
  {
    TerminatedEvolves(w.shared.jobs, c.key, c.LeaseOwner(), status, error);
  }

  lemma NextKeepsSettled(w: World, c: Setting, e: Event)
    requires SettledMeansEnded(w, c)
    ensures SettledMeansEnded(Next(w, c, e), c)
  {
    NextEvolves(w, c, e);
    match e
    case BodyEnds(end, saved) =>
      var ended := w.(task := w.task.(bodyEnd := Some(end), pending := false));
      if end.BodyRaised? {
        UpdateKeepsSettled(ended, c, FailedJob, Crashed(end.name), saved, AuditingFailure);
      } else if end == BodyCancelled {
        UpdateKeepsSettled(ended, c, FailedJob, CancelledByUser, saved, AuditingFailure);
      }
    case JoinEnds(interrupted, saved) =>
      UpdateKeepsSettled(w, c, Completed, NoError, saved, AuditingCompletion);
    case _ =>
  }

  /** Everything that happens during an execution only moves jobs forward, and an
      execution that made its update under a lease it still held leaves its job
      ended. */
  lemma {:induction false} ExecutionEvolves(shared: JobAdmission.State, c: Setting, events: seq<Event>)
    ensures var w := Run(World(shared, NewTask()), c, events);
      && Evolves(shared.jobs, w.shared.jobs)
      && SettledMeansEnded(w, c)
    decreases |events|
  {
    if events != [] {
      var n := |events| - 1;
      var before := Run(World(shared, NewTask()), c, events[..n]);
      ExecutionEvolves(shared, c, events[..n]);
      NextKeepsSettled(before, c, events[n]);
      NextEvolves(before, c, events[n]);
      EvolvesTransitive(shared.jobs, before.shared.jobs, Next(before, c, events[n]).shared.jobs);
    }
  }

  // ----- when the lease is lost

  /** The event is another worker's, an operator's, or the clock's. */
  predicate IsForeign(e: JobAdmission.Event, worker: string) {
    e.ClaimJob? || e.Heartbeat? || e.EndJob? ==> e.worker != worker
  }

  predicate OthersAreForeign(events: seq<Event>, worker: string) {
    forall e | e in events && e.Elsewhere? :: IsForeign(e.event, worker)
  }

  /** Another worker claims the job at this step. */
  predicate TakesOver(w: World, c: Setting, e: Event) {
    && e.Elsewhere? && e.event.ClaimJob? && e.event.key == c.key
    && c.key in w.shared.jobs && IsClaimable(w.shared.jobs[c.key], w.shared.now)
  }

  ghost predicate TakenOver(shared: JobAdmission.State, c: Setting, events: seq<Event>) {
    exists n: nat | n < |events| :: TakesOver(Run(World(shared, NewTask()), c, events[..n]), c, events[n])
  }

  lemma TakenOverMore(shared: JobAdmission.State, c: Setting, events: seq<Event>, e: Event)
    ensures TakenOver(shared, c, events + [e]) <==>
      TakenOver(shared, c, events) || TakesOver(Run(World(shared, NewTask()), c, events), c, e)
  {
    var all := events + [e];
    assert all[..|events|] == events && all[|events|] == e;
    forall n: nat | n < |events| ensures all[..n] == events[..n] && all[n] == events[n] {
    }
    if TakenOver(shared, c, events) {
      var n: nat :| n < |events| && TakesOver(Run(World(shared, NewTask()), c, events[..n]), c, events[n]);
      assert TakesOver(Run(World(shared, NewTask()), c, all[..n]), c, all[n]);
    }
    if TakesOver(Run(World(shared, NewTask()), c, events), c, e) {
      assert TakesOver(Run(World(shared, NewTask()), c, all[..|events|]), c, all[|events|]);
    }
  }

  /** Before its update an execution holds its lease unless it was taken over; its
      update found the lease held unless it was taken over before. */
  predicate LeaseState(w: World, c: Setting, takenOver: bool) {
    && c.key in w.shared.jobs
    && (w.task.settled ==> w.task.updates != [] && IsTerminal(w.shared.jobs[c.key]))
    && (w.task.updates == [] && !takenOver ==> HoldsLease(w.shared.jobs, c.key, c.LeaseOwner()))
    && (w.task.updates != [] ==> (w.task.settled <==> !takenOver))
    && (takenOver ==> !w.task.settled && w.shared.jobs[c.key].workerId != Some(c.LeaseOwner()))
  }

  lemma UpdateKeepsLeaseState(
      w: World, c: Setting, takenOver: bool, status: JobStatus, error: JobError, saved: bool, next: Location)
    requires status == Completed || status == FailedJob
    requires LeaseState(w, c, takenOver) && w.task.updates == []
    ensures LeaseState(Ended(w, c, status, error, saved, next), c, takenOver)
  {
  }

  lemma ElsewhereKeepsLeaseState(w: World, c: Setting, takenOver: bool, e: JobAdmission.Event)
    requires LeaseState(w, c, takenOver) && IsForeign(e, c.LeaseOwner())
    ensures LeaseState(Next(w, c, Elsewhere(e)), c, takenOver || TakesOver(w, c, Elsewhere(e)))
  {
  }

  lemma OwnStepKeepsLeaseState(w: World, c: Setting, takenOver: bool, e: Event)
    requires LeaseState(w, c, takenOver) && Consistent(w.task, c) && !e.Elsewhere?
    ensures LeaseState(Next(w, c, e), c, takenOver)
  {
    match e
    case BodyEnds(end, saved) =>
      if w.task.location == InBody {
        var ended := w.(task := w.task.(bodyEnd := Some(end), pending := false));
        if end.BodyRaised? {
          UpdateKeepsLeaseState(ended, c, takenOver, FailedJob, Crashed(end.name), saved, AuditingFailure);
        } else if end == BodyCancelled {
          UpdateKeepsLeaseState(ended, c, takenOver, FailedJob, CancelledByUser, saved, AuditingFailure);
        }
      }
    case JoinEnds(interrupted, saved) =>
      if w.task.location.Joining? && w.task.location.after == ThenComplete {
        UpdateKeepsLeaseState(w, c, takenOver, Completed, NoError, saved, AuditingCompletion);
      }
    case _ =>
  }

  lemma {:induction false} LeaseStateOfRun(shared: JobAdmission.State, c: Setting, events: seq<Event>)
    requires HoldsLease(shared.jobs, c.key, c.LeaseOwner()) && OthersAreForeign(events, c.LeaseOwner())
    ensures LeaseState(Run(World(shared, NewTask()), c, events), c, TakenOver(shared, c, events))
    decreases |events|
  {
    if events != [] {
      var n := |events| - 1;
      var before := Run(World(shared, NewTask()), c, events[..n]);
      assert events == events[..n] + [events[n]];
      assert forall e | e in events[..n] :: e in events;
      assert events[n] in events;
      LeaseStateOfRun(shared, c, events[..n]);
      TakenOverMore(shared, c, events[..n], events[n]);
      if events[n].Elsewhere? {
        ElsewhereKeepsLeaseState(before, c, TakenOver(shared, c, events[..n]), events[n].event);
      } else {
        RunIsConsistent(shared, c, events[..n]);
        OwnStepKeepsLeaseState(before, c, TakenOver(shared, c, events[..n]), events[n]);
      }
    }
  }

  /** The terminal update of an execution takes effect exactly when no other worker
      has claimed the job since. */
  lemma UpdateSettlesExactly(shared: JobAdmission.State, c: Setting, events: seq<Event>)
    requires HoldsLease(shared.jobs, c.key, c.LeaseOwner()) && OthersAreForeign(events, c.LeaseOwner())
    requires Run(World(shared, NewTask()), c, events).task.updates != []
    ensures Run(World(shared, NewTask()), c, events).task.settled <==> !TakenOver(shared, c, events)
  {
    LeaseStateOfRun(shared, c, events);
  }

  /** The lease the execution holds does not run out. */
  predicate LeaseKept(w: World, c: Setting) {
    HoldsLease(w.shared.jobs, c.key, c.LeaseOwner()) ==>
      w.shared.jobs[c.key].leaseExpiresAt.Some? && w.shared.jobs[c.key].leaseExpiresAt.value >= w.shared.now
  }

  lemma KeptLeaseIsNotTaken(w: World, c: Setting, e: Event)
    requires LeaseState(w, c, false) && LeaseKept(w, c)
    ensures !TakesOver(w, c, e)
  {
  }

  /** Then nobody takes the job over. */
  lemma {:induction false} KeptLeaseIsNotTakenOver(shared: JobAdmission.State, c: Setting, events: seq<Event>)
    requires HoldsLease(shared.jobs, c.key, c.LeaseOwner()) && OthersAreForeign(events, c.LeaseOwner())
    requires forall n: nat | n <= |events| :: LeaseKept(Run(World(shared, NewTask()), c, events[..n]), c)
    ensures !TakenOver(shared, c, events)
    decreases |events|
  {
    if events != [] {
      var n := |events| - 1;
      assert events == events[..n] + [events[n]];
      assert forall e | e in events[..n] :: e in events;
      forall m: nat | m <= n ensures LeaseKept(Run(World(shared, NewTask()), c, events[..n][..m]), c) {
        assert events[..n][..m] == events[..m];
      }
      KeptLeaseIsNotTakenOver(shared, c, events[..n]);
      LeaseStateOfRun(shared, c, events[..n]);
      TakenOverMore(shared, c, events[..n], events[n]);
      KeptLeaseIsNotTaken(Run(World(shared, NewTask()), c, events[..n]), c, events[n]);
    }
  }

  // ----- the polling loop

  /** Where the supervisor is: at the loop test, awaiting `acquire_next`, between
      polls, or gone after the stop event. */
  datatype Supervisor = Testing | Acquiring | Waiting | Gone

  /** Where `stop` is: not called, awaiting the supervisor, awaiting the job tasks it
      found in the set (some of them cancelled after the grace period), or returned. */
  datatype Stopping = NotCalled | AwaitingSupervisor | AwaitingTasks(found: set<string>) | Returned

  /** `tasks` is the worker's set; `running` are the job tasks that have not ended. A
      task leaves the set by its done callback, some time after it has ended. */
  datatype Poller = Poller(tasks: set<string>, running: set<string>, supervisor: Supervisor, stop: Stopping)

  datatype PollEvent =
    | Test
    | Acquired(task: string)
    | NothingToAcquire
    | Wake
    | TaskEnds(task: string)
    | Callback(task: string)
    | Stop
    | StopGoesOn

  /** `max(1, concurrency)` */
  function Concurrency(configured: int): int {
    if configured < 1 then 1 else configured
  }

  /** One step of `_run`, of a job task, of its done callback, or of `stop`. The wait
      and the gather of `stop` are over only when every task found has ended. */
  function Poll(p: Poller, configured: int, e: PollEvent): Poller {
    match e
    case Test =>
      if p.supervisor != Testing then p
      else if p.stop != NotCalled then p.(supervisor := Gone)
      else if |p.tasks| < Concurrency(configured) then p.(supervisor := Acquiring)
      else p.(supervisor := Waiting)
    case Acquired(task) =>
      if p.supervisor == Acquiring && task !in p.tasks && task !in p.running then
        p.(tasks := p.tasks + {task}, running := p.running + {task}, supervisor := Testing)
      else p
    case NothingToAcquire => if p.supervisor == Acquiring then p.(supervisor := Waiting) else p
    case Wake => if p.supervisor == Waiting then p.(supervisor := Testing) else p
    case TaskEnds(task) => p.(running := p.running - {task})
    case Callback(task) => if task in p.running then p else p.(tasks := p.tasks - {task})
    case Stop => if p.stop == NotCalled then p.(stop := AwaitingSupervisor) else p
    case StopGoesOn =>
      match p.stop
      case AwaitingSupervisor => if p.supervisor == Gone then p.(stop := AwaitingTasks(p.tasks)) else p
      case AwaitingTasks(found) => if found * p.running == {} then p.(tasks := p.tasks - found, stop := Returned) else p
      case _ => p
  }

  function PollRun(configured: int, events: seq<PollEvent>): Poller {
    if events == [] then Poller({}, {}, Testing, NotCalled)
    else Poll(PollRun(configured, events[..|events| - 1]), configured, events[|events| - 1])
  }

  /** The task set is within the concurrency, strictly so while a job is awaited; it
      holds every running task; what `stop` awaits covers all that still run. */
  predicate IsWithin(p: Poller, configured: int) {
    && |p.tasks| <= Concurrency(configured)
    && p.running <= p.tasks
    && (p.supervisor == Acquiring ==> |p.tasks| < Concurrency(configured))
    && (p.supervisor == Gone ==> p.stop != NotCalled)
    && (p.stop.AwaitingTasks? ==> p.supervisor == Gone && p.running <= p.stop.found)
    && (p.stop == Returned ==> p.supervisor == Gone && p.running == {})
  }

  lemma PollKeepsWithin(p: Poller, configured: int, e: PollEvent)
    requires IsWithin(p, configured)
    ensures IsWithin(Poll(p, configured, e), configured)
  {
    var after := Poll(p, configured, e);
    if !e.Acquired? {
      JobAdmission.SubsetIsSmaller(after.tasks, p.tasks);
    }
    match e
    case StopGoesOn =>
      if p.stop.AwaitingTasks? && p.stop.found * p.running == {} {
        assert p.running == p.stop.found * p.running;
      }
    case _ =>
  }

  /** The task set never outgrows the concurrency, however completions and the
      stop event interleave with the awaited acquisitions. */
  lemma {:induction false} TasksNeverExceedConcurrency(configured: int, events: seq<PollEvent>)
    ensures IsWithin(PollRun(configured, events), configured)
    ensures |PollRun(configured, events).running| <= Concurrency(configured)
    decreases |events|
  {
    if events != [] {
      TasksNeverExceedConcurrency(configured, events[..|events| - 1]);
      PollKeepsWithin(PollRun(configured, events[..|events| - 1]), configured, events[|events| - 1]);
    }
    JobAdmission.SubsetIsSmaller(PollRun(configured, events).running, PollRun(configured, events).tasks);
  }

  lemma {:induction false} ReturnedStaysReturned(configured: int, events: seq<PollEvent>, more: seq<PollEvent>)
    requires PollRun(configured, events).stop == Returned
    ensures PollRun(configured, events + more).stop == Returned
    decreases |more|
  {
    if more == [] {
      assert events + more == events;
    } else {
      ReturnedStaysReturned(configured, events, more[..|more| - 1]);
      assert (events + more)[..|events + more| - 1] == events + more[..|more| - 1];
    }
  }

  /** Once `stop` has returned, no job task is running and none runs ever after. */
  lemma NothingRunsAfterStop(configured: int, events: seq<PollEvent>, more: seq<PollEvent>)
    requires PollRun(configured, events).stop == Returned
    ensures PollRun(configured, events + more).running == {}
  {
    ReturnedStaysReturned(configured, events, more);
    TasksNeverExceedConcurrency(configured, events + more);
  }

  /** And `stop` does not return while a task runs: it waits for each of them. */
  lemma StopWaitsForTasks(configured: int, events: seq<PollEvent>)
    ensures var p := PollRun(configured, events);
      p.running != {} ==> Poll(p, configured, StopGoesOn).stop != Returned
  {
    TasksNeverExceedConcurrency(configured, events);
    var p := PollRun(configured, events);
    if p.running != {} && p.stop.AwaitingTasks? {
      assert p.stop.found * p.running == p.running;
    }
  }
}
