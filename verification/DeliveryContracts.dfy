/** What delivery promises about one attachment and about one message, stated on
    snapshots of the two repositories and the exchange log. */
module DeliveryContracts {
  import opened Common
  import opened AttachmentStore
  import opened Gateways

  /** `payloads` and `files` tell how the two repositories keep payloads. */
  datatype Store = Store(
    mappings: map<AttachmentKey, MappingRecord>,
    stages: map<StageKey, StageRecord>,
    log: seq<Exchange>,
    payloads: PayloadStorage,
    files: PayloadStorage)

  predicate SameStorage(before: Store, after: Store) {
    after.payloads == before.payloads && after.files == before.files
  }

  /** `AttachmentDeliveryOutcome`, without the attachment's descriptive data. */
  datatype Outcome = Outcome(
    index: nat,
    status: ImportStatus,
    phase: Phase,
    blocks: bool,
    targetSyncId: Option<string>,
    reason: Option<string>)

  function ReasonOf(payload: ErrorPayload): Option<string> {
    match payload
    case NoPayload => None
    case Failure(_, message) => Some(message)
    case Policy(reason) => Some(reason)
  }

  function OutcomeFromRecord(index: nat, record: MappingRecord): (o: Outcome)
    ensures o.blocks <==> (record.status == Failed || record.status == Ambiguous) && PhaseOf(record.errorPayload) == SendPhase
  {
    var phase := PhaseOf(record.errorPayload);
    Outcome(
      index,
      record.status,
      phase,
      (record.status == Failed || record.status == Ambiguous) && phase == SendPhase,
      record.targetSyncId,
      ReasonOf(record.errorPayload))
  }

  predicate Blocks(record: MappingRecord) {
    OutcomeFromRecord(0, record).blocks
  }

  /** How `_deliver_attachment` treats the record it finds. */
  predicate AnswersFromRecord(record: MappingRecord, retryFailed: bool) {
    || record.status == Imported
    || record.status == Skipped
    || (record.status == Failed && !retryFailed && !IsCancelCode(record.errorCode))
    || (record.status == Failed && retryFailed
        && PhaseOf(record.errorPayload) != SendPhase && PhaseOf(record.errorPayload) != UploadPhase)
  }

  /** Only the slot of attachment `key` at `target` may differ, the log only
      grows, and every new exchange concerns that attachment. */
  ghost predicate OnlySlot(before: Store, after: Store, key: AttachmentKey, target: string) {
    && OnlyAt(before.mappings, after.mappings, key)
    && OnlyAt(before.stages, after.stages, StageKey(key, target))
    && SameStorage(before, after)
    && before.log <= after.log
    && forall e | e in Since(before.log, after.log) :: Concerns(e.request, key)
  }

  /** The slot itself is as it was and nothing was asked about it. */
  ghost predicate Untouched(before: Store, after: Store, key: AttachmentKey) {
    && Find(after.mappings, key) == Find(before.mappings, key)
    && (forall target :: Find(after.stages, StageKey(key, target)) == Find(before.stages, StageKey(key, target)))
    && before.log <= after.log
    && forall e | e in Since(before.log, after.log) :: !Concerns(e.request, key)
  }

  lemma UntouchedTransitive(a: Store, b: Store, c: Store, key: AttachmentKey)
    requires Untouched(a, b, key) && Untouched(b, c, key)
    ensures Untouched(a, c, key)
  {
    SinceSplits(a.log, b.log, c.log);
    forall target ensures Find(c.stages, StageKey(key, target)) == Find(a.stages, StageKey(key, target)) {
      assert Find(b.stages, StageKey(key, target)) == Find(a.stages, StageKey(key, target));
    }
  }

  lemma OnlySlotLeavesOthers(before: Store, after: Store, key: AttachmentKey, target: string, other: AttachmentKey)
    requires OnlySlot(before, after, key, target) && other != key
    ensures Untouched(before, after, other)
  {
    assert Find(after.mappings, other) == Find(before.mappings, other);
    forall t ensures Find(after.stages, StageKey(other, t)) == Find(before.stages, StageKey(other, t)) {
      assert StageKey(other, t) != StageKey(key, target);
    }
  }

  /** Every slot but the one of `key` at `target` is untouched. */
  ghost predicate Besides(before: Store, after: Store, key: AttachmentKey, target: string) {
    && SameStorage(before, after)
    && before.log <= after.log
    && (forall k: AttachmentKey :: k != key ==> Untouched(before, after, k))
    && (forall k: StageKey :: k.targetChatId != target ==> Find(after.stages, k) == Find(before.stages, k))
  }

  lemma OnlySlotIsBesides(before: Store, after: Store, key: AttachmentKey, target: string)
    requires OnlySlot(before, after, key, target)
    ensures Besides(before, after, key, target)
  {
    forall k: AttachmentKey | k != key ensures Untouched(before, after, k) {
      OnlySlotLeavesOthers(before, after, key, target, k);
    }
  }

  lemma BesidesTransitive(a: Store, b: Store, c: Store, key: AttachmentKey, target: string)
    requires Besides(a, b, key, target) && Besides(b, c, key, target)
    ensures Besides(a, c, key, target)
  {
    forall k: AttachmentKey | k != key ensures Untouched(a, c, k) {
      UntouchedTransitive(a, b, c, k);
    }
    forall k: StageKey | k.targetChatId != target ensures Find(c.stages, k) == Find(a.stages, k) {
      assert Find(b.stages, k) == Find(a.stages, k);
    }
  }

  datatype CanonicalAttachment = CanonicalAttachment(sizeBytes: Option<int>)

  datatype Prefetched = Prefetched(download: Option<Downloaded>, error: Option<Error>, skippedReason: Option<string>)

  /** The arguments of one `deliver` call. */
  datatype Delivery = Delivery(
    message: MessageKey,
    attachments: seq<CanonicalAttachment>,
    attachmentFailures: seq<string>,
    target: string,
    migrateMedia: bool,
    existingPrimary: Option<string>,
    existingBody: Option<string>,
    retryFailed: bool,
    prefetched: map<nat, Prefetched>)
  {
    predicate IsReplay() {
      existingPrimary.Some?
    }

    function Key(i: nat): AttachmentKey {
      AttachmentKey(message, i)
    }
  }

  datatype DeliveryResult = DeliveryResult(body: string, sentSyncId: string, outcomes: seq<Outcome>, primaryReused: bool)
  {
    predicate HasBlockingFailure() {
      exists o | o in outcomes :: o.blocks
    }

    predicate HasAmbiguousFailure() {
      exists o | o in outcomes :: o.blocks && o.status == Ambiguous
    }
  }

  /** Attachment `i` is settled: a replay takes its outcome from the record. */
  ghost predicate Settled(d: Delivery, s: Store, i: nat) {
    Find(s.mappings, d.Key(i)).Some? && !Blocks(Find(s.mappings, d.Key(i)).value)
  }

  ghost predicate KeepsSettled(d: Delivery, before: Store, after: Store) {
    d.IsReplay() && d.migrateMedia ==>
      forall i: nat :: i < |d.attachments| && Settled(d, before, i) ==> Untouched(before, after, d.Key(i))
  }

  /** Every attachment has exactly one outcome, at its own position, and the
      outcome is read off the record the call leaves behind. */
  ghost predicate OutcomesAreRecords(d: Delivery, after: Store, outcomes: seq<Outcome>) {
    && |outcomes| == |d.attachments|
    && forall i: nat :: i < |d.attachments| ==>
         && Find(after.mappings, d.Key(i)).Some?
         && outcomes[i] == OutcomeFromRecord(i, Find(after.mappings, d.Key(i)).value)
  }

  /** No record and no stage of this message exists yet. */
  ghost predicate IsFirst(d: Delivery, s: Store) {
    && d.existingPrimary == None
    && (forall i: nat :: i < |d.attachments| ==>
          && Find(s.mappings, d.Key(i)) == None
          && Find(s.stages, StageKey(d.Key(i), d.target)) == None)
  }

  /** The follow-up send of `key` within `calls` ended in a refusal. */
  predicate FollowUpRaised(calls: seq<Exchange>, key: AttachmentKey) {
    var answer := FollowUpAnswer(calls, key);
    answer.Some? && answer.value.Refused?
  }

  predicate FollowUpRaisedAmbiguous(calls: seq<Exchange>, key: AttachmentKey) {
    FollowUpRaised(calls, key) && FollowUpAnswer(calls, key).value.error.kind == AmbiguousDelivery
  }

  /** `AttachmentUploadResolution`: exactly one of its three possibilities. */
  datatype UploadResolution =
    | UseStaged(staged: StagedFile)
    | UseOutcome(outcome: Outcome)
    | UseDirectFile

  function Rec(s: Store, key: AttachmentKey): Option<MappingRecord> {
    Find(s.mappings, key)
  }

  function Stg(s: Store, key: AttachmentKey, target: string): Option<StageRecord> {
    Find(s.stages, StageKey(key, target))
  }

  /** The errors an attachment may let escape: interruptions and the refusal to
      touch an item in an ambiguous state. */
  predicate IsStop(e: Error) {
    IsInterruption(e) || e.kind == AmbiguousDelivery
  }

  /** An earlier upload left a complete file. */
  predicate IsUploaded(stage: Option<StageRecord>) {
    && stage.Some? && (stage.value.status == Uploaded || stage.value.status == Attached)
    && stage.value.payload.Some? && stage.value.payload.value.complete
  }

  /** An earlier upload failed and is not to be repeated. */
  predicate GivenUp(stage: Option<StageRecord>, retryFailed: bool) {
    stage.Some? && stage.value.status == StageFailed && !retryFailed && !IsCancelCode(stage.value.errorCode)
  }

  /** What `_ensure_uploaded_attachment` may ask and how it may resolve: a file
      already uploaded or given up is not uploaded again; a staged file comes from
      the stage record and leaves the mapping alone, a decided outcome is read off
      the mapping record, a direct file follows a failed stage. */
  ghost predicate UploadResult(d: Delivery, i: nat, before: Store, after: Store, r: Result<UploadResolution>) {
    var key := d.Key(i);
    var calls := Since(before.log, after.log);
    var stage := Stg(after, key, d.target);
    && (forall e | e in calls :: e.request == Upload(key))
    && (IsUploaded(Stg(before, key, d.target)) ==> calls == [] && (r.Ok? ==> r.value.UseStaged?))
    && (GivenUp(Stg(before, key, d.target), d.retryFailed) && Rec(before, key).Some? ==>
          calls == [] && (r.Ok? ==> r.value.UseOutcome?))
    && (r.Raised? ==> IsStop(r.error))
    && (r.Ok? ==>
      match r.value
      case UseStaged(staged) =>
        && Rec(after, key) == Rec(before, key)
        && stage.Some? && (stage.value.status == Uploaded || stage.value.status == Attached)
        && stage.value.payload == (if calls == [] then Some(staged) else StoredFile(after.files, staged))
        && (calls == [] ==> stage == Stg(before, key, d.target))
      case UseDirectFile =>
        && Rec(after, key) == Rec(before, key)
        && stage.Some? && stage.value.status == StageFailed && calls != []
      case UseOutcome(outcome) =>
        && Rec(after, key).Some?
        && outcome == OutcomeFromRecord(i, Rec(after, key).value)
        && if calls == [] then
             && Rec(after, key) == Rec(before, key)
             && GivenUp(Stg(before, key, d.target), d.retryFailed)
           else
             && outcome.status == Failed
             && (outcome.phase == UploadPhase || outcome.phase == UnknownPhase || Rec(after, key) == Rec(before, key))
             && (Rec(before, key).Some? ==> Rec(before, key).value.status != Processing))
  }

  predicate IsAttached(s: Store, key: AttachmentKey, target: string, syncId: string) {
    && Stg(s, key, target).Some?
    && Stg(s, key, target).value.status == Attached
    && Stg(s, key, target).value.targetSyncId == Some(syncId)
  }

  /** The record says what the follow-up send answered, as far as it is stored. */
  predicate RecordsSend(record: MappingRecord, answer: Answer, storage: PayloadStorage) {
    match answer
    case GotSent(syncId) =>
      record.status == Imported && record.targetSyncId == Some(syncId) && record.errorPayload == NoPayload
    case Refused(error) =>
      && record.status == (if error.kind == AmbiguousDelivery then Ambiguous else Failed)
      && record.errorPayload == StoredPayload(storage, Failure(SendPhase, error.message))
    case _ => false
  }

  /** From a claimed record: an outcome read off the record left behind, which
      says what the send answered, or the attachment stays in processing because
      an earlier upload had failed. */
  ghost predicate UploadedAndSent(d: Delivery, i: nat, before: Store, after: Store, r: Result<Outcome>) {
    var key := d.Key(i);
    var left := Rec(after, key);
    var calls := Since(before.log, after.log);
    && (forall e | e in calls :: e.request == Upload(key) || IsFollowUp(e.request, key))
    && LastSendDecides(calls)
    && (r.Raised? ==> IsStop(r.error))
    && (r.Ok? ==> left.Some? && r.value == OutcomeFromRecord(i, left.value))
    && (r.Ok? ==>
      match FollowUpAnswer(calls, key)
      case Some(answer) => RecordsSend(left.value, answer, after.payloads)
      case None =>
        && left.value.status == Processing
        && Stg(before, key, d.target).Some? && Stg(before, key, d.target).value.status == StageFailed)
  }

  /** What `_deliver_attachment` promises for attachment `i`, by the record it finds:
      a decided record is answered without a call; an ambiguous or processing one is
      refused without a call; otherwise the record left behind says what the send
      answered, or the attachment stays in processing because an earlier upload failed. */
  ghost predicate FollowUpResult(d: Delivery, i: nat, before: Store, after: Store, r: Result<Outcome>) {
    var key := d.Key(i);
    var found := Rec(before, key);
    var calls := Since(before.log, after.log);
    && (found.Some? && AnswersFromRecord(found.value, d.retryFailed) ==>
          && after == before
          && (r.Ok? ==> r.value == OutcomeFromRecord(i, found.value))
          && (r.Raised? ==> IsInterruption(r.error)))
    && (found.Some? && found.value.status == Ambiguous ==> after == before && r.Raised?)
    && (found.Some? && found.value.status == Processing ==> calls == [] && r.Raised?)
    && (!(found.Some? && AnswersFromRecord(found.value, d.retryFailed)) ==> UploadedAndSent(d, i, before, after, r))
  }

  /** What `_mark_inline_attachment_imported` promises after the message went out. */
  ghost predicate InlineResult(d: Delivery, i: nat, syncId: string, attach: bool, before: Store, after: Store, r: Result<Outcome>) {
    var key := d.Key(i);
    var found := Rec(before, key);
    && after.log == before.log
    && (r.Raised? ==> IsStop(r.error))
    && (found.Some? && (found.value.status == Imported || found.value.status == Skipped) ==> after == before)
    && (found.Some? && (found.value.status == Processing || found.value.status == Ambiguous) ==> r.Raised?)
    && (r.Ok? ==>
      && Rec(after, key).Some? && r.value == OutcomeFromRecord(i, Rec(after, key).value)
      && (r.value.status == Imported || r.value.status == Skipped)
      && (found == None || found.value.status == Failed ==>
        && r.value.status == Imported && r.value.targetSyncId == Some(syncId)
        && (attach ==> IsAttached(after, key, d.target, syncId))))
  }

  /** What a cancelled delivery of `key` leaves behind: a failed record with the
      cancellation code, and no upload in processing. */
  ghost predicate IsReleased(s: Store, key: AttachmentKey, target: string) {
    && Rec(s, key).Some? && Rec(s, key).value.status == Failed
    && Rec(s, key).value.errorCode == Some(CancelledByOperator)
    && PhaseOf(Rec(s, key).value.errorPayload) != SendPhase && PhaseOf(Rec(s, key).value.errorPayload) != UploadPhase
    && (Stg(s, key, target).Some? ==> Stg(s, key, target).value.status != StageProcessing)
  }

  /** Calls that do not concern `key` do not change its follow-up answer. */
  lemma FollowUpAnswerUnaffected(a: Store, b: Store, c: Store, key: AttachmentKey)
    requires a.log <= b.log && Untouched(b, c, key)
    ensures FollowUpAnswer(Since(a.log, c.log), key) == FollowUpAnswer(Since(a.log, b.log), key)
  {
    SinceSplits(a.log, b.log, c.log);
    NoFollowUp(Since(b.log, c.log), key);
    FollowUpAnswerConcat(Since(a.log, b.log), Since(b.log, c.log), key);
  }

  /** The outcome of one attachment on a first delivery, against the calls made:
      it blocks exactly when its follow-up send raised and the phase of an error is
      stored, it is ambiguous exactly when the send raised ambiguously, it is never
      left in processing, and when imported it carries the id of the message it went
      out with. */
  predicate FirstOutcome(
    outcome: Outcome, calls: seq<Exchange>, key: AttachmentKey, primarySyncId: string, storage: PayloadStorage)
  {
    var answer := FollowUpAnswer(calls, key);
    && (outcome.blocks <==> storage != Omitted && FollowUpRaised(calls, key))
    && (outcome.status == Ambiguous <==> FollowUpRaisedAmbiguous(calls, key))
    && outcome.status != Processing
    && (outcome.status == Imported ==>
          outcome.targetSyncId == Some(if answer.Some? && answer.value.GotSent? then answer.value.syncId else primarySyncId))
  }

  /** At most the first `n` attachments of this message, at this target, changed. */
  ghost predicate OnlyFirst(d: Delivery, n: nat, before: Store, after: Store) {
    && SameStorage(before, after)
    && before.log <= after.log
    && (forall k: AttachmentKey :: (k.message != d.message || k.index >= n) ==> Untouched(before, after, k))
    && (forall k: StageKey :: k.targetChatId != d.target ==> Find(after.stages, k) == Find(before.stages, k))
  }

  lemma OnlyFirstStep(d: Delivery, n: nat, a: Store, b: Store, c: Store, i: nat)
    requires OnlyFirst(d, n, a, b) && Besides(b, c, d.Key(i), d.target)
    ensures OnlyFirst(d, if i < n then n else i + 1, a, c)
  {
    forall k: AttachmentKey | k.message != d.message || k.index >= (if i < n then n else i + 1)
      ensures Untouched(a, c, k)
    {
      UntouchedTransitive(a, b, c, k);
    }
    forall k: StageKey | k.targetChatId != d.target
      ensures Find(c.stages, k) == Find(a.stages, k)
    {
      assert Find(b.stages, k) == Find(a.stages, k);
    }
  }

  datatype Prepared = Prepared(index: nat, file: FilePayload)

  predicate IsPrepared(prepared: seq<Prepared>, i: nat) {
    exists j | 0 <= j < |prepared| :: prepared[j].index == i
  }

  predicate Increasing(prepared: seq<Prepared>) {
    forall j, k | 0 <= j < k < |prepared| :: prepared[j].index < prepared[k].index
  }

  /** State of `_prepare_message` after the first `n` attachments: each of them is
      either decided, with an outcome read off its record, or prepared with its
      slot untouched, and never both. */
  ghost predicate PreparedUpTo(
    d: Delivery, n: nat, before: Store, after: Store, prepared: seq<Prepared>, outcomes: map<nat, Outcome>)
  {
    && OnlyFirst(d, n, before, after)
    && after.stages == before.stages
    && (forall e | e in Since(before.log, after.log) :: e.request.Download?)
    && Increasing(prepared)
    && (forall j | 0 <= j < |prepared| :: prepared[j].index < n)
    && (forall i: nat :: i in outcomes <==> i < n && !IsPrepared(prepared, i))
    && (forall i: nat | i in outcomes :: DecidedWell(d, before, after, i, outcomes[i]))
    && (forall i: nat | IsPrepared(prepared, i) :: PreparedWell(d, before, after, i))
  }

  ghost predicate DecidedWell(d: Delivery, before: Store, after: Store, i: nat, outcome: Outcome) {
    && Rec(after, d.Key(i)).Some?
    && outcome == OutcomeFromRecord(i, Rec(after, d.Key(i)).value)
    && (d.IsReplay() && d.migrateMedia && Settled(d, before, i) ==> Untouched(before, after, d.Key(i)))
    && (Rec(before, d.Key(i)) == None ==> !outcome.blocks && (outcome.status == Failed || outcome.status == Skipped))
    && (!d.migrateMedia ==> outcome.status == Skipped)
    && (!d.IsReplay() ==> outcome.status == Failed || outcome.status == Skipped)
  }

  ghost predicate PreparedWell(d: Delivery, before: Store, after: Store, i: nat) {
    && d.migrateMedia
    && Rec(after, d.Key(i)) == Rec(before, d.Key(i))
    && !(d.IsReplay() && Settled(d, before, i))
  }

  lemma DecidedWellStays(d: Delivery, a: Store, b: Store, c: Store, i: nat, outcome: Outcome)
    requires DecidedWell(d, a, b, i, outcome) && Untouched(b, c, d.Key(i))
    ensures DecidedWell(d, a, c, i, outcome)
  {
    if d.IsReplay() && d.migrateMedia && Settled(d, a, i) {
      UntouchedTransitive(a, b, c, d.Key(i));
    }
  }

  /** One more attachment: decided when `decided` is present, prepared otherwise. */
  lemma PreparedStep(
      d: Delivery, n: nat, a: Store, b: Store, c: Store, prepared: seq<Prepared>, outcomes: map<nat, Outcome>,
      decided: Option<Outcome>, file: FilePayload)
    requires PreparedUpTo(d, n, a, b, prepared, outcomes)
    requires OnlySlot(b, c, d.Key(n), d.target) && c.stages == b.stages
    requires forall e | e in Since(b.log, c.log) :: e.request.Download?
    requires decided.Some? ==> DecidedWell(d, a, c, n, decided.value)
    requires decided == None ==> PreparedWell(d, a, c, n)
    ensures decided.Some? ==> PreparedUpTo(d, n + 1, a, c, prepared, outcomes[n := decided.value])
    ensures decided == None ==> PreparedUpTo(d, n + 1, a, c, prepared + [Prepared(n, file)], outcomes)
  {
    OnlySlotIsBesides(b, c, d.Key(n), d.target);
    OnlyFirstStep(d, n, a, b, c, n);
    SinceSplits(a.log, b.log, c.log);
    forall i: nat | i in outcomes ensures DecidedWell(d, a, c, i, outcomes[i]) {
      DecidedWellStays(d, a, b, c, i, outcomes[i]);
    }
    forall i: nat | IsPrepared(prepared, i) ensures PreparedWell(d, a, c, i) {
      assert Untouched(b, c, d.Key(i));
    }
    if decided == None {
      var more := prepared + [Prepared(n, file)];
      forall i: nat ensures IsPrepared(more, i) <==> IsPrepared(prepared, i) || i == n {
        if IsPrepared(prepared, i) {
          var j :| 0 <= j < |prepared| && prepared[j].index == i;
          assert more[j].index == i;
        }
        assert more[|prepared|].index == n;
      }
    }
  }

  /** Every attachment of a replay keeps the outcome already recorded for it. */
  ghost predicate AllKept(d: Delivery, s: Store) {
    && d.IsReplay()
    && forall i: nat :: i < |d.attachments| ==>
         if d.migrateMedia then Settled(d, s, i)
         else Rec(s, d.Key(i)).Some? && Rec(s, d.Key(i)).value.status == Skipped
  }

  /** What `_prepare_message` promises however it ends. */
  ghost predicate PreparationFrame(d: Delivery, before: Store, after: Store) {
    && OnlyFirst(d, |d.attachments|, before, after)
    && after.stages == before.stages
    && (forall e | e in Since(before.log, after.log) :: e.request.Download?)
    && KeepsSettled(d, before, after)
    && (!d.migrateMedia ==> after.log == before.log)
    && (AllKept(d, before) ==> after == before)
  }

  lemma PreparedKeepsSettled(
      d: Delivery, n: nat, a: Store, b: Store, c: Store, prepared: seq<Prepared>, outcomes: map<nat, Outcome>)
    requires n < |d.attachments| && PreparedUpTo(d, n, a, b, prepared, outcomes)
    requires Besides(b, c, d.Key(n), d.target)
    requires d.IsReplay() && d.migrateMedia && Settled(d, b, n) ==> c == b
    ensures KeepsSettled(d, a, c)
  {
    if d.IsReplay() && d.migrateMedia {
      forall i: nat | i < |d.attachments| && Settled(d, a, i) ensures Untouched(a, c, d.Key(i)) {
        if i < n {
          assert i in outcomes;
          assert DecidedWell(d, a, b, i, outcomes[i]);
        } else {
          assert Untouched(a, b, d.Key(i));
        }
        assert Settled(d, b, i);
        assert i != n ==> Untouched(b, c, d.Key(i));
        UntouchedTransitive(a, b, c, d.Key(i));
      }
    }
  }

  lemma PreparedMeetsFrame(
      d: Delivery, a: Store, b: Store, prepared: seq<Prepared>, outcomes: map<nat, Outcome>)
    requires PreparedUpTo(d, |d.attachments|, a, b, prepared, outcomes)
    ensures KeepsSettled(d, a, b)
  {
    if d.IsReplay() && d.migrateMedia {
      forall i: nat | i < |d.attachments| && Settled(d, a, i) ensures Untouched(a, b, d.Key(i)) {
        assert i in outcomes;
        assert DecidedWell(d, a, b, i, outcomes[i]);
      }
    }
  }

  /** State of `deliver` once the prepared attachments before `m` are dealt with. */
  ghost predicate DeliveredUpTo(
    d: Delivery, before: Store, after: Store, prepared: seq<Prepared>, m: nat, outcomes: map<nat, Outcome>, primarySyncId: string)
  {
    && m <= |prepared|
    && OnlyFirst(d, |d.attachments|, before, after)
    && KeepsSettled(d, before, after)
    && Increasing(prepared)
    && (forall j | 0 <= j < |prepared| :: prepared[j].index < |d.attachments|)
    && (forall i: nat :: i in outcomes <==> i < |d.attachments| && !IsPrepared(prepared[m..], i))
    && (forall i: nat | i in outcomes :: DeliveredWell(d, before, after, i, outcomes[i], primarySyncId))
    && (forall i: nat | IsPrepared(prepared[m..], i) :: StillPrepared(d, before, after, i))
  }

  ghost predicate DeliveredWell(d: Delivery, before: Store, after: Store, i: nat, outcome: Outcome, primarySyncId: string) {
    && Rec(after, d.Key(i)).Some?
    && outcome == OutcomeFromRecord(i, Rec(after, d.Key(i)).value)
    && (!d.migrateMedia ==> outcome.status == Skipped)
    && (IsFirst(d, before) ==> FirstOutcome(outcome, Since(before.log, after.log), d.Key(i), primarySyncId, before.payloads))
  }

  /** Nothing but downloads was asked about `key`. */
  predicate OnlyDownloaded(calls: seq<Exchange>, key: AttachmentKey) {
    forall e | e in calls && Concerns(e.request, key) :: e.request.Download?
  }

  ghost predicate StillPrepared(d: Delivery, before: Store, after: Store, i: nat) {
    && PreparedWell(d, before, after, i)
    && Stg(after, d.Key(i), d.target) == Stg(before, d.Key(i), d.target)
    && OnlyDownloaded(Since(before.log, after.log), d.Key(i))
  }

  /** The log gained sends of the message itself and nothing else changed. */
  ghost predicate OnlyPrimarySends(before: Store, after: Store) {
    && after.mappings == before.mappings
    && after.stages == before.stages
    && SameStorage(before, after)
    && before.log <= after.log
    && forall e | e in Since(before.log, after.log) :: e.request.SendPrimary?
  }

  lemma OnlyPrimarySendsIsUntouched(before: Store, after: Store, key: AttachmentKey)
    requires OnlyPrimarySends(before, after)
    ensures Untouched(before, after, key)
  {
  }

  lemma PreparedThenPrimary(
      d: Delivery, a: Store, b: Store, c: Store, prepared: seq<Prepared>, outcomes: map<nat, Outcome>, primarySyncId: string)
    requires PreparedUpTo(d, |d.attachments|, a, b, prepared, outcomes) && KeepsSettled(d, a, b)
    requires OnlyPrimarySends(b, c)
    ensures DeliveredUpTo(d, a, c, prepared, 0, outcomes, primarySyncId)
  {
    assert prepared[0..] == prepared;
    SinceSplits(a.log, b.log, c.log);
    forall key: AttachmentKey ensures Untouched(a, b, key) ==> Untouched(a, c, key) {
      OnlyPrimarySendsIsUntouched(b, c, key);
      if Untouched(a, b, key) {
        UntouchedTransitive(a, b, c, key);
      }
    }
    forall i: nat ensures FollowUpAnswer(Since(a.log, c.log), d.Key(i)) == None {
      NoFollowUp(Since(a.log, c.log), d.Key(i));
    }
    forall i: nat | i in outcomes ensures DeliveredWell(d, a, c, i, outcomes[i], primarySyncId) {
      assert DecidedWell(d, a, b, i, outcomes[i]);
      if IsFirst(d, a) {
        assert Rec(a, d.Key(i)) == None;
      }
    }
    forall i: nat | IsPrepared(prepared, i) ensures StillPrepared(d, a, c, i) {
      assert PreparedWell(d, a, b, i);
    }
  }

  lemma DeliveredWellStays(d: Delivery, a: Store, b: Store, c: Store, i: nat, outcome: Outcome, primarySyncId: string)
    requires a.log <= b.log
    requires DeliveredWell(d, a, b, i, outcome, primarySyncId) && Untouched(b, c, d.Key(i))
    ensures DeliveredWell(d, a, c, i, outcome, primarySyncId)
  {
    FollowUpAnswerUnaffected(a, b, c, d.Key(i));
  }

  lemma StillPreparedStays(d: Delivery, a: Store, b: Store, c: Store, i: nat)
    requires a.log <= b.log
    requires StillPrepared(d, a, b, i) && Untouched(b, c, d.Key(i))
    ensures StillPrepared(d, a, c, i)
  {
    SinceSplits(a.log, b.log, c.log);
    assert Find(c.stages, StageKey(d.Key(i), d.target)) == Find(b.stages, StageKey(d.Key(i), d.target));
  }

  /** A step on the slot of the next prepared attachment keeps what was promised. */
  lemma DeliveryFrameStep(
      d: Delivery, a: Store, b: Store, c: Store, prepared: seq<Prepared>, m: nat, outcomes: map<nat, Outcome>, primarySyncId: string)
    requires DeliveredUpTo(d, a, b, prepared, m, outcomes, primarySyncId) && m < |prepared|
    requires Besides(b, c, d.Key(prepared[m].index), d.target)
    ensures OnlyFirst(d, |d.attachments|, a, c) && KeepsSettled(d, a, c)
  {
    var i := prepared[m].index;
    assert prepared[m..][0].index == i;
    assert StillPrepared(d, a, b, i);
    OnlyFirstStep(d, |d.attachments|, a, b, c, i);
    if d.IsReplay() && d.migrateMedia {
      forall j: nat | j < |d.attachments| && Settled(d, a, j) ensures Untouched(a, c, d.Key(j)) {
        assert Untouched(a, b, d.Key(j));
        UntouchedTransitive(a, b, c, d.Key(j));
      }
    }
  }

  lemma DeliveredStep(
      d: Delivery, a: Store, b: Store, c: Store, prepared: seq<Prepared>, m: nat, outcomes: map<nat, Outcome>,
      outcome: Outcome, primarySyncId: string)
    requires DeliveredUpTo(d, a, b, prepared, m, outcomes, primarySyncId) && m < |prepared|
    requires Besides(b, c, d.Key(prepared[m].index), d.target)
    requires DeliveredWell(d, a, c, prepared[m].index, outcome, primarySyncId)
    ensures DeliveredUpTo(d, a, c, prepared, m + 1, outcomes[prepared[m].index := outcome], primarySyncId)
  {
    DeliveryFrameStep(d, a, b, c, prepared, m, outcomes, primarySyncId);
    var i := prepared[m].index;
    forall j: nat ensures IsPrepared(prepared[m..], j) <==> j == i || IsPrepared(prepared[m + 1..], j) {
      RestPrepared(prepared, m, j);
    }
    assert !IsPrepared(prepared[m + 1..], i);
    forall j: nat | j in outcomes ensures DeliveredWell(d, a, c, j, outcomes[j], primarySyncId) {
      DeliveredWellStays(d, a, b, c, j, outcomes[j], primarySyncId);
    }
    forall j: nat | IsPrepared(prepared[m + 1..], j) ensures StillPrepared(d, a, c, j) {
      assert IsPrepared(prepared[m..], j);
      StillPreparedStays(d, a, b, c, j);
    }
  }

  lemma RestPrepared(prepared: seq<Prepared>, m: nat, j: nat)
    requires m < |prepared|
    ensures IsPrepared(prepared[m..], j) <==> j == prepared[m].index || IsPrepared(prepared[m + 1..], j)
  {
    assert prepared[m..][0] == prepared[m];
    if IsPrepared(prepared[m..], j) && j != prepared[m].index {
      var k :| 0 <= k < |prepared[m..]| && prepared[m..][k].index == j;
      assert prepared[m + 1..][k - 1].index == j;
    }
    if IsPrepared(prepared[m + 1..], j) {
      var k :| 0 <= k < |prepared[m + 1..]| && prepared[m + 1..][k].index == j;
      assert prepared[m..][k + 1].index == j;
    }
  }

  /** A returned follow-up delivery is what `DeliveredStep` needs. */
  lemma FollowUpDeliversWell(d: Delivery, a: Store, b: Store, c: Store, i: nat, outcome: Outcome, primarySyncId: string)
    requires i < |d.attachments| && a.log <= b.log <= c.log && SameStorage(a, c)
    requires StillPrepared(d, a, b, i) && FollowUpResult(d, i, b, c, Ok(outcome))
    ensures DeliveredWell(d, a, c, i, outcome, primarySyncId)
  {
    SinceSplits(a.log, b.log, c.log);
    NoFollowUp(Since(a.log, b.log), d.Key(i));
    FollowUpAnswerConcat(Since(a.log, b.log), Since(b.log, c.log), d.Key(i));
  }

  /** The message went out: its sends carry `body`, all but one were refused as
      recoverable, and the accepted one was given `syncId`. */
  ghost predicate PrimarySent(d: Delivery, calls: seq<Exchange>, body: string, syncId: string) {
    && (exists e | e in calls :: e.request.SendPrimary? && e.answer == GotSent(syncId))
    && (forall e | e in calls && e.request.SendPrimary? ::
          && e.request.message == d.message && e.request.body == body
          && (e.answer == GotSent(syncId) || IsRecoverable(e.answer)))
  }

  const MISSING_PAYLOAD := Error(Fatal, "attachment preparation has no downloaded payload")

  /** The preparation stops at a prefetched attachment with neither a download nor an
      error nor a reason to skip it. */
  predicate IsMissingPayload(d: Delivery, e: Error) {
    && e == MISSING_PAYLOAD
    && exists i: nat | i < |d.attachments| :: LacksPayload(d, i)
  }

  predicate LacksPayload(d: Delivery, i: nat) {
    i in d.prefetched && d.prefetched[i] == Prefetched(None, None, None)
  }

  predicate PrimaryRefused(calls: seq<Exchange>, error: Error) {
    exists e | e in calls :: e.request.SendPrimary? && e.answer == Refused(error)
  }

  /** The whole of what `deliver` promises, on snapshots before and after. */
  ghost predicate DeliveryContract(d: Delivery, before: Store, after: Store, r: Result<DeliveryResult>) {
    var calls := Since(before.log, after.log);
    && OnlyFirst(d, |d.attachments|, before, after)
    && KeepsSettled(d, before, after)
    && (AllKept(d, before) ==> after == before && (r.Raised? ==> IsInterruption(r.error)))
    && (d.IsReplay() ==> forall e | e in calls :: !e.request.SendPrimary?)
    && LastSendDecides(calls)
    && (r.Raised? ==> IsStop(r.error) || PrimaryRefused(calls, r.error) || IsMissingPayload(d, r.error))
    && (r.Ok? ==>
      && OutcomesAreRecords(d, after, r.value.outcomes)
      && (IsFirst(d, before) ==> forall i: nat :: i < |d.attachments| ==>
            FirstOutcome(r.value.outcomes[i], calls, d.Key(i), r.value.sentSyncId, before.payloads))
      && (!d.migrateMedia ==>
            && (forall o | o in r.value.outcomes :: o.status == Skipped)
            && (forall e | e in calls :: e.request.SendPrimary?))
      && (if d.IsReplay() then
            && r.value.primaryReused && r.value.sentSyncId == d.existingPrimary.value
            && (d.existingBody.Some? && d.existingBody.value != "" ==> r.value.body == d.existingBody.value)
          else !r.value.primaryReused && PrimarySent(d, calls, r.value.body, r.value.sentSyncId)))
  }

  /** Upload (`b` to `u`), primary send (`u` to `p`) and import (`p` to `c`) of the
      one inline attachment. */
  ghost predicate InlineSteps(
    d: Delivery, b: Store, u: Store, p: Store, c: Store, i: nat, resolution: UploadResolution, outcome: Outcome, syncId: string)
  {
    && OnlySlot(b, u, d.Key(i), d.target) && UploadResult(d, i, b, u, Ok(resolution))
    && OnlyPrimarySends(u, p)
    && OnlySlot(p, c, d.Key(i), d.target)
    && (resolution.UseOutcome? ==> c == p && outcome == resolution.outcome)
    && (!resolution.UseOutcome? ==> InlineResult(d, i, syncId, resolution.UseStaged?, p, c, Ok(outcome)))
  }

  lemma InlineIsBesides(
      d: Delivery, b: Store, u: Store, p: Store, c: Store, i: nat, resolution: UploadResolution, outcome: Outcome, syncId: string)
    requires InlineSteps(d, b, u, p, c, i, resolution, outcome, syncId)
    ensures Besides(b, c, d.Key(i), d.target)
  {
    OnlySlotIsBesides(b, u, d.Key(i), d.target);
    assert Besides(u, p, d.Key(i), d.target) by {
      forall k: AttachmentKey ensures Untouched(u, p, k) {
        OnlyPrimarySendsIsUntouched(u, p, k);
      }
    }
    OnlySlotIsBesides(p, c, d.Key(i), d.target);
    BesidesTransitive(b, u, p, d.Key(i), d.target);
    BesidesTransitive(b, p, c, d.Key(i), d.target);
  }

  /** What the three steps ask: the upload, then the primary message, no follow-up. */
  lemma InlineAsks(
      d: Delivery, a: Store, b: Store, u: Store, p: Store, c: Store, i: nat, resolution: UploadResolution, outcome: Outcome, syncId: string)
    requires a.log <= b.log && OnlyDownloaded(Since(a.log, b.log), d.Key(i))
    requires InlineSteps(d, b, u, p, c, i, resolution, outcome, syncId)
    ensures a.log <= c.log && Since(a.log, c.log) == Since(a.log, b.log) + Since(b.log, u.log) + Since(u.log, c.log)
    ensures FollowUpAnswer(Since(a.log, c.log), d.Key(i)) == None
    ensures c.log == p.log
  {
    assert c.log == p.log;
    SinceSplits(a.log, b.log, u.log);
    SinceSplits(a.log, u.log, c.log);
    forall e | e in Since(a.log, c.log) ensures !IsFollowUp(e.request, d.Key(i)) {
      assert e in Since(a.log, b.log) || e in Since(b.log, u.log) || e in Since(u.log, c.log);
    }
    NoFollowUp(Since(a.log, c.log), d.Key(i));
  }

  lemma InlineDeliversWell(
      d: Delivery, a: Store, b: Store, u: Store, p: Store, c: Store, i: nat, resolution: UploadResolution,
      outcome: Outcome, primarySyncId: string)
    requires i < |d.attachments| && a.log <= b.log
    requires StillPrepared(d, a, b, i)
    requires InlineSteps(d, b, u, p, c, i, resolution, outcome, primarySyncId)
    ensures DeliveredWell(d, a, c, i, outcome, primarySyncId)
  {
    InlineAsks(d, a, b, u, p, c, i, resolution, outcome, primarySyncId);
    assert Rec(p, d.Key(i)) == Rec(u, d.Key(i));
  }

  // ----- new deliveries with media migration on

  predicate FitsLimit(limit: int, sizeBytes: Option<int>) {
    sizeBytes.Some? ==> sizeBytes.value <= limit
  }

  /** A download that can be delivered: within the limit and with a file. */
  predicate IsUsable(limit: int, download: Downloaded) {
    && FitsLimit(limit, download.sizeBytes)
    && download.file.Some? && FitsLimit(limit, download.file.value.sizeBytes)
  }

  /** Attachment `i` was prefetched or downloaded, and can be delivered. */
  predicate IsFetched(d: Delivery, limit: int, i: nat, calls: seq<Exchange>) {
    if i in d.prefetched then
      d.prefetched[i].error == None && d.prefetched[i].download.Some? && IsUsable(limit, d.prefetched[i].download.value)
    else exists e | e in calls ::
      e.request == Download(d.Key(i)) && e.answer.GotDownload? && IsUsable(limit, e.answer.download)
  }

  predicate IsSkippedByPrefetch(d: Delivery, i: nat) {
    i in d.prefetched && d.prefetched[i].skippedReason.Some?
  }

  /** Attachment `i` gets past the preparation. */
  predicate IsReached(d: Delivery, limit: int, i: nat, calls: seq<Exchange>)
    requires i < |d.attachments|
  {
    !IsSkippedByPrefetch(d, i) && FitsLimit(limit, d.attachments[i].sizeBytes) && IsFetched(d, limit, i, calls)
  }

  /** No other attachment does, so that it goes with the message itself. */
  predicate IsInline(d: Delivery, limit: int, i: nat, calls: seq<Exchange>)
    requires i < |d.attachments|
  {
    IsReached(d, limit, i, calls) && forall j: nat | j < |d.attachments| :: IsReached(d, limit, j, calls) ==> j == i
  }

  /** The primary message was sent with a file. */
  predicate FileCarried(calls: seq<Exchange>) {
    exists e | e in calls :: e.request.SendPrimary? && (e.request.staged.Some? || e.request.direct)
  }

  predicate UploadAsked(calls: seq<Exchange>, key: AttachmentKey) {
    exists e | e in calls :: e.request == Upload(key)
  }

  ghost predicate UnreachedFate(d: Delivery, before: Store, after: Store, i: nat) {
    && Rec(after, d.Key(i)).Some?
    && (Rec(after, d.Key(i)).value.status == Failed || Rec(after, d.Key(i)).value.status == Skipped)
    && OnlyDownloaded(Since(before.log, after.log), d.Key(i))
  }

  /** A follow-up is answered from the record found, or its send is recorded. */
  ghost predicate FollowUpFate(d: Delivery, before: Store, after: Store, i: nat) {
    var key := d.Key(i);
    var found := Rec(before, key);
    var calls := Since(before.log, after.log);
    if found.Some? && AnswersFromRecord(found.value, d.retryFailed) then
      && Rec(after, key) == found
      && Stg(after, key, d.target) == Stg(before, key, d.target)
      && OnlyDownloaded(calls, key)
    else
      && (found.Some? ==> found.value.status == Failed)
      && Rec(after, key).Some?
      && match FollowUpAnswer(calls, key)
         case Some(answer) => RecordsSend(Rec(after, key).value, answer, before.payloads)
         case None =>
           && Rec(after, key).value.status == Processing
           && Stg(before, key, d.target).Some? && Stg(before, key, d.target).value.status == StageFailed
  }

  /** The inline attachment: the message carries it and it is imported unless it was
      before, or its upload failed, or an earlier failed upload is not repeated. */
  ghost predicate InlineFate(d: Delivery, before: Store, after: Store, i: nat, syncId: string) {
    var key := d.Key(i);
    var found := Rec(before, key);
    var calls := Since(before.log, after.log);
    && Rec(after, key).Some?
    && FollowUpAnswer(calls, key) == None
    && if FileCarried(calls) then
         if found.Some? && (found.value.status == Imported || found.value.status == Skipped) then Rec(after, key) == found
         else
           && (found == None || found.value.status == Failed)
           && Rec(after, key).value.status == Imported && Rec(after, key).value.targetSyncId == Some(syncId)
       else if UploadAsked(calls, key) then Rec(after, key).value.status == Failed
       else Rec(after, key) == found && GivenUp(Stg(before, key, d.target), d.retryFailed)
  }

  /** What becomes of attachment `i` in a new delivery that returns. */
  ghost predicate Fate(d: Delivery, limit: int, before: Store, after: Store, i: nat, syncId: string)
    requires i < |d.attachments|
  {
    var calls := Since(before.log, after.log);
    if !IsReached(d, limit, i, calls) then UnreachedFate(d, before, after, i)
    else if IsInline(d, limit, i, calls) then InlineFate(d, before, after, i, syncId)
    else FollowUpFate(d, before, after, i)
  }

  predicate IsNew(d: Delivery) {
    !d.IsReplay() && d.migrateMedia
  }

  ghost predicate NewDeliveryContract(d: Delivery, limit: int, before: Store, after: Store, r: Result<DeliveryResult>) {
    IsNew(d) && r.Ok? ==> forall i: nat | i < |d.attachments| :: Fate(d, limit, before, after, i, r.value.sentSyncId)
  }

  /** Exactly the first `n` attachments that are reached have been prepared. */
  ghost predicate PreparedExactly(d: Delivery, limit: int, n: nat, calls: seq<Exchange>, prepared: seq<Prepared>) {
    n <= |d.attachments| && forall i: nat | i < n :: IsPrepared(prepared, i) <==> IsReached(d, limit, i, calls)
  }

  lemma ReachedElsewhere(d: Delivery, limit: int, i: nat, calls: seq<Exchange>, more: seq<Exchange>)
    requires i < |d.attachments| && forall e | e in more :: e.request != Download(d.Key(i))
    ensures IsReached(d, limit, i, calls + more) <==> IsReached(d, limit, i, calls)
  {
    assert forall e :: e in calls + more <==> e in calls || e in more;
  }

  lemma ReachedFromNothing(d: Delivery, limit: int, i: nat, calls: seq<Exchange>, more: seq<Exchange>)
    requires i < |d.attachments| && forall e | e in calls :: e.request != Download(d.Key(i))
    ensures IsReached(d, limit, i, calls + more) <==> IsReached(d, limit, i, more)
  {
    assert forall e :: e in calls + more <==> e in calls || e in more;
  }

  lemma PreparedOneMore(prepared: seq<Prepared>, p: Prepared, i: nat)
    ensures IsPrepared(prepared + [p], i) <==> IsPrepared(prepared, i) || p.index == i
  {
    var more := prepared + [p];
    assert more[|prepared|] == p;
    if IsPrepared(prepared, i) {
      var j :| 0 <= j < |prepared| && prepared[j].index == i;
      assert more[j].index == i;
    }
  }

  /** One more attachment, whose calls are its own downloads. */
  lemma PreparedExactlyStep(
      d: Delivery, limit: int, n: nat, calls: seq<Exchange>, more: seq<Exchange>, prepared: seq<Prepared>, ready: Option<Prepared>)
    requires n < |d.attachments| && PreparedExactly(d, limit, n, calls, prepared)
    requires forall j | 0 <= j < |prepared| :: prepared[j].index < n
    requires forall e | e in calls :: e.request != Download(d.Key(n))
    requires forall e | e in more :: e.request == Download(d.Key(n))
    requires ready.Some? ==> ready.value.index == n
    requires ready.Some? <==> IsReached(d, limit, n, more)
    ensures PreparedExactly(d, limit, n + 1, calls + more, if ready.Some? then prepared + [ready.value] else prepared)
  {
    var now := if ready.Some? then prepared + [ready.value] else prepared;
    ReachedFromNothing(d, limit, n, calls, more);
    forall i: nat | i < n + 1 ensures IsPrepared(now, i) <==> IsReached(d, limit, i, calls + more) {
      if ready.Some? {
        PreparedOneMore(prepared, ready.value, i);
      }
      if i < n {
        ReachedElsewhere(d, limit, i, calls, more);
      }
    }
  }

  lemma PreparedExactlyStays(
      d: Delivery, limit: int, calls: seq<Exchange>, more: seq<Exchange>, prepared: seq<Prepared>)
    requires PreparedExactly(d, limit, |d.attachments|, calls, prepared)
    requires forall e | e in more :: !e.request.Download?
    ensures PreparedExactly(d, limit, |d.attachments|, calls + more, prepared)
  {
    forall i: nat | i < |d.attachments| ensures IsReached(d, limit, i, calls + more) <==> IsReached(d, limit, i, calls) {
      ReachedElsewhere(d, limit, i, calls, more);
    }
  }

  /** One prepared attachment means that it goes inline, several that none does. */
  lemma InlineIsTheOnlyPrepared(d: Delivery, limit: int, calls: seq<Exchange>, prepared: seq<Prepared>, j: nat)
    requires PreparedExactly(d, limit, |d.attachments|, calls, prepared) && Increasing(prepared)
    requires j < |prepared| && forall k | 0 <= k < |prepared| :: prepared[k].index < |d.attachments|
    ensures IsInline(d, limit, prepared[j].index, calls) <==> |prepared| == 1
  {
    var i := prepared[j].index;
    assert IsPrepared(prepared, i);
    if |prepared| > 1 {
      var k := if j == 0 then 1 else 0;
      assert IsPrepared(prepared, prepared[k].index);
      assert prepared[k].index != i;
    }
  }

  lemma UnreachedFateStays(d: Delivery, a: Store, b: Store, c: Store, i: nat)
    requires a.log <= b.log && UnreachedFate(d, a, b, i) && Untouched(b, c, d.Key(i))
    ensures UnreachedFate(d, a, c, i)
  {
    SinceSplits(a.log, b.log, c.log);
  }

  lemma FollowUpFateStays(d: Delivery, a: Store, b: Store, c: Store, i: nat)
    requires a.log <= b.log && FollowUpFate(d, a, b, i) && Untouched(b, c, d.Key(i))
    ensures FollowUpFate(d, a, c, i)
  {
    FollowUpAnswerUnaffected(a, b, c, d.Key(i));
    SinceSplits(a.log, b.log, c.log);
    assert Find(c.stages, StageKey(d.Key(i), d.target)) == Find(b.stages, StageKey(d.Key(i), d.target));
  }

  lemma FollowUpMeetsFate(d: Delivery, a: Store, b: Store, c: Store, i: nat, outcome: Outcome)
    requires a.log <= b.log <= c.log && SameStorage(a, c)
    requires StillPrepared(d, a, b, i) && FollowUpResult(d, i, b, c, Ok(outcome))
    ensures FollowUpFate(d, a, c, i)
  {
    SinceSplits(a.log, b.log, c.log);
    NoFollowUp(Since(a.log, b.log), d.Key(i));
    FollowUpAnswerConcat(Since(a.log, b.log), Since(b.log, c.log), d.Key(i));
  }

  lemma InlineMeetsFate(
      d: Delivery, a: Store, b: Store, u: Store, p: Store, c: Store, i: nat, resolution: UploadResolution,
      outcome: Outcome, syncId: string)
    requires a.log <= b.log && StillPrepared(d, a, b, i)
    requires forall e | e in Since(a.log, b.log) :: e.request.Download?
    requires InlineSteps(d, b, u, p, c, i, resolution, outcome, syncId)
    requires FileCarried(Since(u.log, p.log)) <==> !resolution.UseOutcome?
    ensures InlineFate(d, a, c, i, syncId)
  {
    InlineAsks(d, a, b, u, p, c, i, resolution, outcome, syncId);
    var calls := Since(a.log, c.log);
    assert FileCarried(calls) <==> FileCarried(Since(u.log, c.log)) by {
      assert forall e :: e in calls <==> e in Since(a.log, b.log) || e in Since(b.log, u.log) || e in Since(u.log, c.log);
    }
    assert UploadAsked(calls, d.Key(i)) <==> Since(b.log, u.log) != [] by {
      assert forall e :: e in calls <==> e in Since(a.log, b.log) || e in Since(b.log, u.log) || e in Since(u.log, c.log);
      if Since(b.log, u.log) != [] {
        assert Since(b.log, u.log)[0] in Since(b.log, u.log);
      }
    }
    assert Rec(p, d.Key(i)) == Rec(u, d.Key(i));
  }

  /** State of a new delivery once the prepared attachments before `m` are dealt
      with as follow-ups. */
  ghost predicate FatesUpTo(d: Delivery, before: Store, after: Store, prepared: seq<Prepared>, m: nat) {
    IsNew(d) ==>
      && m <= |prepared|
      && (forall i: nat | i < |d.attachments| && !IsPrepared(prepared, i) :: UnreachedFate(d, before, after, i))
      && (forall j | 0 <= j < m :: FollowUpFate(d, before, after, prepared[j].index))
  }

  lemma PreparedMeetsFates(d: Delivery, a: Store, b: Store, c: Store, prepared: seq<Prepared>, outcomes: map<nat, Outcome>)
    requires PreparedUpTo(d, |d.attachments|, a, b, prepared, outcomes) && OnlyPrimarySends(b, c)
    ensures FatesUpTo(d, a, c, prepared, 0)
  {
    if IsNew(d) {
      forall i: nat | i < |d.attachments| && !IsPrepared(prepared, i) ensures UnreachedFate(d, a, c, i) {
        assert i in outcomes && DecidedWell(d, a, b, i, outcomes[i]);
        assert UnreachedFate(d, a, b, i);
        OnlyPrimarySendsIsUntouched(b, c, d.Key(i));
        UnreachedFateStays(d, a, b, c, i);
      }
    }
  }

  lemma FatesStep(d: Delivery, a: Store, b: Store, c: Store, prepared: seq<Prepared>, m: nat, outcome: Outcome)
    requires FatesUpTo(d, a, b, prepared, m) && m < |prepared| && Increasing(prepared) && OnlyFirst(d, |d.attachments|, a, b)
    requires Besides(b, c, d.Key(prepared[m].index), d.target)
    requires StillPrepared(d, a, b, prepared[m].index) && FollowUpResult(d, prepared[m].index, b, c, Ok(outcome))
    ensures FatesUpTo(d, a, c, prepared, m + 1)
  {
    if IsNew(d) {
      forall i: nat | i < |d.attachments| && !IsPrepared(prepared, i) ensures UnreachedFate(d, a, c, i) {
        assert i != prepared[m].index;
        UnreachedFateStays(d, a, b, c, i);
      }
      forall j | 0 <= j < m ensures FollowUpFate(d, a, c, prepared[j].index) {
        FollowUpFateStays(d, a, b, c, prepared[j].index);
      }
      FollowUpMeetsFate(d, a, b, c, prepared[m].index, outcome);
    }
  }

  /** Follow-ups done: every attachment has met its fate. */
  lemma FatesMeetContract(
      d: Delivery, limit: int, before: Store, after: Store, prepared: seq<Prepared>, r: Result<DeliveryResult>)
    requires FatesUpTo(d, before, after, prepared, |prepared|) && Increasing(prepared)
    requires forall k | 0 <= k < |prepared| :: prepared[k].index < |d.attachments|
    requires IsNew(d) ==> |prepared| != 1 && PreparedExactly(d, limit, |d.attachments|, Since(before.log, after.log), prepared)
    ensures NewDeliveryContract(d, limit, before, after, r)
  {
    if IsNew(d) && r.Ok? {
      var calls := Since(before.log, after.log);
      forall i: nat | i < |d.attachments| ensures Fate(d, limit, before, after, i, r.value.sentSyncId) {
        assert IsPrepared(prepared, i) <==> IsReached(d, limit, i, calls);
        if IsPrepared(prepared, i) {
          var j :| 0 <= j < |prepared| && prepared[j].index == i;
          InlineIsTheOnlyPrepared(d, limit, calls, prepared, j);
        }
      }
    }
  }
}
