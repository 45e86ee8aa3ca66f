/** The two attachment repositories: the mapping of each source attachment to
    its delivery state, and the upload stage kept beside it. */
module AttachmentStore {
  import opened Common

  datatype MessageKey = MessageKey(migrationId: string, sourceChatId: string, sourceMessageId: string)

  datatype AttachmentKey = AttachmentKey(message: MessageKey, index: nat)

  datatype StageKey = StageKey(attachment: AttachmentKey, targetChatId: string)

  datatype ErrorCode = ErrorClass(kind: ErrorKind) | CancelledByOperator | CancelRequestedByOperator | SkippedByPolicy

  predicate IsCancelCode(code: Option<ErrorCode>) {
    code == Some(CancelledByOperator) || code == Some(CancelRequestedByOperator)
  }

  /** The `phase` entry of an error payload. */
  datatype Phase = UnknownPhase | DownloadPhase | PreparePhase | UploadPhase | SendPhase | DeliveryPhase | InlineAttachPhase

  datatype ErrorPayload = NoPayload | Failure(phase: Phase, message: string) | Policy(reason: string)

  datatype ImportStatus = Processing | Imported | Failed | Ambiguous | Skipped

  datatype MappingRecord = MappingRecord(
    status: ImportStatus,
    targetSyncId: Option<string>,
    errorCode: Option<ErrorCode>,
    errorPayload: ErrorPayload)

  datatype StageStatus = StageProcessing | Uploaded | Attached | StageFailed

  /** A file known to the files API; `complete` says that every field needed to
      rebuild it from a stored payload is present. */
  datatype StagedFile = StagedFile(fileId: string, url: string, complete: bool)

  function PhaseOf(payload: ErrorPayload): Phase {
    match payload
    case Failure(phase, _) => phase
    case _ => UnknownPhase
  }

  /** How a repository keeps payloads: as they are (also in memory), without their
      free texts, or not at all. */
  datatype PayloadStorage = Full | Redacted | Omitted

  const REDACTED_TEXT := "[redacted]"

  /** `_sanitize_payload` of an error payload: the phase is kept unless nothing is. */
  function StoredPayload(storage: PayloadStorage, payload: ErrorPayload): (stored: ErrorPayload)
    ensures storage == Full ==> stored == payload
    ensures PhaseOf(stored) == if storage == Omitted then UnknownPhase else PhaseOf(payload)
  {
    match storage
    case Full => payload
    case Omitted => NoPayload
    case Redacted =>
      match payload
      case NoPayload => NoPayload
      case Failure(phase, _) => Failure(phase, REDACTED_TEXT)
      case Policy(_) => Policy(REDACTED_TEXT)
  }

  /** `_sanitize_payload` of a staged file: its id is kept, its address is not. */
  function StoredFile(storage: PayloadStorage, file: StagedFile): Option<StagedFile> {
    match storage
    case Full => Some(file)
    case Redacted => Some(file.(url := REDACTED_TEXT))
    case Omitted => None
  }

  function StoredRecord(storage: PayloadStorage, record: MappingRecord): MappingRecord {
    record.(errorPayload := StoredPayload(storage, record.errorPayload))
  }

  function StoredStage(storage: PayloadStorage, record: StageRecord): StageRecord {
    if record.payload.Some? then record.(payload := StoredFile(storage, record.payload.value)) else record
  }

  datatype StageRecord = StageRecord(
    status: StageStatus,
    payload: Option<StagedFile>,
    targetSyncId: Option<string>,
    errorCode: Option<ErrorCode>)

  datatype ClaimState = Claimed | AlreadyImported | AlreadyFailed | AmbiguousClaim

  datatype Claim<+R> = Claim(state: ClaimState, record: R)

  const FRESH_MAPPING := MappingRecord(Processing, None, None, NoPayload)
  const FRESH_STAGE := StageRecord(StageProcessing, None, None, None)

  /** A failed delivery may be claimed again on request, or when it only failed
      because its job was cancelled. */
  predicate MayReclaim(record: MappingRecord, retryFailed: bool) {
    record.status == Failed && (retryFailed || IsCancelCode(record.errorCode))
  }

  function ClaimMapping(existing: Option<MappingRecord>, retryFailed: bool): (claim: Claim<MappingRecord>)
    ensures claim.state == Claimed <==> existing == None || MayReclaim(existing.value, retryFailed)
    ensures claim.state == Claimed ==> claim.record.status == Processing && claim.record.errorPayload == NoPayload
    ensures claim.state != Claimed ==> existing == Some(claim.record)
    ensures claim.state == AlreadyImported <==> existing.Some? && existing.value.status == Imported
    ensures claim.state == AlreadyFailed ==> existing.value.status == Failed
    ensures claim.state == AmbiguousClaim ==> existing.value.status != Imported && existing.value.status != Failed
  {
    match existing
    case None => Claim(Claimed, FRESH_MAPPING)
    case Some(record) =>
      if MayReclaim(record, retryFailed) then
        Claim(Claimed, record.(status := Processing, errorCode := None, errorPayload := NoPayload))
      else if record.status == Imported then Claim(AlreadyImported, record)
      else if record.status == Failed then Claim(AlreadyFailed, record)
      else Claim(AmbiguousClaim, record)
  }

  /** `stale` says that the processing mark is older than the allowed age. */
  function ClaimStage(existing: Option<StageRecord>, retryFailed: bool, stale: bool): (claim: Claim<StageRecord>)
    ensures claim.state == Claimed ==> claim.record.status == StageProcessing
    ensures claim.state != Claimed ==> existing == Some(claim.record)
    ensures claim.state == AlreadyImported <==> existing.Some? && (existing.value.status == Uploaded || existing.value.status == Attached)
    ensures claim.state == AlreadyFailed ==> existing.value.status == StageFailed && !retryFailed
    ensures claim.state == AmbiguousClaim ==> existing.value.status.StageProcessing?
  {
    match existing
    case None => Claim(Claimed, FRESH_STAGE)
    case Some(record) =>
      if record.status == StageProcessing && (IsCancelCode(record.errorCode) || stale) then
        Claim(Claimed, FRESH_STAGE)
      else if record.status == StageFailed && (retryFailed || IsCancelCode(record.errorCode)) then
        Claim(Claimed, record.(status := StageProcessing, errorCode := None))
      else if record.status == Uploaded || record.status == Attached then Claim(AlreadyImported, record)
      else if record.status == StageFailed then Claim(AlreadyFailed, record)
      else Claim(AmbiguousClaim, record)
  }

  class AttachmentMappingRepository {
    const storage: PayloadStorage
    var records: map<AttachmentKey, MappingRecord>

    constructor (storage: PayloadStorage)
      ensures this.storage == storage && records == map[]
    {
      this.storage := storage;
      records := map[];
    }

    method Claim(key: AttachmentKey, retryFailed: bool) returns (r: Result<Claim<MappingRecord>>)
      modifies this
      ensures r.Ok? ==>
        && r.value == ClaimMapping(old(Find(records, key)), retryFailed)
        && records == old(records)[key := r.value.record]
      ensures r.Raised? ==>
        && IsInterruption(r.error)
        && (records == old(records)
            || records == old(records)[key := ClaimMapping(old(Find(records, key)), retryFailed).record])
      ensures OnlyAt(old(records), records, key)
    {
      var before := Suspend();
      if before.Some? {
        return Raised(before.value);
      }
      var claim := ClaimMapping(Find(records, key), retryFailed);
      records := records[key := claim.record];
      var after := Suspend();
      r := if after.Some? then Raised(after.value) else Ok(claim);
    }

    method Get(key: AttachmentKey) returns (r: Result<Option<MappingRecord>>)
      ensures r.Ok? ==> r.value == Find(records, key)
      ensures r.Raised? ==> IsInterruption(r.error)
    {
      var before := Suspend();
      r := if before.Some? then Raised(before.value) else Ok(Find(records, key));
    }

    /** The common part of the four `mark_*` operations: they rewrite an existing
        record and fail with a key error when there is none. */
    method Mark(key: AttachmentKey, update: MappingRecord -> MappingRecord) returns (r: Result<MappingRecord>)
      modifies this
      ensures r.Ok? ==>
        && key in old(records)
        && r.value == StoredRecord(storage, update(old(records)[key]))
        && records == old(records)[key := r.value]
      ensures r.Raised? ==>
        && IsInterruption(r.error)
        && (records == old(records)
            || (key in old(records) && records == old(records)[key := StoredRecord(storage, update(old(records)[key]))]))
      ensures OnlyAt(old(records), records, key)
    {
      var before := Suspend();
      if before.Some? {
        return Raised(before.value);
      }
      if key !in records {
        return Raised(Error(Other, "unknown attachment key"));
      }
      var updated := StoredRecord(storage, update(records[key]));
      records := records[key := updated];
      var after := Suspend();
      r := if after.Some? then Raised(after.value) else Ok(updated);
    }
  }

  /** The record transformations of `mark_imported`, `mark_failed`,
      `mark_ambiguous` and `mark_skipped`. */
  function ImportedAs(syncId: string): MappingRecord -> MappingRecord {
    (record: MappingRecord) =>
      record.(status := Imported, targetSyncId := Some(syncId), errorCode := None, errorPayload := NoPayload)
  }

  function FailedWith(code: ErrorCode, phase: Phase, message: string): MappingRecord -> MappingRecord {
    (record: MappingRecord) =>
      record.(status := Failed, errorCode := Some(code), errorPayload := Failure(phase, message))
  }

  function AmbiguousWith(code: ErrorCode, phase: Phase, message: string): MappingRecord -> MappingRecord {
    (record: MappingRecord) =>
      record.(status := Ambiguous, errorCode := Some(code), errorPayload := Failure(phase, message))
  }

  function SkippedFor(reason: string): MappingRecord -> MappingRecord {
    (record: MappingRecord) =>
      record.(status := Skipped, errorCode := Some(SkippedByPolicy), errorPayload := Policy(reason))
  }

  class AttachmentStageRepository {
    const storage: PayloadStorage
    var records: map<StageKey, StageRecord>

    constructor (storage: PayloadStorage)
      ensures this.storage == storage && records == map[]
    {
      this.storage := storage;
      records := map[];
    }

    method Claim(key: StageKey, retryFailed: bool) returns (r: Result<Claim<StageRecord>>)
      modifies this
      ensures r.Ok? ==>
        && (exists stale :: r.value == ClaimStage(old(Find(records, key)), retryFailed, stale))
        && records == old(records)[key := r.value.record]
      ensures r.Raised? ==> IsInterruption(r.error)
      ensures OnlyAt(old(records), records, key)
    {
      var before := Suspend();
      if before.Some? {
        return Raised(before.value);
      }
      var stale: bool := *;
      var claim := ClaimStage(Find(records, key), retryFailed, stale);
      records := records[key := claim.record];
      var after := Suspend();
      r := if after.Some? then Raised(after.value) else Ok(claim);
    }

    method Get(key: StageKey) returns (r: Result<Option<StageRecord>>)
      ensures r.Ok? ==> r.value == Find(records, key)
      ensures r.Raised? ==> IsInterruption(r.error)
    {
      var before := Suspend();
      r := if before.Some? then Raised(before.value) else Ok(Find(records, key));
    }

    method Mark(key: StageKey, update: StageRecord -> StageRecord) returns (r: Result<StageRecord>)
      modifies this
      ensures r.Ok? ==>
        && key in old(records)
        && r.value == StoredStage(storage, update(old(records)[key]))
        && records == old(records)[key := r.value]
      ensures r.Raised? ==> IsInterruption(r.error)
      ensures OnlyAt(old(records), records, key)
    {
      var before := Suspend();
      if before.Some? {
        return Raised(before.value);
      }
      if key !in records {
        return Raised(Error(Other, "unknown attachment stage key"));
      }
      var updated := StoredStage(storage, update(records[key]));
      records := records[key := updated];
      var after := Suspend();
      r := if after.Some? then Raised(after.value) else Ok(updated);
    }
  }

  /** The record transformations of `mark_uploaded`, `mark_attached` and the
      stage's `mark_failed`. */
  function UploadedAs(file: StagedFile): StageRecord -> StageRecord {
    (record: StageRecord) => record.(status := Uploaded, payload := Some(file), errorCode := None)
  }

  function AttachedTo(syncId: string): StageRecord -> StageRecord {
    (record: StageRecord) => record.(status := Attached, targetSyncId := Some(syncId), errorCode := None)
  }

  function StageFailedWith(code: ErrorCode): StageRecord -> StageRecord {
    (record: StageRecord) => record.(status := StageFailed, errorCode := Some(code))
  }
}
