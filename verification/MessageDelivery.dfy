/** `MessageDeliveryService`: prepare the attachments of one message, send the
    message with at most one inline attachment, deliver the others one by one. */
module MessageDelivery {
  import opened Common
  import opened AttachmentStore
  import opened Gateways
  import opened DeliveryContracts
  import Text

  const SKIPPED_BY_LIMIT := "skipped: file exceeds eXpress BotX upload limit"
  const MEDIA_DISABLED := "media migration disabled by manifest"

  datatype Preparation =
    | Decided(outcome: Outcome, failure: Option<string>)
    | Ready(prepared: Prepared)

  datatype PreparedMessage = PreparedMessage(failures: seq<string>, prepared: seq<Prepared>, outcomes: map<nat, Outcome>)

  function StagedFileFromPayload(payload: Option<StagedFile>): Option<StagedFile> {
    if payload.Some? && payload.value.complete then payload else None
  }

  /** The outcomes of `0..n` in index order. */
  function InIndexOrder(outcomes: map<nat, Outcome>, n: nat): seq<Outcome> {
    if n == 0 then []
    else InIndexOrder(outcomes, n - 1) + if n - 1 in outcomes then [outcomes[n - 1]] else []
  }

  lemma {:induction false} InIndexOrderIsTotal(outcomes: map<nat, Outcome>, n: nat)
    requires forall i: nat :: i < n ==> i in outcomes
    ensures |InIndexOrder(outcomes, n)| == n
    ensures forall i: nat :: i < n ==> InIndexOrder(outcomes, n)[i] == outcomes[i]
  {
    if n > 0 {
      InIndexOrderIsTotal(outcomes, n - 1);
    }
  }

  /** The value `deliver` returns. */
  function Finish(d: Delivery, body: string, syncId: string, outcomes: map<nat, Outcome>): DeliveryResult {
    DeliveryResult(body, syncId, InIndexOrder(outcomes, |d.attachments|), d.IsReplay())
  }

  lemma FinishKeepsContract(
      d: Delivery, start: Store, end: Store, prepared: seq<Prepared>, outcomes: map<nat, Outcome>, body: string, syncId: string)
    requires DeliveredUpTo(d, start, end, prepared, |prepared|, outcomes, syncId)
    requires AllKept(d, start) ==> end == start
    requires LastSendDecides(Since(start.log, end.log))
    requires !d.migrateMedia ==> forall e | e in Since(start.log, end.log) :: e.request.SendPrimary?
    requires d.IsReplay() ==>
      && syncId == d.existingPrimary.value
      && (forall e | e in Since(start.log, end.log) :: !e.request.SendPrimary?)
      && (d.existingBody.Some? && d.existingBody.value != "" ==> body == d.existingBody.value)
    requires !d.IsReplay() ==> PrimarySent(d, Since(start.log, end.log), body, syncId)
    ensures DeliveryContract(d, start, end, Ok(Finish(d, body, syncId, outcomes)))
  {
    forall i: nat | i < |d.attachments| ensures i in outcomes {
      assert prepared[|prepared|..] == [];
      assert !IsPrepared(prepared[|prepared|..], i);
    }
    InIndexOrderIsTotal(outcomes, |d.attachments|);
    var ordered := InIndexOrder(outcomes, |d.attachments|);
    assert OutcomesAreRecords(d, end, ordered) by {
      forall i: nat | i < |d.attachments|
        ensures Find(end.mappings, d.Key(i)).Some?
        ensures ordered[i] == OutcomeFromRecord(i, Find(end.mappings, d.Key(i)).value)
      {
        assert DeliveredWell(d, start, end, i, outcomes[i], syncId);
      }
    }
    forall i: nat | i < |d.attachments| && IsFirst(d, start)
      ensures FirstOutcome(ordered[i], Since(start.log, end.log), d.Key(i), syncId, start.payloads)
    {
      assert DeliveredWell(d, start, end, i, outcomes[i], syncId);
    }
    if !d.migrateMedia {
      forall o | o in ordered ensures o.status == Skipped {
        var i :| 0 <= i < |ordered| && ordered[i] == o;
        assert DeliveredWell(d, start, end, i, outcomes[i], syncId);
      }
    }
  }

  /** One round of the preparation with media migration on, from `b` to `c`. */
  lemma PreparedRound(
      d: Delivery, limit: int, i: nat, a: Store, b: Store, c: Store, prepared: seq<Prepared>, outcomes: map<nat, Outcome>,
      step: Preparation)
    requires i < |d.attachments| && PreparedUpTo(d, i, a, b, prepared, outcomes)
    requires !d.IsReplay() ==> PreparedExactly(d, limit, i, Since(a.log, b.log), prepared)
    requires OnlySlot(b, c, d.Key(i), d.target) && c.stages == b.stages
    requires forall e | e in Since(b.log, c.log) :: e.request == Download(d.Key(i))
    requires step.Decided? ==> DecidedWell(d, a, c, i, step.outcome)
    requires step.Ready? ==> step.prepared.index == i && PreparedWell(d, a, c, i)
    requires !d.IsReplay() ==> (step.Ready? <==> IsReached(d, limit, i, Since(b.log, c.log)))
    ensures step.Decided? ==> PreparedUpTo(d, i + 1, a, c, prepared, outcomes[i := step.outcome])
    ensures step.Ready? ==> PreparedUpTo(d, i + 1, a, c, prepared + [step.prepared], outcomes)
    ensures !d.IsReplay() ==>
      PreparedExactly(d, limit, i + 1, Since(a.log, c.log), if step.Ready? then prepared + [step.prepared] else prepared)
  {
    PreparedStep(
      d, i, a, b, c, prepared, outcomes, if step.Decided? then Some(step.outcome) else None,
      if step.Ready? then step.prepared.file else FilePayload("", None));
    if step.Ready? {
      assert step.prepared == Prepared(i, step.prepared.file);
    }
    if !d.IsReplay() {
      SinceSplits(a.log, b.log, c.log);
      assert Untouched(a, b, d.Key(i));
      PreparedExactlyStep(
        d, limit, i, Since(a.log, b.log), Since(b.log, c.log), prepared,
        if step.Ready? then Some(step.prepared) else None);
    }
  }

  /** A round that raises leaves the frame of the preparation. */
  lemma PreparationStops(
      d: Delivery, i: nat, a: Store, b: Store, c: Store, prepared: seq<Prepared>, outcomes: map<nat, Outcome>)
    requires d.migrateMedia && i < |d.attachments| && PreparedUpTo(d, i, a, b, prepared, outcomes)
    requires OnlySlot(b, c, d.Key(i), d.target) && c.stages == b.stages
    requires forall e | e in Since(b.log, c.log) :: e.request == Download(d.Key(i))
    requires d.IsReplay() && Settled(d, b, i) ==> c == b
    requires AllKept(d, a) ==> b == a
    ensures PreparationFrame(d, a, c)
  {
    OnlySlotIsBesides(b, c, d.Key(i), d.target);
    PreparedKeepsSettled(d, i, a, b, c, prepared, outcomes);
    OnlyFirstStep(d, i, a, b, c, i);
    SinceSplits(a.log, b.log, c.log);
  }

  lemma PrimaryAfterSlot(b: Store, u: Store, s: Store, key: AttachmentKey, target: string)
    requires Besides(b, u, key, target) && OnlyPrimarySends(u, s)
    ensures Besides(b, s, key, target)
  {
    forall k: AttachmentKey ensures Untouched(u, s, k) {
      OnlyPrimarySendsIsUntouched(u, s, k);
    }
    BesidesTransitive(b, u, s, key, target);
  }

  lemma InlineRaises(d: Delivery, a: Store, b: Store, c: Store, message: PreparedMessage, error: Error)
    requires PreparedUpTo(d, |d.attachments|, a, b, message.prepared, message.outcomes)
    requires !d.IsReplay() && |message.prepared| == 1
    requires Besides(b, c, d.Key(message.prepared[0].index), d.target)
    requires LastSendDecides(Since(b.log, c.log))
    requires IsStop(error) || PrimaryRefused(Since(b.log, c.log), error)
    ensures DeliveryContract(d, a, c, Raised(error))
  {
    SinceSplits(a.log, b.log, c.log);
    NoSends(Since(a.log, b.log), Since(b.log, c.log));
    LastSendDecidesConcat(Since(a.log, b.log), Since(b.log, c.log));
    PreparedThenPrimary(d, a, b, b, message.prepared, message.outcomes, "");
    DeliveryFrameStep(d, a, b, c, message.prepared, 0, message.outcomes, "");
  }

  /** After preparation (`a` to `b`), upload (`b` to `u`), primary send (`u` to
      `p`) and import (`p` to `c`) of the one inline attachment. */
  lemma InlineKeepsContract(
      d: Delivery, a: Store, b: Store, u: Store, p: Store, c: Store, message: PreparedMessage,
      resolution: UploadResolution, outcome: Outcome, body: string, syncId: string)
    requires PreparedUpTo(d, |d.attachments|, a, b, message.prepared, message.outcomes)
    requires !d.IsReplay() && |message.prepared| == 1
    requires InlineSteps(d, b, u, p, c, message.prepared[0].index, resolution, outcome, syncId)
    requires PrimarySent(d, Since(u.log, p.log), body, syncId) && LastSendDecides(Since(u.log, p.log))
    ensures DeliveryContract(d, a, c, Ok(Finish(d, body, syncId, message.outcomes[message.prepared[0].index := outcome])))
  {
    var i := message.prepared[0].index;
    assert message.prepared[0..][0].index == i;
    PreparedThenPrimary(d, a, b, b, message.prepared, message.outcomes, syncId);
    InlineDeliversWell(d, a, b, u, p, c, i, resolution, outcome, syncId);
    InlineIsBesides(d, b, u, p, c, i, resolution, outcome, syncId);
    DeliveredStep(d, a, b, c, message.prepared, 0, message.outcomes, outcome, syncId);
    assert c.log == p.log;
    InlineCalls(d, a, b, u, c, i, body, syncId);
    InlineSendsDecide(d, a, b, u, c, i);
    assert PreparedWell(d, a, b, i) by {
      assert IsPrepared(message.prepared, i);
    }
    FinishKeepsContract(d, a, c, message.prepared, message.outcomes[i := outcome], body, syncId);
  }

  lemma UploadThenPrimaryDecides(d: Delivery, b: Store, u: Store, s: Store, i: nat)
    requires b.log <= u.log <= s.log && LastSendDecides(Since(u.log, s.log))
    requires forall e | e in Since(b.log, u.log) :: e.request == Upload(d.Key(i))
    ensures b.log <= s.log && LastSendDecides(Since(b.log, s.log))
  {
    SinceSplits(b.log, u.log, s.log);
    NoSends(Since(b.log, u.log), Since(u.log, s.log));
    LastSendDecidesConcat(Since(b.log, u.log), Since(u.log, s.log));
  }

  lemma InlineSendsDecide(d: Delivery, a: Store, b: Store, u: Store, c: Store, i: nat)
    requires a.log <= b.log <= u.log <= c.log
    requires forall e | e in Since(a.log, b.log) :: e.request.Download?
    requires forall e | e in Since(b.log, u.log) :: e.request == Upload(d.Key(i))
    requires LastSendDecides(Since(u.log, c.log))
    ensures LastSendDecides(Since(a.log, c.log))
  {
    CallsInThree(a.log, b.log, u.log, c.log);
    var x := Since(a.log, b.log) + Since(b.log, u.log);
    NoSends(x, Since(u.log, c.log));
    LastSendDecidesConcat(x, Since(u.log, c.log));
  }

  lemma OnlyPreparedIsReached(d: Delivery, limit: int, calls: seq<Exchange>, more: seq<Exchange>, prepared: seq<Prepared>, i: nat)
    requires |prepared| == 1 && prepared[0].index < |d.attachments| && i < |d.attachments|
    requires PreparedExactly(d, limit, |d.attachments|, calls, prepared)
    requires forall e | e in more :: !e.request.Download?
    ensures IsReached(d, limit, i, calls + more) <==> i == prepared[0].index
    ensures IsInline(d, limit, prepared[0].index, calls + more)
  {
    PreparedExactlyStays(d, limit, calls, more, prepared);
    assert IsPrepared(prepared, prepared[0].index);
    InlineIsTheOnlyPrepared(d, limit, calls + more, prepared, 0);
  }

  lemma OthersAreUnreached(
      d: Delivery, a: Store, b: Store, c: Store, prepared: seq<Prepared>, outcomes: map<nat, Outcome>, i: nat)
    requires IsNew(d) && PreparedUpTo(d, |d.attachments|, a, b, prepared, outcomes)
    requires i < |d.attachments| && !IsPrepared(prepared, i) && Untouched(b, c, d.Key(i))
    ensures UnreachedFate(d, a, c, i)
  {
    assert i in outcomes && DecidedWell(d, a, b, i, outcomes[i]);
    assert UnreachedFate(d, a, b, i);
    UnreachedFateStays(d, a, b, c, i);
  }

  lemma PreparedIsStillPrepared(
      d: Delivery, a: Store, b: Store, prepared: seq<Prepared>, outcomes: map<nat, Outcome>, j: nat)
    requires PreparedUpTo(d, |d.attachments|, a, b, prepared, outcomes) && j < |prepared|
    ensures StillPrepared(d, a, b, prepared[j].index)
  {
    assert IsPrepared(prepared, prepared[j].index);
    assert PreparedWell(d, a, b, prepared[j].index);
  }

  /** The inline attachment and the others meet their fates. */
  lemma InlineMeetsContract(
      d: Delivery, limit: int, a: Store, b: Store, u: Store, p: Store, c: Store, message: PreparedMessage,
      resolution: UploadResolution, outcome: Outcome, syncId: string, r: Result<DeliveryResult>)
    requires PreparedUpTo(d, |d.attachments|, a, b, message.prepared, message.outcomes) && |message.prepared| == 1
    requires IsNew(d) ==> PreparedExactly(d, limit, |d.attachments|, Since(a.log, b.log), message.prepared)
    requires InlineSteps(d, b, u, p, c, message.prepared[0].index, resolution, outcome, syncId)
    requires FileCarried(Since(u.log, p.log)) <==> !resolution.UseOutcome?
    requires r.Ok? ==> r.value.sentSyncId == syncId
    ensures NewDeliveryContract(d, limit, a, c, r)
  {
    if IsNew(d) && r.Ok? {
      var prepared := message.prepared;
      var k := prepared[0].index;
      InlineIsBesides(d, b, u, p, c, k, resolution, outcome, syncId);
      PreparedIsStillPrepared(d, a, b, prepared, message.outcomes, 0);
      InlineMeetsFate(d, a, b, u, p, c, k, resolution, outcome, syncId);
      InlineDownloadsNothing(d, a, b, u, p, c, k, resolution, outcome, syncId);
      forall i: nat | i < |d.attachments| ensures Fate(d, limit, a, c, i, syncId) {
        OnlyPreparedIsReached(d, limit, Since(a.log, b.log), Since(b.log, c.log), prepared, i);
        if i != k {
          OthersAreUnreached(d, a, b, c, prepared, message.outcomes, i);
        }
      }
    }
  }

  lemma InlineDownloadsNothing(
      d: Delivery, a: Store, b: Store, u: Store, p: Store, c: Store, i: nat, resolution: UploadResolution, outcome: Outcome, syncId: string)
    requires a.log <= b.log && OnlyDownloaded(Since(a.log, b.log), d.Key(i))
    requires InlineSteps(d, b, u, p, c, i, resolution, outcome, syncId)
    ensures b.log <= c.log && Since(a.log, c.log) == Since(a.log, b.log) + Since(b.log, c.log)
    ensures forall e | e in Since(b.log, c.log) :: !e.request.Download?
  {
    InlineAsks(d, a, b, u, p, c, i, resolution, outcome, syncId);
    SinceSplits(b.log, u.log, c.log);
    SinceSplits(a.log, b.log, c.log);
  }

  lemma CallsInThree(a: seq<Exchange>, b: seq<Exchange>, p: seq<Exchange>, c: seq<Exchange>)
    requires a <= b <= p <= c
    ensures a <= c && Since(a, c) == Since(a, b) + Since(b, p) + Since(p, c)
  {
    SinceSplits(a, b, p);
    SinceSplits(a, p, c);
  }

  /** Other calls before and after the primary sends do not matter. */
  lemma PrimarySentAround(d: Delivery, x: seq<Exchange>, y: seq<Exchange>, z: seq<Exchange>, body: string, syncId: string)
    requires PrimarySent(d, y, body, syncId)
    requires forall e | e in x + z :: !e.request.SendPrimary?
    ensures PrimarySent(d, x + y + z, body, syncId)
  {
    assert forall e :: e in x + y + z <==> e in x + z || e in y;
  }

  lemma NothingPreparedWithoutMedia(d: Delivery, a: Store, b: Store, message: PreparedMessage)
    requires PreparedUpTo(d, |d.attachments|, a, b, message.prepared, message.outcomes) && !d.migrateMedia
    ensures message.prepared == []
  {
    if message.prepared != [] {
      assert IsPrepared(message.prepared, message.prepared[0].index);
      assert false;
    }
  }

  /** The calls of a delivery without inline attachment: preparation (`a` to `b`),
      primary (`b` to `p`), follow-ups (`p` to `c`). */
  lemma SeparateCalls(
      d: Delivery, a: Store, b: Store, p: Store, c: Store, message: PreparedMessage, body: string, syncId: string)
    requires PreparedUpTo(d, |d.attachments|, a, b, message.prepared, message.outcomes) && PreparationFrame(d, a, b)
    requires OnlyPrimarySends(b, p) && p.log <= c.log
    requires forall e | e in Since(p.log, c.log) :: !e.request.SendPrimary?
    requires message.prepared == [] ==> c == p
    requires d.IsReplay() ==> p == b
    requires !d.IsReplay() ==> PrimarySent(d, Since(b.log, p.log), body, syncId)
    ensures a.log <= c.log
    ensures d.IsReplay() ==> forall e | e in Since(a.log, c.log) :: !e.request.SendPrimary?
    ensures !d.migrateMedia ==> forall e | e in Since(a.log, c.log) :: e.request.SendPrimary?
    ensures !d.IsReplay() ==> PrimarySent(d, Since(a.log, c.log), body, syncId)
  {
    var x, y, z := Since(a.log, b.log), Since(b.log, p.log), Since(p.log, c.log);
    CallsInThree(a.log, b.log, p.log, c.log);
    if !d.IsReplay() {
      PrimarySentAround(d, x, y, z, body, syncId);
    }
    if d.IsReplay() {
      assert y == [];
    }
    if !d.migrateMedia {
      NothingPreparedWithoutMedia(d, a, b, message);
      assert x == [] && z == [];
    }
  }

  lemma PreparedThenPrimaryDecides(a: Store, b: Store, s: Store)
    requires a.log <= b.log <= s.log && LastSendDecides(Since(b.log, s.log))
    requires forall e | e in Since(a.log, b.log) :: e.request.Download?
    ensures a.log <= s.log && LastSendDecides(Since(a.log, s.log))
  {
    SinceSplits(a.log, b.log, s.log);
    NoSends(Since(a.log, b.log), Since(b.log, s.log));
    LastSendDecidesConcat(Since(a.log, b.log), Since(b.log, s.log));
  }

  lemma SeparateMeetsContract(
      d: Delivery, limit: int, a: Store, b: Store, p: Store, c: Store, message: PreparedMessage, r: Result<DeliveryResult>)
    requires PreparedUpTo(d, |d.attachments|, a, b, message.prepared, message.outcomes)
    requires FatesUpTo(d, a, c, message.prepared, |message.prepared|)
    requires IsNew(d) ==>
      |message.prepared| != 1 && PreparedExactly(d, limit, |d.attachments|, Since(a.log, b.log), message.prepared)
    requires OnlyPrimarySends(b, p) && p.log <= c.log && forall e | e in Since(p.log, c.log) :: !e.request.Download?
    ensures NewDeliveryContract(d, limit, a, c, r)
  {
    if IsNew(d) {
      CallsInThree(a.log, b.log, p.log, c.log);
      PreparedExactlyStays(d, limit, Since(a.log, b.log), Since(b.log, p.log), message.prepared);
      PreparedExactlyStays(d, limit, Since(a.log, b.log) + Since(b.log, p.log), Since(p.log, c.log), message.prepared);
    }
    FatesMeetContract(d, limit, a, c, message.prepared, r);
  }

  lemma SeparateRaises(d: Delivery, a: Store, b: Store, p: Store, c: Store, message: PreparedMessage, error: Error)
    requires PreparedUpTo(d, |d.attachments|, a, b, message.prepared, message.outcomes) && PreparationFrame(d, a, b)
    requires AllKept(d, a) ==> message.prepared == []
    requires OnlyPrimarySends(b, p) && p.log <= c.log
    requires forall e | e in Since(p.log, c.log) :: !e.request.SendPrimary?
    requires OnlyFirst(d, |d.attachments|, a, c) && KeepsSettled(d, a, c) && LastSendDecides(Since(a.log, c.log))
    requires message.prepared != [] || !d.IsReplay()
    requires d.IsReplay() ==> p == b
    requires IsStop(error) || PrimaryRefused(Since(b.log, p.log), error)
    ensures DeliveryContract(d, a, c, Raised(error))
  {
    SinceSplits(a.log, b.log, p.log);
    SinceSplits(a.log, p.log, c.log);
  }

  /** A follow-up asks nothing that was asked before it. */
  lemma FollowUpSendsDecide(d: Delivery, a: Store, b: Store, c: Store, i: nat, r: Result<Outcome>)
    requires a.log <= b.log && LastSendDecides(Since(a.log, b.log)) && StillPrepared(d, a, b, i)
    requires OnlySlot(b, c, d.Key(i), d.target) && FollowUpResult(d, i, b, c, r)
    ensures a.log <= c.log && LastSendDecides(Since(a.log, c.log))
    ensures forall e | e in Since(b.log, c.log) :: !e.request.SendPrimary? && !e.request.Download?
  {
    SinceSplits(a.log, b.log, c.log);
    var x, y := Since(a.log, b.log), Since(b.log, c.log);
    assert LastSendDecides(y);
    assert SendApart(x, y);
    LastSendDecidesConcat(x, y);
  }

  /** The primary sends of an inline delivery are those after the upload. */
  lemma InlineCalls(d: Delivery, a: Store, b: Store, u: Store, c: Store, i: nat, body: string, syncId: string)
    requires a.log <= b.log <= u.log <= c.log
    requires forall e | e in Since(a.log, b.log) :: e.request.Download?
    requires forall e | e in Since(b.log, u.log) :: e.request == Upload(d.Key(i))
    requires PrimarySent(d, Since(u.log, c.log), body, syncId)
    ensures PrimarySent(d, Since(a.log, c.log), body, syncId)
  {
    CallsInThree(a.log, b.log, u.log, c.log);
    var x := Since(a.log, b.log) + Since(b.log, u.log);
    PrimarySentAround(d, x, Since(u.log, c.log), [], body, syncId);
    assert x + Since(u.log, c.log) + [] == Since(a.log, c.log);
  }

  predicate ContainsAt(text: string, marker: string, i: nat)
    requires i + |marker| <= |text|
  {
    forall j | 0 <= j < |marker| :: Text.LowerChar(text[i + j]) == marker[j]
  }

  predicate Contains(text: string, marker: string) {
    exists i | 0 <= i <= |text| - |marker| :: ContainsAt(text, marker, i)
  }

  /** `_should_fallback_to_direct_file_send`: the files API could not build a preview. */
  predicate IsPreviewFailure(error: Error) {
    && error.kind != AmbiguousDelivery
    && (|| Contains(error.message, "get preview failed")
        || Contains(error.message, "flow_processing_error")
        || Contains(error.message, "file_preview")
        || Contains(error.message, "preview generation"))
  }

  class MessageDeliveryService {
    const mappings: AttachmentMappingRepository
    const stages: AttachmentStageRepository
    const gateway: Gateway
    const retryPolicy: AsyncRetryPolicy
    const uploadLimit: int
    const render: (MessageKey, seq<string>) -> string

    constructor (
        mappings: AttachmentMappingRepository, stages: AttachmentStageRepository, gateway: Gateway,
        retryPolicy: AsyncRetryPolicy, uploadLimit: int, render: (MessageKey, seq<string>) -> string)
      ensures this.mappings == mappings && this.stages == stages && this.gateway == gateway
    {
      this.mappings := mappings;
      this.stages := stages;
      this.gateway := gateway;
      this.retryPolicy := retryPolicy;
      this.uploadLimit := uploadLimit;
      this.render := render;
    }

    ghost function Now(): Store
      reads mappings, stages, gateway
    {
      Store(mappings.records, stages.records, gateway.log, mappings.storage, stages.storage)
    }

    predicate OverLimit(sizeBytes: Option<int>) {
      !FitsLimit(uploadLimit, sizeBytes)
    }

    /** `_claim_terminal_attachment` */
    method ClaimTerminal(key: AttachmentKey, retryFailed: bool) returns (r: Result<MappingRecord>)
      modifies mappings
      ensures OnlyAt(old(mappings.records), mappings.records, key)
      ensures r.Ok? ==>
        && r.value == ClaimMapping(old(Find(mappings.records, key)), retryFailed).record
        && mappings.records == old(mappings.records)[key := r.value]
        && r.value.status != Ambiguous
        && (r.value.status == Processing ==> ClaimMapping(old(Find(mappings.records, key)), retryFailed).state == Claimed)
      ensures r.Raised? ==> r.error.kind == AmbiguousDelivery || IsInterruption(r.error)
      ensures ClaimMapping(old(Find(mappings.records, key)), retryFailed).state != Claimed ==> mappings.records == old(mappings.records)
      ensures r.Raised? && old(key in mappings.records && mappings.records[key].status == Skipped) ==> IsInterruption(r.error)
    {
      var claim :- mappings.Claim(key, retryFailed);
      if claim.state == AmbiguousClaim && claim.record.status != Skipped {
        return Raised(Error(AmbiguousDelivery, "attachment is already being processed or is ambiguous"));
      }
      return Ok(claim.record);
    }

    /** `_mark_attachment_skipped` */
    method MarkSkipped(key: AttachmentKey, reason: string) returns (r: Result<MappingRecord>)
      modifies mappings
      ensures OnlyAt(old(mappings.records), mappings.records, key)
      ensures r.Ok? ==> r.value.status == Skipped && Find(mappings.records, key) == Some(r.value)
      ensures old(key in mappings.records && mappings.records[key].status == Skipped) ==> mappings.records == old(mappings.records)
      ensures r.Raised? ==> IsStop(r.error)
    {
      var record :- ClaimTerminal(key, false);
      if record.status != Skipped {
        record :- mappings.Mark(key, SkippedFor(reason));
      }
      var audit := Suspend();
      r := if audit.Some? then Raised(audit.value) else Ok(record);
    }

    /** The two failure branches of `_prepare_message`: download and payload. */
    method RecordPreparationFailure(d: Delivery, i: nat, error: Error, phase: Phase) returns (r: Result<MappingRecord>)
      requires error.kind == Recoverable || error.kind == Fatal
      modifies mappings
      ensures OnlyAt(old(mappings.records), mappings.records, d.Key(i))
      ensures r.Ok? ==>
        && Find(mappings.records, d.Key(i)) == Some(r.value)
        && r.value.status == Failed
        && (|| r.value.errorPayload == StoredPayload(mappings.storage, Failure(phase, error.message))
            || old(Find(mappings.records, d.Key(i))) == Some(r.value))
      ensures r.Raised? ==> IsStop(r.error)
    {
      var record :- ClaimTerminal(d.Key(i), !d.IsReplay());
      if record.status != Failed {
        record :- mappings.Mark(d.Key(i), FailedWith(ErrorClass(error.kind), phase, error.message));
      }
      var audit := Suspend();
      r := if audit.Some? then Raised(audit.value) else Ok(record);
    }

    /** The download of attachment `i`, unless it was prefetched. */
    method FetchAttachment(d: Delivery, i: nat) returns (r: Result<Answer>)
      modifies gateway
      ensures old(gateway.log) <= gateway.log
      ensures forall e | e in Since(old(gateway.log), gateway.log) :: e.request == Download(d.Key(i))
      ensures r.Ok? ==> r.value.GotDownload? || r.value.Refused?
      ensures r.Ok? ==>
        (r.value.GotDownload? && IsUsable(uploadLimit, r.value.download)
         <==> IsFetched(d, uploadLimit, i, Since(old(gateway.log), gateway.log)))
      ensures r.Raised? ==> r.error == MISSING_PAYLOAD && i in d.prefetched
      ensures r.Raised? ==> d.prefetched[i].error == None && d.prefetched[i].download == None
    {
      if i in d.prefetched {
        if d.prefetched[i].error.Some? {
          return Ok(Refused(d.prefetched[i].error.value));
        }
        if d.prefetched[i].download.Some? {
          return Ok(GotDownload(d.prefetched[i].download.value));
        }
        return Raised(MISSING_PAYLOAD);
      }
      var answer := retryPolicy.Run(gateway, Download(d.Key(i)));
      AttemptsDownload(Since(old(gateway.log), gateway.log), Download(d.Key(i)), answer, retryPolicy.maxAttempts);
      r := Ok(answer);
    }

    /** The rest of the round, from the answer to the download on. */
    method DecideDownloaded(d: Delivery, i: nat, answer: Answer) returns (r: Result<Preparation>)
      requires i < |d.attachments| && (answer.GotDownload? || answer.Refused?)
      modifies mappings
      ensures OnlyAt(old(mappings.records), mappings.records, d.Key(i))
      ensures r.Ok? && r.value.Decided? ==>
        && Find(mappings.records, d.Key(i)).Some?
        && r.value.outcome == OutcomeFromRecord(i, Find(mappings.records, d.Key(i)).value)
        && r.value.failure.Some? && (r.value.outcome.status == Failed || r.value.outcome.status == Skipped)
        && (old(Find(mappings.records, d.Key(i))) == None ==> !r.value.outcome.blocks)
      ensures r.Ok? && r.value.Ready? ==>
        && mappings.records == old(mappings.records)
        && r.value.prepared.index == i
        && !OverLimit(r.value.prepared.file.sizeBytes)
      ensures r.Ok? ==> (r.value.Ready? <==> answer.GotDownload? && IsUsable(uploadLimit, answer.download))
      ensures r.Raised? ==> IsStop(r.error)
    {
      if answer.Refused? {
        if answer.error.kind != Recoverable && answer.error.kind != Fatal {
          return Raised(answer.error);
        }
        var record :- RecordPreparationFailure(d, i, answer.error, DownloadPhase);
        return Ok(Decided(OutcomeFromRecord(i, record), Some(answer.error.message)));
      }
      if OverLimit(answer.download.sizeBytes) {
        var record :- MarkSkipped(d.Key(i), SKIPPED_BY_LIMIT);
        return Ok(Decided(OutcomeFromRecord(i, record), Some(SKIPPED_BY_LIMIT)));
      }
      if answer.download.file == None {
        var error := Error(Fatal, "attachment download did not provide content or local_path");
        var record :- RecordPreparationFailure(d, i, error, PreparePhase);
        return Ok(Decided(OutcomeFromRecord(i, record), Some(error.message)));
      }
      if OverLimit(answer.download.file.value.sizeBytes) {
        var record :- MarkSkipped(d.Key(i), SKIPPED_BY_LIMIT);
        return Ok(Decided(OutcomeFromRecord(i, record), Some(SKIPPED_BY_LIMIT)));
      }
      return Ok(Ready(Prepared(i, answer.download.file.value)));
    }

    /** One round of the loop in `_prepare_message` with media migration on. */
    method PrepareAttachment(d: Delivery, i: nat) returns (r: Result<Preparation>)
      requires i < |d.attachments|
      modifies mappings, gateway
      ensures OnlySlot(old(Now()), Now(), d.Key(i), d.target) && stages.records == old(stages.records)
      ensures forall e | e in Since(old(gateway.log), gateway.log) :: e.request == Download(d.Key(i))
      ensures r.Ok? && r.value.Decided? ==>
        && Find(mappings.records, d.Key(i)).Some?
        && r.value.outcome == OutcomeFromRecord(i, Find(mappings.records, d.Key(i)).value)
      ensures r.Ok? && r.value.Decided? && (old(Find(mappings.records, d.Key(i))) == None) ==>
        && !r.value.outcome.blocks && (r.value.outcome.status == Failed || r.value.outcome.status == Skipped)
      ensures r.Ok? && r.value.Ready? ==>
        && mappings.records == old(mappings.records)
        && r.value.prepared.index == i
        && !OverLimit(r.value.prepared.file.sizeBytes)
        && !(d.IsReplay() && old(Settled(d, Now(), i)))
      ensures r.Ok? && r.value.Decided? && !d.IsReplay() ==>
        r.value.failure.Some? && (r.value.outcome.status == Failed || r.value.outcome.status == Skipped)
      ensures r.Ok? && !d.IsReplay() ==>
        (r.value.Ready? <==> IsReached(d, uploadLimit, i, Since(old(gateway.log), gateway.log)))
      ensures d.IsReplay() && old(Settled(d, Now(), i)) ==>
        Now() == old(Now()) && (r.Raised? ==> IsInterruption(r.error))
      ensures r.Raised? ==> IsStop(r.error) || IsMissingPayload(d, r.error)
    {
      var existing :- mappings.Get(d.Key(i));
      if d.IsReplay() && existing.Some? && !Blocks(existing.value) {
        return Ok(Decided(OutcomeFromRecord(i, existing.value), None));
      }
      var reason: Option<string> :=
        if i in d.prefetched && d.prefetched[i].skippedReason.Some? then d.prefetched[i].skippedReason
        else if OverLimit(d.attachments[i].sizeBytes) then Some(SKIPPED_BY_LIMIT)
        else None;
      if reason.Some? {
        var record :- MarkSkipped(d.Key(i), reason.value);
        return Ok(Decided(OutcomeFromRecord(i, record), reason));
      }
      var fetched := FetchAttachment(d, i);
      if fetched.Raised? {
        assert LacksPayload(d, i);
        return Raised(fetched.error);
      }
      r := DecideDownloaded(d, i, fetched.value);
    }

    /** One round of the loop in `_prepare_message` with media migration off. */
    method SkipAttachment(d: Delivery, i: nat) returns (r: Result<Outcome>)
      requires i < |d.attachments|
      modifies mappings
      ensures OnlyAt(old(mappings.records), mappings.records, d.Key(i))
      ensures r.Ok? ==>
        && Find(mappings.records, d.Key(i)).Some?
        && Find(mappings.records, d.Key(i)).value.status == Skipped
        && r.value == OutcomeFromRecord(i, Find(mappings.records, d.Key(i)).value)
      ensures old(d.Key(i) in mappings.records && mappings.records[d.Key(i)].status == Skipped) ==>
        mappings.records == old(mappings.records) && (r.Raised? ==> IsInterruption(r.error))
      ensures r.Raised? ==> IsStop(r.error)
    {
      var record :- ClaimTerminal(d.Key(i), false);
      if record.status == Skipped {
        return Ok(OutcomeFromRecord(i, record));
      }
      record :- mappings.Mark(d.Key(i), SkippedFor(MEDIA_DISABLED));
      var audit := Suspend();
      r := if audit.Some? then Raised(audit.value) else Ok(OutcomeFromRecord(i, record));
    }

    /** The part of `_ensure_uploaded_attachment` that follows a refused upload. */
    method RecordUploadFailure(d: Delivery, p: Prepared, error: Error) returns (r: Result<UploadResolution>)
      requires error.kind != Cancelled && error.kind != Other
      modifies mappings, stages
      ensures OnlyAt(old(mappings.records), mappings.records, d.Key(p.index))
      ensures OnlyAt(old(stages.records), stages.records, StageKey(d.Key(p.index), d.target))
      ensures r.Ok? ==>
        && Find(stages.records, StageKey(d.Key(p.index), d.target)).Some?
        && Find(stages.records, StageKey(d.Key(p.index), d.target)).value.status == StageFailed
      ensures r.Ok? && IsPreviewFailure(error) ==> r.value == UseDirectFile && mappings.records == old(mappings.records)
      ensures r.Ok? && !IsPreviewFailure(error) ==>
        && r.value.UseOutcome?
        && Find(mappings.records, d.Key(p.index)).Some?
        && Find(mappings.records, d.Key(p.index)).value.status == Failed
        && r.value.outcome == OutcomeFromRecord(p.index, Find(mappings.records, d.Key(p.index)).value)
        && (|| Find(mappings.records, d.Key(p.index)).value.errorPayload
                 == StoredPayload(mappings.storage, Failure(UploadPhase, error.message))
            || Find(mappings.records, d.Key(p.index)) == old(Find(mappings.records, d.Key(p.index))))
      ensures r.Ok? && !IsPreviewFailure(error) && old(d.Key(p.index) in mappings.records) ==>
        old(mappings.records[d.Key(p.index)].status) != Processing
      ensures r.Raised? ==> IsStop(r.error)
    {
      var key := d.Key(p.index);
      var _ :- stages.Mark(StageKey(key, d.target), StageFailedWith(ErrorClass(error.kind)));
      if IsPreviewFailure(error) {
        var audit := Suspend();
        return if audit.Some? then Raised(audit.value) else Ok(UseDirectFile);
      }
      var record :- ClaimTerminal(key, d.retryFailed);
      if record.status != Failed {
        record :- mappings.Mark(key, FailedWith(ErrorClass(error.kind), UploadPhase, error.message));
      }
      var audit := Suspend();
      r := if audit.Some? then Raised(audit.value) else Ok(UseOutcome(OutcomeFromRecord(p.index, record)));
    }

    /** The part of `_ensure_uploaded_attachment` from the upload on. */
    method UploadFile(d: Delivery, p: Prepared) returns (r: Result<UploadResolution>)
      requires !IsUploaded(Stg(Now(), d.Key(p.index), d.target))
      requires GivenUp(Stg(Now(), d.Key(p.index), d.target), d.retryFailed) ==> Rec(Now(), d.Key(p.index)) == None
      modifies mappings, stages, gateway
      ensures OnlySlot(old(Now()), Now(), d.Key(p.index), d.target)
      ensures UploadResult(d, p.index, old(Now()), Now(), r)
      ensures old(gateway.log) != gateway.log
    {
      var key := d.Key(p.index);
      var answer := retryPolicy.Run(gateway, Upload(key));
      if answer.Refused? {
        if answer.error.kind == Cancelled {
          var _ :- stages.Mark(StageKey(key, d.target), StageFailedWith(CancelledByOperator));
          return Raised(answer.error);
        }
        if answer.error.kind == Other {
          return Raised(answer.error);
        }
        r := RecordUploadFailure(d, p, answer.error);
        return;
      }
      var _ :- stages.Mark(StageKey(key, d.target), UploadedAs(answer.staged));
      var audit := Suspend();
      r := if audit.Some? then Raised(audit.value) else Ok(UseStaged(answer.staged));
    }

    /** `_ensure_uploaded_attachment` */
    method EnsureUploaded(d: Delivery, p: Prepared) returns (r: Result<UploadResolution>)
      modifies mappings, stages, gateway
      ensures OnlySlot(old(Now()), Now(), d.Key(p.index), d.target)
      ensures UploadResult(d, p.index, old(Now()), Now(), r)
    {
      var key := d.Key(p.index);
      var claim :- stages.Claim(StageKey(key, d.target), d.retryFailed);
      if claim.state == AlreadyImported {
        var staged := StagedFileFromPayload(claim.record.payload);
        if staged.Some? {
          return Ok(UseStaged(staged.value));
        }
      } else if claim.state == AlreadyFailed && !d.retryFailed {
        var record :- mappings.Get(key);
        if record.Some? {
          return Ok(UseOutcome(OutcomeFromRecord(p.index, record.value)));
        }
      } else if claim.state == AmbiguousClaim {
        return Raised(Error(AmbiguousDelivery, "attachment upload stage is already being processed or is ambiguous"));
      }
      r := UploadFile(d, p);
    }

    /** The bookkeeping after a successful send, inline or follow-up. */
    method RecordImport(d: Delivery, i: nat, syncId: string, attach: bool) returns (r: Result<Outcome>)
      modifies mappings, stages
      ensures OnlySlot(old(Now()), Now(), d.Key(i), d.target)
      ensures r.Ok? ==>
        && Rec(Now(), d.Key(i)).Some? && r.value == OutcomeFromRecord(i, Rec(Now(), d.Key(i)).value)
        && RecordsSend(Rec(Now(), d.Key(i)).value, GotSent(syncId), mappings.storage)
      ensures r.Ok? && attach ==> IsAttached(Now(), d.Key(i), d.target, syncId)
      ensures r.Raised? ==> IsStop(r.error)
    {
      var record :- mappings.Mark(d.Key(i), ImportedAs(syncId));
      if attach {
        var _ :- stages.Mark(StageKey(d.Key(i), d.target), AttachedTo(syncId));
      }
      var audit := Suspend();
      r := if audit.Some? then Raised(audit.value) else Ok(OutcomeFromRecord(i, record));
    }

    /** The two `except` branches around the follow-up send. */
    method RecordSendFailure(d: Delivery, i: nat, error: Error) returns (r: Result<Outcome>)
      modifies mappings
      ensures OnlyAt(old(mappings.records), mappings.records, d.Key(i))
      ensures r.Ok? ==>
        && Rec(Now(), d.Key(i)).Some? && r.value == OutcomeFromRecord(i, Rec(Now(), d.Key(i)).value)
        && RecordsSend(Rec(Now(), d.Key(i)).value, Refused(error), mappings.storage)
      ensures r.Raised? ==> IsStop(r.error)
    {
      var record;
      if error.kind == AmbiguousDelivery {
        record :- mappings.Mark(d.Key(i), AmbiguousWith(ErrorClass(error.kind), SendPhase, error.message));
      } else {
        record :- mappings.Mark(d.Key(i), FailedWith(ErrorClass(error.kind), SendPhase, error.message));
      }
      var audit := Suspend();
      r := if audit.Some? then Raised(audit.value) else Ok(OutcomeFromRecord(i, record));
    }

    /** The send at the end of `_deliver_attachment` and the record it leaves. */
    method SendFollowUpMessage(d: Delivery, p: Prepared, staged: Option<StagedFile>) returns (r: Result<Outcome>)
      modifies mappings, stages, gateway
      ensures OnlySlot(old(Now()), Now(), d.Key(p.index), d.target)
      ensures forall e | e in Since(old(gateway.log), gateway.log) :: e.request == SendFollowUp(d.Key(p.index), staged)
      ensures LastSendDecides(Since(old(gateway.log), gateway.log))
      ensures r.Ok? ==>
        && var answer := FollowUpAnswer(Since(old(gateway.log), gateway.log), d.Key(p.index));
        && Rec(Now(), d.Key(p.index)).Some? && r.value == OutcomeFromRecord(p.index, Rec(Now(), d.Key(p.index)).value)
        && answer.Some? && RecordsSend(Rec(Now(), d.Key(p.index)).value, answer.value, mappings.storage)
        && (staged.Some? && answer.value.GotSent? ==> IsAttached(Now(), d.Key(p.index), d.target, answer.value.syncId))
      ensures r.Raised? ==> IsStop(r.error)
    {
      var request := SendFollowUp(d.Key(p.index), staged);
      var answer := retryPolicy.Run(gateway, request);
      AttemptsFollowUpAnswer(Since(old(gateway.log), gateway.log), request, answer, retryPolicy.maxAttempts);
      AttemptsDecide(Since(old(gateway.log), gateway.log), request, answer, retryPolicy.maxAttempts);
      if answer.GotSent? {
        r := RecordImport(d, p.index, answer.syncId, staged.Some?);
      } else if IsInterruption(answer.error) {
        r := Raised(answer.error);
      } else {
        r := RecordSendFailure(d, p.index, answer.error);
      }
    }

    /** `_deliver_attachment` once the mapping record is claimed. */
    method UploadAndSend(d: Delivery, p: Prepared) returns (r: Result<Outcome>)
      requires Rec(Now(), d.Key(p.index)).Some? && Rec(Now(), d.Key(p.index)).value.status == Processing
      modifies mappings, stages, gateway
      ensures OnlySlot(old(Now()), Now(), d.Key(p.index), d.target)
      ensures UploadedAndSent(d, p.index, old(Now()), Now(), r)
    {
      ghost var claimed := Now();
      var upload :- EnsureUploaded(d, p);
      ghost var uploaded := Now();
      if upload.UseOutcome? {
        NoFollowUp(Since(claimed.log, uploaded.log), d.Key(p.index));
        NoSends(Since(claimed.log, uploaded.log), []);
        return Ok(upload.outcome);
      }
      r := SendFollowUpMessage(d, p, if upload.UseStaged? then Some(upload.staged) else None);
      SinceSplits(claimed.log, uploaded.log, gateway.log);
      NoSends(Since(claimed.log, uploaded.log), Since(uploaded.log, gateway.log));
      LastSendDecidesConcat(Since(claimed.log, uploaded.log), Since(uploaded.log, gateway.log));
      FollowUpAnswerConcat(Since(claimed.log, uploaded.log), Since(uploaded.log, gateway.log), d.Key(p.index));
    }

    /** The body of the guarded region in `_deliver_attachment`. */
    method DeliverGuarded(d: Delivery, p: Prepared, existing: Option<MappingRecord>) returns (r: Result<Outcome>)
      requires existing == Find(mappings.records, d.Key(p.index))
      modifies mappings, stages, gateway
      ensures OnlySlot(old(Now()), Now(), d.Key(p.index), d.target)
      ensures FollowUpResult(d, p.index, old(Now()), Now(), r)
      ensures existing.Some? && AnswersFromRecord(existing.value, d.retryFailed) ==> r.Ok?
      ensures existing.Some? && existing.value.status == Ambiguous ==> r.Raised? && r.error.kind == AmbiguousDelivery
    {
      var key := d.Key(p.index);
      if existing.Some? {
        if AnswersFromRecord(existing.value, d.retryFailed) {
          return Ok(OutcomeFromRecord(p.index, existing.value));
        }
        if existing.value.status == Ambiguous {
          return Raised(Error(AmbiguousDelivery, "attachment is in ambiguous state; manual reconciliation required"));
        }
      }
      var claim :- mappings.Claim(key, d.retryFailed);
      if claim.state == AlreadyImported || claim.state == AlreadyFailed {
        return Ok(OutcomeFromRecord(p.index, claim.record));
      }
      if claim.state == AmbiguousClaim {
        if claim.record.status == Skipped {
          return Ok(OutcomeFromRecord(p.index, claim.record));
        }
        return Raised(Error(AmbiguousDelivery, "attachment is already being processed or is ambiguous"));
      }
      r := UploadAndSend(d, p);
    }

    /** The cancellation branch of `_deliver_attachment`: the record and a running
        upload are marked failed. `cut` when one of these calls was interrupted. */
    method Release(key: AttachmentKey, target: string) returns (r: Result<()>, ghost cut: bool)
      modifies mappings, stages
      ensures OnlySlot(old(Now()), Now(), key, target) && gateway.log == old(gateway.log)
      ensures cut <==> r.Raised?
      ensures r.Ok? ==> IsReleased(Now(), key, target)
      ensures r.Raised? ==> IsInterruption(r.error)
    {
      cut := true;
      var stageKey := StageKey(key, target);
      var _ :- mappings.Mark(key, FailedWith(CancelledByOperator, DeliveryPhase, "attachment delivery cancelled"));
      var stage :- stages.Get(stageKey);
      if stage.Some? && stage.value.status == StageProcessing {
        var _ :- stages.Mark(stageKey, StageFailedWith(CancelledByOperator));
      }
      r, cut := Ok(()), false;
    }

    /** `_deliver_attachment`: a cancellation goes on only after the attachment was
        released, unless a repository call around it was itself interrupted. */
    method DeliverAttachment(d: Delivery, p: Prepared) returns (r: Result<Outcome>, ghost cut: bool)
      modifies mappings, stages, gateway
      ensures OnlySlot(old(Now()), Now(), d.Key(p.index), d.target)
      ensures FollowUpResult(d, p.index, old(Now()), Now(), r)
      ensures r.Raised? && r.error.kind == Cancelled ==> cut || IsReleased(Now(), d.Key(p.index), d.target)
    {
      var key := d.Key(p.index);
      cut := true;
      var existing :- mappings.Get(key);
      r := DeliverGuarded(d, p, existing);
      cut := false;
      if r.Raised? && r.error.kind == Cancelled {
        var release;
        release, cut := Release(key, d.target);
        if release.Raised? {
          r := Raised(release.error);
        }
      }
    }

    /** `_mark_inline_attachment_imported` */
    method MarkInlineImported(d: Delivery, p: Prepared, syncId: string, attach: bool) returns (r: Result<Outcome>)
      modifies mappings, stages
      ensures OnlySlot(old(Now()), Now(), d.Key(p.index), d.target)
      ensures InlineResult(d, p.index, syncId, attach, old(Now()), Now(), r)
    {
      var key := d.Key(p.index);
      var claim :- mappings.Claim(key, true);
      if claim.state == AmbiguousClaim {
        if claim.record.status == Skipped {
          return Ok(OutcomeFromRecord(p.index, claim.record));
        }
        return Raised(Error(AmbiguousDelivery, "attachment is already being processed or is ambiguous"));
      }
      if claim.state == AlreadyImported {
        return Ok(OutcomeFromRecord(p.index, claim.record));
      }
      r := RecordImport(d, p.index, syncId, attach);
      if r.Raised? && r.error.kind == Cancelled {
        var _ :- mappings.Mark(key, FailedWith(CancelledByOperator, InlineAttachPhase, "inline attachment delivery cancelled"));
      }
    }

    /** The loop of `_prepare_message` with media migration on. */
    method PrepareMedia(d: Delivery) returns (r: Result<PreparedMessage>)
      requires d.migrateMedia
      modifies mappings, gateway
      ensures PreparationFrame(d, old(Now()), Now())
      ensures r.Ok? ==> PreparedUpTo(d, |d.attachments|, old(Now()), Now(), r.value.prepared, r.value.outcomes)
      ensures r.Ok? ==> d.attachmentFailures <= r.value.failures
      ensures r.Ok? && !d.IsReplay() ==>
        PreparedExactly(d, uploadLimit, |d.attachments|, Since(old(gateway.log), gateway.log), r.value.prepared)
      ensures old(AllKept(d, Now())) ==> (r.Ok? ==> r.value.prepared == []) && (r.Raised? ==> IsInterruption(r.error))
      ensures r.Raised? ==> IsStop(r.error) || IsMissingPayload(d, r.error)
    {
      ghost var start := Now();
      var prepared: seq<Prepared> := [];
      var outcomes: map<nat, Outcome> := map[];
      var failures := d.attachmentFailures;
      for i := 0 to |d.attachments|
        invariant PreparedUpTo(d, i, start, Now(), prepared, outcomes)
        invariant AllKept(d, start) ==> Now() == start && prepared == []
        invariant d.attachmentFailures <= failures
        invariant !d.IsReplay() ==> PreparedExactly(d, uploadLimit, i, Since(start.log, gateway.log), prepared)
      {
        ghost var before := Now();
        assert Untouched(start, before, d.Key(i));
        var step := PrepareAttachment(d, i);
        assert AllKept(d, start) ==> Settled(d, before, i);
        if step.Raised? {
          PreparationStops(d, i, start, before, Now(), prepared, outcomes);
          return Raised(step.error);
        }
        PreparedRound(d, uploadLimit, i, start, before, Now(), prepared, outcomes, step.value);
        match step.value {
          case Decided(outcome, failure) =>
            outcomes := outcomes[i := outcome];
            if failure.Some? {
              failures := failures + [failure.value];
            }
          case Ready(p) =>
            prepared := prepared + [p];
        }
      }
      PreparedMeetsFrame(d, start, Now(), prepared, outcomes);
      r := Ok(PreparedMessage(failures, prepared, outcomes));
    }

    /** The loop of `_prepare_message` with media migration off. */
    method SkipMedia(d: Delivery) returns (r: Result<PreparedMessage>)
      requires !d.migrateMedia
      modifies mappings
      ensures PreparationFrame(d, old(Now()), Now()) && gateway.log == old(gateway.log)
      ensures r.Ok? ==> PreparedUpTo(d, |d.attachments|, old(Now()), Now(), r.value.prepared, r.value.outcomes)
      ensures r.Ok? ==> r.value.failures == d.attachmentFailures
      ensures old(AllKept(d, Now())) && r.Raised? ==> IsInterruption(r.error)
      ensures r.Raised? ==> IsStop(r.error)
    {
      ghost var start := Now();
      var outcomes: map<nat, Outcome> := map[];
      for i := 0 to |d.attachments|
        invariant PreparedUpTo(d, i, start, Now(), [], outcomes)
        invariant AllKept(d, start) ==> Now() == start
      {
        ghost var before := Now();
        assert Untouched(start, before, d.Key(i));
        var step := SkipAttachment(d, i);
        OnlySlotIsBesides(before, Now(), d.Key(i), d.target);
        OnlyFirstStep(d, i, start, before, Now(), i);
        if step.Raised? {
          return Raised(step.error);
        }
        PreparedStep(d, i, start, before, Now(), [], outcomes, Some(step.value), FilePayload("", None));
        outcomes := outcomes[i := step.value];
      }
      r := Ok(PreparedMessage(d.attachmentFailures, [], outcomes));
    }

    /** The primary message: sent, or on a replay the one already there. */
    method SendOrReusePrimary(d: Delivery, failures: seq<string>, staged: Option<StagedFile>, direct: bool)
      returns (r: Result<(string, string)>)
      modifies gateway
      ensures OnlyPrimarySends(old(Now()), Now())
      ensures d.IsReplay() ==>
        && gateway.log == old(gateway.log)
        && r.Ok? && r.value.1 == d.existingPrimary.value
        && (d.existingBody.Some? && d.existingBody.value != "" ==> r.value.0 == d.existingBody.value)
      ensures r.Ok? && !d.IsReplay() ==>
        && r.value.0 == render(d.message, failures)
        && PrimarySent(d, Since(old(gateway.log), gateway.log), r.value.0, r.value.1)
      ensures forall e | e in Since(old(gateway.log), gateway.log) ::
        e.request == SendPrimary(d.message, render(d.message, failures), staged, direct)
      ensures LastSendDecides(Since(old(gateway.log), gateway.log))
      ensures r.Raised? ==> IsStop(r.error) || PrimaryRefused(Since(old(gateway.log), gateway.log), r.error)
    {
      if d.IsReplay() {
        var body :=
          if d.existingBody.Some? && d.existingBody.value != "" then d.existingBody.value
          else render(d.message, failures);
        return Ok((body, d.existingPrimary.value));
      }
      var body := render(d.message, failures);
      var answer := retryPolicy.Run(gateway, SendPrimary(d.message, body, staged, direct));
      ghost var tries := Since(old(gateway.log), gateway.log);
      assert tries[|tries| - 1] in tries;
      AttemptsDecide(tries, SendPrimary(d.message, body, staged, direct), answer, retryPolicy.maxAttempts);
      if answer.Refused? {
        return Raised(answer.error);
      }
      r := Ok((body, answer.syncId));
    }

    method PrepareMessage(d: Delivery) returns (r: Result<PreparedMessage>)
      modifies mappings, gateway
      ensures PreparationFrame(d, old(Now()), Now())
      ensures r.Ok? ==> PreparedUpTo(d, |d.attachments|, old(Now()), Now(), r.value.prepared, r.value.outcomes)
      ensures r.Ok? && IsNew(d) ==>
        PreparedExactly(d, uploadLimit, |d.attachments|, Since(old(gateway.log), gateway.log), r.value.prepared)
      ensures old(AllKept(d, Now())) ==> (r.Ok? ==> r.value.prepared == []) && (r.Raised? ==> IsInterruption(r.error))
      ensures r.Raised? ==> IsStop(r.error) || IsMissingPayload(d, r.error)
    {
      if d.migrateMedia {
        r := PrepareMedia(d);
      } else {
        r := SkipMedia(d);
        if r.Ok? && r.value.prepared != [] {
          assert IsPrepared(r.value.prepared, r.value.prepared[0].index);
        }
      }
    }

    /** The follow-up loop at the end of `deliver`. */
    method DeliverFollowUps(
        d: Delivery, prepared: seq<Prepared>, first: nat, decided: map<nat, Outcome>,
        ghost start: Store, ghost primarySyncId: string) returns (r: Result<map<nat, Outcome>>)
      requires DeliveredUpTo(d, start, Now(), prepared, first, decided, primarySyncId)
      requires FatesUpTo(d, start, Now(), prepared, first) && LastSendDecides(Since(start.log, gateway.log))
      modifies mappings, stages, gateway
      ensures OnlyFirst(d, |d.attachments|, start, Now()) && KeepsSettled(d, start, Now())
      ensures r.Ok? ==> DeliveredUpTo(d, start, Now(), prepared, |prepared|, r.value, primarySyncId)
      ensures r.Ok? ==> FatesUpTo(d, start, Now(), prepared, |prepared|)
      ensures LastSendDecides(Since(start.log, gateway.log))
      ensures first == |prepared| ==> r == Ok(decided) && Now() == old(Now())
      ensures old(gateway.log) <= gateway.log
      ensures forall e | e in Since(old(gateway.log), gateway.log) :: !e.request.SendPrimary? && !e.request.Download?
      ensures r.Raised? ==> IsStop(r.error)
    {
      var outcomes: map<nat, Outcome> := decided;
      ghost var entry := Now();
      for m := first to |prepared|
        invariant DeliveredUpTo(d, start, Now(), prepared, m, outcomes, primarySyncId)
        invariant entry.log <= gateway.log
        invariant FatesUpTo(d, start, Now(), prepared, m) && LastSendDecides(Since(start.log, gateway.log))
        invariant forall e | e in Since(entry.log, gateway.log) :: !e.request.SendPrimary? && !e.request.Download?
        invariant first == |prepared| ==> outcomes == decided && Now() == entry
      {
        var p := prepared[m];
        ghost var before := Now();
        assert prepared[m..][0] == p;
        ghost var cut;
        var step;
        step, cut := DeliverAttachment(d, p);
        OnlySlotIsBesides(before, Now(), d.Key(p.index), d.target);
        SinceSplits(entry.log, before.log, gateway.log);
        FollowUpSendsDecide(d, start, before, Now(), p.index, step);
        if step.Raised? {
          DeliveryFrameStep(d, start, before, Now(), prepared, m, outcomes, primarySyncId);
          return Raised(step.error);
        }
        FollowUpDeliversWell(d, start, before, Now(), p.index, step.value, primarySyncId);
        FatesStep(d, start, before, Now(), prepared, m, step.value);
        DeliveredStep(d, start, before, Now(), prepared, m, outcomes, step.value, primarySyncId);
        outcomes := outcomes[p.index := step.value];
      }
      r := Ok(outcomes);
    }

    /** The message with its inline attachment, once that is uploaded; `b` is the state
        before the upload. */
    method SendInline(
        d: Delivery, message: PreparedMessage, ghost start: Store, ghost b: Store, resolution: UploadResolution)
      returns (r: Result<DeliveryResult>)
      requires PreparedUpTo(d, |d.attachments|, start, b, message.prepared, message.outcomes)
      requires IsNew(d) ==> PreparedExactly(d, uploadLimit, |d.attachments|, Since(start.log, b.log), message.prepared)
      requires !d.IsReplay() && |message.prepared| == 1
      requires OnlySlot(b, Now(), d.Key(message.prepared[0].index), d.target)
      requires UploadResult(d, message.prepared[0].index, b, Now(), Ok(resolution))
      modifies mappings, stages, gateway
      ensures DeliveryContract(d, start, Now(), r) && NewDeliveryContract(d, uploadLimit, start, Now(), r)
    {
      var p := message.prepared[0];
      ghost var u := Now();
      OnlySlotIsBesides(b, u, d.Key(p.index), d.target);
      var staged := if resolution.UseStaged? then Some(resolution.staged) else None;
      var primary := SendOrReusePrimary(d, message.failures, staged, resolution.UseDirectFile?);
      ghost var s := Now();
      PrimaryAfterSlot(b, u, s, d.Key(p.index), d.target);
      UploadThenPrimaryDecides(d, b, u, s, p.index);
      if primary.Raised? {
        SinceSplits(b.log, u.log, s.log);
        InlineRaises(d, start, b, s, message, primary.error);
        return Raised(primary.error);
      }
      var (body, syncId) := primary.value;
      if resolution.UseOutcome? {
        InlineKeepsContract(d, start, b, u, s, s, message, resolution, resolution.outcome, body, syncId);
        r := Ok(Finish(d, body, syncId, message.outcomes[p.index := resolution.outcome]));
        InlineMeetsContract(d, uploadLimit, start, b, u, s, s, message, resolution, resolution.outcome, syncId, r);
        return;
      }
      var marked := MarkInlineImported(d, p, syncId, resolution.UseStaged?);
      OnlySlotIsBesides(s, Now(), d.Key(p.index), d.target);
      BesidesTransitive(b, s, Now(), d.Key(p.index), d.target);
      if marked.Raised? {
        InlineRaises(d, start, b, Now(), message, marked.error);
        return Raised(marked.error);
      }
      InlineKeepsContract(d, start, b, u, s, Now(), message, resolution, marked.value, body, syncId);
      r := Ok(Finish(d, body, syncId, message.outcomes[p.index := marked.value]));
      InlineMeetsContract(d, uploadLimit, start, b, u, s, Now(), message, resolution, marked.value, syncId, r);
    }

    /** `deliver` when the message is new and exactly one attachment is prepared. */
    method DeliverInline(d: Delivery, message: PreparedMessage, ghost start: Store) returns (r: Result<DeliveryResult>)
      requires PreparedUpTo(d, |d.attachments|, start, Now(), message.prepared, message.outcomes)
      requires PreparationFrame(d, start, Now())
      requires IsNew(d) ==> PreparedExactly(d, uploadLimit, |d.attachments|, Since(start.log, gateway.log), message.prepared)
      requires !d.IsReplay() && |message.prepared| == 1
      modifies mappings, stages, gateway
      ensures DeliveryContract(d, start, Now(), r) && NewDeliveryContract(d, uploadLimit, start, Now(), r)
    {
      ghost var b := Now();
      var p := message.prepared[0];
      var upload := EnsureUploaded(d, p);
      ghost var u := Now();
      OnlySlotIsBesides(b, u, d.Key(p.index), d.target);
      if upload.Raised? {
        NoSends(Since(b.log, u.log), []);
        InlineRaises(d, start, b, u, message, upload.error);
        return Raised(upload.error);
      }
      r := SendInline(d, message, start, b, upload.value);
    }

    /** `deliver` in every other case. */
    method DeliverSeparately(d: Delivery, message: PreparedMessage, ghost start: Store) returns (r: Result<DeliveryResult>)
      requires PreparedUpTo(d, |d.attachments|, start, Now(), message.prepared, message.outcomes)
      requires PreparationFrame(d, start, Now())
      requires AllKept(d, start) ==> message.prepared == []
      requires IsNew(d) ==>
        && |message.prepared| != 1
        && PreparedExactly(d, uploadLimit, |d.attachments|, Since(start.log, gateway.log), message.prepared)
      modifies mappings, stages, gateway
      ensures DeliveryContract(d, start, Now(), r) && NewDeliveryContract(d, uploadLimit, start, Now(), r)
    {
      ghost var b := Now();
      var primary := SendOrReusePrimary(d, message.failures, None, false);
      ghost var s := Now();
      PreparedThenPrimaryDecides(start, b, s);
      if primary.Raised? {
        PreparedThenPrimary(d, start, b, s, message.prepared, message.outcomes, "");
        SeparateRaises(d, start, b, s, s, message, primary.error);
        return Raised(primary.error);
      }
      var (body, syncId) := primary.value;
      PreparedThenPrimary(d, start, b, s, message.prepared, message.outcomes, syncId);
      PreparedMeetsFates(d, start, b, s, message.prepared, message.outcomes);
      var delivered := DeliverFollowUps(d, message.prepared, 0, message.outcomes, start, syncId);
      if delivered.Raised? {
        SeparateRaises(d, start, b, s, Now(), message, delivered.error);
        return Raised(delivered.error);
      }
      SeparateCalls(d, start, b, s, Now(), message, body, syncId);
      FinishKeepsContract(d, start, Now(), message.prepared, delivered.value, body, syncId);
      r := Ok(Finish(d, body, syncId, delivered.value));
      SeparateMeetsContract(d, uploadLimit, start, b, s, Now(), message, r);
    }

    method Deliver(d: Delivery) returns (r: Result<DeliveryResult>)
      modifies mappings, stages, gateway
      ensures DeliveryContract(d, old(Now()), Now(), r)
      ensures NewDeliveryContract(d, uploadLimit, old(Now()), Now(), r)
    {
      ghost var start := Now();
      var prepared := PrepareMessage(d);
      NoSends(Since(start.log, gateway.log), []);
      if prepared.Raised? {
        return Raised(prepared.error);
      }
      var message := prepared.value;
      if !d.IsReplay() && |message.prepared| == 1 {
        r := DeliverInline(d, message, start);
      } else {
        r := DeliverSeparately(d, message, start);
      }
    }
  }
}
