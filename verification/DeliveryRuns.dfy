/** What the contract of `deliver` gives over several calls. */
module DeliveryRuns {
  import opened Common
  import opened AttachmentStore
  import opened Gateways
  import opened DeliveryContracts

  /** `second` delivers the message of `first` again, quoting what `first` sent. */
  predicate Replays(second: Delivery, first: Delivery, sent: DeliveryResult) {
    && second.message == first.message
    && second.attachments == first.attachments
    && second.migrateMedia == first.migrateMedia
    && second.existingPrimary == Some(sent.sentSyncId)
    && second.existingBody == Some(sent.body)
  }

  /** After a delivery that returned without a blocking failure, delivering the
      message again asks nothing, changes no record, and gives the same answer;
      the retry flag, the prefetched files and the target do not matter. */
  lemma ReplayIsIdempotent(
      first: Delivery, second: Delivery, s0: Store, s1: Store, s2: Store,
      sent: DeliveryResult, replayed: Result<DeliveryResult>)
    requires DeliveryContract(first, s0, s1, Ok(sent)) && !sent.HasBlockingFailure()
    requires Replays(second, first, sent) && sent.body != ""
    requires DeliveryContract(second, s1, s2, replayed)
    ensures s2 == s1
    ensures replayed.Ok? ==>
      && replayed.value.outcomes == sent.outcomes
      && replayed.value.body == sent.body
      && replayed.value.sentSyncId == sent.sentSyncId
    ensures replayed.Raised? ==> IsInterruption(replayed.error)
  {
    assert AllKept(second, s1) by {
      forall i: nat | i < |second.attachments|
        ensures if second.migrateMedia then Settled(second, s1, i)
                else Rec(s1, second.Key(i)).Some? && Rec(s1, second.Key(i)).value.status == Skipped
      {
        assert second.Key(i) == first.Key(i);
        assert sent.outcomes[i] in sent.outcomes;
        assert sent.outcomes[i] == OutcomeFromRecord(i, Rec(s1, first.Key(i)).value);
      }
    }
    if replayed.Ok? {
      forall i: nat | i < |first.attachments| ensures replayed.value.outcomes[i] == sent.outcomes[i] {
        assert second.Key(i) == first.Key(i);
      }
    }
  }

  lemma FirstOutcomesHold(d: Delivery, before: Store, after: Store, result: DeliveryResult, i: nat)
    requires IsFirst(d, before) && DeliveryContract(d, before, after, Ok(result)) && i < |d.attachments|
    ensures |result.outcomes| == |d.attachments| && result.outcomes[i] in result.outcomes
    ensures FirstOutcome(result.outcomes[i], Since(before.log, after.log), d.Key(i), result.sentSyncId, before.payloads)
  {
  }

  ghost predicate SomeSendRaised(d: Delivery, before: Store, after: Store) {
    exists i: nat :: i < |d.attachments| && FollowUpRaised(Since(before.log, after.log), d.Key(i))
  }

  ghost predicate SomeSendRaisedAmbiguous(d: Delivery, before: Store, after: Store) {
    exists i: nat :: i < |d.attachments| && FollowUpRaisedAmbiguous(Since(before.log, after.log), d.Key(i))
  }

  /** On a first delivery that returns, the two summary flags say exactly whether
      some follow-up send raised, and whether one raised ambiguously, provided that
      the phase of an error is stored: failures to download, prepare, size-check or
      upload never block. */
  lemma FirstDeliveryVerdict(d: Delivery, before: Store, after: Store, result: DeliveryResult)
    requires IsFirst(d, before) && DeliveryContract(d, before, after, Ok(result))
    ensures result.HasBlockingFailure() <==> before.payloads != Omitted && SomeSendRaised(d, before, after)
    ensures result.HasAmbiguousFailure() <==> before.payloads != Omitted && SomeSendRaisedAmbiguous(d, before, after)
  {
    var calls := Since(before.log, after.log);
    forall i: nat | i < |d.attachments|
      ensures result.outcomes[i] in result.outcomes
      ensures result.outcomes[i].blocks <==> before.payloads != Omitted && FollowUpRaised(calls, d.Key(i))
      ensures result.outcomes[i].status == Ambiguous <==> FollowUpRaisedAmbiguous(calls, d.Key(i))
    {
      FirstOutcomesHold(d, before, after, result, i);
    }
    if result.HasBlockingFailure() {
      var o :| o in result.outcomes && o.blocks;
      var i: nat :| i < |result.outcomes| && result.outcomes[i] == o;
      assert FollowUpRaised(calls, d.Key(i));
    }
    if result.HasAmbiguousFailure() {
      var o :| o in result.outcomes && o.blocks && o.status == Ambiguous;
      var i: nat :| i < |result.outcomes| && result.outcomes[i] == o;
      assert FollowUpRaisedAmbiguous(calls, d.Key(i));
    }
  }

  /** The flags of a first delivery name exactly the sends that raised. */
  ghost predicate VerdictHolds(d: Delivery, before: Store, after: Store, result: DeliveryResult) {
    && (result.HasBlockingFailure() <==> SomeSendRaised(d, before, after))
    && (result.HasAmbiguousFailure() <==> SomeSendRaisedAmbiguous(d, before, after))
  }

  ghost predicate VerdictAlwaysHolds(storage: PayloadStorage) {
    forall d, before: Store, after: Store, result
      | before.payloads == storage && IsFirst(d, before) && DeliveryContract(d, before, after, Ok(result)) ::
      VerdictHolds(d, before, after, result)
  }

  /** It does for every first delivery exactly when payloads keep the phase. */
  lemma VerdictHoldsExactly(storage: PayloadStorage)
    ensures VerdictAlwaysHolds(storage) <==> storage != Omitted
  {
    if storage != Omitted {
      forall d, before: Store, after: Store, result
        | before.payloads == storage && IsFirst(d, before) && DeliveryContract(d, before, after, Ok(result))
        ensures VerdictHolds(d, before, after, result)
      {
        FirstDeliveryVerdict(d, before, after, result);
      }
    } else {
      var d, before, after, result := OmittedPayloadHidesARefusal();
      assert !VerdictHolds(d, before, after, result);
    }
  }

  lemma {:induction false} FollowUpAnswerAt(calls: seq<Exchange>, key: AttachmentKey, p: nat)
    requires p < |calls| && IsFollowUp(calls[p].request, key)
    requires forall q | p < q < |calls| :: !IsFollowUp(calls[q].request, key)
    ensures FollowUpAnswer(calls, key) == Some(calls[p].answer)
  {
    if p < |calls| - 1 {
      FollowUpAnswerAt(calls[..|calls| - 1], key, p);
    }
  }

  const SAMPLE_MESSAGE := MessageKey("m", "c", "1")
  const SAMPLE_KEY := AttachmentKey(SAMPLE_MESSAGE, 0)
  const OTHER_KEY := AttachmentKey(SAMPLE_MESSAGE, 1)
  const SAMPLE_FILE := StagedFile("f", "u", true)
  const REFUSAL := Error(Fatal, "refused")

  /** A message with two attachments; the send of the first is refused. */
  function SampleDelivery(): Delivery {
    Delivery(
      SAMPLE_MESSAGE, [CanonicalAttachment(None), CanonicalAttachment(None)], [], "t", true, None, None, false, map[])
  }

  function SampleCalls(): seq<Exchange> {
    [Exchange(Download(SAMPLE_KEY), GotDownload(Downloaded(None, Some(FilePayload("a", None))))),
     Exchange(Download(OTHER_KEY), GotDownload(Downloaded(None, Some(FilePayload("b", None))))),
     Exchange(SendPrimary(SAMPLE_MESSAGE, "body", None, false), GotSent("p")),
     Exchange(Upload(SAMPLE_KEY), GotStaged(SAMPLE_FILE)),
     Exchange(SendFollowUp(SAMPLE_KEY, Some(SAMPLE_FILE)), Refused(REFUSAL)),
     Exchange(Upload(OTHER_KEY), GotStaged(SAMPLE_FILE)),
     Exchange(SendFollowUp(OTHER_KEY, Some(SAMPLE_FILE)), GotSent("q"))]
  }

  function SampleEnd(): Store {
    Store(
      map[SAMPLE_KEY := MappingRecord(Failed, None, Some(ErrorClass(Fatal)), NoPayload),
          OTHER_KEY := MappingRecord(Imported, Some("q"), None, NoPayload)],
      map[StageKey(SAMPLE_KEY, "t") := StageRecord(Uploaded, None, None, None),
          StageKey(OTHER_KEY, "t") := StageRecord(Attached, None, Some("q"), None)],
      SampleCalls(), Omitted, Omitted)
  }

  lemma SampleAnswers()
    ensures FollowUpAnswer(SampleCalls(), SAMPLE_KEY) == Some(Refused(REFUSAL))
    ensures FollowUpAnswer(SampleCalls(), OTHER_KEY) == Some(GotSent("q"))
  {
    FollowUpAnswerAt(SampleCalls(), SAMPLE_KEY, 4);
    FollowUpAnswerAt(SampleCalls(), OTHER_KEY, 6);
  }

  function SampleStart(): Store {
    Store(map[], map[], [], Omitted, Omitted)
  }

  function SampleResult(): DeliveryResult {
    DeliveryResult(
      "body", "p",
      [OutcomeFromRecord(0, SampleEnd().mappings[SAMPLE_KEY]), OutcomeFromRecord(1, SampleEnd().mappings[OTHER_KEY])], false)
  }

  lemma SampleFrame()
    ensures OnlyFirst(SampleDelivery(), 2, SampleStart(), SampleEnd())
    ensures Since(SampleStart().log, SampleEnd().log) == SampleCalls()
  {
    assert Since(SampleStart().log, SampleEnd().log) == SampleCalls();
    forall k: AttachmentKey | k.message != SAMPLE_MESSAGE || k.index >= 2 ensures Untouched(SampleStart(), SampleEnd(), k) {
      assert k != SAMPLE_KEY && k != OTHER_KEY;
      forall t ensures StageKey(k, t) !in SampleEnd().stages {
      }
    }
  }

  lemma SampleSends()
    ensures LastSendDecides(SampleCalls())
    ensures PrimarySent(SampleDelivery(), SampleCalls(), "body", "p")
  {
    forall i: nat, j: nat | i < j < 7 ensures Decides(SampleCalls(), i, j) {
    }
    assert SampleCalls()[2] in SampleCalls();
  }

  lemma SampleIsReached(limit: int)
    ensures IsReached(SampleDelivery(), limit, 0, SampleCalls()) && IsReached(SampleDelivery(), limit, 1, SampleCalls())
    ensures !IsInline(SampleDelivery(), limit, 0, SampleCalls()) && !IsInline(SampleDelivery(), limit, 1, SampleCalls())
  {
    var d, calls := SampleDelivery(), SampleCalls();
    assert d.Key(0) == SAMPLE_KEY && d.Key(1) == OTHER_KEY;
    assert calls[0] in calls && calls[0].request == Download(d.Key(0)) && IsUsable(limit, calls[0].answer.download);
    assert calls[1] in calls && calls[1].request == Download(d.Key(1)) && IsUsable(limit, calls[1].answer.download);
    assert IsFetched(d, limit, 0, calls) && IsFetched(d, limit, 1, calls);
    assert IsReached(d, limit, 0, calls) && IsReached(d, limit, 1, calls);
  }

  lemma SampleFollowUps()
    ensures FollowUpFate(SampleDelivery(), SampleStart(), SampleEnd(), 0)
    ensures FollowUpFate(SampleDelivery(), SampleStart(), SampleEnd(), 1)
  {
    SampleFrame();
    SampleAnswers();
    assert SampleDelivery().Key(0) == SAMPLE_KEY && SampleDelivery().Key(1) == OTHER_KEY;
  }

  lemma SampleFates(limit: int)
    ensures NewDeliveryContract(SampleDelivery(), limit, SampleStart(), SampleEnd(), Ok(SampleResult()))
  {
    var d, before, after := SampleDelivery(), SampleStart(), SampleEnd();
    SampleFrame();
    SampleIsReached(limit);
    SampleFollowUps();
    forall i: nat | i < |d.attachments| ensures Fate(d, limit, before, after, i, SampleResult().sentSyncId) {
      assert i == 0 || i == 1;
    }
  }

  lemma SampleOutcomes()
    ensures OutcomesAreRecords(SampleDelivery(), SampleEnd(), SampleResult().outcomes)
    ensures FirstOutcome(SampleResult().outcomes[0], SampleCalls(), SAMPLE_KEY, "p", Omitted)
    ensures FirstOutcome(SampleResult().outcomes[1], SampleCalls(), OTHER_KEY, "p", Omitted)
  {
    SampleAnswers();
    assert SampleDelivery().Key(0) == SAMPLE_KEY && SampleDelivery().Key(1) == OTHER_KEY;
  }

  lemma SampleIsAllowed()
    ensures DeliveryContract(SampleDelivery(), SampleStart(), SampleEnd(), Ok(SampleResult()))
  {
    var d, before, after, result := SampleDelivery(), SampleStart(), SampleEnd(), SampleResult();
    SampleFrame();
    SampleSends();
    SampleOutcomes();
    assert !AllKept(d, before) && KeepsSettled(d, before, after);
    forall i: nat | i < |d.attachments|
      ensures FirstOutcome(result.outcomes[i], SampleCalls(), d.Key(i), result.sentSyncId, before.payloads)
    {
      assert d.Key(i) == if i == 0 then SAMPLE_KEY else OTHER_KEY;
    }
  }

  /** A repository that stores no payloads: the refused send of the first attachment
      leaves a failed record without phase, and nothing blocks. */
  lemma OmittedPayloadHidesARefusal() returns (d: Delivery, before: Store, after: Store, result: DeliveryResult)
    ensures IsFirst(d, before) && before.payloads == Omitted
    ensures DeliveryContract(d, before, after, Ok(result)) && NewDeliveryContract(d, 0, before, after, Ok(result))
    ensures SomeSendRaised(d, before, after) && !result.HasBlockingFailure()
  {
    d, before, after, result := SampleDelivery(), SampleStart(), SampleEnd(), SampleResult();
    SampleIsAllowed();
    SampleFates(0);
    SampleFrame();
    SampleAnswers();
    assert FollowUpRaised(Since(before.log, after.log), d.Key(0));
  }

  /** What is stored of a finished upload: only full storage gives the same file back
      to a later delivery. A redacted one names another address, and without stored
      payloads the file is uploaded again. */
  lemma StoredFileComesBack(storage: PayloadStorage, record: StageRecord, file: StagedFile)
    requires file.complete && file.url != REDACTED_TEXT
    ensures var stored := StoredStage(storage, UploadedAs(file)(record));
      && (stored.payload == Some(file) <==> storage == Full)
      && (IsUploaded(Some(stored)) <==> storage != Omitted)
  {
  }

  /** In one delivery a message and an attachment have at most one accepted send. */
  lemma OneAcceptedSend(d: Delivery, before: Store, after: Store, r: Result<DeliveryResult>, i: nat, j: nat)
    requires DeliveryContract(d, before, after, r) && i < j < |Since(before.log, after.log)|
    requires var calls := Since(before.log, after.log);
      || (calls[i].request.SendPrimary? && calls[j].request.SendPrimary?)
      || (calls[i].request.SendFollowUp? && IsFollowUp(calls[j].request, calls[i].request.key))
    ensures !Since(before.log, after.log)[i].answer.GotSent?
  {
    AcceptedOnce(Since(before.log, after.log), i, j);
  }

  /** One `deliver` call of a run, however it ended. */
  datatype Step = Step(d: Delivery, result: Result<DeliveryResult>)

  /** A run of replays with media migration on, of any messages in any order:
      `states[i]` is the store before `steps[i]`. */
  ghost predicate IsReplayRun(states: seq<Store>, steps: seq<Step>) {
    && |states| == |steps| + 1
    && forall i | 0 <= i < |steps| ::
         && steps[i].d.IsReplay() && steps[i].d.migrateMedia
         && DeliveryContract(steps[i].d, states[i], states[i + 1], steps[i].result)
  }

  /** A record a replay would take its outcome from. */
  ghost predicate IsSettled(s: Store, key: AttachmentKey) {
    Rec(s, key).Some? && !Blocks(Rec(s, key).value)
  }

  lemma ReplayStepKeepsSettled(step: Step, before: Store, after: Store, key: AttachmentKey)
    requires step.d.IsReplay() && step.d.migrateMedia
    requires DeliveryContract(step.d, before, after, step.result)
    requires IsSettled(before, key)
    ensures Untouched(before, after, key)
  {
    if key.message == step.d.message && key.index < |step.d.attachments| {
      assert key == step.d.Key(key.index);
      assert Settled(step.d, before, key.index);
    }
  }

  /** Through any such run, also when calls raise or are cancelled midway, a
      settled attachment keeps its record and its upload stage and is never
      downloaded, uploaded or sent again. */
  lemma {:induction false} ReplaysKeepSettled(states: seq<Store>, steps: seq<Step>, key: AttachmentKey)
    requires IsReplayRun(states, steps) && IsSettled(states[0], key)
    ensures Untouched(states[0], states[|steps|], key)
    decreases |steps|
  {
    if steps != [] {
      var n := |steps| - 1;
      assert IsReplayRun(states[..n + 1], steps[..n]);
      ReplaysKeepSettled(states[..n + 1], steps[..n], key);
      ReplayStepKeepsSettled(steps[n], states[n], states[n + 1], key);
      UntouchedTransitive(states[0], states[n], states[n + 1], key);
    }
  }

  lemma ImportedStaysImported(states: seq<Store>, steps: seq<Step>, key: AttachmentKey, syncId: string)
    requires IsReplayRun(states, steps)
    requires Rec(states[0], key).Some? && Rec(states[0], key).value.status == Imported
    requires Rec(states[0], key).value.targetSyncId == Some(syncId)
    ensures Rec(states[|steps|], key).Some? && Rec(states[|steps|], key).value.status == Imported
    ensures Rec(states[|steps|], key).value.targetSyncId == Some(syncId)
    ensures forall e | e in Since(states[0].log, states[|steps|].log) :: !Concerns(e.request, key)
  {
    ReplaysKeepSettled(states, steps, key);
  }

  /** The media flag is needed: with media migration off, every delivery that
      returns leaves an imported attachment marked as skipped. */
  lemma MediaOffForgetsImport(d: Delivery, before: Store, after: Store, result: DeliveryResult, i: nat)
    requires DeliveryContract(d, before, after, Ok(result)) && !d.migrateMedia && i < |d.attachments|
    requires Rec(before, d.Key(i)).Some? && Rec(before, d.Key(i)).value.status == Imported
    ensures Rec(after, d.Key(i)).Some? && Rec(after, d.Key(i)).value.status == Skipped
  {
    assert result.outcomes[i] in result.outcomes;
    assert result.outcomes[i] == OutcomeFromRecord(i, Rec(after, d.Key(i)).value);
  }

  /** A new delivery with media on keeps an imported record exactly when the
      attachment is reached and, if it goes inline, its upload does not fail. */
  lemma ImportedSurvivesExactly(d: Delivery, limit: int, before: Store, after: Store, result: DeliveryResult, i: nat)
    requires NewDeliveryContract(d, limit, before, after, Ok(result)) && IsNew(d) && i < |d.attachments|
    requires Rec(before, d.Key(i)).Some? && Rec(before, d.Key(i)).value.status == Imported
    ensures var calls := Since(before.log, after.log);
      Rec(after, d.Key(i)) == Rec(before, d.Key(i)) <==>
        && IsReached(d, limit, i, calls)
        && (IsInline(d, limit, i, calls) ==> FileCarried(calls) || !UploadAsked(calls, d.Key(i)))
  {
    assert Fate(d, limit, before, after, i, result.sentSyncId);
  }

  /** So a declared size over the limit loses it, */
  lemma OverLimitLosesImported(d: Delivery, limit: int, before: Store, after: Store, result: DeliveryResult, i: nat)
    requires NewDeliveryContract(d, limit, before, after, Ok(result)) && IsNew(d) && i < |d.attachments|
    requires Rec(before, d.Key(i)).Some? && Rec(before, d.Key(i)).value.status == Imported
    requires !FitsLimit(limit, d.attachments[i].sizeBytes)
    ensures Rec(after, d.Key(i)).Some?
    ensures Rec(after, d.Key(i)).value.status == Failed || Rec(after, d.Key(i)).value.status == Skipped
  {
    assert Fate(d, limit, before, after, i, result.sentSyncId);
  }

  /** and a follow-up that is reached keeps it and asks nothing but its download. */
  lemma ReachedFollowUpKeepsImported(d: Delivery, limit: int, before: Store, after: Store, result: DeliveryResult, i: nat)
    requires NewDeliveryContract(d, limit, before, after, Ok(result)) && IsNew(d) && i < |d.attachments|
    requires Rec(before, d.Key(i)).Some? && Rec(before, d.Key(i)).value.status == Imported
    requires var calls := Since(before.log, after.log); IsReached(d, limit, i, calls) && !IsInline(d, limit, i, calls)
    ensures Rec(after, d.Key(i)) == Rec(before, d.Key(i)) && OnlyDownloaded(Since(before.log, after.log), d.Key(i))
  {
    assert Fate(d, limit, before, after, i, result.sentSyncId);
  }

  /** A follow-up whose delivery was cancelled, in a new delivery that returns. As a
      follow-up it is sent again only without the retry flag; with the flag its failed
      record is the answer. As the inline attachment the flag does not matter: it is
      imported exactly when the message carries it. Not reached, it stays undelivered. */
  lemma CancelledInNewDelivery(d: Delivery, limit: int, before: Store, after: Store, result: DeliveryResult, i: nat)
    requires NewDeliveryContract(d, limit, before, after, Ok(result)) && IsNew(d) && i < |d.attachments|
    requires IsReleased(before, d.Key(i), d.target)
    ensures var calls := Since(before.log, after.log);
      var reached := IsReached(d, limit, i, calls);
      var inline := IsInline(d, limit, i, calls);
      var answer := FollowUpAnswer(calls, d.Key(i));
      && Rec(after, d.Key(i)).Some?
      && (Rec(after, d.Key(i)).value.status == Imported <==>
            if inline then FileCarried(calls) else reached && !d.retryFailed && answer.Some? && answer.value.GotSent?)
      && (!inline && (d.retryFailed || !reached) ==> OnlyDownloaded(calls, d.Key(i)))
      && (reached && !inline && d.retryFailed ==> Rec(after, d.Key(i)) == Rec(before, d.Key(i)))
      && (reached && !inline && !d.retryFailed && answer == None ==>
            Stg(before, d.Key(i), d.target).Some? && Stg(before, d.Key(i), d.target).value.status == StageFailed)
  {
    var calls := Since(before.log, after.log);
    assert Fate(d, limit, before, after, i, result.sentSyncId);
    if IsReached(d, limit, i, calls) && !IsInline(d, limit, i, calls) {
      assert FollowUpFate(d, before, after, i);
      if !d.retryFailed && FollowUpAnswer(calls, d.Key(i)).Some? {
        assert RecordsSend(Rec(after, d.Key(i)).value, FollowUpAnswer(calls, d.Key(i)).value, before.payloads);
      }
    } else if !IsReached(d, limit, i, calls) {
      NoFollowUp(calls, d.Key(i));
    }
  }

  /** In a replay with media on it is taken as settled: nothing is asked about it. */
  lemma CancelledInReplay(step: Step, before: Store, after: Store, key: AttachmentKey, target: string)
    requires step.d.IsReplay() && step.d.migrateMedia && DeliveryContract(step.d, before, after, step.result)
    requires IsReleased(before, key, target)
    ensures Untouched(before, after, key)
  {
    ReplayStepKeepsSettled(step, before, after, key);
  }
}
