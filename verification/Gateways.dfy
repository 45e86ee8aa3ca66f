/** The outside world as seen by message delivery: every call may be answered in
    any fitting way, and a ghost log keeps all exchanges in order. */
module Gateways {
  import opened Common
  import opened AttachmentStore

  /** A file ready to be uploaded or sent. */
  datatype FilePayload = FilePayload(filename: string, sizeBytes: Option<int>)

  /** A downloaded attachment; `file` is absent when neither content nor an
      existing temporary file came with it. */
  datatype Downloaded = Downloaded(sizeBytes: Option<int>, file: Option<FilePayload>)

  datatype Request =
    | Download(key: AttachmentKey)
    | Upload(key: AttachmentKey)
    | SendFollowUp(key: AttachmentKey, staged: Option<StagedFile>)
    | SendPrimary(message: MessageKey, body: string, staged: Option<StagedFile>, direct: bool)

  datatype Answer =
    | GotDownload(download: Downloaded)
    | GotStaged(staged: StagedFile)
    | GotSent(syncId: string)
    | Refused(error: Error)

  datatype Exchange = Exchange(request: Request, answer: Answer)

  predicate Fits(request: Request, answer: Answer) {
    match request
    case Download(_) => answer.GotDownload? || answer.Refused?
    case Upload(_) => answer.GotStaged? || answer.Refused?
    case SendFollowUp(_, _) => answer.GotSent? || answer.Refused?
    case SendPrimary(_, _, _, _) => answer.GotSent? || answer.Refused?
  }

  predicate IsRecoverable(answer: Answer) {
    answer.Refused? && answer.error.kind == Recoverable
  }

  /** The request concerns the attachment `key`. */
  predicate Concerns(request: Request, key: AttachmentKey) {
    !request.SendPrimary? && request.key == key
  }

  predicate IsFollowUp(request: Request, key: AttachmentKey) {
    request.SendFollowUp? && request.key == key
  }

  /** The last answer to a follow-up send of `key`, if there was one. */
  function FollowUpAnswer(calls: seq<Exchange>, key: AttachmentKey): Option<Answer> {
    if calls == [] then None
    else if IsFollowUp(calls[|calls| - 1].request, key) then Some(calls[|calls| - 1].answer)
    else FollowUpAnswer(calls[..|calls| - 1], key)
  }

  lemma {:induction false} FollowUpAnswerConcat(a: seq<Exchange>, b: seq<Exchange>, key: AttachmentKey)
    ensures FollowUpAnswer(a + b, key)
         == if FollowUpAnswer(b, key).Some? then FollowUpAnswer(b, key) else FollowUpAnswer(a, key)
  {
    if b == [] {
      assert a + b == a;
    } else {
      assert (a + b)[..|a + b| - 1] == a + b[..|b| - 1];
      FollowUpAnswerConcat(a, b[..|b| - 1], key);
    }
  }

  lemma {:induction false} NoFollowUp(calls: seq<Exchange>, key: AttachmentKey)
    requires forall e | e in calls :: !IsFollowUp(e.request, key)
    ensures FollowUpAnswer(calls, key) == None
  {
    if calls != [] {
      NoFollowUp(calls[..|calls| - 1], key);
    }
  }

  /** Of several sends of one message or one attachment, only the last may have
      been accepted: the others were refused as recoverable. */
  predicate Decides(calls: seq<Exchange>, i: nat, j: nat)
    requires i < j < |calls|
  {
    && (calls[i].request.SendPrimary? && calls[j].request.SendPrimary? ==> IsRecoverable(calls[i].answer))
    && (calls[i].request.SendFollowUp? && IsFollowUp(calls[j].request, calls[i].request.key) ==> IsRecoverable(calls[i].answer))
  }

  ghost predicate LastSendDecides(calls: seq<Exchange>) {
    forall i: nat, j: nat | i < j < |calls| :: Decides(calls, i, j)
  }

  /** The two parts send different things. */
  ghost predicate SendApart(a: seq<Exchange>, b: seq<Exchange>) {
    forall e, f | e in a && f in b ::
      && !(e.request.SendPrimary? && f.request.SendPrimary?)
      && !(e.request.SendFollowUp? && IsFollowUp(f.request, e.request.key))
  }

  lemma LastSendDecidesConcat(a: seq<Exchange>, b: seq<Exchange>)
    requires LastSendDecides(a) && LastSendDecides(b) && SendApart(a, b)
    ensures LastSendDecides(a + b)
  {
    var all := a + b;
    forall i: nat, j: nat | i < j < |all| ensures Decides(all, i, j) {
      if j < |a| {
        assert Decides(a, i, j);
      } else if i >= |a| {
        assert Decides(b, i - |a|, j - |a|);
      } else {
        assert all[i] in a && all[j] in b;
      }
    }
  }

  /** So of two sends of one message or one attachment the earlier was not accepted. */
  lemma AcceptedOnce(calls: seq<Exchange>, i: nat, j: nat)
    requires LastSendDecides(calls) && i < j < |calls|
    requires
      || (calls[i].request.SendPrimary? && calls[j].request.SendPrimary?)
      || (calls[i].request.SendFollowUp? && IsFollowUp(calls[j].request, calls[i].request.key))
    ensures !calls[i].answer.GotSent?
  {
    assert Decides(calls, i, j);
  }

  lemma AttemptsDownload(tries: seq<Exchange>, request: Request, answer: Answer, maxAttempts: int)
    requires Attempts(tries, request, answer, maxAttempts)
    ensures forall e | e in tries && e.answer.GotDownload? :: e.answer == answer
    ensures answer.GotDownload? ==> Exchange(request, answer) in tries
  {
    forall k | 0 <= k < |tries| && tries[k].answer.GotDownload? ensures tries[k].answer == answer {
      assert k == |tries| - 1;
    }
    assert tries[|tries| - 1] in tries;
  }

  lemma NoSends(calls: seq<Exchange>, others: seq<Exchange>)
    requires forall e | e in calls :: !e.request.SendPrimary? && !e.request.SendFollowUp?
    ensures LastSendDecides(calls) && SendApart(calls, others) && SendApart(others, calls)
  {
  }

  lemma AttemptsDecide(tries: seq<Exchange>, request: Request, answer: Answer, maxAttempts: int)
    requires Attempts(tries, request, answer, maxAttempts)
    ensures LastSendDecides(tries)
  {
    forall i: nat, j: nat | i < j < |tries| ensures Decides(tries, i, j) {
      assert IsRecoverable(tries[i].answer);
    }
  }

  class Gateway {
    ghost var log: seq<Exchange>

    constructor ()
      ensures log == []
    {
      log := [];
    }

    method Ask(request: Request) returns (answer: Answer)
      modifies this
      ensures Fits(request, answer)
      ensures log == old(log) + [Exchange(request, answer)]
    {
      answer := *;
      if !Fits(request, answer) {
        answer := Refused(Error(Other, "malformed answer"));
      }
      log := log + [Exchange(request, answer)];
    }
  }

  /** The exchanges of one retried operation: every attempt but the last was
      refused as recoverable, and the operation's own answer is the last one
      unless the pause before the next attempt was interrupted. */
  ghost predicate Attempts(tries: seq<Exchange>, request: Request, answer: Answer, maxAttempts: int) {
    && 1 <= |tries|
    && (|tries| == 1 || |tries| <= maxAttempts)
    && (forall e | e in tries :: e.request == request)
    && (forall j | 0 <= j < |tries| - 1 :: IsRecoverable(tries[j].answer))
    && Fits(request, answer)
    && (|| answer == tries[|tries| - 1].answer
        || (IsRecoverable(tries[|tries| - 1].answer) && answer.Refused? && IsInterruption(answer.error)))
    && (IsRecoverable(answer) ==> |tries| >= maxAttempts)
  }

  class AsyncRetryPolicy {
    const maxAttempts: int

    constructor (maxAttempts: int)
      ensures this.maxAttempts == maxAttempts
    {
      this.maxAttempts := maxAttempts;
    }

    method Run(gateway: Gateway, request: Request) returns (answer: Answer)
      modifies gateway
      ensures old(gateway.log) <= gateway.log
      ensures Attempts(Since(old(gateway.log), gateway.log), request, answer, maxAttempts)
    {
      var attempt := 1;
      ghost var before := gateway.log;
      answer := gateway.Ask(request);
      assert Since(before, gateway.log) == [Exchange(request, answer)];
      while IsRecoverable(answer) && attempt < maxAttempts
        invariant 1 <= attempt && (attempt == 1 || attempt <= maxAttempts)
        invariant before <= gateway.log && |Since(before, gateway.log)| == attempt
        invariant forall e | e in Since(before, gateway.log) :: e.request == request
        invariant forall j | 0 <= j < attempt - 1 :: IsRecoverable(Since(before, gateway.log)[j].answer)
        invariant Since(before, gateway.log)[attempt - 1] == Exchange(request, answer) && Fits(request, answer)
        decreases maxAttempts - attempt
      {
        var interruption := Suspend();
        if interruption.Some? {
          return Refused(interruption.value);
        }
        ghost var tries := Since(before, gateway.log);
        answer := gateway.Ask(request);
        assert Since(before, gateway.log) == tries + [Exchange(request, answer)];
        attempt := attempt + 1;
      }
    }
  }

  lemma AttemptsFollowUpAnswer(tries: seq<Exchange>, request: Request, answer: Answer, maxAttempts: int)
    requires Attempts(tries, request, answer, maxAttempts) && request.SendFollowUp?
    ensures FollowUpAnswer(tries, request.key) == Some(tries[|tries| - 1].answer)
    ensures !(answer.Refused? && IsInterruption(answer.error)) ==> FollowUpAnswer(tries, request.key) == Some(answer)
  {
    assert tries[|tries| - 1] in tries;
  }
}
