/** `TargetChatProvisioningService`: giving the participants of a source chat
    access to the target chat. */
module MemberAccess {
  import opened Common
  import opened Sequences
  import opened Text
  import opened ChatAccess

  /** `_deduplicate_participant_targets` as a function: first occurrences by
      trimmed id, without blanks and without the ids already `seen`. */
  function Deduplicated(targets: seq<Target>, seen: set<string>): seq<Target> {
    if targets == [] then []
    else
      var huid := Strip(targets[0].huid);
      if huid == "" || huid in seen then Deduplicated(targets[1..], seen)
      else [Target(huid, targets[0].host)] + Deduplicated(targets[1..], seen + {huid})
  }

  /** The targets of one route, in order. */
  function OfRoute(targets: seq<Target>, route: Option<string>, anchor: Option<string>): seq<Target> {
    if targets == [] then []
    else
      var last := targets[|targets| - 1];
      var before := OfRoute(targets[..|targets| - 1], route, anchor);
      if RouteOf(last, anchor) == route then before + [last] else before
  }

  /** `_target_route_cts_host`, with the anchor already resolved. */
  function RouteOf(target: Target, anchor: Option<string>): Option<string> {
    if target.host.Some? then target.host else anchor
  }

  /** One group a route, each holding the targets of that route in order. */
  ghost predicate PartitionContract(targets: seq<Target>, anchor: Option<string>, groups: Groups<Option<string>, Target>) {
    && NoDup(Keys(groups))
    && multiset(Flatten(groups)) == multiset(targets)
    && forall route :: Lookup(groups, route) == OfRoute(targets, route, anchor)
  }

  /** `(initiator or "").strip() or None` */
  function NormalInitiator(initiator: Option<string>): Option<string> {
    if initiator.Some? && Strip(initiator.value) != "" then Some(Strip(initiator.value)) else None
  }

  function Excluded(initiator: Option<string>, skip: set<string>): set<string> {
    if initiator.Some? then skip + {initiator.value} else skip
  }

  function FailuresFor(targets: seq<Target>, reason: string, error: Option<string>): (failures: seq<AccessFailure>)
    ensures FailureHuids(failures) == Huids(targets)
  {
    seq(|targets|, i requires 0 <= i < |targets| => AccessFailure(targets[i].huid, targets[i].host, reason, error))
  }

  lemma {:induction false} DeduplicatedIsFiltered(targets: seq<Target>, seen: set<string>)
    ensures DistinctHuids(Deduplicated(targets, seen))
    ensures forall t | t in Deduplicated(targets, seen) :: t.huid !in seen && t.huid != ""
  {
    if targets != [] {
      var huid := Strip(targets[0].huid);
      if huid == "" || huid in seen {
        DeduplicatedIsFiltered(targets[1..], seen);
      } else {
        DeduplicatedIsFiltered(targets[1..], seen + {huid});
      }
    }
  }

  lemma {:induction false} DeduplicatedMembers(targets: seq<Target>, seen: set<string>, huid: string)
    ensures (exists t :: t in Deduplicated(targets, seen) && t.huid == huid)
       <==> huid != "" && huid !in seen && exists t :: t in targets && Strip(t.huid) == huid
  {
    if targets != [] {
      var first := Strip(targets[0].huid);
      assert targets == [targets[0]] + targets[1..];
      if first == "" || first in seen {
        DeduplicatedMembers(targets[1..], seen, huid);
      } else {
        DeduplicatedMembers(targets[1..], seen + {first}, huid);
        if huid == first {
          assert Deduplicated(targets, seen)[0].huid == huid;
          assert targets[0] in targets;
        }
      }
    }
  }

  /** `ParticipantAccessApplyResult` */
  datatype AccessResult = AccessResult(added: seq<string>, invited: seq<string>, failures: seq<AccessFailure>)

  /** The result of one accepted add call. */
  function AccessOf(newly: seq<string>, host: Option<string>): Access {
    if newly == [] then NO_ACCESS
    else Access(newly, [(if host.Some? then host.value else "default", newly)], [], [])
  }

  lemma AccessOfLists(newly: seq<string>, host: Option<string>)
    requires NoDup(newly)
    ensures var access := AccessOf(newly, host);
      && multiset(Flatten(access.addedByHost)) == multiset(access.added)
      && NoDup(Keys(access.addedByHost))
  {
    var access := AccessOf(newly, host);
    if newly != [] {
      assert access.addedByHost[1..] == [];
    }
  }

  lemma EverybodySettles(targets: seq<Target>, calls: seq<Exchange>, access: Access, newly: seq<string>)
    requires exists host :: access == AccessOf(newly, host)
    requires exists host :: Exchange(AddMembers(host, Huids(targets)), GotHuids(newly)) in calls
    requires forall e | e in calls :: e.request.AddMembers? && e.request.huids == Huids(targets)
    requires NoDup(newly) && forall h | h in newly :: h in Huids(targets)
    requires ReportsExactly(calls, newly)
    ensures Settles(targets, calls, access, targets)
  {
    var host :| access == AccessOf(newly, host);
    AccessOfLists(newly, host);
    forall t | t in targets ensures WasAdded(calls, t.huid) {
      HuidsIn(targets, t);
    }
  }

  lemma NobodySettles(targets: seq<Target>, calls: seq<Exchange>, access: Access)
    requires access.added == [] && access.addedByHost == [] && access.fallback == targets
    requires FailureHuids(access.failures) == Huids(targets)
    requires AddsOnly(calls, targets)
    requires forall e | e in calls && e.request.AddMembers? :: !e.answer.GotHuids?
    ensures Settles(targets, calls, access, [])
  {
    NothingReported(calls);
  }

  /** One member, added: every call named it, and one was accepted. */
  lemma OneAddedSettles(t: Target, calls: seq<Exchange>, newly: seq<string>, host: Option<string>, via: Option<string>)
    requires forall e | e in calls :: e.request.AddMembers? && e.request.huids == [t.huid]
    requires Exchange(AddMembers(via, [t.huid]), GotHuids(newly)) in calls
    requires NoDup(newly) && (forall h | h in newly :: h in [t.huid]) && ReportsExactly(calls, newly)
    ensures Settles([t], calls, AccessOf(newly, host), [t])
  {
    assert Huids([t]) == [t.huid];
    EverybodySettles([t], calls, AccessOf(newly, host), newly);
  }

  /** One member, failed: every call named it, and none was accepted. */
  lemma OneFailedSettles(t: Target, calls: seq<Exchange>, failure: AccessFailure)
    requires forall e | e in calls :: e.request.AddMembers? && e.request.huids == [t.huid] && !e.answer.GotHuids?
    requires failure.huid == t.huid
    ensures Settles([t], calls, Access([], [], [t], [failure]), [])
  {
    assert Huids([t]) == [t.huid] && FailureHuids([failure]) == [t.huid];
    NobodySettles([t], calls, Access([], [], [t], [failure]));
  }

  /** One more member, settled by calls of its own. */
  lemma OneMoreSettled(
      targets: seq<Target>, i: nat, cs: seq<Exchange>, access: Access, succeeded: seq<Target>,
      ct: seq<Exchange>, one: Access, reached: seq<Target>)
    requires DistinctHuids(targets) && i < |targets|
    requires Settles(targets[..i], cs, access, succeeded) && Settles([targets[i]], ct, one, reached)
    ensures Settles(targets[..i + 1], cs + ct, Join(access, one), succeeded + reached)
  {
    assert targets[..i + 1] == targets[..i] + [targets[i]];
    forall h | h in Huids(targets[..i]) ensures h !in Huids([targets[i]]) {
      var k :| 0 <= k < i && Huids(targets[..i])[k] == h;
      assert targets[k].huid == h && Huids([targets[i]]) == [targets[i].huid];
    }
    SettlesJoin(targets[..i], cs, access, succeeded, [targets[i]], ct, one, reached);
  }

  lemma SettlesAfterFailedBatch(
      targets: seq<Target>, batch: seq<Exchange>, calls: seq<Exchange>, access: Access, succeeded: seq<Target>)
    requires Settles(targets, calls, access, succeeded)
    requires forall e | e in batch :: e.request.AddMembers? && e.request.huids == Huids(targets) && !e.answer.GotHuids?
    ensures Settles(targets, batch + calls, access, succeeded)
  {
    forall h: string ensures WasAdded(batch + calls, h) <==> WasAdded(calls, h) {
      WasAddedConcat(batch, calls, h);
    }
    NothingReported(batch);
    ReportsJoin(batch, calls, [], access.added);
    assert [] + access.added == access.added;
  }

  lemma DistinctPermuted(ts: seq<Target>, us: seq<Target>)
    requires DistinctHuids(ts) && multiset(us) == multiset(ts)
    ensures DistinctHuids(us)
  {
    forall i, j | 0 <= i < j < |us| ensures us[i].huid != us[j].huid {
      assert us[i] in multiset(ts) && us[j] in multiset(ts);
      var k :| 0 <= k < |ts| && ts[k] == us[i];
      var l :| 0 <= l < |ts| && ts[l] == us[j];
      if us[i] == us[j] {
        RepeatCountsTwice(us, i, j);
        NoDupCounts(ts, us[i]);
      }
    }
  }

  lemma DistinctParts(before: seq<Target>, group: seq<Target>, rest: seq<Target>)
    requires DistinctHuids(before + group + rest)
    ensures DistinctHuids(group)
    ensures forall h | h in Huids(before) :: h !in Huids(group)
  {
    var all := before + group + rest;
    assert forall j | 0 <= j < |group| :: all[|before| + j] == group[j];
    forall h | h in Huids(before) ensures h !in Huids(group) {
      var i :| 0 <= i < |before| && Huids(before)[i] == h;
      forall j | 0 <= j < |group| ensures Huids(group)[j] != h {
        assert all[i].huid != all[|before| + j].huid;
      }
    }
  }

  /** No member of a group occurs in an earlier group. */
  lemma GroupIsFresh(groups: Groups<Option<string>, Target>, g: nat)
    requires g < |groups| && DistinctHuids(Flatten(groups))
    ensures DistinctHuids(groups[g].1)
    ensures forall h | h in Huids(Flatten(groups[..g])) :: h !in Huids(groups[g].1)
  {
    FlattenTake(groups, g);
    FlattenSplit(groups, g + 1);
    DistinctParts(Flatten(groups[..g]), groups[g].1, Flatten(groups[g + 1..]));
  }

  /** What `_apply_member_access_strategy` returns about the filtered targets:
      conservation of the direct adds, and invitations among the failed ones only. */
  ghost predicate AccessContract(
    filtered: seq<Target>, inviteOnly: bool, calls: seq<Exchange>, result: AccessResult, access: Access, succeeded: seq<Target>)
  {
    if inviteOnly || filtered == [] then
      && result.added == [] && result.failures == []
      && IsSubsequence(result.invited, Huids(filtered)) && InvitedExactly(calls, result.invited)
      && forall e | e in calls :: !e.request.AddMembers?
    else
      && Settles(filtered, calls, access, succeeded)
      && result.added == access.added
      && result.failures == access.failures
      && IsSubsequence(result.invited, FailureHuids(result.failures)) && InvitedExactly(calls, result.invited)
  }

  /** Conservation in terms of ids alone: each filtered member is reported failed
      exactly when no add naming it was accepted; nobody is both added and failed,
      and only failed members are invited. */
  lemma MembersAreConserved(
      filtered: seq<Target>, calls: seq<Exchange>, result: AccessResult, access: Access, succeeded: seq<Target>, huid: string)
    requires DistinctHuids(filtered) && filtered != []
    requires AccessContract(filtered, false, calls, result, access, succeeded)
    requires huid in Huids(filtered)
    ensures huid in FailureHuids(result.failures) <==> !WasAdded(calls, huid)
    ensures huid in result.added ==> WasAdded(calls, huid) && huid !in FailureHuids(result.failures)
    ensures huid in result.added <==> WasReported(calls, huid)
    ensures huid in result.invited <==> InvitationAccepted(calls, huid)
    ensures huid in result.invited ==> huid in FailureHuids(result.failures) && huid !in result.added
    ensures |FailureHuids(result.failures)| + |succeeded| == |filtered|
  {
    var i :| 0 <= i < |Huids(filtered)| && Huids(filtered)[i] == huid;
    var t := filtered[i];
    assert t in multiset(filtered);
    if t in access.fallback {
      HuidsIn(access.fallback, t);
    }
    if huid in FailureHuids(result.failures) {
      var j :| 0 <= j < |access.fallback| && Huids(access.fallback)[j] == huid;
      assert !WasAdded(calls, access.fallback[j].huid);
    }
    if huid in result.added {
      var j :| 0 <= j < |Huids(succeeded)| && Huids(succeeded)[j] == huid;
      assert WasAdded(calls, succeeded[j].huid);
    }
    if huid in result.invited {
      SubsequenceMembers(result.invited, FailureHuids(result.failures), huid);
    }
    assert |multiset(filtered)| == |filtered|;
  }

  /** The calls around a helper bot: it is attached, promoted, and waited for. */
  ghost predicate HelperCalls(
    before: seq<Exchange>, promoted: seq<Exchange>, after: seq<Exchange>, anchor: Option<string>, route: Option<string>, bot: string)
  {
    && before <= promoted <= after && |promoted| == |before| + 2
    && IsAttached(promoted[|before|], anchor, bot) && IsPromoted(promoted[|before| + 1], anchor, bot)
    && forall i | |promoted| <= i < |after| :: after[i].request == ListAdmins(route)
  }

  lemma HelperCallsAddNobody(
    before: seq<Exchange>, promoted: seq<Exchange>, after: seq<Exchange>, anchor: Option<string>, route: Option<string>, bot: string)
    requires HelperCalls(before, promoted, after, anchor, route, bot)
    ensures before <= after && forall e | e in Since(before, after) :: !e.request.AddMembers? && !e.request.SendInvite?
  {
    var calls := Since(before, after);
    forall i | 0 <= i < |calls| ensures !calls[i].request.AddMembers? && !calls[i].request.SendInvite? {
      assert calls[i] == after[|before| + i];
      if i < 2 {
        assert after[|before| + i] == promoted[|before| + i];
      }
    }
  }

  lemma SeenAdminIsReady(
    before: seq<Exchange>, promoted: seq<Exchange>, after: seq<Exchange>, anchor: Option<string>, route: Option<string>, bot: string)
    requires HelperCalls(before, promoted, after, anchor, route, bot)
    requires exists e | e in Since(promoted, after) :: e.answer.GotHuids? && bot in e.answer.huids
    ensures before <= after && HelperReady(Since(before, after), anchor, route, bot)
  {
    var calls := Since(before, after);
    var late := Since(promoted, after);
    var seen :| seen in late && seen.answer.GotHuids? && bot in seen.answer.huids;
    var s :| 0 <= s < |late| && late[s] == seen;
    assert late[s] == after[|promoted| + s] == calls[s + 2];
    assert calls[0] == after[|before|] == promoted[|before|];
    assert calls[1] == after[|before| + 1] == promoted[|before| + 1];
    assert IsAttached(calls[0], anchor, bot) && IsPromoted(calls[1], anchor, bot) && IsSeenAsAdmin(calls[s + 2], route, bot);
  }

  predicate InvitationAccepted(calls: seq<Exchange>, huid: string) {
    exists e | e in calls :: e.request.SendInvite? && e.request.huid == huid && e.answer == Done
  }

  predicate InvitesNobody(calls: seq<Exchange>) {
    forall e | e in calls :: !e.request.SendInvite?
  }

  ghost predicate InvitedExactly(calls: seq<Exchange>, delivered: seq<string>) {
    forall huid :: huid in delivered <==> InvitationAccepted(calls, huid)
  }

  lemma InvitationAcceptedConcat(a: seq<Exchange>, b: seq<Exchange>, huid: string)
    ensures InvitationAccepted(a + b, huid) <==> InvitationAccepted(a, huid) || InvitationAccepted(b, huid)
  {
    assert forall e :: e in a + b <==> e in a || e in b;
  }

  lemma OthersInviteNobody(a: seq<Exchange>, b: seq<Exchange>, delivered: seq<string>)
    requires InvitesNobody(a) && InvitedExactly(b, delivered)
    ensures InvitedExactly(a + b, delivered)
  {
    forall h ensures InvitationAccepted(a + b, h) <==> h in delivered {
      InvitationAcceptedConcat(a, b, h);
    }
  }

  lemma StillSubsequence(recipients: seq<Target>, i: nat, delivered: seq<string>)
    requires i < |recipients| && IsSubsequence(delivered, Huids(recipients[..i]))
    ensures IsSubsequence(delivered + [recipients[i].huid], Huids(recipients[..i + 1]))
    ensures IsSubsequence(delivered, Huids(recipients[..i + 1]))
  {
    assert Huids(recipients[..i + 1]) == Huids(recipients[..i]) + [recipients[i].huid];
    SubsequenceTake(delivered, Huids(recipients[..i]), recipients[i].huid);
    SubsequenceSkip(delivered, Huids(recipients[..i]), recipients[i].huid);
  }

  /** Calls that invite one more recipient extend the list by it, if accepted. */
  lemma OneMoreInvitation(a: seq<Exchange>, b: seq<Exchange>, delivered: seq<string>, huid: string)
    requires InvitedExactly(a, delivered)
    requires forall e | e in b && e.request.SendInvite? :: e.request.huid == huid
    ensures InvitedExactly(a + b, if InvitationAccepted(b, huid) then delivered + [huid] else delivered)
  {
    forall h ensures InvitationAccepted(a + b, h) <==> h in delivered || (h == huid && InvitationAccepted(b, huid)) {
      InvitationAcceptedConcat(a, b, h);
    }
  }

  class ProvisioningService {
    const gateway: ChatGateway
    const registered: set<string>
    const helperFor: string -> Option<string>
    const currentHost: Option<string>
    const primaryHost: Option<string>
    const maxAttempts: int
    /** The two tests on error texts: the chat is unknown on that host, and the
        helper is not visible as an administrator there yet. */
    const isChatNotFound: Error -> bool
    const isVisibilityPending: Error -> bool

    constructor (
        gateway: ChatGateway, registered: set<string>, helperFor: string -> Option<string>, currentHost: Option<string>,
        primaryHost: Option<string>, maxAttempts: int, isChatNotFound: Error -> bool, isVisibilityPending: Error -> bool)
      ensures this.gateway == gateway && this.registered == registered && this.helperFor == helperFor
    {
      this.gateway := gateway;
      this.registered := registered;
      this.helperFor := helperFor;
      this.currentHost := currentHost;
      this.primaryHost := primaryHost;
      this.maxAttempts := maxAttempts;
      this.isChatNotFound := isChatNotFound;
      this.isVisibilityPending := isVisibilityPending;
    }

    function ResolveAnchor(anchor: Option<string>): Option<string> {
      if anchor.Some? then anchor else if currentHost.Some? then currentHost else primaryHost
    }

    predicate IsConfigured(host: Option<string>) {
      registered == {} || (host.Some? && host.value in registered)
    }

    method Deduplicate(targets: seq<Target>, initiator: Option<string>, skip: set<string>) returns (unique: seq<Target>)
      ensures unique == Deduplicated(targets, Excluded(initiator, skip))
    {
      unique := [];
      var seen := skip;
      if initiator.Some? {
        seen := seen + {initiator.value};
      }
      ghost var seen0 := seen;
      assert targets[0..] == targets;
      for i := 0 to |targets|
        invariant unique + Deduplicated(targets[i..], seen) == Deduplicated(targets, seen0)
      {
        assert targets[i..][0] == targets[i] && targets[i..][1..] == targets[i + 1..];
        var huid := Strip(targets[i].huid);
        if huid != "" && huid !in seen {
          ghost var rest := Deduplicated(targets[i + 1..], seen + {huid});
          assert unique + ([Target(huid, targets[i].host)] + rest) == unique + [Target(huid, targets[i].host)] + rest;
          seen := seen + {huid};
          unique := unique + [Target(huid, targets[i].host)];
        }
      }
      assert targets[|targets|..] == [];
    }

    /** `_partition_targets_by_cts_host` */
    method Partition(targets: seq<Target>, anchor: Option<string>) returns (groups: Groups<Option<string>, Target>)
      ensures PartitionContract(targets, anchor, groups)
    {
      groups := [];
      for i := 0 to |targets|
        invariant NoDup(Keys(groups))
        invariant multiset(Flatten(groups)) == multiset(targets[..i])
        invariant forall route :: Lookup(groups, route) == OfRoute(targets[..i], route, anchor)
      {
        assert targets[..i + 1][..i] == targets[..i] && targets[..i + 1] == targets[..i] + [targets[i]];
        var route := RouteOf(targets[i], anchor);
        AppendToKeys(groups, route, [targets[i]]);
        AppendToFlatten(groups, route, [targets[i]]);
        forall r: Option<string> ensures Lookup(AppendTo(groups, route, [targets[i]]), r) == OfRoute(targets[..i + 1], r, anchor) {
          AppendToLookup(groups, route, [targets[i]], r);
        }
        groups := AppendTo(groups, route, [targets[i]]);
      }
      assert targets[..|targets|] == targets;
    }

    /** `_ensure_helper_bot_route_admin_ready` */
    method AwaitHelperAdmin(host: Option<string>, bot: string) returns (r: Result<()>)
      modifies gateway
      ensures old(gateway.log) <= gateway.log
      ensures forall e | e in Since(old(gateway.log), gateway.log) :: e.request == ListAdmins(host)
      ensures r.Ok? ==> exists e | e in Since(old(gateway.log), gateway.log) :: e.answer.GotHuids? && bot in e.answer.huids
    {
      ghost var before := gateway.log;
      var attempt := 1;
      while true
        invariant before <= gateway.log
        invariant forall e | e in Since(before, gateway.log) :: e.request == ListAdmins(host)
        decreases maxAttempts - attempt
      {
        ghost var calls := Since(before, gateway.log);
        var answer := gateway.Ask(ListAdmins(host));
        assert Since(before, gateway.log) == calls + [Exchange(ListAdmins(host), answer)];
        if answer.GotHuids? && bot in answer.huids {
          assert Exchange(ListAdmins(host), answer) in Since(before, gateway.log);
          return Ok(());
        }
        var error :=
          if answer.GotHuids? || (answer.Refused? && answer.error.kind == Fatal && isVisibilityPending(answer.error)) then
            Error(Recoverable, "helper bot route admin visibility is not ready yet")
          else if answer.Refused? then answer.error
          else Error(Other, "malformed answer");
        if error.kind != Recoverable || attempt >= maxAttempts {
          return Raised(error);
        }
        attempt := attempt + 1;
        var _ :- Pause();
      }
    }

    /** `_ensure_helper_bot_route_membership` */
    method EnsureHelper(route: Option<string>, anchor: Option<string>) returns (r: Result<()>)
      modifies gateway
      ensures old(gateway.log) <= gateway.log
      ensures forall e | e in Since(old(gateway.log), gateway.log) :: !e.request.AddMembers? && !e.request.SendInvite?
      ensures r.Ok? && NeedsHelper(helperFor, route, anchor) ==>
        HelperReady(Since(old(gateway.log), gateway.log), anchor, route, helperFor(route.value).value)
    {
      if !NeedsHelper(helperFor, route, anchor) {
        return Ok(());
      }
      var bot := helperFor(route.value).value;
      ghost var l0 := gateway.log;
      var attached := gateway.Ask(AttachHelper(anchor, bot));
      if attached.Refused? {
        return Raised(attached.error);
      }
      var promoted := gateway.Ask(PromoteHelper(anchor, bot));
      if promoted.Refused? {
        return Raised(promoted.error);
      }
      ghost var l2 := gateway.log;
      var ready := AwaitHelperAdmin(route, bot);
      ghost var l3 := gateway.log;
      assert forall i | |l2| <= i < |l3| :: l3[i] in Since(l2, l3);
      HelperCallsAddNobody(l0, l2, l3, anchor, route, bot);
      if ready.Raised? {
        var error := ready.error;
        return Raised(if IsInterruption(error) then error else Error(Fatal, error.message));
      }
      SeenAdminIsReady(l0, l2, l3, anchor, route, bot);
      var _ :- Pause();
      r := Ok(());
    }

    /** `_should_retry_member_sync_via_anchor` */
    predicate Reroutes(answer: Answer, route: Option<string>, anchor: Option<string>) {
      && answer.Refused? && answer.error.kind == Fatal
      && route.Some? && anchor.Some? && route != anchor
      && isChatNotFound(answer.error)
    }

    /** One call through the route, and a second one through the anchor exactly
        when the route does not know the chat. */
    predicate ReroutedOnlyWhenUnknown(calls: seq<Exchange>, huids: seq<string>, route: Option<string>, anchor: Option<string>) {
      && 1 <= |calls| <= 2
      && calls[0].request == AddMembers(route, huids)
      && (|calls| == 2 <==> Reroutes(calls[0].answer, route, anchor))
      && (|calls| == 2 ==> calls[1].request == AddMembers(anchor, huids))
    }

    /** `_ensure_chat_members_with_cross_cts_retry`: the members are added through
        the route, or through the anchor when the chat is unknown on the route. */
    method AddWithReroute(huids: seq<string>, route: Option<string>, anchor: Option<string>)
      returns (r: Result<(seq<string>, Option<string>)>)
      modifies gateway
      ensures old(gateway.log) <= gateway.log
      ensures forall e | e in Since(old(gateway.log), gateway.log) ::
        e.request == AddMembers(route, huids) || e.request == AddMembers(anchor, huids)
      ensures ReroutedOnlyWhenUnknown(Since(old(gateway.log), gateway.log), huids, route, anchor)
      ensures r.Ok? ==>
        && Exchange(AddMembers(r.value.1, huids), GotHuids(r.value.0)) in Since(old(gateway.log), gateway.log)
        && NoDup(r.value.0) && (forall h | h in r.value.0 :: h in huids)
        && ReportsExactly(Since(old(gateway.log), gateway.log), r.value.0)
      ensures r.Raised? && r.error.kind == Fatal ==> forall e | e in Since(old(gateway.log), gateway.log) :: !e.answer.GotHuids?
    {
      ghost var l0 := gateway.log;
      var answer := gateway.Ask(AddMembers(route, huids));
      assert Since(l0, gateway.log) == [Exchange(AddMembers(route, huids), answer)];
      if answer.GotHuids? {
        return Ok((answer.huids, route));
      }
      if !Reroutes(answer, route, anchor) {
        return Raised(answer.error);
      }
      var rerouted := gateway.Ask(AddMembers(anchor, huids));
      assert Since(l0, gateway.log) == [Exchange(AddMembers(route, huids), answer), Exchange(AddMembers(anchor, huids), rerouted)];
      if rerouted.Refused? {
        return Raised(rerouted.error);
      }
      var _ :- Pause();
      r := Ok((rerouted.huids, anchor));
    }

    /** One round of `_ensure_chat_members_with_best_effort`. */
    method AddOne(t: Target, route: Option<string>, anchor: Option<string>)
      returns (r: Result<Access>, ghost reached: seq<Target>)
      modifies gateway
      ensures old(gateway.log) <= gateway.log
      ensures forall e | e in Since(old(gateway.log), gateway.log) ::
        e.request.AddMembers? && (e.request.host == route || e.request.host == anchor)
      ensures r.Ok? ==> Settles([t], Since(old(gateway.log), gateway.log), r.value, reached)
    {
      ghost var l0 := gateway.log;
      var step := AddWithReroute([t.huid], route, anchor);
      reached := [];
      if step.Raised? {
        if step.error.kind != Fatal {
          return Raised(step.error), [];
        }
        var failure := AccessFailure(t.huid, t.host, "direct_add_failed", Some(step.error.message));
        OneFailedSettles(t, Since(l0, gateway.log), failure);
        return Ok(Access([], [], [t], [failure])), [];
      }
      var (newly, host) := step.value;
      var reachedVia := if host.Some? then host else ResolveAnchor(anchor);
      OneAddedSettles(t, Since(l0, gateway.log), newly, reachedVia, host);
      r, reached := Ok(AccessOf(newly, reachedVia)), [t];
    }

    /** `_ensure_chat_members_with_best_effort`: one add call a member. */
    method AddIndividually(targets: seq<Target>, route: Option<string>, anchor: Option<string>)
      returns (r: Result<Access>, ghost succeeded: seq<Target>)
      requires DistinctHuids(targets)
      modifies gateway
      ensures old(gateway.log) <= gateway.log
      ensures forall e | e in Since(old(gateway.log), gateway.log) ::
        e.request.AddMembers? && (e.request.host == route || e.request.host == anchor)
      ensures r.Ok? ==> Settles(targets, Since(old(gateway.log), gateway.log), r.value, succeeded)
    {
      var access := NO_ACCESS;
      succeeded := [];
      ghost var l0 := gateway.log;
      for i := 0 to |targets|
        invariant l0 <= gateway.log
        invariant forall e | e in Since(l0, gateway.log) ::
          e.request.AddMembers? && (e.request.host == route || e.request.host == anchor)
        invariant Settles(targets[..i], Since(l0, gateway.log), access, succeeded)
      {
        ghost var l1 := gateway.log;
        var one, reached := AddOne(targets[i], route, anchor);
        SinceSplits(l0, l1, gateway.log);
        if one.Raised? {
          return Raised(one.error), succeeded;
        }
        OneMoreSettled(targets, i, Since(l0, l1), access, succeeded, Since(l1, gateway.log), one.value, reached);
        access := Join(access, one.value);
        succeeded := succeeded + reached;
      }
      assert targets[..|targets|] == targets;
      r := Ok(access);
    }

    /** One round of the loop over routes in `_apply_member_access_strategy`. */
    method AddGroup(targets: seq<Target>, route: Option<string>, anchor: Option<string>)
      returns (r: Result<Access>, ghost succeeded: seq<Target>)
      requires DistinctHuids(targets)
      modifies gateway
      ensures old(gateway.log) <= gateway.log
      ensures Ordered(helperFor, Since(old(gateway.log), gateway.log), anchor)
      ensures InvitesNobody(Since(old(gateway.log), gateway.log))
      ensures r.Ok? ==> Settles(targets, Since(old(gateway.log), gateway.log), r.value, succeeded)
    {
      ghost var l0 := gateway.log;
      succeeded := [];
      if !IsConfigured(route) {
        var audit := Pause();
        if audit.Raised? {
          return Raised(audit.error), [];
        }
        NobodySettles(targets, [], Access([], [], targets, FailuresFor(targets, "invite_route_missing", None)));
        return Ok(Access([], [], targets, FailuresFor(targets, "invite_route_missing", None))), [];
      }
      var helper := EnsureHelper(route, anchor);
      ghost var l1 := gateway.log;
      OrderedAfterReady(helperFor, Since(l0, l1), [], anchor, None);
      assert Since(l0, l1) + [] == Since(l0, l1);
      if helper.Raised? {
        if helper.error.kind != Fatal {
          return Raised(helper.error), [];
        }
        var failures := FailuresFor(targets, "helper_bot_route_membership_failed", Some(helper.error.message));
        NobodySettles(targets, Since(l0, l1), Access([], [], targets, failures));
        return Ok(Access([], [], targets, failures)), [];
      }
      r, succeeded := AddReadyGroup(targets, route, anchor);
      SinceSplits(l0, l1, gateway.log);
      OrderedAfterReady(helperFor, Since(l0, l1), Since(l1, gateway.log), anchor, route);
      if r.Ok? {
        assert Since(l0, gateway.log) == Since(l0, l1) + Since(l1, gateway.log) + [];
        SettlesWithOtherCalls(targets, Since(l0, l1), Since(l1, gateway.log), [], r.value, succeeded);
      }
    }

    /** The batch add of one group and the retry member by member. */
    method AddReadyGroup(targets: seq<Target>, route: Option<string>, anchor: Option<string>)
      returns (r: Result<Access>, ghost succeeded: seq<Target>)
      requires DistinctHuids(targets)
      modifies gateway
      ensures old(gateway.log) <= gateway.log
      ensures forall e | e in Since(old(gateway.log), gateway.log) ::
        e.request.AddMembers? && (e.request.host == route || e.request.host == anchor)
      ensures r.Ok? ==> Settles(targets, Since(old(gateway.log), gateway.log), r.value, succeeded)
    {
      ghost var l0 := gateway.log;
      var batch := AddWithReroute(Huids(targets), route, anchor);
      ghost var l1 := gateway.log;
      if batch.Ok? {
        var (newly, host) := batch.value;
        r, succeeded := Ok(AccessOf(newly, if host.Some? then host else anchor)), targets;
        EverybodySettles(targets, Since(l0, l1), r.value, newly);
        return;
      }
      if batch.error.kind != Fatal {
        return Raised(batch.error), [];
      }
      if |targets| > 1 {
        var audit := Pause();
        if audit.Raised? {
          return Raised(audit.error), [];
        }
        r, succeeded := AddIndividually(targets, route, anchor);
        SinceSplits(l0, l1, gateway.log);
        if r.Ok? {
          SettlesAfterFailedBatch(targets, Since(l0, l1), Since(l1, gateway.log), r.value, succeeded);
        }
        return;
      }
      var access := Access([], [], targets, FailuresFor(targets, "direct_add_failed", Some(batch.error.message)));
      NobodySettles(targets, Since(l0, l1), access);
      r, succeeded := Ok(access), [];
    }

    /** The loop over routes in `_apply_member_access_strategy`. */
    method AddByRoute(targets: seq<Target>, anchor: Option<string>) returns (r: Result<Access>, ghost succeeded: seq<Target>)
      requires DistinctHuids(targets)
      modifies gateway
      ensures old(gateway.log) <= gateway.log
      ensures Ordered(helperFor, Since(old(gateway.log), gateway.log), anchor)
      ensures InvitesNobody(Since(old(gateway.log), gateway.log))
      ensures r.Ok? ==> Settles(targets, Since(old(gateway.log), gateway.log), r.value, succeeded)
    {
      var groups := Partition(targets, anchor);
      var access := NO_ACCESS;
      succeeded := [];
      ghost var l0 := gateway.log;
      DistinctPermuted(targets, Flatten(groups));
      assert groups[..0] == [];
      for g := 0 to |groups|
        invariant l0 <= gateway.log
        invariant Ordered(helperFor, Since(l0, gateway.log), anchor)
        invariant InvitesNobody(Since(l0, gateway.log))
        invariant Settles(Flatten(groups[..g]), Since(l0, gateway.log), access, succeeded)
      {
        var (route, grouped) := groups[g];
        ghost var l1 := gateway.log;
        GroupIsFresh(groups, g);
        var one, reached := AddGroup(grouped, route, anchor);
        SinceSplits(l0, l1, gateway.log);
        OrderedConcat(helperFor, Since(l0, l1), Since(l1, gateway.log), anchor);
        if one.Raised? {
          return Raised(one.error), succeeded;
        }
        FlattenTake(groups, g);
        SettlesJoin(Flatten(groups[..g]), Since(l0, l1), access, succeeded, grouped, Since(l1, gateway.log), one.value, reached);
        access := Join(access, one.value);
        succeeded := succeeded + reached;
      }
      assert groups[..|groups|] == groups;
      SettlesPermuted(Flatten(groups), targets, Since(l0, gateway.log), access, succeeded);
      r := Ok(access);
    }

    /** One recipient of `_dispatch_access_invites`; `Ok(false)` means not delivered. */
    method InviteOne(t: Target, anchor: Option<string>) returns (r: Result<bool>)
      modifies gateway
      ensures old(gateway.log) <= gateway.log
      ensures forall e | e in Since(old(gateway.log), gateway.log) ::
        e.request == OpenPersonalChat(RouteOf(t, ResolveAnchor(anchor)), t.huid) || e.request == SendInvite(RouteOf(t, ResolveAnchor(anchor)), t.huid)
      ensures r == Ok(true) <==> InvitationAccepted(Since(old(gateway.log), gateway.log), t.huid)
      ensures r.Raised? ==> IsInterruption(r.error)
    {
      ghost var l0 := gateway.log;
      var route := RouteOf(t, ResolveAnchor(anchor));
      if !IsConfigured(route) {
        var audit := Pause();
        return if audit.Raised? then Raised(audit.error) else Ok(false);
      }
      var personal := gateway.Ask(OpenPersonalChat(route, t.huid));
      assert Since(l0, gateway.log) == [Exchange(OpenPersonalChat(route, t.huid), personal)];
      if personal.Done? {
        var sent := gateway.Ask(SendInvite(route, t.huid));
        assert Since(l0, gateway.log) == [Exchange(OpenPersonalChat(route, t.huid), personal), Exchange(SendInvite(route, t.huid), sent)];
        if sent.Done? {
          return Ok(true);
        }
        r := if IsInterruption(sent.error) then Raised(sent.error) else Ok(false);
      } else {
        r := if IsInterruption(personal.error) then Raised(personal.error) else Ok(false);
      }
    }

    /** `_dispatch_access_invites`: exactly the recipients whose invitation was
        accepted, in order. */
    method DispatchInvites(recipients: seq<Target>, anchor: Option<string>) returns (r: Result<seq<string>>)
      modifies gateway
      ensures old(gateway.log) <= gateway.log
      ensures forall e | e in Since(old(gateway.log), gateway.log) :: !e.request.AddMembers?
      ensures r.Ok? ==> IsSubsequence(r.value, Huids(recipients))
      ensures r.Ok? ==> InvitedExactly(Since(old(gateway.log), gateway.log), r.value)
    {
      ghost var l0 := gateway.log;
      var link := gateway.Ask(CreateLink(anchor));
      assert Since(l0, gateway.log) == [Exchange(CreateLink(anchor), link)];
      if link.Refused? {
        return Raised(link.error);
      }
      if link.link == None || link.link.value == "" {
        return Ok([]);
      }
      var delivered: seq<string> := [];
      for i := 0 to |recipients|
        invariant l0 <= gateway.log
        invariant forall e | e in Since(l0, gateway.log) :: !e.request.AddMembers?
        invariant IsSubsequence(delivered, Huids(recipients[..i]))
        invariant InvitedExactly(Since(l0, gateway.log), delivered)
      {
        ghost var l1 := gateway.log;
        var invited :- InviteOne(recipients[i], anchor);
        SinceSplits(l0, l1, gateway.log);
        OneMoreInvitation(Since(l0, l1), Since(l1, gateway.log), delivered, recipients[i].huid);
        StillSubsequence(recipients, i, delivered);
        if invited {
          delivered := delivered + [recipients[i].huid];
        }
      }
      assert recipients[..|recipients|] == recipients;
      var _ :- Pause();
      r := Ok(delivered);
    }

    /** `_apply_member_access_strategy` */
    method Apply(
        participants: seq<Target>, initiator: Option<string>, inviteOnly: bool, anchorHost: Option<string>, skip: set<string>)
      returns (r: Result<AccessResult>, ghost access: Access, ghost succeeded: seq<Target>)
      modifies gateway
      ensures old(gateway.log) <= gateway.log
      ensures Ordered(helperFor, Since(old(gateway.log), gateway.log), ResolveAnchor(anchorHost))
      ensures r.Ok? ==>
        AccessContract(
          Deduplicated(participants, Excluded(NormalInitiator(initiator), skip)), inviteOnly,
          Since(old(gateway.log), gateway.log), r.value, access, succeeded)
    {
      ghost var l0 := gateway.log;
      var filtered := Deduplicate(participants, NormalInitiator(initiator), skip);
      DeduplicatedIsFiltered(participants, Excluded(NormalInitiator(initiator), skip));
      var anchor := ResolveAnchor(anchorHost);
      access, succeeded := NO_ACCESS, [];
      if inviteOnly || filtered == [] {
        var invited := DispatchInvites(filtered, anchor);
        OrderedAfterReady(helperFor, Since(l0, gateway.log), [], anchor, None);
        assert Since(l0, gateway.log) + [] == Since(l0, gateway.log);
        r := if invited.Raised? then Raised(invited.error) else Ok(AccessResult([], invited.value, []));
        return;
      }
      var direct;
      direct, succeeded := AddByRoute(filtered, anchor);
      ghost var l1 := gateway.log;
      if direct.Raised? {
        return Raised(direct.error), access, succeeded;
      }
      access := direct.value;
      var invited := [];
      if direct.value.fallback != [] {
        var dispatched := DispatchInvites(direct.value.fallback, anchor);
        SinceSplits(l0, l1, gateway.log);
        OrderedAfterReady(helperFor, Since(l1, gateway.log), [], anchor, None);
        assert Since(l1, gateway.log) + [] == Since(l1, gateway.log);
        OrderedConcat(helperFor, Since(l0, l1), Since(l1, gateway.log), anchor);
        if dispatched.Raised? {
          return Raised(dispatched.error), access, succeeded;
        }
        assert Since(l0, gateway.log) == [] + Since(l0, l1) + Since(l1, gateway.log);
        SettlesWithOtherCalls(filtered, [], Since(l0, l1), Since(l1, gateway.log), access, succeeded);
        invited := dispatched.value;
        OthersInviteNobody(Since(l0, l1), Since(l1, gateway.log), invited);
      }
      var audit := Pause();
      r := if audit.Raised? then Raised(audit.error) else Ok(AccessResult(direct.value.added, invited, direct.value.failures));
    }
  }
}
