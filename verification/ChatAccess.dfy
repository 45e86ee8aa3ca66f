/** Calls to the target system while giving members access to a chat, and the two
    orders kept on them: who was added, and when a helper bot must be ready. */
module ChatAccess {
  import opened Common
  import opened Sequences

  /** A participant with the host it is registered on, if known. Host names are
      taken after normalisation. */
  datatype Target = Target(huid: string, host: Option<string>)

  datatype AccessFailure = AccessFailure(huid: string, host: Option<string>, reason: string, error: Option<string>)

  /** Both `AddMembers` and `AttachHelper` are `ensure_chat_members` calls. One
      request stands for one retried operation, except `ListAdmins`. */
  datatype Request =
    | AddMembers(host: Option<string>, huids: seq<string>)
    | AttachHelper(host: Option<string>, bot: string)
    | PromoteHelper(host: Option<string>, bot: string)
    | ListAdmins(host: Option<string>)
    | CreateLink(host: Option<string>)
    | OpenPersonalChat(host: Option<string>, huid: string)
    | SendInvite(host: Option<string>, huid: string)

  datatype Answer =
    | GotHuids(huids: seq<string>)
    | GotLink(link: Option<string>)
    | Done
    | Refused(error: Error)

  datatype Exchange = Exchange(request: Request, answer: Answer)

  /** The answers a request may get. A member add returns some of the requested
      members, each once: those that were not in the chat before. */
  predicate Fits(request: Request, answer: Answer) {
    answer.Refused? ||
    match request
    case AddMembers(_, huids) => answer.GotHuids? && NoDup(answer.huids) && forall h | h in answer.huids :: h in huids
    case AttachHelper(_, _) => answer.GotHuids?
    case PromoteHelper(_, _) => answer.GotHuids?
    case ListAdmins(_) => answer.GotHuids?
    case CreateLink(_) => answer.GotLink?
    case OpenPersonalChat(_, _) => answer.Done?
    case SendInvite(_, _) => answer.Done?
  }

  class ChatGateway {
    ghost var log: seq<Exchange>

    constructor ()
      ensures log == []
    {
      log := [];
    }

    method Ask(request: Request) returns (answer: Answer)
      modifies this
      ensures Fits(request, answer)
      ensures log == old(log) + [Exchange(request, answer)]
    {
      answer := *;
      if !Fits(request, answer) {
        answer := Refused(Error(Other, "malformed answer"));
      }
      log := log + [Exchange(request, answer)];
    }
  }

  // ----- who was added

  function Huids(targets: seq<Target>): seq<string> {
    seq(|targets|, i requires 0 <= i < |targets| => targets[i].huid)
  }

  function FailureHuids(failures: seq<AccessFailure>): seq<string> {
    seq(|failures|, i requires 0 <= i < |failures| => failures[i].huid)
  }

  ghost predicate DistinctHuids(targets: seq<Target>) {
    forall i, j | 0 <= i < j < |targets| :: targets[i].huid != targets[j].huid
  }

  /** Some accepted member add named `huid`. */
  predicate WasAdded(calls: seq<Exchange>, huid: string) {
    exists e | e in calls :: e.request.AddMembers? && huid in e.request.huids && e.answer.GotHuids?
  }

  /** Some accepted member add reported `huid` as newly in the chat. */
  predicate WasReported(calls: seq<Exchange>, huid: string) {
    exists e | e in calls :: e.request.AddMembers? && e.answer.GotHuids? && huid in e.answer.huids
  }

  ghost predicate ReportsExactly(calls: seq<Exchange>, added: seq<string>) {
    forall huid :: huid in added <==> WasReported(calls, huid)
  }

  lemma ReportsJoin(a: seq<Exchange>, b: seq<Exchange>, added: seq<string>, more: seq<string>)
    requires ReportsExactly(a, added) && ReportsExactly(b, more)
    ensures ReportsExactly(a + b, added + more)
  {
    forall huid ensures WasReported(a + b, huid) <==> WasReported(a, huid) || WasReported(b, huid) {
      assert forall e :: e in a + b <==> e in a || e in b;
    }
  }

  lemma NothingReported(calls: seq<Exchange>)
    requires forall e | e in calls && e.request.AddMembers? :: !e.answer.GotHuids?
    ensures ReportsExactly(calls, [])
  {
  }

  /** Member adds in `calls` name only members of `targets`. */
  predicate AddsOnly(calls: seq<Exchange>, targets: seq<Target>) {
    forall e | e in calls && e.request.AddMembers? :: forall h | h in e.request.huids :: h in Huids(targets)
  }

  /** The running result of direct adds. */
  datatype Access = Access(
    added: seq<string>,
    addedByHost: Groups<string, string>,
    fallback: seq<Target>,
    failures: seq<AccessFailure>)

  const NO_ACCESS := Access([], [], [], [])

  /** Every target either had an accepted add or is among the failed ones, never
      both; the fallback and failure lists name the same members in the same
      order; the newly added are exactly those the accepted adds reported; the
      per-host lists hold exactly the added members. */
  ghost predicate Settles(targets: seq<Target>, calls: seq<Exchange>, access: Access, succeeded: seq<Target>) {
    && AddsOnly(calls, targets)
    && multiset(targets) == multiset(succeeded) + multiset(access.fallback)
    && FailureHuids(access.failures) == Huids(access.fallback)
    && (forall t | t in succeeded :: WasAdded(calls, t.huid))
    && (forall t | t in access.fallback :: !WasAdded(calls, t.huid))
    && (forall h | h in access.added :: h in Huids(succeeded))
    && ReportsExactly(calls, access.added)
    && NoDup(access.added)
    && multiset(Flatten(access.addedByHost)) == multiset(access.added)
    && NoDup(Keys(access.addedByHost))
  }

  /** `for host, huids in more.items(): groups.setdefault(host, []).extend(huids)` */
  function MergeInto(groups: Groups<string, string>, more: Groups<string, string>): Groups<string, string>
    decreases |more|
  {
    if more == [] then groups
    else MergeInto(AppendTo(groups, more[0].0, more[0].1), more[1..])
  }

  lemma {:induction false} MergeIntoKeepsAll(groups: Groups<string, string>, more: Groups<string, string>)
    requires NoDup(Keys(groups))
    ensures multiset(Flatten(MergeInto(groups, more))) == multiset(Flatten(groups)) + multiset(Flatten(more))
    ensures NoDup(Keys(MergeInto(groups, more)))
    decreases |more|
  {
    if more != [] {
      AppendToKeys(groups, more[0].0, more[0].1);
      AppendToFlatten(groups, more[0].0, more[0].1);
      MergeIntoKeepsAll(AppendTo(groups, more[0].0, more[0].1), more[1..]);
    }
  }

  function Join(a: Access, b: Access): Access {
    Access(a.added + b.added, MergeInto(a.addedByHost, b.addedByHost), a.fallback + b.fallback, a.failures + b.failures)
  }

  lemma WasAddedConcat(a: seq<Exchange>, b: seq<Exchange>, huid: string)
    ensures WasAdded(a + b, huid) <==> WasAdded(a, huid) || WasAdded(b, huid)
  {
    assert forall e :: e in a + b <==> e in a || e in b;
  }

  lemma HuidsIn(targets: seq<Target>, t: Target)
    requires t in targets
    ensures t.huid in Huids(targets)
  {
    var i :| 0 <= i < |targets| && targets[i] == t;
    assert Huids(targets)[i] == t.huid;
  }

  lemma NotAddedElsewhere(calls: seq<Exchange>, targets: seq<Target>, huid: string)
    requires AddsOnly(calls, targets) && huid !in Huids(targets)
    ensures !WasAdded(calls, huid)
  {
  }

  lemma SettledAreTargets(ts: seq<Target>, cs: seq<Exchange>, a: Access, ss: seq<Target>, t: Target)
    requires Settles(ts, cs, a, ss) && (t in ss || t in a.fallback)
    ensures t in ts && t.huid in Huids(ts)
  {
    assert t in multiset(ss) + multiset(a.fallback);
    assert t in multiset(ts);
    HuidsIn(ts, t);
  }

  lemma JoinedFailed(
      ts: seq<Target>, cs: seq<Exchange>, a: Access, ss: seq<Target>,
      tt: seq<Target>, ct: seq<Exchange>, b: Access, st: seq<Target>, t: Target)
    requires Settles(ts, cs, a, ss) && Settles(tt, ct, b, st)
    requires forall h | h in Huids(ts) :: h !in Huids(tt)
    requires t in a.fallback || t in b.fallback
    ensures !WasAdded(cs + ct, t.huid)
  {
    WasAddedConcat(cs, ct, t.huid);
    if t in a.fallback {
      SettledAreTargets(ts, cs, a, ss, t);
      NotAddedElsewhere(ct, tt, t.huid);
    } else {
      SettledAreTargets(tt, ct, b, st, t);
      NotAddedElsewhere(cs, ts, t.huid);
    }
  }

  lemma JoinedLists(a: Access, b: Access, ss: seq<Target>, st: seq<Target>)
    requires FailureHuids(a.failures) == Huids(a.fallback) && FailureHuids(b.failures) == Huids(b.fallback)
    requires (forall h | h in a.added :: h in Huids(ss)) && (forall h | h in b.added :: h in Huids(st))
    ensures FailureHuids(Join(a, b).failures) == Huids(Join(a, b).fallback)
    ensures forall h | h in Join(a, b).added :: h in Huids(ss + st)
  {
    assert Huids(a.fallback + b.fallback) == Huids(a.fallback) + Huids(b.fallback);
    assert FailureHuids(a.failures + b.failures) == FailureHuids(a.failures) + FailureHuids(b.failures);
    assert Huids(ss + st) == Huids(ss) + Huids(st);
  }

  lemma JoinedAddsOnly(cs: seq<Exchange>, ct: seq<Exchange>, ts: seq<Target>, tt: seq<Target>)
    requires AddsOnly(cs, ts) && AddsOnly(ct, tt)
    ensures AddsOnly(cs + ct, ts + tt)
  {
    assert Huids(ts + tt) == Huids(ts) + Huids(tt);
  }

  /** Two settled groups without a common member settle together. */
  lemma SettlesJoin(
      ts: seq<Target>, cs: seq<Exchange>, a: Access, ss: seq<Target>,
      tt: seq<Target>, ct: seq<Exchange>, b: Access, st: seq<Target>)
    requires Settles(ts, cs, a, ss) && Settles(tt, ct, b, st)
    requires forall h | h in Huids(ts) :: h !in Huids(tt)
    ensures Settles(ts + tt, cs + ct, Join(a, b), ss + st)
  {
    var j := Join(a, b);
    forall t | t in ss + st ensures WasAdded(cs + ct, t.huid) {
      WasAddedConcat(cs, ct, t.huid);
    }
    forall t | t in j.fallback ensures !WasAdded(cs + ct, t.huid) {
      JoinedFailed(ts, cs, a, ss, tt, ct, b, st, t);
    }
    JoinedLists(a, b, ss, st);
    ReportsJoin(cs, ct, a.added, b.added);
    JoinedAddsOnly(cs, ct, ts, tt);
    assert NoDup(j.added) by {
      forall t | t in ss ensures t in ts {
        SettledAreTargets(ts, cs, a, ss, t);
      }
      forall t | t in st ensures t in tt {
        SettledAreTargets(tt, ct, b, st, t);
      }
      JoinedAddedDistinct(ts, a.added, ss, tt, b.added, st);
    }
    MergeIntoKeepsAll(a.addedByHost, b.addedByHost);
  }

  lemma JoinedAddedDistinct(
      ts: seq<Target>, added: seq<string>, ss: seq<Target>, tt: seq<Target>, more: seq<string>, st: seq<Target>)
    requires NoDup(added) && NoDup(more)
    requires (forall h | h in added :: h in Huids(ss)) && (forall t | t in ss :: t in ts)
    requires (forall h | h in more :: h in Huids(st)) && (forall t | t in st :: t in tt)
    requires forall h | h in Huids(ts) :: h !in Huids(tt)
    ensures NoDup(added + more)
  {
    forall i, j | 0 <= i < |added| && 0 <= j < |more| ensures added[i] != more[j] {
      assert added[i] in Huids(ss) && more[j] in Huids(st);
      var k :| 0 <= k < |Huids(ss)| && Huids(ss)[k] == added[i];
      var l :| 0 <= l < |Huids(st)| && Huids(st)[l] == more[j];
      HuidsIn(ts, ss[k]);
      HuidsIn(tt, st[l]);
    }
  }

  lemma SettlesWithOtherCalls(
      targets: seq<Target>, before: seq<Exchange>, calls: seq<Exchange>, after: seq<Exchange>,
      access: Access, succeeded: seq<Target>)
    requires Settles(targets, calls, access, succeeded)
    requires forall e | e in before + after :: !e.request.AddMembers?
    ensures Settles(targets, before + calls + after, access, succeeded)
  {
    var all := before + calls + after;
    assert forall e :: e in all <==> e in before + after || e in calls;
    forall h: string ensures WasAdded(all, h) <==> WasAdded(calls, h) {
      if WasAdded(all, h) {
        var e :| e in all && e.request.AddMembers? && h in e.request.huids && e.answer.GotHuids?;
        assert e in calls;
      }
    }
    NothingReported(before);
    NothingReported(after);
    ReportsJoin(before, calls, [], access.added);
    ReportsJoin(before + calls, after, [] + access.added, []);
  }

  lemma SettlesPermuted(ts: seq<Target>, us: seq<Target>, calls: seq<Exchange>, access: Access, succeeded: seq<Target>)
    requires Settles(ts, calls, access, succeeded) && multiset(us) == multiset(ts)
    ensures Settles(us, calls, access, succeeded)
  {
    forall h | h in Huids(ts) ensures h in Huids(us) {
      var i :| 0 <= i < |ts| && Huids(ts)[i] == h;
      assert ts[i] in multiset(us);
      HuidsIn(us, ts[i]);
    }
  }

  // ----- when a helper bot is ready

  /** Adding through `host` needs the host's helper bot in the chat first. */
  predicate NeedsHelper(helperFor: string -> Option<string>, host: Option<string>, anchor: Option<string>) {
    host.Some? && anchor.Some? && host != anchor && helperFor(host.value).Some?
  }

  /** In this order: the helper was attached and promoted through the anchor, and
      then seen among the admins through its own host. */
  ghost predicate HelperReady(calls: seq<Exchange>, anchor: Option<string>, host: Option<string>, bot: string) {
    exists q, r, s | 0 <= q < r < s < |calls| ::
      IsAttached(calls[q], anchor, bot) && IsPromoted(calls[r], anchor, bot) && IsSeenAsAdmin(calls[s], host, bot)
  }

  predicate IsAttached(e: Exchange, anchor: Option<string>, bot: string) {
    e.request == AttachHelper(anchor, bot) && e.answer.GotHuids?
  }

  predicate IsPromoted(e: Exchange, anchor: Option<string>, bot: string) {
    e.request == PromoteHelper(anchor, bot) && e.answer.GotHuids?
  }

  predicate IsSeenAsAdmin(e: Exchange, host: Option<string>, bot: string) {
    e.request == ListAdmins(host) && e.answer.GotHuids? && bot in e.answer.huids
  }

  /** Every member add that needs a helper comes after that helper was ready. */
  ghost predicate Ordered(helperFor: string -> Option<string>, calls: seq<Exchange>, anchor: Option<string>) {
    forall p | 0 <= p < |calls| && calls[p].request.AddMembers? && NeedsHelper(helperFor, calls[p].request.host, anchor) ::
      HelperReady(calls[..p], anchor, calls[p].request.host, helperFor(calls[p].request.host.value).value)
  }

  lemma HelperReadyWithin(
      before: seq<Exchange>, calls: seq<Exchange>, after: seq<Exchange>, anchor: Option<string>, host: Option<string>, bot: string)
    requires HelperReady(calls, anchor, host, bot)
    ensures HelperReady(before + calls + after, anchor, host, bot)
  {
    var q, r, s :| 0 <= q < r < s < |calls|
      && IsAttached(calls[q], anchor, bot) && IsPromoted(calls[r], anchor, bot) && IsSeenAsAdmin(calls[s], host, bot);
    var all := before + calls + after;
    var n := |before|;
    assert all[n + q] == calls[q] && all[n + r] == calls[r] && all[n + s] == calls[s];
    assert IsAttached(all[n + q], anchor, bot) && IsPromoted(all[n + r], anchor, bot) && IsSeenAsAdmin(all[n + s], host, bot);
  }

  lemma OrderedConcat(helperFor: string -> Option<string>, a: seq<Exchange>, b: seq<Exchange>, anchor: Option<string>)
    requires Ordered(helperFor, a, anchor) && Ordered(helperFor, b, anchor)
    ensures Ordered(helperFor, a + b, anchor)
  {
    var all := a + b;
    forall p | 0 <= p < |all| && all[p].request.AddMembers? && NeedsHelper(helperFor, all[p].request.host, anchor)
      ensures HelperReady(all[..p], anchor, all[p].request.host, helperFor(all[p].request.host.value).value)
    {
      if p < |a| {
        assert all[..p] == a[..p];
      } else {
        assert all[..p] == a + b[..p - |a|] + [];
        HelperReadyWithin(a, b[..p - |a|], [], anchor, all[p].request.host, helperFor(all[p].request.host.value).value);
      }
    }
  }

  /** Adds through one host after its helper was ready, or through the anchor. */
  lemma OrderedAfterReady(
      helperFor: string -> Option<string>, a: seq<Exchange>, b: seq<Exchange>, anchor: Option<string>, host: Option<string>)
    requires forall e | e in a :: !e.request.AddMembers?
    requires forall e | e in b :: e.request.AddMembers? ==> e.request.host == host || e.request.host == anchor
    requires NeedsHelper(helperFor, host, anchor) ==> HelperReady(a, anchor, host, helperFor(host.value).value)
    ensures Ordered(helperFor, a + b, anchor)
  {
    var all := a + b;
    forall p | 0 <= p < |a| ensures !all[p].request.AddMembers? {
      assert a[p] in a;
    }
    forall p | 0 <= p < |all| && all[p].request.AddMembers? && NeedsHelper(helperFor, all[p].request.host, anchor)
      ensures HelperReady(all[..p], anchor, all[p].request.host, helperFor(all[p].request.host.value).value)
    {
      assert all[p] == b[p - |a|] && all[p] in b;
      assert all[..p] == [] + a + b[..p - |a|];
      HelperReadyWithin([], a, b[..p - |a|], anchor, host, helperFor(host.value).value);
    }
  }

  /** So a host whose helper never got ready sees no member add at all. */
  lemma AddImpliesReadyHelper(
      helperFor: string -> Option<string>, calls: seq<Exchange>, anchor: Option<string>, host: Option<string>, e: Exchange)
    requires Ordered(helperFor, calls, anchor) && NeedsHelper(helperFor, host, anchor)
    requires e in calls && e.request.AddMembers? && e.request.host == host
    ensures HelperReady(calls, anchor, host, helperFor(host.value).value)
  {
    var p :| 0 <= p < |calls| && calls[p] == e;
    assert calls == [] + calls[..p] + calls[p..];
    HelperReadyWithin([], calls[..p], calls[p..], anchor, host, helperFor(host.value).value);
  }
}
