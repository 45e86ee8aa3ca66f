/** `CtsResolutionService`: on which host a user lives, through a binding cache.
    Hosts are taken in normal form. */
module CtsResolution {
  import opened Common
  import opened Sequences
  import opened Text

  datatype Query =
    | ByHuid(huid: string)
    | ByEmail(email: string)
    | ByLogin(login: string, domain: Option<string>)
    | ByOtherId(otherId: string)

  /** What a search on a host finds. Host `None` is the unrouted gateway. */
  type Directory = map<(Option<string>, Query), string>

  datatype Source = Missing | Cache | Probe | ProbeMiss

  datatype Resolution = Resolution(huid: Option<string>, email: Option<string>, host: Option<string>, source: Source)

  datatype Binding = Binding(huid: Option<string>, email: Option<string>, host: string)

  datatype Bindings = Bindings(byHuid: map<string, Binding>, byEmail: map<string, Binding>)

  function NonBlank(s: string): Option<string> {
    if s == "" then None else Some(s)
  }

  /** The query a resolve sends once its input is normalised; none for a blank one. */
  function Normal(q: Query): Option<Query> {
    match q
    case ByHuid(huid) => if Strip(huid) == "" then None else Some(ByHuid(Strip(huid)))
    case ByEmail(email) => if Strip(email) == "" then None else Some(ByEmail(Lower(Strip(email))))
    case ByLogin(login, domain) =>
      var normalDomain := if domain.Some? then NonBlank(Strip(domain.value)) else None;
      if Strip(login) == "" then None else Some(ByLogin(Strip(login), normalDomain))
    case ByOtherId(otherId) => if Strip(otherId) == "" then None else Some(ByOtherId(Strip(otherId)))
  }

  // ----- the binding repository

  function EmailOf(b: Option<Binding>): Option<string> {
    if b.Some? then b.value.email else None
  }

  function HuidOf(b: Option<Binding>): Option<string> {
    if b.Some? then b.value.huid else None
  }

  function OrElse<T>(a: Option<T>, b: Option<T>): Option<T> {
    if a.Some? then a else b
  }

  function Without<V>(m: map<string, V>, key: Option<string>): map<string, V> {
    if key.Some? then m - {key.value} else m
  }

  function With<V>(m: map<string, V>, key: Option<string>, value: V): map<string, V> {
    if key.Some? then m[key.value := value] else m
  }

  /** The record `save` writes: identifiers it is not given come from the existing one. */
  function Merged(s: Bindings, huid: Option<string>, email: Option<string>, host: string): Binding {
    var known := if huid.Some? then Find(s.byHuid, huid.value) else None;
    var named := if email.Some? then Find(s.byEmail, email.value) else None;
    var existing := OrElse(known, named);
    Binding(OrElse(huid, HuidOf(existing)), OrElse(email, EmailOf(existing)), host)
  }

  /** `save`: entries of the records it replaces are dropped from the other index. */
  function Saved(s: Bindings, huid: Option<string>, email: Option<string>, host: string): Bindings {
    var known := if huid.Some? then Find(s.byHuid, huid.value) else None;
    var named := if email.Some? then Find(s.byEmail, email.value) else None;
    var merged := Merged(s, huid, email, host);
    Bindings(
      With(Without(s.byHuid, HuidOf(named)), merged.huid, merged),
      With(Without(s.byEmail, EmailOf(known)), merged.email, merged))
  }

  class BindingRepository {
    var byHuid: map<string, Binding>
    var byEmail: map<string, Binding>

    constructor ()
      ensures Contents() == Bindings(map[], map[])
    {
      byHuid, byEmail := map[], map[];
    }

    function Contents(): Bindings
      reads this
    {
      Bindings(byHuid, byEmail)
    }

    method Save(huid: Option<string>, email: Option<string>, host: string) returns (saved: Binding)
      modifies this
      ensures Contents() == Saved(old(Contents()), huid, email, host)
      ensures saved == Merged(old(Contents()), huid, email, host)
      ensures saved.huid.Some? ==> saved.huid.value in byHuid && byHuid[saved.huid.value] == saved
      ensures saved.email.Some? ==> saved.email.value in byEmail && byEmail[saved.email.value] == saved
    {
      var known := if huid.Some? then Find(byHuid, huid.value) else None;
      var named := if email.Some? then Find(byEmail, email.value) else None;
      var existing := OrElse(known, named);
      saved := Binding(OrElse(huid, HuidOf(existing)), OrElse(email, EmailOf(existing)), host);
      if known.Some? && known.value.email.Some? {
        byEmail := byEmail - {known.value.email.value};
      }
      if named.Some? && named.value.huid.Some? {
        byHuid := byHuid - {named.value.huid.value};
      }
      if saved.huid.Some? {
        byHuid := byHuid[saved.huid.value := saved];
      }
      if saved.email.Some? {
        byEmail := byEmail[saved.email.value := saved];
      }
    }
  }

  // ----- candidate hosts and the uncached scan

  function AppendNew(ordered: seq<Option<string>>, hosts: seq<string>): seq<Option<string>> {
    if hosts == [] then ordered
    else
      var before := AppendNew(ordered, hosts[..|hosts| - 1]);
      var last := Some(hosts[|hosts| - 1]);
      if last in before then before else before + [last]
  }

  function Candidates(current: Option<string>, registered: seq<string>): seq<Option<string>> {
    var ordered := AppendNew(if current.Some? then [current] else [], registered);
    if ordered == [] then [None] else ordered
  }

  /** The first host that knows the user answers. */
  function Scan(d: Directory, hosts: seq<Option<string>>, q: Query): (Option<string>, Option<string>) {
    if hosts == [] then (None, None)
    else if (hosts[0], q) in d then (Some(d[(hosts[0], q)]), hosts[0])
    else Scan(d, hosts[1..], q)
  }

  lemma {:induction false} AppendNewMembers(ordered: seq<Option<string>>, hosts: seq<string>, h: Option<string>)
    ensures h in AppendNew(ordered, hosts) <==> h in ordered || (h.Some? && h.value in hosts)
    ensures NoDup(ordered) ==> NoDup(AppendNew(ordered, hosts))
    ensures ordered <= AppendNew(ordered, hosts)
  {
    if hosts != [] {
      AppendNewMembers(ordered, hosts[..|hosts| - 1], h);
      AppendNewMembers(ordered, hosts[..|hosts| - 1], Some(hosts[|hosts| - 1]));
      assert hosts == hosts[..|hosts| - 1] + [hosts[|hosts| - 1]];
    }
  }

  /** The candidates are the registered hosts, each once, the current one first. */
  lemma CandidatesAreRegistered(current: Option<string>, registered: seq<string>, h: Option<string>)
    requires current.Some? ==> current.value in registered
    ensures NoDup(Candidates(current, registered))
    ensures current.Some? ==> Candidates(current, registered)[0] == current
    ensures h in Candidates(current, registered) <==>
      if registered == [] then h == None else h.Some? && h.value in registered
  {
    var start := if current.Some? then [current] else [];
    AppendNewMembers(start, registered, h);
    if registered != [] {
      AppendNewMembers(start, registered, Some(registered[0]));
    }
  }

  lemma {:induction false} ScanFinds(d: Directory, hosts: seq<Option<string>>, q: Query)
    ensures var (huid, host) := Scan(d, hosts, q);
      if exists h | h in hosts :: (h, q) in d then host in hosts && (host, q) in d && huid == Some(d[(host, q)])
      else huid == None && host == None
  {
    if hosts != [] {
      assert hosts == [hosts[0]] + hosts[1..];
      if (hosts[0], q) !in d {
        ScanFinds(d, hosts[1..], q);
      }
    }
  }

  // ----- resolving

  function Cached(s: Bindings, q: Query): Option<Binding> {
    match q
    case ByHuid(huid) => Find(s.byHuid, huid)
    case ByEmail(email) => Find(s.byEmail, email)
    case _ => None
  }

  function EmailIn(q: Query): Option<string> {
    if q.ByEmail? then Some(q.email) else None
  }

  /** The bindings after one resolve of a normal query. */
  function AfterResolve(s: Bindings, d: Directory, hosts: seq<Option<string>>, q: Query): Bindings {
    var (huid, host) := Scan(d, hosts, q);
    if Cached(s, q).Some? || host == None || huid == None then s else Saved(s, Some(Strip(huid.value)), EmailIn(q), host.value)
  }

  function Answer(s: Bindings, d: Directory, hosts: seq<Option<string>>, q: Query): (Option<string>, Option<string>) {
    var cached := Cached(s, q);
    var (huid, host) := Scan(d, hosts, q);
    if cached.Some? then (cached.value.huid, Some(cached.value.host))
    else if huid.Some? && host.Some? then (Merged(s, Some(Strip(huid.value)), EmailIn(q), host.value).huid, host)
    else (huid, host)
  }

  class ResolutionService {
    const directory: Directory
    const registered: seq<string>
    const repository: BindingRepository

    constructor (directory: Directory, registered: seq<string>, repository: BindingRepository)
      ensures this.directory == directory && this.registered == registered && this.repository == repository
    {
      this.directory := directory;
      this.registered := registered;
      this.repository := repository;
    }

    /** `_candidate_cts_hosts` */
    method CandidateHosts(current: Option<string>) returns (ordered: seq<Option<string>>)
      ensures ordered == Candidates(current, registered)
    {
      ordered := [];
      var seen: set<Option<string>> := {};
      if current.Some? {
        ordered := [current];
        seen := {current};
      }
      ghost var start := ordered;
      for i := 0 to |registered|
        invariant ordered == AppendNew(start, registered[..i])
        invariant forall h :: h in seen <==> h in ordered
      {
        assert registered[..i + 1][..i] == registered[..i];
        var host := Some(registered[i]);
        if host !in seen {
          ordered := ordered + [host];
          seen := seen + {host};
        }
      }
      assert registered[..|registered|] == registered;
      if ordered == [] {
        ordered := [None];
      }
    }

    /** The host loop all four resolves share. */
    method ProbeHosts(current: Option<string>, q: Query) returns (r: Resolution)
      requires Cached(repository.Contents(), q) == None
      modifies repository
      ensures var hosts := Candidates(current, registered);
        && repository.Contents() == AfterResolve(old(repository.Contents()), directory, hosts, q)
        && (r.huid, r.host) == Answer(old(repository.Contents()), directory, hosts, q)
        && (r.source == ProbeMiss <==> Scan(directory, hosts, q).0 == None)
      ensures r.source == Probe || r.source == ProbeMiss
      ensures q.ByEmail? ==> r.email == Some(q.email)
    {
      var hosts := CandidateHosts(current);
      for i := 0 to |hosts|
        invariant repository.Contents() == old(repository.Contents())
        invariant Scan(directory, hosts, q) == Scan(directory, hosts[i..], q)
      {
        if (hosts[i], q) in directory {
          var found := directory[(hosts[i], q)];
          if hosts[i] == None {
            return Resolution(Some(found), EmailIn(q), None, Probe);
          }
          var saved := repository.Save(Some(Strip(found)), EmailIn(q), hosts[i].value);
          return Resolution(saved.huid, saved.email, Some(saved.host), Probe);
        }
        assert hosts[i..][1..] == hosts[i + 1..];
      }
      assert hosts[|hosts|..] == [];
      r := Resolution(None, EmailIn(q), None, ProbeMiss);
    }

    /** `resolve_target_huid`, `resolve_email`, `resolve_ad_login` and
        `resolve_other_id`: only the first two read the cache. */
    method Resolve(current: Option<string>, query: Query) returns (r: Resolution)
      modifies repository
      ensures Normal(query) == None ==>
        r == Resolution(None, None, None, Missing) && repository.Contents() == old(repository.Contents())
      ensures Normal(query).Some? ==>
        var q := Normal(query).value;
        var hosts := Candidates(current, registered);
        && repository.Contents() == AfterResolve(old(repository.Contents()), directory, hosts, q)
        && (r.huid, r.host) == Answer(old(repository.Contents()), directory, hosts, q)
        && (r.source == Cache <==> old(Cached(repository.Contents(), q)).Some?)
    {
      var normal := Normal(query);
      if normal == None {
        return Resolution(None, None, None, Missing);
      }
      var q := normal.value;
      var cached: Option<Binding> := None;
      match q {
        case ByHuid(huid) => cached := Find(repository.byHuid, huid);
        case ByEmail(email) => cached := Find(repository.byEmail, email);
        case _ =>
      }
      if cached.Some? {
        return Resolution(cached.value.huid, cached.value.email, Some(cached.value.host), Cache);
      }
      r := ProbeHosts(current, q);
    }
  }

  // ----- the cache refines the scan

  /** The directory speaks consistently: ids are trimmed, a user found on a host by
      any means is found there by id, and an id finds its own user. */
  ghost predicate IsCoherent(d: Directory) {
    forall h: string, q | (Some(h), q) in d ::
      && Strip(d[(Some(h), q)]) == d[(Some(h), q)]
      && (Some(h), ByHuid(d[(Some(h), q)])) in d
      && (q.ByHuid? ==> d[(Some(h), q)] == q.huid)
  }

  /** The query is answered on at most one registered host. */
  ghost predicate IsSingleHosted(d: Directory, registered: seq<string>, q: Query) {
    forall h, g | h in registered && g in registered && (Some(h), q) in d && (Some(g), q) in d :: h == g
  }

  predicate UsesCache(q: Query) {
    q.ByHuid? || q.ByEmail?
  }

  ghost predicate UsersAreSingleHosted(d: Directory, registered: seq<string>) {
    forall q | UsesCache(q) :: IsSingleHosted(d, registered, q)
  }

  ghost predicate IsTruthful(b: Binding, d: Directory, registered: seq<string>) {
    && b.huid.Some? && b.host in registered
    && (Some(b.host), ByHuid(b.huid.value)) in d
    && (b.email.Some? ==>
          (Some(b.host), ByEmail(b.email.value)) in d && d[(Some(b.host), ByEmail(b.email.value))] == b.huid.value)
  }

  /** Every stored binding tells where its user lives, under its own keys. */
  ghost predicate AllTruthful(s: Bindings, d: Directory, registered: seq<string>) {
    && (forall k | k in s.byHuid :: s.byHuid[k].huid == Some(k) && IsTruthful(s.byHuid[k], d, registered))
    && (forall e | e in s.byEmail :: s.byEmail[e].email == Some(e) && IsTruthful(s.byEmail[e], d, registered))
  }

  lemma MergedIsTruthful(
    s: Bindings, d: Directory, registered: seq<string>, huid: string, email: Option<string>, host: string)
    requires UsersAreSingleHosted(d, registered) && AllTruthful(s, d, registered)
    requires host in registered && (Some(host), ByHuid(huid)) in d
    requires email.Some? ==> (Some(host), ByEmail(email.value)) in d && d[(Some(host), ByEmail(email.value))] == huid
    ensures IsTruthful(Merged(s, Some(huid), email, host), d, registered)
  {
    assert IsSingleHosted(d, registered, ByHuid(huid));
    var known := Find(s.byHuid, huid);
    if known.Some? {
      assert IsTruthful(known.value, d, registered) && known.value.host == host;
    }
  }

  lemma StoringKeepsTruth(s: Bindings, d: Directory, registered: seq<string>, huid: Option<string>, email: Option<string>, host: string)
    requires AllTruthful(s, d, registered) && IsTruthful(Merged(s, huid, email, host), d, registered)
    ensures AllTruthful(Saved(s, huid, email, host), d, registered)
  {
    var merged := Merged(s, huid, email, host);
    var saved := Saved(s, huid, email, host);
    forall k | k in saved.byHuid ensures saved.byHuid[k].huid == Some(k) && IsTruthful(saved.byHuid[k], d, registered) {
      assert saved.byHuid[k] == merged || (k in s.byHuid && saved.byHuid[k] == s.byHuid[k]);
    }
    forall e | e in saved.byEmail ensures saved.byEmail[e].email == Some(e) && IsTruthful(saved.byEmail[e], d, registered) {
      assert saved.byEmail[e] == merged || (e in s.byEmail && saved.byEmail[e] == s.byEmail[e]);
    }
  }

  lemma SaveKeepsTruth(s: Bindings, d: Directory, registered: seq<string>, q: Query, host: string)
    requires IsCoherent(d) && UsersAreSingleHosted(d, registered) && AllTruthful(s, d, registered)
    requires host in registered && (Some(host), q) in d
    ensures AllTruthful(Saved(s, Some(d[(Some(host), q)]), EmailIn(q), host), d, registered)
    ensures Merged(s, Some(d[(Some(host), q)]), EmailIn(q), host).huid == Some(d[(Some(host), q)])
  {
    var huid := d[(Some(host), q)];
    MergedIsTruthful(s, d, registered, huid, EmailIn(q), host);
    StoringKeepsTruth(s, d, registered, Some(huid), EmailIn(q), host);
  }

  lemma TruthfulAnswerIsScan(s: Bindings, d: Directory, registered: seq<string>, current: Option<string>, q: Query)
    requires IsCoherent(d) && UsersAreSingleHosted(d, registered) && AllTruthful(s, d, registered)
    requires current.Some? ==> current.value in registered
    ensures Answer(s, d, Candidates(current, registered), q) == Scan(d, Candidates(current, registered), q)
    ensures AllTruthful(AfterResolve(s, d, Candidates(current, registered), q), d, registered)
  {
    var hosts := Candidates(current, registered);
    var (huid, host) := Scan(d, hosts, q);
    ScanFinds(d, hosts, q);
    CandidatesAreRegistered(current, registered, host);
    var cached := Cached(s, q);
    if cached.Some? {
      CandidatesAreRegistered(current, registered, Some(cached.value.host));
      assert UsesCache(q) && (Some(cached.value.host), q) in d;
    } else if host.Some? {
      SaveKeepsTruth(s, d, registered, q, host.value);
    }
  }

  /** A resolve: the host current at the time, and what is asked. */
  datatype Call = Call(current: Option<string>, query: Query)

  predicate CurrentIsRegistered(calls: seq<Call>, registered: seq<string>) {
    forall call | call in calls :: call.current.Some? ==> call.current.value in registered
  }

  function StateAfter(d: Directory, registered: seq<string>, calls: seq<Call>): Bindings {
    if calls == [] then Bindings(map[], map[])
    else
      var before := StateAfter(d, registered, calls[..|calls| - 1]);
      var call := calls[|calls| - 1];
      var normal := Normal(call.query);
      if normal == None then before
      else AfterResolve(before, d, Candidates(call.current, registered), normal.value)
  }

  lemma {:induction false} CacheStaysTruthful(d: Directory, registered: seq<string>, calls: seq<Call>)
    requires IsCoherent(d) && UsersAreSingleHosted(d, registered) && CurrentIsRegistered(calls, registered)
    ensures AllTruthful(StateAfter(d, registered, calls), d, registered)
    decreases |calls|
  {
    if calls != [] {
      var n := |calls| - 1;
      assert forall call | call in calls[..n] :: call in calls;
      CacheStaysTruthful(d, registered, calls[..n]);
      assert calls[n] in calls;
      if Normal(calls[n].query).Some? {
        TruthfulAnswerIsScan(StateAfter(d, registered, calls[..n]), d, registered, calls[n].current, Normal(calls[n].query).value);
      }
    }
  }

  /** The last of any sequence of resolves answers as an uncached scan would. */
  ghost predicate AnswersAsScan(d: Directory, registered: seq<string>, calls: seq<Call>, current: Option<string>, q: Query) {
    var hosts := Candidates(current, registered);
    Answer(StateAfter(d, registered, calls), d, hosts, q) == Scan(d, hosts, q)
  }

  lemma CacheRefinesScan(d: Directory, registered: seq<string>, calls: seq<Call>, current: Option<string>, q: Query)
    requires IsCoherent(d) && UsersAreSingleHosted(d, registered) && CurrentIsRegistered(calls, registered)
    requires current.Some? ==> current.value in registered
    ensures AnswersAsScan(d, registered, calls, current, q)
  {
    CacheStaysTruthful(d, registered, calls);
    TruthfulAnswerIsScan(StateAfter(d, registered, calls), d, registered, current, q);
  }

  lemma CurrentHostAnswers(d: Directory, registered: seq<string>, q: Query, h: string)
    requires h in registered && (Some(h), q) in d
    ensures Scan(d, Candidates(Some(h), registered), q) == (Some(d[(Some(h), q)]), Some(h))
  {
    CandidatesAreRegistered(Some(h), registered, Some(h));
  }

  lemma FirstResolveIsCached(d: Directory, registered: seq<string>, q: Query, h: string)
    requires IsCoherent(d) && UsesCache(q) && Normal(q) == Some(q)
    requires h in registered && (Some(h), q) in d
    ensures var cached := Cached(StateAfter(d, registered, [Call(Some(h), q)]), q);
      cached.Some? && cached.value.host == h
  {
    var calls := [Call(Some(h), q)];
    assert calls[..0] == [];
    assert StateAfter(d, registered, []) == Bindings(map[], map[]);
    CurrentHostAnswers(d, registered, q, h);
  }

  /** A user known on two registered hosts is answered differently from the cache
      and by a scan, as soon as the current host changes: the condition is needed. */
  lemma TwoHostsBreakTheCache(d: Directory, registered: seq<string>, q: Query, h: string, g: string)
    requires IsCoherent(d) && UsesCache(q) && Normal(q) == Some(q)
    requires h in registered && g in registered && h != g && (Some(h), q) in d && (Some(g), q) in d
    ensures !AnswersAsScan(d, registered, [Call(Some(h), q)], Some(g), q)
  {
    FirstResolveIsCached(d, registered, q, h);
    CurrentHostAnswers(d, registered, q, g);
  }

  ghost predicate AlwaysAnswersAsScan(d: Directory, registered: seq<string>) {
    forall calls, current: Option<string>, q
      | CurrentIsRegistered(calls, registered) && (current.Some? ==> current.value in registered) ::
      AnswersAsScan(d, registered, calls, current, q)
  }

  /** Over a coherent directory the cache answers as a scan for every history
      exactly when each huid and each email is known on one registered host. */
  lemma CacheRefinesScanExactly(d: Directory, registered: seq<string>)
    requires IsCoherent(d)
    requires forall h: string, q | (Some(h), q) in d && UsesCache(q) :: Normal(q) == Some(q)
    ensures UsersAreSingleHosted(d, registered) <==> AlwaysAnswersAsScan(d, registered)
  {
    if UsersAreSingleHosted(d, registered) {
      forall calls, current: Option<string>, q
        | CurrentIsRegistered(calls, registered) && (current.Some? ==> current.value in registered)
        ensures AnswersAsScan(d, registered, calls, current, q)
      {
        CacheRefinesScan(d, registered, calls, current, q);
      }
    } else {
      SharedUserBreaksTheCache(d, registered);
    }
  }

  lemma OneWrongAnswerIsEnough(d: Directory, registered: seq<string>, calls: seq<Call>, current: Option<string>, q: Query)
    requires CurrentIsRegistered(calls, registered) && (current.Some? ==> current.value in registered)
    requires !AnswersAsScan(d, registered, calls, current, q)
    ensures !AlwaysAnswersAsScan(d, registered)
  {
  }

  lemma SharedUserBreaksTheCache(d: Directory, registered: seq<string>)
    requires IsCoherent(d) && !UsersAreSingleHosted(d, registered)
    requires forall h: string, q | (Some(h), q) in d && UsesCache(q) :: Normal(q) == Some(q)
    ensures !AlwaysAnswersAsScan(d, registered)
  {
    var q :| UsesCache(q) && !IsSingleHosted(d, registered, q);
    var h, g :| h in registered && g in registered && (Some(h), q) in d && (Some(g), q) in d && h != g;
    assert Normal(q) == Some(q);
    BreakAlways(d, registered, q, h, g);
  }

  lemma BreakAlways(d: Directory, registered: seq<string>, q: Query, h: string, g: string)
    requires IsCoherent(d) && UsesCache(q) && Normal(q) == Some(q)
    requires h in registered && g in registered && h != g && (Some(h), q) in d && (Some(g), q) in d
    ensures !AlwaysAnswersAsScan(d, registered)
  {
    TwoHostsBreakTheCache(d, registered, q, h, g);
    OneWrongAnswerIsEnough(d, registered, [Call(Some(h), q)], Some(g), q);
  }
}
