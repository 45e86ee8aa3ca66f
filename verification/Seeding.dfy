/** Which participants a new chat is created with, and how the rest is spread
    over the routes. */
module Seeding {
  import opened Common
  import opened Sequences
  import opened Text
  import opened ChatAccess
  import opened MemberAccess

  /** The participant may be named when the chat is created on the anchor. */
  predicate Eligible(t: Target, anchor: Option<string>) {
    anchor == None || t.host == None || t.host == anchor
  }

  predicate SomeEligible(targets: seq<Target>, anchor: Option<string>, huid: string) {
    exists t | t in targets :: t.huid == huid && Eligible(t, anchor)
  }

  /** The seed list: the initiator, then with direct add the eligible
      participants, or the first participant when that leaves nobody. */
  ghost predicate SeedContract(
    targets: seq<Target>, initiator: Option<string>, directAdd: bool, anchor: Option<string>, seeds: seq<string>)
  {
    && NoDup(seeds)
    && (initiator.Some? ==> |seeds| > 0 && seeds[0] == initiator.value)
    && (!directAdd ==> seeds == if initiator.Some? then [initiator.value] else [])
    && (directAdd && (initiator.Some? || exists h :: SomeEligible(targets, anchor, h)) ==>
          forall h :: h in seeds <==> initiator == Some(h) || SomeEligible(targets, anchor, h))
    && (directAdd && !(initiator.Some? || exists h :: SomeEligible(targets, anchor, h)) ==>
          seeds == if targets == [] then [] else [targets[0].huid])
  }

  /** `_seed_participant_huids`, with the anchor already resolved. */
  method SeedParticipants(targets: seq<Target>, rawInitiator: Option<string>, directAdd: bool, anchor: Option<string>)
    returns (seeds: seq<string>)
    ensures SeedContract(targets, NormalInitiator(rawInitiator), directAdd, anchor, seeds)
  {
    var initiator := NormalInitiator(rawInitiator);
    seeds := [];
    var seen: set<string> := {};
    if initiator.Some? {
      seeds := [initiator.value];
      seen := {initiator.value};
    }
    if !directAdd {
      return;
    }
    for i := 0 to |targets|
      invariant NoDup(seeds) && forall h :: h in seen <==> h in seeds
      invariant initiator.Some? ==> |seeds| > 0 && seeds[0] == initiator.value
      invariant forall h :: h in seeds <==> initiator == Some(h) || SomeEligible(targets[..i], anchor, h)
    {
      var t := targets[i];
      assert targets[..i + 1] == targets[..i] + [t];
      ghost var before := seeds;
      if t.huid !in seen && Eligible(t, anchor) {
        NoDupAppend(seeds, t.huid);
        seeds := seeds + [t.huid];
        seen := seen + {t.huid};
      }
      forall h ensures h in seeds <==> initiator == Some(h) || SomeEligible(targets[..i + 1], anchor, h) {
        assert SomeEligible(targets[..i + 1], anchor, h) <==> SomeEligible(targets[..i], anchor, h) || (t.huid == h && Eligible(t, anchor));
      }
    }
    assert targets[..|targets|] == targets;
    if seeds != [] {
      assert seeds[0] in seeds;
    } else if targets != [] {
      assert forall h :: !SomeEligible(targets, anchor, h);
      seeds := [targets[0].huid];
    }
  }

  lemma {:induction false} OfRouteIsSubsequence(targets: seq<Target>, route: Option<string>, anchor: Option<string>)
    ensures IsSubsequence(OfRoute(targets, route, anchor), targets)
  {
    if targets != [] {
      var init := targets[..|targets| - 1];
      var last := targets[|targets| - 1];
      assert targets == init + [last];
      OfRouteIsSubsequence(init, route, anchor);
      if RouteOf(last, anchor) == route {
        SubsequenceTake(OfRoute(init, route, anchor), init, last);
      } else {
        SubsequenceSkip(OfRoute(init, route, anchor), init, last);
      }
    }
  }

  lemma {:induction false} OfRouteMembers(targets: seq<Target>, route: Option<string>, anchor: Option<string>, t: Target)
    ensures t in OfRoute(targets, route, anchor) <==> t in targets && RouteOf(t, anchor) == route
  {
    if targets != [] {
      OfRouteMembers(targets[..|targets| - 1], route, anchor, t);
      assert targets == targets[..|targets| - 1] + [targets[|targets| - 1]];
    }
  }

  /** A group holds targets of its own route, in the original order. */
  lemma OfRouteBelongs(targets: seq<Target>, route: Option<string>, anchor: Option<string>)
    ensures forall t | t in OfRoute(targets, route, anchor) :: t in targets && RouteOf(t, anchor) == route
    ensures IsSubsequence(OfRoute(targets, route, anchor), targets)
  {
    OfRouteIsSubsequence(targets, route, anchor);
    forall t | t in OfRoute(targets, route, anchor) ensures t in targets && RouteOf(t, anchor) == route {
      OfRouteMembers(targets, route, anchor, t);
    }
  }

  ghost predicate AllTrimmed(targets: seq<Target>) {
    forall t | t in targets :: t.huid != "" && IsTrimmed(t.huid)
  }

  /** Every participant but the initiator is named at creation or is in exactly
      one route group, never both and never lost. A group holds the targets of its
      own route only, in the original order. */
  lemma SeedingIsPartition(
      targets: seq<Target>, rawInitiator: Option<string>, directAdd: bool, anchor: Option<string>,
      seeds: seq<string>, groups: Groups<Option<string>, Target>, huid: string)
    requires AllTrimmed(targets)
    requires SeedContract(targets, NormalInitiator(rawInitiator), directAdd, anchor, seeds)
    requires PartitionContract(
      Deduplicated(targets, Excluded(NormalInitiator(rawInitiator), set s | s in seeds)), anchor, groups)
    ensures DistinctHuids(Flatten(groups))
    ensures huid in Huids(targets) && NormalInitiator(rawInitiator) != Some(huid) ==>
      (huid in seeds <==> huid !in Huids(Flatten(groups)))
    ensures huid in Huids(Flatten(groups)) ==> huid in Huids(targets) && NormalInitiator(rawInitiator) != Some(huid)
    ensures forall route :: forall t | t in Lookup(groups, route) :: RouteOf(t, anchor) == route
    ensures forall route ::
      IsSubsequence(
        Lookup(groups, route), Deduplicated(targets, Excluded(NormalInitiator(rawInitiator), set s | s in seeds)))
  {
    var excluded := Excluded(NormalInitiator(rawInitiator), set s | s in seeds);
    var filtered := Deduplicated(targets, excluded);
    DeduplicatedIsFiltered(targets, excluded);
    DistinctPermuted(filtered, Flatten(groups));
    DeduplicatedMembers(targets, excluded, huid);
    SameMembers(filtered, Flatten(groups), huid);
    forall t | t in targets ensures Strip(t.huid) == t.huid && t.huid != "" {
      TrimmedIsFixed(t.huid);
    }
    if huid in Huids(targets) {
      var i :| 0 <= i < |targets| && Huids(targets)[i] == huid;
      assert targets[i] in targets;
    }
    forall t | t in targets ensures t.huid in Huids(targets) {
      HuidsIn(targets, t);
    }
    forall route: Option<string> {
      OfRouteBelongs(filtered, route, anchor);
    }
  }

  lemma SameMembers(ts: seq<Target>, us: seq<Target>, huid: string)
    requires multiset(us) == multiset(ts)
    ensures huid in Huids(us) <==> exists t :: t in ts && t.huid == huid
  {
    if huid in Huids(us) {
      var i :| 0 <= i < |us| && Huids(us)[i] == huid;
      assert us[i] in multiset(ts);
    }
    if t :| t in ts && t.huid == huid {
      assert t in multiset(us);
      HuidsIn(us, t);
    }
  }
}
