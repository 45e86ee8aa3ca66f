/** `_load_config_manifest`: which chat configurations an operator's request
    selects, and the manifest built from them. */
module ManifestSelection {
  import opened Common
  import opened Sequences
  import Sorting
  import opened Text

  /** The configuration fields the selection depends on. */
  datatype Config = Config(
    chat: string,
    chatType: string,
    owner: string,
    backend: string,
    targetStrategy: string,
    targetTitle: Option<string>,
    targetChat: Option<string>,
    topicStrategy: string,
    telegramChat: Option<string>,
    topicId: Option<string>,
    threadId: Option<string>,
    threadTitle: Option<string>,
    skipInAll: bool)

  datatype Dialog = Dialog(
    chat: string,
    chatType: string,
    initiator: string,
    backend: string,
    targetStrategy: string,
    targetTitle: Option<string>,
    targetChat: Option<string>,
    topicStrategy: string,
    telegramChat: Option<string>,
    topicId: Option<string>,
    threadId: Option<string>)

  datatype Refusal =
    | NotConfigured(missing: seq<string>)
    | ManagedByAnother(chat: string)
    | NothingConfigured
    | OnlyForeignConfigured
    | UnsupportedBackend
    | InvalidDialog
    | DuplicateDialogs

  datatype Manifest = Selected(dialogs: seq<Dialog>) | Refused(reason: Refusal)

  predicate IsPresent(s: Option<string>) {
    s.Some? && s.value != ""
  }

  /** `telegram_chat_id or source_chat_id` */
  function PhysicalChat(c: Config): string {
    if IsPresent(c.telegramChat) then c.telegramChat.value else c.chat
  }

  predicate IsSplitRoot(c: Config) {
    c.topicStrategy == "split_by_topic" && c.threadId == None
  }

  predicate IsOwned(c: Config, operator: Option<string>) {
    operator == None || operator == Some(c.owner)
  }

  /** `_manifest_dialog_from_config` */
  function DialogOf(c: Config): Dialog {
    var thread := if c.topicStrategy == "split_by_topic" && IsPresent(c.topicId) then c.topicId else c.threadId;
    Dialog(c.chat, c.chatType, c.owner, c.backend, c.targetStrategy, c.targetTitle, c.targetChat, c.topicStrategy,
           c.telegramChat, c.topicId, thread)
  }

  predicate IsSupportedBackend(backend: string) {
    var normalized := Strip(if backend == "" then "telethon_user_session" else backend);
    normalized == "telethon_user_session" || normalized == "telegram_export_archive"
  }

  /** The validators of `ManifestDialog`: the literals, then `validate_target`. */
  predicate IsValidDialog(d: Dialog) {
    && (d.chatType == "private" || d.chatType == "group" || d.chatType == "supergroup" || d.chatType == "channel")
    && (d.backend == "telethon_user_session" || d.backend == "telegram_bot_api_live" || d.backend == "telegram_export_archive")
    && (d.targetStrategy == "create" ==> IsPresent(d.targetTitle))
    && (d.targetStrategy == "bind" ==> IsPresent(d.targetChat))
    && (d.threadId.Some? ==> IsPresent(d.telegramChat))
  }

  // ----- ordering by title

  /** Python's order of strings: by code points, a prefix first. */
  predicate AtMost(a: string, b: string) {
    a == "" || (b != "" && (a[0] < b[0] || (a[0] == b[0] && AtMost(a[1..], b[1..]))))
  }

  lemma {:induction false} AtMostIsTotal(a: string, b: string)
    ensures AtMost(a, b) || AtMost(b, a)
  {
    if a != "" && b != "" {
      AtMostIsTotal(a[1..], b[1..]);
    }
  }

  lemma {:induction false} AtMostIsTransitive(a: string, b: string, c: string)
    requires AtMost(a, b) && AtMost(b, c)
    ensures AtMost(a, c)
  {
    if a != "" && b != "" && c != "" && a[0] == b[0] == c[0] {
      AtMostIsTransitive(a[1..], b[1..], c[1..]);
    }
  }

  /** `source_thread_title or source_chat_id` */
  function TitleKey(c: Config): string {
    if IsPresent(c.threadTitle) then c.threadTitle.value else c.chat
  }

  predicate ByTitle(c: Config, d: Config) {
    AtMost(TitleKey(c), TitleKey(d))
  }

  function SortedByTitle(s: seq<Config>): seq<Config> {
    Sorting.Sorted(ByTitle, s)
  }

  lemma ByTitleIsOrder()
    ensures Sorting.IsOrder(ByTitle)
  {
    forall c, d ensures ByTitle(c, d) || ByTitle(d, c) {
      AtMostIsTotal(TitleKey(c), TitleKey(d));
    }
    forall c, d, e | ByTitle(c, d) && ByTitle(d, e) ensures ByTitle(c, e) {
      AtMostIsTransitive(TitleKey(c), TitleKey(d), TitleKey(e));
    }
  }

  /** The topics of a chat come in the order of their titles, none lost. */
  lemma TopicsAreSortedByTitle(configs: seq<Config>, chat: string)
    ensures Sorting.IsSorted(ByTitle, TopicChildren(configs, chat))
    ensures multiset(TopicChildren(configs, chat)) == multiset(Topics(OfPhysicalChat(configs, chat)))
  {
    ByTitleIsOrder();
    Sorting.SortedIsOrdered(ByTitle, Topics(OfPhysicalChat(configs, chat)));
    Sorting.SortedIsPermutation(ByTitle, Topics(OfPhysicalChat(configs, chat)));
  }

  // ----- what a request selects

  function OwnedOnly(configs: seq<Config>, operator: Option<string>): seq<Config> {
    if configs == [] then []
    else
      var last := configs[|configs| - 1];
      var before := OwnedOnly(configs[..|configs| - 1], operator);
      if IsOwned(last, operator) then before + [last] else before
  }

  function OfPhysicalChat(configs: seq<Config>, chat: string): seq<Config> {
    if configs == [] then []
    else
      var last := configs[|configs| - 1];
      var before := OfPhysicalChat(configs[..|configs| - 1], chat);
      if PhysicalChat(last) == chat then before + [last] else before
  }

  function Topics(configs: seq<Config>): seq<Config> {
    if configs == [] then []
    else
      var last := configs[|configs| - 1];
      var before := Topics(configs[..|configs| - 1]);
      if last.threadId.Some? then before + [last] else before
  }

  /** Selected by a request without ids. */
  function Selectable(owned: seq<Config>, includeSkipped: bool): seq<Config> {
    if owned == [] then []
    else
      var last := owned[|owned| - 1];
      var before := Selectable(owned[..|owned| - 1], includeSkipped);
      if !IsSplitRoot(last) && (includeSkipped || !last.skipInAll) then before + [last] else before
  }

  function ById(configs: seq<Config>, chat: string): Option<Config> {
    if configs == [] then None
    else if configs[|configs| - 1].chat == chat then Some(configs[|configs| - 1])
    else ById(configs[..|configs| - 1], chat)
  }

  function TopicChildren(configs: seq<Config>, chat: string): seq<Config> {
    SortedByTitle(Topics(OfPhysicalChat(configs, chat)))
  }

  /** The owned configurations a requested id stands for: itself, or its topics. */
  function Representatives(owned: seq<Config>, id: string): seq<Config> {
    var own := ById(owned, id);
    if own.Some? && !IsSplitRoot(own.value) then [own.value] else TopicChildren(owned, id)
  }

  function Chosen(owned: seq<Config>, ids: seq<string>): seq<Config> {
    if ids == [] then [] else Chosen(owned, ids[..|ids| - 1]) + Representatives(owned, ids[|ids| - 1])
  }

  function Unrepresented(owned: seq<Config>, ids: seq<string>): seq<string> {
    if ids == [] then []
    else
      var id := ids[|ids| - 1];
      var before := Unrepresented(owned, ids[..|ids| - 1]);
      if Representatives(owned, id) == [] then before + [id] else before
  }

  /** The id is configured, but only by other operators. */
  predicate IsForeign(configs: seq<Config>, owned: seq<Config>, id: string) {
    && ById(owned, id) == None
    && (ById(configs, id).Some? || (TopicChildren(owned, id) == [] && TopicChildren(configs, id) != []))
  }

  function Selection(owned: seq<Config>, ids: Option<seq<string>>, includeSkipped: bool): seq<Config> {
    match ids
    case None => Selectable(owned, includeSkipped)
    case Some(list) => Chosen(owned, list)
  }

  function Dialogs(selected: seq<Config>): seq<Dialog> {
    seq(|selected|, i requires 0 <= i < |selected| => DialogOf(selected[i]))
  }

  function ChatIds(selected: seq<Config>): seq<string> {
    seq(|selected|, i requires 0 <= i < |selected| => selected[i].chat)
  }

  /** One configuration a chat, as the repository keys them. */
  predicate OnePerChat(configs: seq<Config>) {
    forall i, j | 0 <= i < j < |configs| :: configs[i].chat != configs[j].chat
  }

  predicate IdsAreAnswered(configs: seq<Config>, owned: seq<Config>, ids: Option<seq<string>>, requireConfigured: bool) {
    ids.Some? ==>
      && (forall id | id in ids.value :: !IsForeign(configs, owned, id))
      && (requireConfigured ==> Unrepresented(owned, ids.value) == [])
  }

  predicate FormsManifest(selected: seq<Config>) {
    && selected != []
    && (forall c | c in selected :: IsSupportedBackend(c.backend) && IsValidDialog(DialogOf(c)))
    && NoDup(ChatIds(selected))
  }

  // ----- the code

  /** `dict[str, list]` of records by physical chat. */
  method GroupByPhysicalChat(configs: seq<Config>) returns (groups: map<string, seq<Config>>)
    ensures forall id :: Group(groups, id) == OfPhysicalChat(configs, id)
  {
    groups := map[];
    for i := 0 to |configs|
      invariant forall id :: Group(groups, id) == OfPhysicalChat(configs[..i], id)
    {
      assert configs[..i + 1][..i] == configs[..i];
      var chat := PhysicalChat(configs[i]);
      groups := groups[chat := Group(groups, chat) + [configs[i]]];
    }
    assert configs[..|configs|] == configs;
  }

  /** `groups.get(id, [])` */
  function Group(groups: map<string, seq<Config>>, id: string): seq<Config> {
    if id in groups then groups[id] else []
  }

  method OwnedConfigs(configs: seq<Config>, operator: Option<string>) returns (owned: seq<Config>)
    ensures owned == OwnedOnly(configs, operator)
  {
    owned := [];
    for i := 0 to |configs|
      invariant owned == OwnedOnly(configs[..i], operator)
    {
      assert configs[..i + 1][..i] == configs[..i];
      if IsOwned(configs[i], operator) {
        owned := owned + [configs[i]];
      }
    }
    assert configs[..|configs|] == configs;
  }

  method ConfigsByChat(configs: seq<Config>) returns (byChat: map<string, Config>)
    ensures forall id :: Find(byChat, id) == ById(configs, id)
  {
    byChat := map[];
    for i := 0 to |configs|
      invariant forall id :: Find(byChat, id) == ById(configs[..i], id)
    {
      assert configs[..i + 1][..i] == configs[..i];
      byChat := byChat[configs[i].chat := configs[i]];
    }
    assert configs[..|configs|] == configs;
  }

  /** `_topic_child_configs_for_records` */
  method ChildConfigs(records: seq<Config>) returns (children: seq<Config>)
    ensures children == SortedByTitle(Topics(records))
  {
    children := [];
    for i := 0 to |records|
      invariant children == Topics(records[..i])
    {
      assert records[..i + 1][..i] == records[..i];
      if records[i].threadId.Some? {
        children := children + [records[i]];
      }
    }
    assert records[..|records|] == records;
    children := SortedByTitle(children);
  }

  method SelectAll(owned: seq<Config>, includeSkipped: bool) returns (selected: seq<Config>)
    ensures selected == Selectable(owned, includeSkipped)
  {
    selected := [];
    for i := 0 to |owned|
      invariant selected == Selectable(owned[..i], includeSkipped)
    {
      assert owned[..i + 1][..i] == owned[..i];
      if !IsSplitRoot(owned[i]) && (includeSkipped || !owned[i].skipInAll) {
        selected := selected + [owned[i]];
      }
    }
    assert owned[..|owned|] == owned;
  }

  datatype Lookups = Lookups(
    all: map<string, Config>,
    owned: map<string, Config>,
    groups: map<string, seq<Config>>,
    ownedGroups: map<string, seq<Config>>)

  ghost predicate AreLookups(l: Lookups, configs: seq<Config>, owned: seq<Config>) {
    && (forall id :: Find(l.all, id) == ById(configs, id))
    && (forall id :: Find(l.owned, id) == ById(owned, id))
    && (forall id :: Group(l.groups, id) == OfPhysicalChat(configs, id))
    && (forall id :: Group(l.ownedGroups, id) == OfPhysicalChat(owned, id))
  }

  /** The branches for one requested id; nothing selected means it is missing. */
  method SelectOne(configs: seq<Config>, operator: Option<string>, ghost owned: seq<Config>, l: Lookups, id: string)
    returns (selected: seq<Config>, foreign: bool)
    requires owned == OwnedOnly(configs, operator) && AreLookups(l, configs, owned)
    ensures foreign <==> IsForeign(configs, owned, id)
    ensures !foreign ==> selected == Representatives(owned, id)
  {
    foreign := false;
    assert Find(l.owned, id) == ById(owned, id) && Find(l.all, id) == ById(configs, id);
    assert Group(l.groups, id) == OfPhysicalChat(configs, id) && Group(l.ownedGroups, id) == OfPhysicalChat(owned, id);
    if id in l.owned {
      if IsSplitRoot(l.owned[id]) {
        selected := ChildConfigs(Group(l.ownedGroups, id));
      } else {
        selected := [l.owned[id]];
      }
      return;
    }
    if id in l.all {
      foreign := !IsOwned(l.all[id], operator);
      UnownedIsForeign(configs, operator, id);
      if foreign {
        return [], true;
      }
    }
    selected := ChildConfigs(Group(l.ownedGroups, id));
    if selected == [] {
      var foreignTopics := ChildConfigs(Group(l.groups, id));
      if foreignTopics != [] {
        UnownedTopics(configs, operator, id);
        foreign := !IsOwned(foreignTopics[0], operator);
      }
    }
  }

  method SelectByIds(configs: seq<Config>, operator: Option<string>, owned: seq<Config>, ids: seq<string>)
    returns (selected: seq<Config>, missing: seq<string>, foreign: Option<string>)
    requires owned == OwnedOnly(configs, operator)
    ensures foreign.Some? ==> foreign.value in ids && IsForeign(configs, owned, foreign.value)
    ensures foreign == None ==> forall id | id in ids :: !IsForeign(configs, owned, id)
    ensures foreign == None ==> selected == Chosen(owned, ids) && missing == Unrepresented(owned, ids)
  {
    var all := ConfigsByChat(configs);
    var ownedByChat := ConfigsByChat(owned);
    var groups := GroupByPhysicalChat(configs);
    var ownedGroups := GroupByPhysicalChat(owned);
    var l := Lookups(all, ownedByChat, groups, ownedGroups);
    selected, missing, foreign := [], [], None;
    for i := 0 to |ids|
      invariant forall id | id in ids[..i] :: !IsForeign(configs, owned, id)
      invariant foreign == None && selected == Chosen(owned, ids[..i]) && missing == Unrepresented(owned, ids[..i])
    {
      assert ids[..i + 1][..i] == ids[..i];
      var one, isForeign := SelectOne(configs, operator, owned, l, ids[i]);
      if isForeign {
        foreign := Some(ids[i]);
        return;
      }
      if one == [] {
        missing := missing + [ids[i]];
      }
      selected := selected + one;
    }
    assert ids[..|ids|] == ids;
  }

  method BackendsAreSupported(selected: seq<Config>) returns (ok: bool)
    ensures ok <==> forall c | c in selected :: IsSupportedBackend(c.backend)
  {
    for i := 0 to |selected|
      invariant forall c | c in selected[..i] :: IsSupportedBackend(c.backend)
    {
      if !IsSupportedBackend(selected[i].backend) {
        return false;
      }
    }
    ok := true;
  }

  method BuildDialogs(selected: seq<Config>) returns (ok: bool, dialogs: seq<Dialog>)
    ensures ok <==> forall c | c in selected :: IsValidDialog(DialogOf(c))
    ensures ok ==> dialogs == Dialogs(selected)
  {
    dialogs := [];
    for i := 0 to |selected|
      invariant |dialogs| == i && forall j | 0 <= j < i :: dialogs[j] == DialogOf(selected[j])
      invariant forall j | 0 <= j < i :: IsValidDialog(DialogOf(selected[j]))
    {
      var dialog := DialogOf(selected[i]);
      if !IsValidDialog(dialog) {
        return false, dialogs;
      }
      dialogs := dialogs + [dialog];
    }
    ok := true;
  }

  /** The backend check, the dialogs and the manifest's own validation. */
  method BuildManifest(selected: seq<Config>) returns (r: Manifest)
    requires selected != []
    ensures r.Selected? <==> FormsManifest(selected)
    ensures r.Selected? ==> r.dialogs == Dialogs(selected)
    ensures r == Refused(UnsupportedBackend) <==> exists c | c in selected :: !IsSupportedBackend(c.backend)
    ensures r.Selected? || r == Refused(UnsupportedBackend) || r == Refused(InvalidDialog) || r == Refused(DuplicateDialogs)
  {
    var supported := BackendsAreSupported(selected);
    if !supported {
      return Refused(UnsupportedBackend);
    }
    var valid, dialogs := BuildDialogs(selected);
    if !valid {
      return Refused(InvalidDialog);
    }
    var ids := seq(|dialogs|, i requires 0 <= i < |dialogs| => dialogs[i].chat);
    assert ids == ChatIds(selected);
    r := if NoDup(ids) then Selected(dialogs) else Refused(DuplicateDialogs);
  }

  /** `_load_config_manifest` over the configurations of the migration. */
  method LoadConfigManifest(
    configs: seq<Config>, operator: Option<string>, ids: Option<seq<string>>, requireConfigured: bool, includeSkipped: bool)
    returns (r: Manifest)
    requires OnePerChat(configs)
    ensures var owned := OwnedOnly(configs, operator);
      && (r.Selected? <==>
            && IdsAreAnswered(configs, owned, ids, requireConfigured)
            && FormsManifest(Selection(owned, ids, includeSkipped)))
      && (r.Selected? ==> r.dialogs == Dialogs(Selection(owned, ids, includeSkipped)))
      && (r.Refused? && r.reason.NotConfigured? ==>
            ids.Some? && requireConfigured && r.reason.missing == Unrepresented(owned, ids.value) != [])
      && (r.Refused? && r.reason.ManagedByAnother? ==>
            ids.Some? && r.reason.chat in ids.value && IsForeign(configs, owned, r.reason.chat))
      && (r == Refused(OnlyForeignConfigured) ==> operator.Some? && configs != [] && owned == [])
  {
    var owned := OwnedConfigs(configs, operator);
    var selected: seq<Config>;
    if ids == None {
      selected := SelectAll(owned, includeSkipped);
    } else {
      var missing, foreign;
      selected, missing, foreign := SelectByIds(configs, operator, owned, ids.value);
      if foreign.Some? {
        return Refused(ManagedByAnother(foreign.value));
      }
      if missing != [] && requireConfigured {
        return Refused(NotConfigured(missing));
      }
    }
    if selected == [] {
      return Refused(if operator.Some? && configs != [] && owned == [] then OnlyForeignConfigured else NothingConfigured);
    }
    r := BuildManifest(selected);
  }

  // ----- facts about the selecting functions

  lemma {:induction false} OwnedMembers(configs: seq<Config>, operator: Option<string>, c: Config)
    ensures c in OwnedOnly(configs, operator) <==> c in configs && IsOwned(c, operator)
  {
    if configs != [] {
      OwnedMembers(configs[..|configs| - 1], operator, c);
      assert configs == configs[..|configs| - 1] + [configs[|configs| - 1]];
    }
  }

  lemma {:induction false} PhysicalChatMembers(configs: seq<Config>, chat: string, c: Config)
    ensures c in OfPhysicalChat(configs, chat) <==> c in configs && PhysicalChat(c) == chat
  {
    if configs != [] {
      PhysicalChatMembers(configs[..|configs| - 1], chat, c);
      assert configs == configs[..|configs| - 1] + [configs[|configs| - 1]];
    }
  }

  lemma {:induction false} TopicMembers(configs: seq<Config>, c: Config)
    ensures c in Topics(configs) <==> c in configs && c.threadId.Some?
  {
    if configs != [] {
      TopicMembers(configs[..|configs| - 1], c);
      assert configs == configs[..|configs| - 1] + [configs[|configs| - 1]];
    }
  }

  lemma ChildMembers(configs: seq<Config>, chat: string, c: Config)
    ensures c in TopicChildren(configs, chat) <==> c in configs && PhysicalChat(c) == chat && c.threadId.Some?
  {
    PhysicalChatMembers(configs, chat, c);
    TopicMembers(OfPhysicalChat(configs, chat), c);
    Sorting.SortedKeepsMembers(ByTitle, Topics(OfPhysicalChat(configs, chat)), c);
  }

  lemma {:induction false} ByIdFinds(configs: seq<Config>, chat: string)
    ensures ById(configs, chat).Some? ==> ById(configs, chat).value in configs && ById(configs, chat).value.chat == chat
    ensures ById(configs, chat) == None ==> forall c | c in configs :: c.chat != chat
  {
    if configs != [] && configs[|configs| - 1].chat != chat {
      ByIdFinds(configs[..|configs| - 1], chat);
      assert configs == configs[..|configs| - 1] + [configs[|configs| - 1]];
    }
  }

  lemma UnownedIsForeign(configs: seq<Config>, operator: Option<string>, id: string)
    requires ById(OwnedOnly(configs, operator), id) == None && ById(configs, id).Some?
    ensures !IsOwned(ById(configs, id).value, operator)
  {
    ByIdFinds(configs, id);
    ByIdFinds(OwnedOnly(configs, operator), id);
    OwnedMembers(configs, operator, ById(configs, id).value);
  }

  lemma UnownedTopics(configs: seq<Config>, operator: Option<string>, id: string)
    requires TopicChildren(OwnedOnly(configs, operator), id) == [] && TopicChildren(configs, id) != []
    ensures !IsOwned(TopicChildren(configs, id)[0], operator)
  {
    var first := TopicChildren(configs, id)[0];
    ChildMembers(configs, id, first);
    ChildMembers(OwnedOnly(configs, operator), id, first);
    OwnedMembers(configs, operator, first);
  }

  // ----- the selection is exact

  /** `c` is what `id` asks for: the configuration of that id unless it is the
      root of split topics, or else a topic of that chat. */
  predicate Answers(owned: seq<Config>, c: Config, id: string) {
    && c in owned
    && if exists d | d in owned :: d.chat == id && !IsSplitRoot(d) then c.chat == id
       else PhysicalChat(c) == id && c.threadId.Some?
  }

  lemma RepresentativesAnswer(owned: seq<Config>, id: string, c: Config)
    requires OnePerChat(owned)
    ensures c in Representatives(owned, id) <==> Answers(owned, c, id)
  {
    ByIdFinds(owned, id);
    ChildMembers(owned, id, c);
    if ById(owned, id).Some? {
      var own := ById(owned, id).value;
      assert forall d | d in owned && d.chat == id :: d == own;
    }
  }

  ghost predicate AnswersSome(owned: seq<Config>, c: Config, ids: seq<string>) {
    exists id :: id in ids && Answers(owned, c, id)
  }

  lemma AnswersSomeMore(owned: seq<Config>, c: Config, ids: seq<string>, last: string)
    ensures AnswersSome(owned, c, ids + [last]) <==> AnswersSome(owned, c, ids) || Answers(owned, c, last)
  {
    assert forall id :: id in ids + [last] <==> id in ids || id == last;
  }

  lemma ChosenMore(owned: seq<Config>, ids: seq<string>, j: nat)
    requires j < |ids|
    ensures Chosen(owned, ids[..j + 1]) == Chosen(owned, ids[..j]) + Representatives(owned, ids[j])
  {
    assert ids[..j + 1][..j] == ids[..j];
  }

  lemma {:induction false} ChosenAnswers(owned: seq<Config>, ids: seq<string>, c: Config)
    requires OnePerChat(owned)
    ensures c in Chosen(owned, ids) <==> AnswersSome(owned, c, ids)
  {
    if ids != [] {
      var before := ids[..|ids| - 1];
      var last := ids[|ids| - 1];
      assert ids == before + [last] && ids[..|before| + 1] == ids;
      ChosenAnswers(owned, before, c);
      assert c in Chosen(owned, ids) <==> c in Chosen(owned, before) || c in Representatives(owned, last) by {
        ChosenMore(owned, ids, |before|);
      }
      RepresentativesAnswer(owned, last, c);
      AnswersSomeMore(owned, c, before, last);
    }
  }

  lemma {:induction false} SelectableMembers(owned: seq<Config>, includeSkipped: bool, c: Config)
    ensures c in Selectable(owned, includeSkipped) <==> c in owned && !IsSplitRoot(c) && (includeSkipped || !c.skipInAll)
  {
    if owned != [] {
      SelectableMembers(owned[..|owned| - 1], includeSkipped, c);
      assert owned == owned[..|owned| - 1] + [owned[|owned| - 1]];
    }
  }

  lemma {:induction false} OwnedOnePerChat(configs: seq<Config>, operator: Option<string>)
    requires OnePerChat(configs)
    ensures OnePerChat(OwnedOnly(configs, operator))
  {
    if configs != [] {
      var before := configs[..|configs| - 1];
      OwnedOnePerChat(before, operator);
      forall c | c in OwnedOnly(before, operator) ensures c.chat != configs[|configs| - 1].chat {
        OwnedMembers(before, operator, c);
      }
    }
  }

  /** What the selection holds: only configurations the operator owns, none of
      them a split root; without ids exactly the owned ones not left out, with
      ids exactly those that answer a requested id. */
  lemma SelectionIsExact(configs: seq<Config>, operator: Option<string>, ids: Option<seq<string>>, includeSkipped: bool, c: Config)
    requires OnePerChat(configs)
    ensures var owned := OwnedOnly(configs, operator);
      && (c in Selection(owned, ids, includeSkipped) ==> c in configs && IsOwned(c, operator) && !IsSplitRoot(c))
      && (ids == None ==>
            (c in Selection(owned, ids, includeSkipped) <==>
              c in configs && IsOwned(c, operator) && !IsSplitRoot(c) && (includeSkipped || !c.skipInAll)))
      && (ids.Some? ==>
            (c in Selection(owned, ids, includeSkipped) <==> AnswersSome(owned, c, ids.value)))
  {
    var owned := OwnedOnly(configs, operator);
    OwnedMembers(configs, operator, c);
    OwnedOnePerChat(configs, operator);
    match ids
    case None => SelectableMembers(owned, includeSkipped, c);
    case Some(list) => ChosenAnswers(owned, list, c);
  }

  /** An id without a representative is listed as missing. */
  lemma {:induction false} UnrepresentedIsListed(owned: seq<Config>, ids: seq<string>, i: nat)
    requires i < |ids| && Representatives(owned, ids[i]) == []
    ensures Unrepresented(owned, ids) != []
  {
    if i < |ids| - 1 {
      UnrepresentedIsListed(owned, ids[..|ids| - 1], i);
    }
  }

  /** Required ids that are answered each have a dialog of the manifest. */
  lemma EveryRequiredIdIsRepresented(configs: seq<Config>, operator: Option<string>, ids: seq<string>, id: string)
    requires OnePerChat(configs) && id in ids
    requires IdsAreAnswered(configs, OwnedOnly(configs, operator), Some(ids), true)
    ensures exists c :: Answers(OwnedOnly(configs, operator), c, id) && c in Selection(OwnedOnly(configs, operator), Some(ids), true)
  {
    var owned := OwnedOnly(configs, operator);
    OwnedOnePerChat(configs, operator);
    var i :| 0 <= i < |ids| && ids[i] == id;
    if Representatives(owned, id) == [] {
      UnrepresentedIsListed(owned, ids, i);
      assert false;
    }
    var c := Representatives(owned, id)[0];
    RepresentativesAnswer(owned, id, c);
    ChosenAnswers(owned, ids, c);
  }

  lemma {:induction false} TopicsAreFewer(configs: seq<Config>)
    ensures multiset(Topics(configs)) <= multiset(configs)
  {
    if configs != [] {
      TopicsAreFewer(configs[..|configs| - 1]);
      assert configs == configs[..|configs| - 1] + [configs[|configs| - 1]];
    }
  }

  lemma {:induction false} PhysicalChatIsFewer(configs: seq<Config>, chat: string)
    ensures multiset(OfPhysicalChat(configs, chat)) <= multiset(configs)
  {
    if configs != [] {
      PhysicalChatIsFewer(configs[..|configs| - 1], chat);
      assert configs == configs[..|configs| - 1] + [configs[|configs| - 1]];
    }
  }

  lemma RepresentativesDistinct(owned: seq<Config>, id: string)
    requires OnePerChat(owned)
    ensures NoDup(Representatives(owned, id))
  {
    var own := ById(owned, id);
    if own == None || IsSplitRoot(own.value) {
      var found := TopicChildren(owned, id);
      TopicsAreFewer(OfPhysicalChat(owned, id));
      PhysicalChatIsFewer(owned, id);
      TopicsAreSortedByTitle(owned, id);
      forall i, j | 0 <= i < j < |found| ensures found[i] != found[j] {
        if found[i] == found[j] {
          RepeatCountsTwice(found, i, j);
          NoDupCounts(owned, found[i]);
          assert false;
        }
      }
    }
  }

  predicate ShareRepresentative(owned: seq<Config>, id: string, other: string) {
    exists c | c in owned :: Answers(owned, c, id) && Answers(owned, c, other)
  }

  lemma {:induction false} DisjointIdsAreDistinct(owned: seq<Config>, ids: seq<string>)
    requires OnePerChat(owned)
    requires forall i, j | 0 <= i < j < |ids| :: !ShareRepresentative(owned, ids[i], ids[j])
    ensures NoDup(Chosen(owned, ids))
  {
    if ids != [] {
      var n := |ids| - 1;
      var early := Chosen(owned, ids[..n]);
      var late := Representatives(owned, ids[n]);
      DisjointIdsAreDistinct(owned, ids[..n]);
      RepresentativesDistinct(owned, ids[n]);
      forall i, j | 0 <= i < |early| && 0 <= j < |late| ensures early[i] != late[j] {
        var c := early[i];
        ChosenAnswers(owned, ids[..n], c);
        RepresentativesAnswer(owned, ids[n], c);
        var m :| 0 <= m < n && Answers(owned, c, ids[..n][m]);
        assert !ShareRepresentative(owned, ids[m], ids[n]);
      }
    }
  }

  /** A request is refused as a duplicate exactly when two of its ids stand for one
      configuration: the same configured id twice, or a split chat listed with one
      of its topics. */
  lemma DuplicatesExactly(configs: seq<Config>, operator: Option<string>, ids: seq<string>)
    requires OnePerChat(configs)
    ensures var owned := OwnedOnly(configs, operator);
      NoDup(ChatIds(Chosen(owned, ids))) <==>
        forall i, j | 0 <= i < j < |ids| :: !ShareRepresentative(owned, ids[i], ids[j])
  {
    var owned := OwnedOnly(configs, operator);
    OwnedOnePerChat(configs, operator);
    if forall i, j | 0 <= i < j < |ids| :: !ShareRepresentative(owned, ids[i], ids[j]) {
      DisjointIdsAreDistinct(owned, ids);
      var chosen := Chosen(owned, ids);
      forall i, j | 0 <= i < j < |chosen| ensures chosen[i].chat != chosen[j].chat {
        ChosenAnswers(owned, ids, chosen[i]);
        ChosenAnswers(owned, ids, chosen[j]);
        assert chosen[i] in owned && chosen[j] in owned && chosen[i] != chosen[j];
      }
    } else {
      var i, j :| 0 <= i < j < |ids| && ShareRepresentative(owned, ids[i], ids[j]);
      var c :| c in owned && Answers(owned, c, ids[i]) && Answers(owned, c, ids[j]);
      SharedRepresentativeIsDuplicate(owned, ids, i, j, c);
    }
  }

  lemma TwiceIsDuplicate(all: seq<Config>, early: seq<Config>, late: seq<Config>, c: Config)
    requires early + late <= all && c in early && c in late
    ensures !NoDup(ChatIds(all))
  {
    var m :| 0 <= m < |early| && early[m] == c;
    var n :| 0 <= n < |late| && late[n] == c;
    assert all[m] == (early + late)[m] == c && all[|early| + n] == (early + late)[|early| + n] == c;
    assert ChatIds(all)[m] == ChatIds(all)[|early| + n];
  }

  lemma ChosenTwiceIsDuplicate(owned: seq<Config>, ids: seq<string>, j: nat, c: Config)
    requires j < |ids| && c in Chosen(owned, ids[..j]) && c in Representatives(owned, ids[j])
    ensures !NoDup(ChatIds(Chosen(owned, ids)))
  {
    ChosenMore(owned, ids, j);
    ChosenPrefix(owned, ids, j + 1);
    TwiceIsDuplicate(Chosen(owned, ids), Chosen(owned, ids[..j]), Representatives(owned, ids[j]), c);
  }

  lemma SharedRepresentativeIsDuplicate(owned: seq<Config>, ids: seq<string>, i: nat, j: nat, c: Config)
    requires OnePerChat(owned) && i < j < |ids| && Answers(owned, c, ids[i]) && Answers(owned, c, ids[j])
    ensures !NoDup(ChatIds(Chosen(owned, ids)))
  {
    assert ids[..j][i] == ids[i];
    ChosenAnswers(owned, ids[..j], c);
    RepresentativesAnswer(owned, ids[j], c);
    ChosenTwiceIsDuplicate(owned, ids, j, c);
  }

  lemma {:induction false} ChosenPrefix(owned: seq<Config>, ids: seq<string>, n: nat)
    requires n <= |ids|
    ensures Chosen(owned, ids[..n]) <= Chosen(owned, ids)
    decreases |ids|
  {
    if n < |ids| {
      ChosenPrefix(owned, ids[..|ids| - 1], n);
      assert ids[..|ids| - 1][..n] == ids[..n];
    } else {
      assert ids[..n] == ids;
    }
  }
}
