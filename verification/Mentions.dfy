/** Splicing of mentions into a message body: `_render_body_content`. */
module Mentions {
  import opened Common
  import opened Sequences
  import Sorting

  datatype Entity = Entity(kind: string, offset: int, length: int, text: Option<string>, huid: Option<string>) {
    function End(): int {
      offset + length
    }
  }

  /** What the mention library makes of an id and a name; none when the id is not a
      UUID. */
  type MentionBuilder = (string, string) -> Option<string>

  function NonEmpty(s: Option<string>, fallback: string): string {
    if s.Some? && s.value != "" then s.value else fallback
  }

  /** `_render_entity` with `_build_user_mention` */
  function Rendered(build: MentionBuilder, e: Entity, original: string): string {
    if e.huid == None then original
    else
      var name := NonEmpty(e.text, original);
      var mention := build(e.huid.value, name);
      if mention.Some? then mention.value else name
  }

  predicate IsValidMention(e: Entity, n: nat) {
    e.kind == "mention" && 0 <= e.offset && 0 < e.length && e.End() <= n
  }

  // ----- sorting by offset

  predicate ByOffset(e: Entity, f: Entity) {
    e.offset <= f.offset
  }

  /** `sorted(entities, key=offset)` */
  function SortedByOffset(s: seq<Entity>): seq<Entity> {
    Sorting.Sorted(ByOffset, s)
  }

  ghost predicate IsSorted(s: seq<Entity>) {
    forall i, j | 0 <= i < j < |s| :: s[i].offset <= s[j].offset
  }

  lemma SortIsSorted(s: seq<Entity>)
    ensures IsSorted(SortedByOffset(s))
  {
    Sorting.SortedIsOrdered(ByOffset, s);
    var sorted := SortedByOffset(s);
    forall i, j | 0 <= i < j < |sorted| ensures sorted[i].offset <= sorted[j].offset {
      assert ByOffset(sorted[i], sorted[j]);
    }
  }

  lemma SortKeepsMembers(s: seq<Entity>, e: Entity)
    ensures e in SortedByOffset(s) <==> e in s
  {
    Sorting.SortedKeepsMembers(ByOffset, s, e);
  }

  // ----- the spans chosen and the text around them

  /** The mentions the loop replaces, from `cursor` on. */
  function Chosen(sorted: seq<Entity>, n: nat, cursor: nat): seq<Entity> {
    if sorted == [] then []
    else if sorted[0].offset >= cursor && IsValidMention(sorted[0], n) then
      [sorted[0]] + Chosen(sorted[1..], n, sorted[0].End())
    else Chosen(sorted[1..], n, cursor)
  }

  /** In bounds, disjoint and increasing, starting no earlier than `cursor`. */
  ghost predicate AreSpans(chosen: seq<Entity>, n: nat, cursor: nat) {
    && cursor <= n
    && (forall i | 0 <= i < |chosen| :: IsValidMention(chosen[i], n) && cursor <= chosen[i].offset)
    && (forall i, j | 0 <= i < j < |chosen| :: chosen[i].End() <= chosen[j].offset)
  }

  lemma SpansTail(chosen: seq<Entity>, n: nat, cursor: nat)
    requires AreSpans(chosen, n, cursor) && chosen != []
    ensures AreSpans(chosen[1..], n, chosen[0].End())
  {
  }

  /** The stretches of the source between the chosen spans. */
  ghost function Gaps(source: string, cursor: nat, chosen: seq<Entity>): (gaps: seq<string>)
    requires AreSpans(chosen, |source|, cursor)
    ensures |gaps| == |chosen| + 1
    decreases |chosen|
  {
    if chosen == [] then [source[cursor..]]
    else
      SpansTail(chosen, |source|, cursor);
      [source[cursor..chosen[0].offset]] + Gaps(source, chosen[0].End(), chosen[1..])
  }

  function Originals(source: string, chosen: seq<Entity>): seq<string>
    requires forall i | 0 <= i < |chosen| :: IsValidMention(chosen[i], |source|)
  {
    seq(|chosen|, i requires 0 <= i < |chosen| && IsValidMention(chosen[i], |source|) => source[chosen[i].offset..chosen[i].End()])
  }

  function Replacements(build: MentionBuilder, source: string, chosen: seq<Entity>): seq<string>
    requires forall i | 0 <= i < |chosen| :: IsValidMention(chosen[i], |source|)
  {
    seq(|chosen|, i requires 0 <= i < |chosen| && IsValidMention(chosen[i], |source|) =>
      Rendered(build, chosen[i], source[chosen[i].offset..chosen[i].End()]))
  }

  /** Gaps and texts in turn. */
  function Interleave(gaps: seq<string>, texts: seq<string>): string
    requires |gaps| == |texts| + 1
  {
    if texts == [] then gaps[0] else gaps[0] + texts[0] + Interleave(gaps[1..], texts[1..])
  }

  lemma {:induction false} ChosenAreSpans(sorted: seq<Entity>, n: nat, cursor: nat)
    requires cursor <= n
    ensures AreSpans(Chosen(sorted, n, cursor), n, cursor)
    ensures forall e | e in Chosen(sorted, n, cursor) :: e in sorted
  {
    if sorted != [] {
      if sorted[0].offset >= cursor && IsValidMention(sorted[0], n) {
        ChosenAreSpans(sorted[1..], n, sorted[0].End());
      } else {
        ChosenAreSpans(sorted[1..], n, cursor);
      }
    }
  }

  lemma ThreePieces(source: string, a: nat, b: nat, c: nat)
    requires a <= b <= c <= |source|
    ensures source[a..] == source[a..b] + source[b..c] + source[c..]
  {
  }

  /** Putting the original text back gives the source: everything outside the
      chosen spans is kept, in order. */
  lemma {:induction false} OriginalsRestoreSource(source: string, cursor: nat, chosen: seq<Entity>)
    requires AreSpans(chosen, |source|, cursor)
    ensures Interleave(Gaps(source, cursor, chosen), Originals(source, chosen)) == source[cursor..]
    decreases |chosen|
  {
    if chosen != [] {
      SpansTail(chosen, |source|, cursor);
      var first := chosen[0];
      OriginalsRestoreSource(source, first.End(), chosen[1..]);
      assert Originals(source, chosen)[1..] == Originals(source, chosen[1..]);
      assert Gaps(source, cursor, chosen)[1..] == Gaps(source, first.End(), chosen[1..]);
      ThreePieces(source, cursor, first.offset, first.End());
    }
  }

  lemma {:induction false} LeftOutOverlaps(sorted: seq<Entity>, n: nat, cursor: nat, e: Entity)
    requires cursor <= n && IsSorted(sorted) && e in sorted && IsValidMention(e, n) && e.offset >= cursor
    requires e !in Chosen(sorted, n, cursor)
    ensures exists c | c in Chosen(sorted, n, cursor) :: c.offset <= e.offset < c.End()
  {
    var first := sorted[0];
    if first.offset >= cursor && IsValidMention(first, n) {
      var rest := Chosen(sorted[1..], n, first.End());
      assert Chosen(sorted, n, cursor) == [first] + rest;
      if e.offset < first.End() {
        assert first in Chosen(sorted, n, cursor) && first.offset <= e.offset;
      } else {
        LeftOutOverlaps(sorted[1..], n, first.End(), e);
        var c :| c in rest && c.offset <= e.offset < c.End();
        assert c in Chosen(sorted, n, cursor);
      }
    } else {
      LeftOutOverlaps(sorted[1..], n, cursor, e);
    }
  }

  // ----- the loop

  function Concatenated(parts: seq<string>): string {
    if parts == [] then "" else Concatenated(parts[..|parts| - 1]) + parts[|parts| - 1]
  }

  lemma ConcatenatedMore(parts: seq<string>, a: string, b: string)
    ensures Concatenated(parts + [a] + [b]) == Concatenated(parts) + a + b
  {
    assert (parts + [a] + [b])[..|parts| + 1] == parts + [a] && (parts + [a])[..|parts|] == parts;
  }

  ghost function Remaining(build: MentionBuilder, source: string, sorted: seq<Entity>, cursor: nat): string
    requires cursor <= |source|
  {
    var chosen := Chosen(sorted, |source|, cursor);
    ChosenAreSpans(sorted, |source|, cursor);
    Interleave(Gaps(source, cursor, chosen), Replacements(build, source, chosen))
  }

  lemma RemainingStep(build: MentionBuilder, source: string, sorted: seq<Entity>, cursor: nat)
    requires cursor <= |source| && sorted != []
    ensures var e := sorted[0];
      Remaining(build, source, sorted, cursor) ==
        if e.offset >= cursor && IsValidMention(e, |source|) then
          source[cursor..e.offset] + Rendered(build, e, source[e.offset..e.End()])
          + Remaining(build, source, sorted[1..], e.End())
        else Remaining(build, source, sorted[1..], cursor)
  {
    var e := sorted[0];
    ChosenAreSpans(sorted, |source|, cursor);
    if e.offset >= cursor && IsValidMention(e, |source|) {
      var rest := Chosen(sorted[1..], |source|, e.End());
      var chosen := Chosen(sorted, |source|, cursor);
      assert chosen == [e] + rest && chosen[1..] == rest;
      ChosenAreSpans(sorted[1..], |source|, e.End());
      assert Replacements(build, source, chosen)[1..] == Replacements(build, source, rest);
      assert Gaps(source, cursor, chosen)[1..] == Gaps(source, e.End(), rest);
    }
  }

  /** The body with its mentions spliced in: the chosen spans replaced, the gaps kept. */
  ghost function Spliced(build: MentionBuilder, source: string, entities: seq<Entity>): string {
    Remaining(build, source, SortedByOffset(entities), 0)
  }

  lemma AppendAssociates(a: string, b: string, c: string, d: string)
    ensures a + b + c + d == a + (b + c + d)
  {
  }

  /** One turn of the loop: a mention taken adds its gap and its text. */
  lemma TurnKeepsTotal(build: MentionBuilder, source: string, sorted: seq<Entity>, i: nat, cursor: nat, parts: seq<string>)
    requires i < |sorted| && cursor <= |source|
    ensures var e := sorted[i];
      if e.offset >= cursor && IsValidMention(e, |source|) then
        var texts := parts + [source[cursor..e.offset]] + [Rendered(build, e, source[e.offset..e.End()])];
        Concatenated(texts) + Remaining(build, source, sorted[i + 1..], e.End())
        == Concatenated(parts) + Remaining(build, source, sorted[i..], cursor)
      else Remaining(build, source, sorted[i + 1..], cursor) == Remaining(build, source, sorted[i..], cursor)
  {
    var e := sorted[i];
    RemainingStep(build, source, sorted[i..], cursor);
    assert sorted[i..][0] == e && sorted[i..][1..] == sorted[i + 1..];
    if e.offset >= cursor && IsValidMention(e, |source|) {
      var gap := source[cursor..e.offset];
      var mention := Rendered(build, e, source[e.offset..e.End()]);
      ConcatenatedMore(parts, gap, mention);
      AppendAssociates(Concatenated(parts), gap, mention, Remaining(build, source, sorted[i + 1..], e.End()));
    }
  }

  lemma LastGap(build: MentionBuilder, source: string, cursor: nat, parts: seq<string>)
    requires cursor <= |source|
    ensures Concatenated(parts + [source[cursor..]]) == Concatenated(parts) + Remaining(build, source, [], cursor)
  {
    assert (parts + [source[cursor..]])[..|parts|] == parts;
  }

  method SpliceMentions(build: MentionBuilder, source: string, entities: seq<Entity>) returns (body: string)
    ensures body == Spliced(build, source, entities)
  {
    var parts: seq<string> := [];
    var cursor: nat := 0;
    var sorted := SortedByOffset(entities);
    assert sorted[0..] == sorted;
    var i := 0;
    while i < |sorted|
      invariant i <= |sorted| && cursor <= |source|
      invariant Concatenated(parts) + Remaining(build, source, sorted[i..], cursor) == Spliced(build, source, entities)
    {
      var e := sorted[i];
      TurnKeepsTotal(build, source, sorted, i, cursor, parts);
      i := i + 1;
      if e.kind != "mention" || e.offset < cursor || e.offset < 0 || e.length <= 0 || e.End() > |source| {
        continue;
      }
      parts := parts + [source[cursor..e.offset]] + [Rendered(build, e, source[e.offset..e.End()])];
      cursor := e.End();
    }
    assert sorted[i..] == [];
    LastGap(build, source, cursor, parts);
    parts := parts + [source[cursor..]];
    body := Concatenated(parts);
  }

  /** `_render_body_content` */
  method RenderBodyContent(build: MentionBuilder, plain: Option<string>, rendered: Option<string>, entities: seq<Entity>)
    returns (body: string)
    ensures entities == [] ==> body == NonEmpty(rendered, NonEmpty(plain, ""))
    ensures entities != [] ==> body == Spliced(build, NonEmpty(plain, NonEmpty(rendered, "")), entities)
  {
    if entities == [] {
      return NonEmpty(rendered, NonEmpty(plain, ""));
    }
    body := SpliceMentions(build, NonEmpty(plain, NonEmpty(rendered, "")), entities);
  }

  // ----- what splicing means

  ghost function Spans(source: string, entities: seq<Entity>): seq<Entity> {
    Chosen(SortedByOffset(entities), |source|, 0)
  }

  /** The body is the source with the chosen spans, and nothing else, replaced; the
      spans are valid mentions of the message, in bounds, disjoint and increasing. */
  lemma SplicingReplacesSpans(build: MentionBuilder, source: string, entities: seq<Entity>)
    ensures AreSpans(Spans(source, entities), |source|, 0)
    ensures var chosen := Spans(source, entities);
      && (forall e | e in chosen :: e in entities)
      && Spliced(build, source, entities) == Interleave(Gaps(source, 0, chosen), Replacements(build, source, chosen))
      && source == Interleave(Gaps(source, 0, chosen), Originals(source, chosen))
  {
    var sorted := SortedByOffset(entities);
    var chosen := Spans(source, entities);
    ChosenAreSpans(sorted, |source|, 0);
    OriginalsRestoreSource(source, 0, chosen);
    forall e | e in chosen ensures e in entities {
      SortKeepsMembers(entities, e);
    }
  }

  /** Without ids rendering is the identity. */
  lemma NoHuidIsIdentity(build: MentionBuilder, source: string, entities: seq<Entity>)
    requires forall e | e in entities && IsValidMention(e, |source|) :: e.huid == None
    ensures Spliced(build, source, entities) == source
  {
    SplicingReplacesSpans(build, source, entities);
    var chosen := Spans(source, entities);
    forall i | 0 <= i < |chosen| ensures chosen[i].huid == None {
      assert chosen[i] in chosen;
    }
    assert Replacements(build, source, chosen) == Originals(source, chosen);
  }

  /** A valid mention that is not replaced begins inside one that is. */
  lemma LeftOutMentionOverlaps(source: string, entities: seq<Entity>, e: Entity)
    requires e in entities && IsValidMention(e, |source|) && e !in Spans(source, entities)
    ensures exists c | c in Spans(source, entities) :: c.offset <= e.offset < c.End()
  {
    SortIsSorted(entities);
    SortKeepsMembers(entities, e);
    LeftOutOverlaps(SortedByOffset(entities), |source|, 0, e);
  }

  // ----- independence of the entity order

  function ValidOnly(s: seq<Entity>, n: nat): seq<Entity> {
    if s == [] then []
    else if IsValidMention(s[0], n) then [s[0]] + ValidOnly(s[1..], n)
    else ValidOnly(s[1..], n)
  }

  lemma {:induction false} OnlyValidMatter(s: seq<Entity>, n: nat, cursor: nat)
    ensures Chosen(s, n, cursor) == Chosen(ValidOnly(s, n), n, cursor)
  {
    if s != [] {
      OnlyValidMatter(s[1..], n, cursor);
      if IsValidMention(s[0], n) {
        OnlyValidMatter(s[1..], n, s[0].End());
        assert ([s[0]] + ValidOnly(s[1..], n))[1..] == ValidOnly(s[1..], n);
      }
    }
  }

  lemma {:induction false} ValidCounts(s: seq<Entity>, n: nat, e: Entity)
    ensures multiset(ValidOnly(s, n))[e] == if IsValidMention(e, n) then multiset(s)[e] else 0
  {
    if s != [] {
      ValidCounts(s[1..], n, e);
      assert s == [s[0]] + s[1..];
      assert multiset(s) == multiset{s[0]} + multiset(s[1..]);
    }
  }

  lemma {:induction false} ValidMembers(s: seq<Entity>, n: nat, e: Entity)
    ensures e in ValidOnly(s, n) <==> e in s && IsValidMention(e, n)
  {
    if s != [] {
      ValidMembers(s[1..], n, e);
      assert s == [s[0]] + s[1..];
    }
  }

  lemma {:induction false} ValidStaysSorted(s: seq<Entity>, n: nat)
    requires IsSorted(s)
    ensures IsSorted(ValidOnly(s, n))
  {
    if s != [] {
      ValidStaysSorted(s[1..], n);
      var rest := ValidOnly(s[1..], n);
      forall i | 0 <= i < |rest| ensures s[0].offset <= rest[i].offset {
        ValidMembers(s[1..], n, rest[i]);
        assert rest[i] in rest;
      }
    }
  }

  ghost predicate DistinctOffsets(s: seq<Entity>, n: nat) {
    && (forall e, f | e in s && f in s && IsValidMention(e, n) && IsValidMention(f, n) && e.offset == f.offset :: e == f)
    && (forall e | e in s && IsValidMention(e, n) :: multiset(s)[e] == 1)
  }

  ghost predicate StrictlySorted(s: seq<Entity>) {
    forall i, j | 0 <= i < j < |s| :: s[i].offset < s[j].offset
  }

  ghost predicate SameMembers(a: seq<Entity>, b: seq<Entity>) {
    forall e :: e in a <==> e in b
  }

  lemma StrictOrderSameHead(a: seq<Entity>, b: seq<Entity>)
    requires StrictlySorted(a) && StrictlySorted(b) && SameMembers(a, b) && a != []
    ensures b != [] && a[0] == b[0]
  {
    assert a[0] in b;
    var k :| 0 <= k < |b| && b[k] == a[0];
    assert b[0] in a;
    var m :| 0 <= m < |a| && a[m] == b[0];
    assert m == 0;
  }

  lemma StrictTailMembers(a: seq<Entity>, e: Entity)
    requires StrictlySorted(a) && a != []
    ensures e in a[1..] <==> e in a && e != a[0]
  {
    assert a == [a[0]] + a[1..];
    forall i | 1 <= i < |a| ensures a[i] != a[0] {
      assert a[0].offset < a[i].offset;
    }
  }

  lemma NonEmptyHasMember(s: seq<Entity>)
    ensures s == [] || exists e :: e in s
  {
    if s != [] {
      assert s[0] in s;
    }
  }

  lemma {:induction false} StrictOrderIsUnique(a: seq<Entity>, b: seq<Entity>)
    requires StrictlySorted(a) && StrictlySorted(b) && SameMembers(a, b)
    ensures a == b
  {
    if a == [] {
      NonEmptyHasMember(b);
    } else {
      StrictOrderSameHead(a, b);
      forall e ensures e in a[1..] <==> e in b[1..] {
        StrictTailMembers(a, e);
        StrictTailMembers(b, e);
      }
      StrictOrderIsUnique(a[1..], b[1..]);
      assert a == [a[0]] + a[1..] && b == [b[0]] + b[1..];
    }
  }

  lemma ValidAreApart(entities: seq<Entity>, n: nat, i: nat, j: nat)
    requires DistinctOffsets(entities, n) && i < j < |ValidOnly(SortedByOffset(entities), n)|
    ensures var valid := ValidOnly(SortedByOffset(entities), n); valid[i].offset != valid[j].offset
  {
    var sorted := SortedByOffset(entities);
    var valid := ValidOnly(sorted, n);
    ValidMembers(sorted, n, valid[i]);
    ValidMembers(sorted, n, valid[j]);
    SortKeepsMembers(entities, valid[i]);
    SortKeepsMembers(entities, valid[j]);
    if valid[i] == valid[j] {
      Sorting.SortedIsPermutation(ByOffset, entities);
      ValidCounts(sorted, n, valid[i]);
      RepeatCountsTwice(valid, i, j);
      assert false;
    }
  }

  lemma ValidSortedStrictly(entities: seq<Entity>, n: nat)
    requires DistinctOffsets(entities, n)
    ensures StrictlySorted(ValidOnly(SortedByOffset(entities), n))
  {
    var valid := ValidOnly(SortedByOffset(entities), n);
    SortIsSorted(entities);
    ValidStaysSorted(SortedByOffset(entities), n);
    forall i, j | 0 <= i < j < |valid| ensures valid[i].offset < valid[j].offset {
      ValidAreApart(entities, n, i, j);
    }
  }

  /** When the valid mentions start at distinct offsets, the body does not depend on
      the order in which the entities are listed. */
  lemma OrderDoesNotMatter(build: MentionBuilder, source: string, a: seq<Entity>, b: seq<Entity>)
    requires multiset(a) == multiset(b) && DistinctOffsets(a, |source|)
    ensures Spliced(build, source, a) == Spliced(build, source, b)
  {
    var n := |source|;
    forall e ensures e in a <==> e in b {
      assert e in a <==> e in multiset(a);
      assert e in b <==> e in multiset(b);
    }
    var va := ValidOnly(SortedByOffset(a), n);
    var vb := ValidOnly(SortedByOffset(b), n);
    ValidSortedStrictly(a, n);
    ValidSortedStrictly(b, n);
    forall e ensures e in va <==> e in vb {
      ValidMembers(SortedByOffset(a), n, e);
      ValidMembers(SortedByOffset(b), n, e);
      SortKeepsMembers(a, e);
      SortKeepsMembers(b, e);
    }
    StrictOrderIsUnique(va, vb);
    OnlyValidMatter(SortedByOffset(a), n, 0);
    OnlyValidMatter(SortedByOffset(b), n, 0);
  }

  /** Two mentions that start together are where the order decides. */
  lemma EqualOffsetsDependOnOrder(build: MentionBuilder)
    requires build("1", "x") == Some("one") && build("2", "x") == Some("two")
    ensures
      var e := Entity("mention", 0, 1, None, Some("1"));
      var f := Entity("mention", 0, 1, None, Some("2"));
      Spliced(build, "x", [e, f]) != Spliced(build, "x", [f, e])
  {
    var e := Entity("mention", 0, 1, None, Some("1"));
    var f := Entity("mention", 0, 1, None, Some("2"));
    FirstOfTwo(build, e, f);
    FirstOfTwo(build, f, e);
  }

  lemma FirstOfTwo(build: MentionBuilder, e: Entity, f: Entity)
    requires e.kind == "mention" && e.offset == f.offset == 0 && e.length == 1
    ensures Spliced(build, "x", [e, f]) == Rendered(build, e, "x")
  {
    var none: seq<Entity> := [];
    assert [e, f][..1] == [e] && [e][..0] == none;
    assert Sorting.Sorted(ByOffset, none) == none;
    assert Sorting.Sorted(ByOffset, [e]) == Sorting.Insert(ByOffset, none, e) == [e];
    assert SortedByOffset([e, f]) == Sorting.Insert(ByOffset, [e], f) == [e] + [f] == [e, f];
    RemainingStep(build, "x", [e, f], 0);
    assert [e, f][1..] == [f] && [f][1..] == [];
    RemainingStep(build, "x", [f], 1);
    assert Chosen([], 1, 1) == [];
    assert "x"[0..0] == "" && "x"[0..1] == "x" && "x"[1..] == "";
    assert Remaining(build, "x", [], 1) == "";
  }
}
