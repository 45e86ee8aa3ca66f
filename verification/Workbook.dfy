/** The identity matrix workbook. A sheet is a list of rows of optional texts. */
module Workbook {
  import opened Common
  import opened Text

  datatype Row = Row(
    userId: Option<string>,
    username: Option<string>,
    displayName: string,
    email: Option<string>,
    huid: Option<string>,
    adLogin: Option<string>,
    otherId: Option<string>,
    isSelf: bool,
    source: string,
    reason: Option<string>)

  type Cells = seq<Option<string>>

  type Sheet = seq<Cells>

  datatype Parse = Rows(rows: seq<Row>) | UnexpectedHeader

  const LEGACY_HEADER := [
    "telegram_user_id", "telegram_username", "telegram_display_name", "corporate_email", "target_huid",
    "is_self", "resolution_source", "reason"]

  const HEADER := [
    "telegram_user_id", "telegram_username", "telegram_display_name", "corporate_email", "target_huid",
    "ad_login", "other_id", "is_self", "resolution_source", "reason"]

  function Filled(texts: seq<string>): Cells {
    seq(|texts|, i requires 0 <= i < |texts| => Some(texts[i]))
  }

  function YesNo(b: bool): string {
    if b then "yes" else "no"
  }

  function CellsOf(row: Row): Cells {
    [row.userId, row.username, Some(row.displayName), row.email, row.huid, row.adLogin, row.otherId,
     Some(YesNo(row.isSelf)), Some(row.source), row.reason]
  }

  /** The same row laid out under the legacy header. */
  function LegacyCellsOf(row: Row): Cells {
    [row.userId, row.username, Some(row.displayName), row.email, row.huid,
     Some(YesNo(row.isSelf)), Some(row.source), row.reason]
  }

  function Template(): Cells {
    [None, None, Some(""), None, None, None, None, Some("no"), Some("manual_add_template"),
     Some("You can fill several selectors; priority: target_huid, corporate_email, ad_login, other_id")]
  }

  function Templates(n: int): Sheet {
    if n <= 0 then [] else Templates(n - 1) + [Template()]
  }

  function LaidOut(rows: seq<Row>): Sheet {
    seq(|rows|, i requires 0 <= i < |rows| => CellsOf(rows[i]))
  }

  function LegacyLaidOut(rows: seq<Row>): Sheet {
    seq(|rows|, i requires 0 <= i < |rows| => LegacyCellsOf(rows[i]))
  }

  /** `build_workbook` */
  method BuildWorkbook(rows: seq<Row>, templateRows: int) returns (sheet: Sheet)
    ensures sheet == [Filled(HEADER)] + LaidOut(rows) + Templates(templateRows)
  {
    sheet := [Filled(HEADER)];
    for i := 0 to |rows|
      invariant sheet == [Filled(HEADER)] + LaidOut(rows[..i])
    {
      sheet := sheet + [CellsOf(rows[i])];
      assert LaidOut(rows[..i + 1]) == LaidOut(rows[..i]) + [CellsOf(rows[i])];
    }
    assert rows[..|rows|] == rows;
    var n := if templateRows < 0 then 0 else templateRows;
    for i := 0 to n
      invariant sheet == [Filled(HEADER)] + LaidOut(rows) + Templates(i)
    {
      sheet := sheet + [Template()];
    }
  }

  // ----- parsing

  /** `values[i] if len(values) > i else None` */
  function Cell(values: Cells, i: nat): Option<string> {
    if i < |values| then values[i] else None
  }

  /** `_optional_str` */
  function Trimmed(value: Option<string>): Option<string> {
    if value == None || Strip(value.value) == "" then None else Some(Strip(value.value))
  }

  function OrDefault(value: Option<string>, default_: string): string {
    if value.Some? then value.value else default_
  }

  /** `_parse_yes_no` */
  predicate IsYes(value: Option<string>) {
    value.Some? && var text := Lower(Strip(value.value)); text == "yes" || text == "true" || text == "1"
  }

  function ParsedRow(values: Cells, legacy: bool): Row {
    var offset := if legacy then 0 else 2;
    Row(
      Trimmed(Cell(values, 0)),
      Trimmed(Cell(values, 1)),
      OrDefault(Trimmed(Cell(values, 2)), ""),
      Trimmed(Cell(values, 3)),
      Trimmed(Cell(values, 4)),
      if legacy then None else Trimmed(Cell(values, 5)),
      if legacy then None else Trimmed(Cell(values, 6)),
      IsYes(Cell(values, 5 + offset)),
      OrDefault(Trimmed(Cell(values, 6 + offset)), "display_only"),
      Trimmed(Cell(values, 7 + offset)))
  }

  predicate IsIdentified(row: Row) {
    || row.userId.Some? || row.username.Some? || row.displayName != "" || row.email.Some? || row.huid.Some?
    || row.adLogin.Some? || row.otherId.Some?
  }

  function ParsedAll(values: Sheet, legacy: bool): seq<Row> {
    seq(|values|, i requires 0 <= i < |values| => ParsedRow(values[i], legacy))
  }

  /** Rows that identify nobody are passed over. */
  function Identified(rows: seq<Row>): seq<Row> {
    if rows == [] then []
    else
      var before := Identified(rows[..|rows| - 1]);
      if IsIdentified(rows[|rows| - 1]) then before + [rows[|rows| - 1]] else before
  }

  function HeaderTexts(values: Cells): seq<string> {
    seq(|values|, i requires 0 <= i < |values| => if values[i].Some? then Strip(values[i].value) else "")
  }

  /** The header variant: the current one, the legacy one, or neither. */
  function IsLegacy(header: seq<string>): Option<bool> {
    if HEADER <= header then Some(false) else if LEGACY_HEADER <= header then Some(true) else None
  }

  function Parsed(sheet: Sheet): Parse {
    var legacy := if sheet == [] then None else IsLegacy(HeaderTexts(sheet[0]));
    if legacy == None then UnexpectedHeader else Rows(Identified(ParsedAll(sheet[1..], legacy.value)))
  }

  /** `parse_workbook` */
  method ParseWorkbook(sheet: Sheet) returns (r: Parse)
    ensures r == Parsed(sheet)
  {
    var legacy := if sheet == [] then None else IsLegacy(HeaderTexts(sheet[0]));
    if legacy == None {
      return UnexpectedHeader;
    }
    var rows: seq<Row> := [];
    var body := sheet[1..];
    for i := 0 to |body|
      invariant rows == Identified(ParsedAll(body, legacy.value)[..i])
    {
      assert ParsedAll(body, legacy.value)[..i + 1][..i] == ParsedAll(body, legacy.value)[..i];
      var row := ParsedRow(body[i], legacy.value);
      if !IsIdentified(row) {
        continue;
      }
      rows := rows + [row];
    }
    assert ParsedAll(body, legacy.value)[..|body|] == ParsedAll(body, legacy.value);
    r := Rows(rows);
  }

  // ----- round trips

  /** What a trip through the sheet makes of a row: texts trimmed, blanks absent. */
  function Normalised(row: Row): Row {
    Row(
      Trimmed(row.userId), Trimmed(row.username), Strip(row.displayName), Trimmed(row.email), Trimmed(row.huid),
      Trimmed(row.adLogin), Trimmed(row.otherId), row.isSelf,
      if Strip(row.source) == "" then "display_only" else Strip(row.source), Trimmed(row.reason))
  }

  function NormalisedAll(rows: seq<Row>): seq<Row> {
    seq(|rows|, i requires 0 <= i < |rows| => Normalised(rows[i]))
  }

  /** Normalised rows, those that identify nobody left out. */
  function Kept(rows: seq<Row>): seq<Row> {
    Identified(NormalisedAll(rows))
  }

  function WithoutLogins(rows: seq<Row>): seq<Row> {
    seq(|rows|, i requires 0 <= i < |rows| => rows[i].(adLogin := None, otherId := None))
  }

  predicate IsClean(value: Option<string>) {
    value.Some? ==> value.value != "" && IsTrimmed(value.value)
  }

  /** A trimmed row with an identifying field and a resolution source. */
  predicate IsCanonical(row: Row) {
    && IsClean(row.userId) && IsClean(row.username) && IsTrimmed(row.displayName) && IsClean(row.email)
    && IsClean(row.huid) && IsClean(row.adLogin) && IsClean(row.otherId) && IsClean(row.reason)
    && row.source != "" && IsTrimmed(row.source)
    && IsIdentified(row)
  }

  lemma YesNoIsParsed(b: bool)
    ensures IsYes(Some(YesNo(b))) <==> b
  {
    TrimmedIsFixed(YesNo(b));
    assert Lower("yes") == "yes" && Lower("no") == "no";
  }

  lemma TrimmedExactly(value: Option<string>)
    ensures Trimmed(value) == value <==> IsClean(value)
  {
    if value.Some? {
      StripIsTrimmed(value.value);
      if IsTrimmed(value.value) {
        TrimmedIsFixed(value.value);
      }
    }
  }

  lemma StripExactly(s: string)
    ensures Strip(s) == s <==> IsTrimmed(s)
  {
    StripIsTrimmed(s);
    if IsTrimmed(s) {
      TrimmedIsFixed(s);
    }
  }

  lemma NormalisedExactly(row: Row)
    ensures Normalised(row) == row && IsIdentified(row) <==> IsCanonical(row)
  {
    TrimmedExactly(row.userId);
    TrimmedExactly(row.username);
    StripExactly(row.displayName);
    TrimmedExactly(row.email);
    TrimmedExactly(row.huid);
    TrimmedExactly(row.adLogin);
    TrimmedExactly(row.otherId);
    TrimmedExactly(row.reason);
    StripExactly(row.source);
    StripIsTrimmed(row.source);
    assert IsTrimmed("display_only");
    TrimmedIsFixed("display_only");
  }

  lemma CellsParseBack(row: Row)
    ensures ParsedRow(CellsOf(row), false) == Normalised(row)
    ensures ParsedRow(LegacyCellsOf(row), true) == Normalised(row.(adLogin := None, otherId := None))
  {
    YesNoIsParsed(row.isSelf);
  }

  lemma TemplateIsSkipped()
    ensures !IsIdentified(ParsedRow(Template(), false))
  {
    TrimmedIsFixed("");
  }

  /** Rows that identify nobody leave no trace at the end. */
  lemma {:induction false} BlanksAreSkipped(rows: seq<Row>, blanks: seq<Row>)
    requires forall i | 0 <= i < |blanks| :: !IsIdentified(blanks[i])
    ensures Identified(rows + blanks) == Identified(rows)
  {
    if blanks == [] {
      assert rows + blanks == rows;
    } else {
      var n := |blanks| - 1;
      BlanksAreSkipped(rows, blanks[..n]);
      assert (rows + blanks)[..|rows| + n] == rows + blanks[..n];
    }
  }

  /** The rows kept are all of them exactly when each identifies somebody. */
  lemma {:induction false} IdentifiedExactly(rows: seq<Row>)
    ensures |Identified(rows)| <= |rows|
    ensures |Identified(rows)| == |rows| <==> forall i | 0 <= i < |rows| :: IsIdentified(rows[i])
    ensures |Identified(rows)| == |rows| ==> Identified(rows) == rows
  {
    if rows != [] {
      var n := |rows| - 1;
      IdentifiedExactly(rows[..n]);
      assert rows == rows[..n] + [rows[n]];
      assert forall i | 0 <= i < n :: rows[..n][i] == rows[i];
    }
  }

  lemma {:induction false} TemplatesAreTemplates(n: int)
    ensures forall i | 0 <= i < |Templates(n)| :: Templates(n)[i] == Template()
    decreases n
  {
    if n > 0 {
      TemplatesAreTemplates(n - 1);
    }
  }

  lemma RowsParseBack(rows: seq<Row>)
    ensures ParsedAll(LaidOut(rows), false) == NormalisedAll(rows)
    ensures ParsedAll(LegacyLaidOut(rows), true) == NormalisedAll(WithoutLogins(rows))
  {
    forall i | 0 <= i < |rows|
      ensures ParsedRow(LaidOut(rows)[i], false) == NormalisedAll(rows)[i]
      ensures ParsedRow(LegacyLaidOut(rows)[i], true) == NormalisedAll(WithoutLogins(rows))[i]
    {
      CellsParseBack(rows[i]);
    }
  }

  lemma HeadersAreRead()
    ensures IsLegacy(HeaderTexts(Filled(HEADER))) == Some(false)
    ensures IsLegacy(HeaderTexts(Filled(LEGACY_HEADER))) == Some(true)
  {
    forall i | 0 <= i < |HEADER| ensures Strip(HEADER[i]) == HEADER[i] {
      TrimmedIsFixed(HEADER[i]);
    }
    forall i | 0 <= i < |LEGACY_HEADER| ensures Strip(LEGACY_HEADER[i]) == LEGACY_HEADER[i] {
      TrimmedIsFixed(LEGACY_HEADER[i]);
    }
    assert HeaderTexts(Filled(HEADER)) == HEADER;
    assert HeaderTexts(Filled(LEGACY_HEADER)) == LEGACY_HEADER;
    assert HEADER[5][0] == 'a' && LEGACY_HEADER[5][0] == 'i';
  }

  lemma HeaderIsSkipped(body: Sheet)
    ensures Parsed([Filled(HEADER)] + body) == Rows(Identified(ParsedAll(body, false)))
    ensures Parsed([Filled(LEGACY_HEADER)] + body) == Rows(Identified(ParsedAll(body, true)))
  {
    HeadersAreRead();
    assert ([Filled(HEADER)] + body)[1..] == body && ([Filled(LEGACY_HEADER)] + body)[1..] == body;
  }

  lemma ParsedAllOfBoth(a: Sheet, b: Sheet, legacy: bool)
    ensures ParsedAll(a + b, legacy) == ParsedAll(a, legacy) + ParsedAll(b, legacy)
  {
  }

  lemma TemplatesAreBlank(n: int)
    ensures forall i | 0 <= i < |Templates(n)| :: !IsIdentified(ParsedAll(Templates(n), false)[i])
  {
    TemplateIsSkipped();
    TemplatesAreTemplates(n);
  }

  /** Any rows, any number of templates: the parse gives back the normalised rows
      that identify somebody, in order. */
  lemma BuiltWorkbookParses(rows: seq<Row>, templateRows: int)
    ensures Parsed([Filled(HEADER)] + LaidOut(rows) + Templates(templateRows)) == Rows(Kept(rows))
  {
    var templates := Templates(templateRows);
    assert [Filled(HEADER)] + LaidOut(rows) + templates == [Filled(HEADER)] + (LaidOut(rows) + templates);
    HeaderIsSkipped(LaidOut(rows) + templates);
    ParsedAllOfBoth(LaidOut(rows), templates, false);
    RowsParseBack(rows);
    TemplatesAreBlank(templateRows);
    BlanksAreSkipped(NormalisedAll(rows), ParsedAll(templates, false));
  }

  lemma KeptExactly(rows: seq<Row>)
    ensures Kept(rows) == rows <==> forall row | row in rows :: IsCanonical(row)
  {
    var normal := NormalisedAll(rows);
    IdentifiedExactly(normal);
    forall i | 0 <= i < |rows| ensures normal[i] == rows[i] && IsIdentified(rows[i]) <==> IsCanonical(rows[i]) {
      NormalisedExactly(rows[i]);
    }
    assert Kept(rows) == rows <==> normal == rows && forall i | 0 <= i < |rows| :: IsIdentified(normal[i]);
    assert normal == rows <==> forall i | 0 <= i < |rows| :: normal[i] == rows[i];
    assert (forall row | row in rows :: IsCanonical(row)) <==> forall i | 0 <= i < |rows| :: IsCanonical(rows[i]);
  }

  /** The round trip is exact precisely for canonical rows. */
  lemma RoundTripExactly(rows: seq<Row>, templateRows: int)
    ensures Parsed([Filled(HEADER)] + LaidOut(rows) + Templates(templateRows)) == Rows(rows)
       <==> forall row | row in rows :: IsCanonical(row)
  {
    BuiltWorkbookParses(rows, templateRows);
    KeptExactly(rows);
  }

  /** Under the legacy header any rows come back normalised, with empty logins. */
  lemma LegacyWorkbookParses(rows: seq<Row>)
    ensures Parsed([Filled(LEGACY_HEADER)] + LegacyLaidOut(rows)) == Rows(Kept(WithoutLogins(rows)))
  {
    HeaderIsSkipped(LegacyLaidOut(rows));
    RowsParseBack(rows);
  }

  /** They are the very rows with empty logins exactly when those are canonical: no
      row may be identified by a login alone. */
  lemma LegacyRoundTripExactly(rows: seq<Row>)
    ensures Parsed([Filled(LEGACY_HEADER)] + LegacyLaidOut(rows)) == Rows(WithoutLogins(rows))
       <==> forall row | row in WithoutLogins(rows) :: IsCanonical(row)
  {
    LegacyWorkbookParses(rows);
    KeptExactly(WithoutLogins(rows));
  }

  /** For canonical rows that means: each has an identifying field besides the logins. */
  lemma LegacyRoundTripOfCanonical(rows: seq<Row>)
    requires forall row | row in rows :: IsCanonical(row)
    ensures Parsed([Filled(LEGACY_HEADER)] + LegacyLaidOut(rows)) == Rows(WithoutLogins(rows))
       <==> forall row | row in rows :: IsIdentified(row.(adLogin := None, otherId := None))
  {
    var bare := WithoutLogins(rows);
    forall i | 0 <= i < |rows|
      ensures IsCanonical(bare[i]) <==> IsIdentified(rows[i].(adLogin := None, otherId := None))
    {
      assert rows[i] in rows;
    }
    assert (forall row | row in bare :: IsCanonical(row)) <==> (forall i | 0 <= i < |rows| :: IsCanonical(bare[i]));
    LegacyRoundTripExactly(rows);
  }

  /** A row known by its login alone is lost under the legacy header. */
  lemma LoginOnlyRowIsLost() returns (row: Row)
    ensures IsCanonical(row)
    ensures Parsed([Filled(LEGACY_HEADER)] + LegacyLaidOut([row])) == Rows([])
  {
    row := Row(None, None, "", None, None, Some("a"), None, false, "s", None);
    LegacyWorkbookParses([row]);
    var bare := WithoutLogins([row]);
    NormalisedIsBlank(bare[0]);
    BlanksAreSkipped([], NormalisedAll(bare));
    assert [] + NormalisedAll(bare) == NormalisedAll(bare);
  }

  lemma NormalisedIsBlank(row: Row)
    requires row == Row(None, None, "", None, None, None, None, false, "s", None)
    ensures !IsIdentified(Normalised(row))
  {
    TrimmedIsFixed("");
  }
}
