/** Reading the question catalog out of a workbook (lib/parseCatalog.ts): which
    sheets and rows become catalog items, and how a question's type is guessed
    from its wording. Reading the spreadsheet file is not modelled: a workbook
    is its sheets in order, each a list of rows of cells, and `slugify` is a
    parameter. */
module ParseCatalog {
  import opened Wrappers
  import opened Text
  import opened Types
  import opened Seqs

  /** A cell as `sheet_to_json` yields it: a string, or anything else
      (a number, a boolean, a date, an empty cell). */
  datatype Cell = TextCell(text: string) | OtherCell

  datatype Sheet = Sheet(name: string, rows: seq<seq<Cell>>)

  const Blank := "___"

  // ---------------------------------------------------------------------------
  // Question types

  /** The wording asks for a number: it has a `___` blank. The source also
      tests for `____`, which contains `___`, so that test adds nothing. */
  predicate HasBlank(text: string) {
    Contains(text, Blank) || Contains(text, "____")
  }

  /** `____` holds `___`: the second test of the blank never decides anything. */
  lemma LongBlankHasBlank(text: string)
    ensures HasBlank(text) <==> Contains(text, Blank)
  {
    if Contains(text, "____") {
      var i :| OccursAt(text, "____", i);
      assert text[i..i + 3] == text[i..i + 4][..3];
      assert OccursAt(text, Blank, i);
    }
  }

  /** `inferQuestionType`. */
  function InferQuestionType(text: string): (t: QuestionType)
    ensures t in {NumberType, EnumType, LookupType, BooleanType}
    ensures HasBlank(text) ==> t == NumberType
    ensures !HasBlank(text) ==>
      (t == EnumType <==> Contains(ToLower(text), "what") || Contains(ToLower(text), "which") || Contains(ToLower(text), "list"))
  {
    var lowerText := ToLower(text);
    if HasBlank(text) then NumberType
    else if Contains(lowerText, "what") || Contains(lowerText, "which") || Contains(lowerText, "list") then EnumType
    else if Contains(lowerText, "where") || Contains(lowerText, "locate") || Contains(lowerText, "address") then LookupType
    else BooleanType
  }

  /** Past the blank and the enum words, "where", "locate" or "address" make
      a lookup question and anything else a yes/no one. */
  lemma InferLookupOrBoolean(text: string)
    requires !HasBlank(text)
    requires !(Contains(ToLower(text), "what") || Contains(ToLower(text), "which") || Contains(ToLower(text), "list"))
    ensures var t := InferQuestionType(text);
      (t == LookupType <==> Contains(ToLower(text), "where") || Contains(ToLower(text), "locate") || Contains(ToLower(text), "address"))
      && (t == BooleanType <==> !(Contains(ToLower(text), "where") || Contains(ToLower(text), "locate") || Contains(ToLower(text), "address")))
  {
  }

  /** The type `parseCatalogFromWorkbook` gives a row: the same rules without
      "list" and "address". */
  function WorkbookType(text: string): (t: QuestionType)
    ensures t in {NumberType, EnumType, LookupType, BooleanType}
    ensures t == NumberType <==> HasBlank(text)
  {
    var lowerText := ToLower(text);
    if HasBlank(text) then NumberType
    else if Contains(lowerText, "what") || Contains(lowerText, "which") then EnumType
    else if Contains(lowerText, "where") || Contains(lowerText, "locate") then LookupType
    else BooleanType
  }

  /** The two typings agree except on texts that mention "list" or "address". */
  lemma TypingsAgree(text: string)
    requires !Contains(ToLower(text), "list") && !Contains(ToLower(text), "address")
    ensures WorkbookType(text) == InferQuestionType(text)
  {
  }

  /** "list" makes `inferQuestionType` answer enum where the workbook typing,
      which ignores it, answers boolean. */
  lemma TypingsDifferOnList()
    ensures InferQuestionType("list") == EnumType
    ensures WorkbookType("list") == BooleanType
  {
    var s := "list";
    assert ToLower(s) == s;
    assert OccursAt(s, "list", 0);
    assert forall i :: 0 <= i < |s| ==> s[i] != 'w' && s[i] != '_';
    assert !OccursAt(s, "locate", 0);
    NoUnderscoreNoBlank(s);
  }

  /** A text without an underscore has no blank. */
  lemma NoUnderscoreNoBlank(s: string)
    requires forall i :: 0 <= i < |s| ==> s[i] != '_'
    ensures !HasBlank(s)
  {
    forall i
      ensures !OccursAt(s, Blank, i)
    {
      if 0 <= i && i + |Blank| <= |s| {
        assert s[i..i + |Blank|][0] == s[i];
      }
    }
    forall i
      ensures !OccursAt(s, "____", i)
    {
      if 0 <= i && i + 4 <= |s| {
        assert s[i..i + 4][0] == s[i];
      }
    }
  }

  // ---------------------------------------------------------------------------
  // Rows and sheets

  /** "ALL DIVISIONS" and names shorter than two characters are not trades. */
  predicate SkippedSheet(name: string) {
    name == "ALL DIVISIONS" || |name| < 2
  }

  /** `row[2]` when it is a string. */
  function QuestionCell(row: seq<Cell>): Option<string> {
    if |row| > 2 && row[2].TextCell? then Some(row[2].text) else None
  }

  /** What an item of the catalog holds: a trimmed text of more than ten
      characters from a trade sheet, flagged for a threshold exactly when it
      is typed number. */
  predicate WellFormed(item: CatalogItem) {
    && !SkippedSheet(item.trade)
    && |item.text| > 10 && IsTrimmed(item.text)
    && (item.requiresThreshold <==> item.qtype == NumberType)
  }

  /** The item row `index` of sheet `sheetName` yields, if any. */
  function RowItem(sheetName: string, index: nat, row: seq<Cell>, slugify: string -> string): (r: Option<CatalogItem>)
    requires !SkippedSheet(sheetName)
    ensures r.Some? <==> index != 0 && QuestionCell(row).Some? && |Trim(QuestionCell(row).value)| > 10
    ensures r.Some? ==> WellFormed(r.value) && r.value.trade == sheetName
    ensures r.Some? ==> r.value.text == Trim(QuestionCell(row).value)
    ensures r.Some? ==> r.value.id == slugify(sheetName) + "-" + NatToString(index)
    ensures r.Some? ==> r.value.qtype == WorkbookType(r.value.text) && r.value.requiresThreshold == HasBlank(r.value.text)
  {
    if index == 0 then None
    else match QuestionCell(row)
      case None => None
      case Some(questionText) =>
        var text := Trim(questionText);
        if |text| > 10 then
          var requiresThreshold := HasBlank(text);
          Some(CatalogItem(slugify(sheetName) + "-" + NatToString(index), sheetName, text,
            WorkbookType(text), requiresThreshold))
        else None
  }

  /** The items of rows `rows`, in row order. */
  function RowItems(sheetName: string, rows: seq<seq<Cell>>, slugify: string -> string): (r: seq<CatalogItem>)
    requires !SkippedSheet(sheetName)
    ensures forall k :: 0 <= k < |r| ==> WellFormed(r[k]) && r[k].trade == sheetName
    ensures |r| <= |rows| && (rows != [] ==> |r| < |rows|)
  {
    if rows == [] then []
    else
      var prefix := RowItems(sheetName, rows[..|rows| - 1], slugify);
      match RowItem(sheetName, |rows| - 1, rows[|rows| - 1], slugify)
      case None => prefix
      case Some(item) => prefix + [item]
  }

  /** The items one sheet contributes. */
  function SheetItems(sheet: Sheet, slugify: string -> string): (r: seq<CatalogItem>)
    ensures SkippedSheet(sheet.name) ==> r == []
    ensures forall k :: 0 <= k < |r| ==> WellFormed(r[k]) && r[k].trade == sheet.name
  {
    if SkippedSheet(sheet.name) then [] else RowItems(sheet.name, sheet.rows, slugify)
  }

  /** The catalog of a workbook: the items of every sheet, in sheet order. */
  function CatalogOf(sheets: seq<Sheet>, slugify: string -> string): (r: seq<CatalogItem>)
    ensures forall k :: 0 <= k < |r| ==> WellFormed(r[k])
  {
    if sheets == [] then []
    else CatalogOf(sheets[..|sheets| - 1], slugify) + SheetItems(sheets[|sheets| - 1], slugify)
  }

  /** `name` is the name of one of the sheets. */
  predicate IsSheetName(sheets: seq<Sheet>, name: string) {
    exists s :: 0 <= s < |sheets| && sheets[s].name == name
  }

  /** Every catalog item's trade is the name of one of the sheets. */
  lemma CatalogTradesAreSheets(sheets: seq<Sheet>, slugify: string -> string)
    ensures var r := CatalogOf(sheets, slugify);
      forall k :: 0 <= k < |r| ==> IsSheetName(sheets, r[k].trade)
  {
    forall k | 0 <= k < |CatalogOf(sheets, slugify)|
      ensures IsSheetName(sheets, CatalogOf(sheets, slugify)[k].trade)
    {
      CatalogItemTrade(sheets, slugify, k);
    }
  }

  /** Item `k` of the catalog comes from one of the sheets. */
  lemma {:induction false} CatalogItemTrade(sheets: seq<Sheet>, slugify: string -> string, k: nat)
    requires k < |CatalogOf(sheets, slugify)|
    ensures IsSheetName(sheets, CatalogOf(sheets, slugify)[k].trade)
  {
    var n := |sheets| - 1;
    var init := sheets[..n];
    var prefix := CatalogOf(init, slugify);
    var last := SheetItems(sheets[n], slugify);
    assert CatalogOf(sheets, slugify) == prefix + last;
    if k < |prefix| {
      CatalogItemTrade(init, slugify, k);
      var s :| 0 <= s < |init| && init[s].name == prefix[k].trade;
      assert sheets[s] == init[s];
    } else {
      assert last[k - |prefix|].trade == sheets[n].name;
    }
  }

  /** `parseCatalogFromWorkbook`: the `forEach` over the sheets, skipping the
      ones that are not trades. */
  method ParseCatalogFromWorkbook(sheets: seq<Sheet>, slugify: string -> string) returns (catalog: seq<CatalogItem>)
    ensures catalog == CatalogOf(sheets, slugify)
  {
    catalog := [];
    var s := 0;
    while s < |sheets|
      invariant 0 <= s <= |sheets|
      invariant catalog == CatalogOf(sheets[..s], slugify)
    {
      var sheet := sheets[s];
      ghost var seen := sheets[..s + 1];
      assert seen[..s] == sheets[..s] && seen[s] == sheet;
      assert CatalogOf(seen, slugify) == CatalogOf(sheets[..s], slugify) + SheetItems(sheet, slugify);
      if !SkippedSheet(sheet.name) {
        catalog := PushSheetRows(catalog, sheet, slugify);
      }
      s := s + 1;
    }
    assert sheets[..s] == sheets;
  }

  /** One more row adds its item, if it makes one. */
  lemma RowItemsSnoc(sheetName: string, rows: seq<seq<Cell>>, slugify: string -> string, index: nat)
    requires !SkippedSheet(sheetName) && index < |rows|
    ensures RowItem(sheetName, index, rows[index], slugify).None? ==>
      RowItems(sheetName, rows[..index + 1], slugify) == RowItems(sheetName, rows[..index], slugify)
    ensures RowItem(sheetName, index, rows[index], slugify).Some? ==>
      RowItems(sheetName, rows[..index + 1], slugify)
        == RowItems(sheetName, rows[..index], slugify) + [RowItem(sheetName, index, rows[index], slugify).value]
  {
    assert rows[..index + 1][..index] == rows[..index];
  }

  /** The inner `forEach` over one trade sheet's rows: row 0 is the header;
      a row whose column C is a string longer than ten characters once
      trimmed is pushed as an item. */
  method PushSheetRows(catalog0: seq<CatalogItem>, sheet: Sheet, slugify: string -> string) returns (catalog: seq<CatalogItem>)
    requires !SkippedSheet(sheet.name)
    ensures catalog == catalog0 + RowItems(sheet.name, sheet.rows, slugify)
  {
    catalog := catalog0;
    var index := 0;
    while index < |sheet.rows|
      invariant 0 <= index <= |sheet.rows|
      invariant catalog == catalog0 + RowItems(sheet.name, sheet.rows[..index], slugify)
    {
      RowItemsSnoc(sheet.name, sheet.rows, slugify, index);
      var item := RowItem(sheet.name, index, sheet.rows[index], slugify);
      if item.Some? {
        SnocAssoc(catalog0, RowItems(sheet.name, sheet.rows[..index], slugify), item.value);
        catalog := catalog + [item.value];
      }
      index := index + 1;
    }
    assert sheet.rows[..index] == sheet.rows;
  }
}
