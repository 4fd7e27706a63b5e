/** A cited source as the chat and the run page show it
    (components/SourceReference.tsx): the link to the document in the S3
    bucket, the name shown, the icon, and the page and sheet labels. The
    bucket's environment variable is a parameter. */
module SourceReference {
  import opened Wrappers
  import opened Text
  import opened Types

  const DefaultBucket := "itb-store-dev"
  const HumanReadableKey := "human_readable:"
  const PageNumKey := "page_num:"
  const SectionKey := "section:"
  const SheetNumberKey := "sheet_number:"
  const UnknownSource := "Unknown source"

  /** The icon shown beside a source: a page (PDF and anything unknown), a
      drawing (DWG), a word-processor document, a spreadsheet. */
  datatype Icon = PageIcon | DrawingIcon | WordIcon | SheetIcon

  // ---------------------------------------------------------------------------
  // Cutting the metadata off a filename

  /** A piece of a string without `t` is without `t`. */
  lemma PieceKeepsAbsent(r: string, s: string, t: string)
    requires Contains(s, r) && !Contains(s, t)
    ensures !Contains(r, t)
  {
    if Contains(r, t) {
      PieceOfPiece(t, r, s);
    }
  }

  /** A piece of a piece is a piece. */
  lemma PieceOfPiece(r: string, m: string, s: string)
    requires Contains(m, r) && Contains(s, m)
    ensures Contains(s, r)
  {
    var b :| OccursAt(s, m, b);
    assert s[b..b + |m|] == m;
    ContainsSlice(s, r, b, b + |m|);
  }

  /** `if (s.includes(key)) s = s.split(key)[0].trim()`. */
  function CutAt(s: string, key: string): (r: string)
    requires |key| > 0
    ensures !Contains(r, key)
    ensures !Contains(s, key) ==> r == s
    ensures Contains(s, key) ==> IsTrimmed(r)
    ensures Contains(s, r)
  {
    if Contains(s, key) then
      var before := BeforeFirst(s, key);
      var r := Trim(before);
      var a :| PaddedAt(before, r, a);
      assert before == s[..|before|];
      assert a + |r| <= |before|;
      assert s[a..a + |r|] == before[a..a + |r|];
      assert OccursAt(s, r, a);
      assert OccursAt(before, r, a);
      PieceKeepsAbsent(r, before, key);
      r
    else
      assert OccursAt(s, s, 0);
      s
  }

  /** The filename with the metadata the one-line block template leaves in
      it cut off: before `human_readable:`, then `page_num:`, then
      `section:`, trimming each time. */
  function CleanFilename(filename: string): (r: string)
    ensures !Contains(r, HumanReadableKey) && !Contains(r, PageNumKey) && !Contains(r, SectionKey)
    ensures !Contains(filename, HumanReadableKey) && !Contains(filename, PageNumKey) && !Contains(filename, SectionKey) ==>
      r == filename
  {
    var f1 := CutAt(filename, HumanReadableKey);
    var f2 := CutAt(f1, PageNumKey);
    var f3 := CutAt(f2, SectionKey);
    PieceKeepsAbsent(f2, f1, HumanReadableKey);
    PieceKeepsAbsent(f3, f2, HumanReadableKey);
    PieceKeepsAbsent(f3, f2, PageNumKey);
    f3
  }

  /** Cleaning a clean filename changes nothing. */
  lemma CleanFilenameIdempotent(filename: string)
    ensures CleanFilename(CleanFilename(filename)) == CleanFilename(filename)
  {
  }

  /** No occurrence of `t` can start inside `name` and run into the text after
      it when `t` does not hold the first character of that text. */
  lemma FirstOccurrenceAfter(name: string, c: char, t: string, rest: string)
    requires |t| > 0 && !Contains(name, t) && c !in t
    ensures forall j :: 0 <= j <= |name| ==> !OccursAt(name + [c] + t + rest, t, j)
    ensures OccursAt(name + [c] + t + rest, t, |name| + 1)
  {
    var s := name + [c] + t + rest;
    forall j | 0 <= j <= |name| ensures !OccursAt(s, t, j) {
      if j + |t| <= |name| {
        assert s[j..j + |t|] == name[j..j + |t|];
        assert !OccursAt(name, t, j);
      } else if j + |t| <= |s| {
        assert s[j..j + |t|][|name| - j] == c;
        assert t[|name| - j] != c;
      }
    }
    assert s[|name| + 1..|name| + 1 + |t|] == t;
  }

  /** A trimmed name followed by a space trims back to the name. */
  lemma TrimSpaceAfter(name: string)
    requires IsTrimmed(name)
    ensures Trim(name + " ") == name
  {
    var s := name + " ";
    if name == [] {
      assert s[1..] == [];
    } else {
      assert s[..|s| - 1] == name;
      TrimTrimmed(name);
    }
  }

  /** The filename field of a block written on one line, as the prompt's
      template asks, runs on into `human_readable: …`: cleaning it gives back
      the file's name. */
  lemma CleanOneLineFilename(name: string, rest: string)
    requires IsTrimmed(name)
    requires !Contains(name, HumanReadableKey) && !Contains(name, PageNumKey) && !Contains(name, SectionKey)
    ensures CleanFilename(name + " " + HumanReadableKey + rest) == name
  {
    var f := name + " " + HumanReadableKey + rest;
    assert f == name + [' '] + HumanReadableKey + rest;
    FirstOccurrenceAfter(name, ' ', HumanReadableKey, rest);
    assert Contains(f, HumanReadableKey);
    var before := BeforeFirst(f, HumanReadableKey);
    assert |before| == |name| + 1 by {
      assert OccursAt(f, HumanReadableKey, |before|);
      assert !(|before| <= |name|);
    }
    assert before == f[..|name| + 1] == name + " ";
    TrimSpaceAfter(name);
  }

  // ---------------------------------------------------------------------------
  // Page and sheet numbers

  /** The characters of a number's decimal form. */
  predicate NumeralChar(c: char) {
    IsDigit(c) || c == '-'
  }

  /** A number's decimal form holds no `:`, so no metadata key. */
  lemma NumeralHasNoKey(n: int, key: string)
    requires ':' in key
    ensures !Contains(IntToString(n), key)
  {
    var s := IntToString(n);
    assert forall i :: 0 <= i < |s| ==> NumeralChar(s[i]) by {
      if n < 0 {
        assert forall i :: 1 <= i < |s| ==> s[i] == NatToString(-n)[i - 1];
      }
    }
  }

  /** The page number as the link's fragment and the label show it: its
      decimal form with `section:` and then `sheet_number:` cut off. */
  function CleanPageText(n: int): (r: string)
    ensures r == IntToString(n)
  {
    NumeralHasNoKey(n, SectionKey);
    NumeralHasNoKey(n, SheetNumberKey);
    CutAt(CutAt(IntToString(n), SectionKey), SheetNumberKey)
  }

  /** `cleanPageNumber`: nothing for 0, else the decimal form. */
  function CleanPageNumber(pageNum: int): (r: string)
    ensures pageNum == 0 <==> r == ""
    ensures pageNum != 0 ==> r == IntToString(pageNum)
  {
    if pageNum == 0 then "" else CleanPageText(pageNum)
  }

  /** `cleanSheetNumber`: nothing for 0, else the decimal form with
      `section:` cut off. */
  function CleanSheetNumber(sheetNum: int): (r: string)
    ensures sheetNum == 0 <==> r == ""
    ensures sheetNum != 0 ==> r == IntToString(sheetNum)
  {
    if sheetNum == 0 then ""
    else
      NumeralHasNoKey(sheetNum, SectionKey);
      CutAt(IntToString(sheetNum), SectionKey)
  }

  // ---------------------------------------------------------------------------
  // The link

  /** `NEXT_PUBLIC_CHAT_SOURCE_BUCKET || 'itb-store-dev'`. */
  function Bucket(env: string): (b: string)
    ensures b != ""
    ensures env != "" ==> b == env
  {
    if env == "" then DefaultBucket else env
  }

  /** The base of every link: the bucket's host and the project's folder. */
  function UrlBase(bucketEnv: string, itbId: string): string {
    "https://" + Bucket(bucketEnv) + ".s3.us-east-2.amazonaws.com/itb-documents/" + itbId + "/"
  }

  /** `buildPDFUrl`: nothing without a filename or a project id; otherwise the
      document's address, with a `#page=` fragment for a non-zero page. */
  function BuildPdfUrl(source: Source, itbId: string, bucketEnv: string): (r: Option<string>)
    ensures r.None? <==> source.filename == "" || itbId == ""
    ensures r.Some? && source.pageNum != 0 ==>
      r.value == UrlBase(bucketEnv, itbId) + CleanFilename(source.filename) + "#page=" + IntToString(source.pageNum)
    ensures r.Some? && source.pageNum == 0 ==> r.value == UrlBase(bucketEnv, itbId) + CleanFilename(source.filename)
  {
    if source.filename == "" || itbId == "" then None
    else
      var url := UrlBase(bucketEnv, itbId) + CleanFilename(source.filename);
      if source.pageNum != 0 then
        var fragment := "#page=" + CleanPageText(source.pageNum);
        Some(url + fragment)
      else
        Some(url)
  }

  /** The link of a one-line block's source leads to the file's own name. */
  lemma OneLineSourceUrl(source: Source, name: string, rest: string, itbId: string, bucketEnv: string)
    requires IsTrimmed(name) && name != "" && itbId != ""
    requires !Contains(name, HumanReadableKey) && !Contains(name, PageNumKey) && !Contains(name, SectionKey)
    requires source.filename == name + " " + HumanReadableKey + rest && source.pageNum == 0
    ensures BuildPdfUrl(source, itbId, bucketEnv) == Some(UrlBase(bucketEnv, itbId) + name)
  {
    CleanOneLineFilename(name, rest);
  }

  // ---------------------------------------------------------------------------
  // Name and icon

  /** `humanReadable || filename || 'Unknown source'`. */
  function DisplayName(source: Source): (r: string)
    ensures r != ""
    ensures source.humanReadable != "" ==> r == source.humanReadable
    ensures source.humanReadable == "" && source.filename != "" ==> r == source.filename
    ensures source.humanReadable == "" && source.filename == "" ==> r == UnknownSource
  {
    if source.humanReadable != "" then source.humanReadable
    else if source.filename != "" then source.filename
    else UnknownSource
  }

  /** `getSourceIcon`: by the lower-cased filename's extension. */
  function SourceIcon(filename: string): (icon: Icon)
    ensures icon == DrawingIcon <==> EndsWith(ToLower(filename), ".dwg")
    ensures icon == WordIcon <==>
      (!EndsWith(ToLower(filename), ".dwg") && (EndsWith(ToLower(filename), ".doc") || EndsWith(ToLower(filename), ".docx")))
    ensures icon == SheetIcon <==>
      (!EndsWith(ToLower(filename), ".doc") && !EndsWith(ToLower(filename), ".docx") &&
       (EndsWith(ToLower(filename), ".xls") || EndsWith(ToLower(filename), ".xlsx")))
  {
    var f := ToLower(filename);
    DistinctEndings(f);
    if EndsWith(f, ".pdf") then PageIcon
    else if EndsWith(f, ".dwg") then DrawingIcon
    else if EndsWith(f, ".doc") || EndsWith(f, ".docx") then WordIcon
    else if EndsWith(f, ".xls") || EndsWith(f, ".xlsx") then SheetIcon
    else PageIcon
  }

  /** A name ends in at most one of the extensions, so their order in
      `getSourceIcon` does not matter. */
  lemma DistinctEndings(f: string)
    ensures EndsWith(f, ".pdf") ==> !EndsWith(f, ".dwg") && !EndsWith(f, ".doc") && !EndsWith(f, ".docx") && !EndsWith(f, ".xls") && !EndsWith(f, ".xlsx")
    ensures EndsWith(f, ".dwg") ==> !EndsWith(f, ".doc") && !EndsWith(f, ".docx") && !EndsWith(f, ".xls") && !EndsWith(f, ".xlsx")
    ensures EndsWith(f, ".doc") || EndsWith(f, ".docx") ==> !EndsWith(f, ".xls") && !EndsWith(f, ".xlsx")
  {
    var n := |f|;
    if EndsWith(f, ".pdf") { assert f[n - 1] == 'f'; assert f[n - 3] == 'p'; }
    if EndsWith(f, ".dwg") { assert f[n - 1] == 'g'; assert f[n - 3] == 'd'; }
    if EndsWith(f, ".doc") { assert f[n - 1] == 'c'; }
    if EndsWith(f, ".docx") { assert f[n - 1] == 'x'; assert f[n - 2] == 'c'; }
    if EndsWith(f, ".xls") { assert f[n - 1] == 's'; }
    if EndsWith(f, ".xlsx") { assert f[n - 1] == 'x'; assert f[n - 2] == 's'; }
  }
}
