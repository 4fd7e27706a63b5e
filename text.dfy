/** The JavaScript string operations the application relies on (`includes`,
    `startsWith`, `trim`, `split(sep)[0]`, `join`, `toLowerCase`, number to
    string and back), each given a definition and, where the definition is
    recursive, a characterisation that does not depend on how it is computed. */
module Text {
  import opened Wrappers

  /** ECMAScript WhiteSpace and LineTerminator code points: exactly what the
      regular-expression class `\s` matches and what `trim` removes. */
  predicate IsWhitespace(c: char) {
    || c == '\t' || c == '\n' || c == '\U{000B}' || c == '\U{000C}' || c == '\r'
    || c == ' ' || c == '\U{00A0}' || c == '\U{1680}' || ('\U{2000}' <= c <= '\U{200A}')
    || c == '\U{2028}' || c == '\U{2029}' || c == '\U{202F}' || c == '\U{205F}'
    || c == '\U{3000}' || c == '\U{FEFF}'
  }

  /** What `\d` matches. */
  predicate IsDigit(c: char) {
    '0' <= c <= '9'
  }

  /** What `[a-zA-Z0-9]` matches. */
  predicate IsAlphanumeric(c: char) {
    IsDigit(c) || 'a' <= c <= 'z' || 'A' <= c <= 'Z'
  }

  predicate AllDigits(s: string) {
    forall i :: 0 <= i < |s| ==> IsDigit(s[i])
  }

  function Lower(c: char): char {
    if 'A' <= c <= 'Z' then (c as int + 32) as char else c
  }

  function Upper(c: char): char {
    if 'a' <= c <= 'z' then (c as int - 32) as char else c
  }

  /** `toLowerCase`, on the ASCII letters. */
  function ToLower(s: string): (r: string)
    ensures |r| == |s|
    ensures forall i :: 0 <= i < |s| ==> r[i] == Lower(s[i])
  {
    seq(|s|, i requires 0 <= i < |s| => Lower(s[i]))
  }

  // ---------------------------------------------------------------------------
  // Substring search

  /** `t` occurs in `s` starting at index `i`. */
  predicate OccursAt(s: string, t: string, i: int) {
    0 <= i && i + |t| <= |s| && s[i..i + |t|] == t
  }

  /** `s.indexOf(t, from)`: the first occurrence of `t` at or after `from`. */
  function IndexOfFrom(s: string, t: string, from: nat): (r: Option<nat>)
    ensures r.Some? ==> from <= r.value && OccursAt(s, t, r.value)
    ensures r.Some? ==> forall j :: from <= j < r.value ==> !OccursAt(s, t, j)
    ensures r.None? ==> forall j :: from <= j ==> !OccursAt(s, t, j)
    decreases |s| - from
  {
    if from + |t| > |s| then None
    else if s[from..from + |t|] == t then Some(from)
    else IndexOfFrom(s, t, from + 1)
  }

  /** `s.includes(t)`. */
  predicate Contains(s: string, t: string)
    ensures Contains(s, t) <==> exists i :: OccursAt(s, t, i)
  {
    IndexOfFrom(s, t, 0).Some?
  }

  /** An occurrence inside a slice is an occurrence in the whole string. */
  lemma ContainsSlice(s: string, t: string, a: nat, b: nat)
    requires a <= b <= |s|
    requires Contains(s[a..b], t)
    ensures Contains(s, t)
  {
    var i :| OccursAt(s[a..b], t, i);
    forall k | 0 <= k < |t| ensures s[a + i..a + i + |t|][k] == t[k] {
      assert s[a + i + k] == s[a..b][i + k];
    }
    assert s[a + i..a + i + |t|] == t;
    assert OccursAt(s, t, a + i);
  }

  /** An occurrence inside one operand is an occurrence in the concatenation. */
  lemma ContainsConcat(a: string, b: string, t: string)
    requires Contains(a, t) || Contains(b, t)
    ensures Contains(a + b, t)
  {
    var s := a + b;
    if Contains(a, t) {
      assert s[..|a|] == a;
      ContainsSlice(s, t, 0, |a|);
    } else {
      assert s[|a|..|s|] == b;
      ContainsSlice(s, t, |a|, |s|);
    }
  }

  predicate StartsWith(s: string, p: string) {
    |p| <= |s| && s[..|p|] == p
  }

  predicate EndsWith(s: string, p: string) {
    |p| <= |s| && s[|s| - |p|..] == p
  }

  /** `s.split(sep)[0]` for a non-empty separator: everything before the first
      occurrence of `sep`, or all of `s` when there is none. */
  function BeforeFirst(s: string, sep: string): (r: string)
    requires |sep| > 0
    ensures StartsWith(s, r)
    ensures !Contains(r, sep)
    ensures Contains(s, sep) ==> OccursAt(s, sep, |r|)
    ensures !Contains(s, sep) ==> r == s
  {
    match IndexOfFrom(s, sep, 0)
    case Some(i) =>
      assert forall j :: OccursAt(s[..i], sep, j) ==> OccursAt(s, sep, j) by {
        forall j | OccursAt(s[..i], sep, j) ensures OccursAt(s, sep, j) {
          assert s[j..j + |sep|] == s[..i][j..j + |sep|];
        }
      }
      s[..i]
    case None => s
  }

  /** Everything before the first occurrence of the character `c`. */
  function TakeUntil(s: string, c: char): (r: string)
    ensures StartsWith(s, r)
    ensures forall i :: 0 <= i < |r| ==> r[i] != c
    ensures |r| < |s| ==> s[|r|] == c
  {
    if s == [] || s[0] == c then []
    else
      var t := TakeUntil(s[1..], c);
      var r := [s[0]] + t;
      assert forall i :: 1 <= i < |r| ==> r[i] == t[i - 1];
      r
  }

  // ---------------------------------------------------------------------------
  // trim

  /** Number of whitespace characters at the start of `s`. */
  function LeadingWs(s: string): (n: nat)
    ensures n <= |s|
    ensures forall i :: 0 <= i < n ==> IsWhitespace(s[i])
    ensures n < |s| ==> !IsWhitespace(s[n])
  {
    if s == [] || !IsWhitespace(s[0]) then 0 else 1 + LeadingWs(s[1..])
  }

  /** Number of whitespace characters at the end of `s`. */
  function TrailingWs(s: string): (n: nat)
    ensures n <= |s|
    ensures forall i :: |s| - n <= i < |s| ==> IsWhitespace(s[i])
    ensures n < |s| ==> !IsWhitespace(s[|s| - n - 1])
  {
    if s == [] || !IsWhitespace(s[|s| - 1]) then 0 else 1 + TrailingWs(s[..|s| - 1])
  }

  /** Neither starts nor ends with whitespace. */
  predicate IsTrimmed(s: string) {
    s == [] || (!IsWhitespace(s[0]) && !IsWhitespace(s[|s| - 1]))
  }

  /** `s` is `r` with whitespace before index `a` and after index `a + |r|`. */
  predicate PaddedAt(s: string, r: string, a: int) {
    && 0 <= a <= |s| - |r| && s[a..a + |r|] == r
    && (forall i :: 0 <= i < a ==> IsWhitespace(s[i]))
    && (forall i :: a + |r| <= i < |s| ==> IsWhitespace(s[i]))
  }

  /** `s.trim()`: the slice of `s` left after dropping whitespace at both ends. */
  function Trim(s: string): (r: string)
    ensures IsTrimmed(r)
    ensures exists a :: PaddedAt(s, r, a)
    decreases |s|
  {
    if s != [] && IsWhitespace(s[0]) then
      var r := Trim(s[1..]);
      var a :| PaddedAt(s[1..], r, a);
      PaddedFront(s, r, a);
      r
    else if s != [] && IsWhitespace(s[|s| - 1]) then
      var r := Trim(s[..|s| - 1]);
      var a :| PaddedAt(s[..|s| - 1], r, a);
      PaddedBack(s, r, a);
      r
    else
      assert PaddedAt(s, s, 0);
      s
  }

  /** Trimming keeps out a character the string does not hold. */
  lemma TrimKeepsOut(s: string, c: char)
    requires c !in s
    ensures c !in Trim(s)
  {
    var v := Trim(s);
    var a :| PaddedAt(s, v, a);
    forall i | 0 <= i < |v|
      ensures v[i] != c
    {
      assert v[i] == s[a + i];
    }
  }

  /** Whitespace in front of a padded string pads it further. */
  lemma PaddedFront(s: string, r: string, a: int)
    requires s != [] && IsWhitespace(s[0]) && PaddedAt(s[1..], r, a)
    ensures PaddedAt(s, r, a + 1)
  {
    assert s[a + 1..a + 1 + |r|] == s[1..][a..a + |r|];
    forall i | 0 <= i < a + 1
      ensures IsWhitespace(s[i])
    {
      if i > 0 {
        assert s[i] == s[1..][i - 1];
      }
    }
    forall i | a + 1 + |r| <= i < |s|
      ensures IsWhitespace(s[i])
    {
      assert s[i] == s[1..][i - 1];
    }
  }

  /** Whitespace behind a padded string pads it further. */
  lemma PaddedBack(s: string, r: string, a: int)
    requires s != [] && IsWhitespace(s[|s| - 1]) && PaddedAt(s[..|s| - 1], r, a)
    ensures PaddedAt(s, r, a)
  {
    assert s[a..a + |r|] == s[..|s| - 1][a..a + |r|];
    forall i | 0 <= i < a
      ensures IsWhitespace(s[i])
    {
      assert s[i] == s[..|s| - 1][i];
    }
    forall i | a + |r| <= i < |s|
      ensures IsWhitespace(s[i])
    {
      if i < |s| - 1 {
        assert s[i] == s[..|s| - 1][i];
      }
    }
  }

  /** A string without whitespace at either end is its own trim. */
  lemma TrimTrimmed(s: string)
    requires IsTrimmed(s)
    ensures Trim(s) == s
  {
  }

  /** A string trims to empty exactly when it is all whitespace. */
  lemma {:induction false} TrimEmptyIff(s: string)
    ensures Trim(s) == [] <==> forall i :: 0 <= i < |s| ==> IsWhitespace(s[i])
    decreases |s|
  {
    if s != [] && IsWhitespace(s[0]) {
      TrimEmptyIff(s[1..]);
      assert forall i :: 1 <= i < |s| ==> s[i] == s[1..][i - 1];
    } else if s != [] && IsWhitespace(s[|s| - 1]) {
      TrimEmptyIff(s[..|s| - 1]);
    }
  }

  /** `value.trim()` is falsy in the source: the string is blank. */
  predicate IsBlank(s: string) {
    Trim(s) == []
  }

  // ---------------------------------------------------------------------------
  // join

  /** `parts.join(sep)`. */
  function Join(parts: seq<string>, sep: string): (r: string)
    ensures |parts| == 1 ==> r == parts[0]
  {
    if parts == [] then []
    else if |parts| == 1 then parts[0]
    else parts[0] + sep + Join(parts[1..], sep)
  }

  /** Joining one more part at the end. */
  lemma JoinSnoc(parts: seq<string>, p: string, sep: string)
    requires parts != []
    ensures Join(parts + [p], sep) == Join(parts, sep) + sep + p
  {
    if |parts| == 1 {
      assert parts + [p] == [parts[0], p];
    } else {
      assert (parts + [p])[1..] == parts[1..] + [p];
      JoinSnoc(parts[1..], p, sep);
    }
  }

  // ---------------------------------------------------------------------------
  // split

  /** `s.split(c)` for a one-character separator: the pieces between the
      separators, empty ones included; joining them back gives `s`. */
  function Split(s: string, c: char): (r: seq<string>)
    ensures |r| >= 1
    ensures forall k :: 0 <= k < |r| ==> c !in r[k]
    ensures Join(r, [c]) == s
    decreases |s|
  {
    var head := TakeUntil(s, c);
    if |head| == |s| then
      assert head == s;
      [s]
    else
      var rest := Split(s[|head| + 1..], c);
      var r := [head] + rest;
      assert r[1..] == rest;
      assert s == head + [c] + s[|head| + 1..];
      r
  }

  /** The part before the first separator of `a + [c] + b` is `a`. */
  lemma TakeUntilJoined(a: string, c: char, b: string)
    requires c !in a
    ensures TakeUntil(a + [c] + b, c) == a
  {
    var s := a + [c] + b;
    var r := TakeUntil(s, c);
    assert forall i :: 0 <= i < |a| ==> s[i] == a[i];
    assert s[|a|] == c;
    assert |r| == |a|;
  }

  /** Splitting undoes joining, for pieces that do not hold the separator. */
  lemma {:induction false} SplitJoin(pieces: seq<string>, c: char)
    requires pieces != []
    requires forall k :: 0 <= k < |pieces| ==> c !in pieces[k]
    ensures Split(Join(pieces, [c]), c) == pieces
  {
    if |pieces| > 1 {
      var rest := Join(pieces[1..], [c]);
      assert Join(pieces, [c]) == pieces[0] + [c] + rest;
      TakeUntilJoined(pieces[0], c, rest);
      assert (pieces[0] + [c] + rest)[|pieces[0]| + 1..] == rest;
      SplitJoin(pieces[1..], c);
    }
  }

  // ---------------------------------------------------------------------------
  // Numbers as decimal text

  function DigitChar(d: nat): (c: char)
    requires d < 10
    ensures IsDigit(c)
  {
    ('0' as int + d) as char
  }

  function DigitValue(c: char): (d: nat)
    requires IsDigit(c)
    ensures d < 10 && DigitChar(d) == c
  {
    c as int - '0' as int
  }

  /** The number a non-empty string of decimal digits denotes. */
  function DigitsValue(ds: string): (v: nat)
    requires AllDigits(ds)
  {
    if ds == [] then 0 else 10 * DigitsValue(ds[..|ds| - 1]) + DigitValue(ds[|ds| - 1])
  }

  /** `n.toString()` for a natural number. */
  function NatToString(n: nat): (r: string)
    ensures |r| > 0 && AllDigits(r)
    ensures DigitsValue(r) == n
    ensures r[0] == '0' ==> n == 0 && r == "0"
  {
    if n < 10 then [DigitChar(n)]
    else
      var p := NatToString(n / 10);
      var r := p + [DigitChar(n % 10)];
      assert r[..|r| - 1] == p;
      r
  }

  /** `i.toString()` for an integer. */
  function IntToString(i: int): (r: string)
    ensures |r| > 0
    ensures i >= 0 ==> r == NatToString(i)
    ensures i < 0 ==> r == "-" + NatToString(-i)
  {
    if i < 0 then "-" + NatToString(-i) else NatToString(i)
  }

  // ---------------------------------------------------------------------------
  // Code-unit order on strings, as `Array.prototype.sort()` uses it

  /** `a` sorts no later than `b` in lexicographic character order. */
  predicate LexLe(a: string, b: string) {
    a == [] || (b != [] && (a[0] < b[0] || (a[0] == b[0] && LexLe(a[1..], b[1..]))))
  }

  lemma {:induction false} LexLeTotal(a: string, b: string)
    ensures LexLe(a, b) || LexLe(b, a)
  {
    if a != [] && b != [] && a[0] == b[0] {
      LexLeTotal(a[1..], b[1..]);
    }
  }

  lemma {:induction false} LexLeTrans(a: string, b: string, c: string)
    requires LexLe(a, b) && LexLe(b, c)
    ensures LexLe(a, c)
  {
    if a != [] && b != [] && c != [] && a[0] == b[0] && b[0] == c[0] {
      LexLeTrans(a[1..], b[1..], c[1..]);
    }
  }

  lemma {:induction false} LexLeAntisym(a: string, b: string)
    requires LexLe(a, b) && LexLe(b, a)
    ensures a == b
  {
    if a != [] && b != [] {
      LexLeAntisym(a[1..], b[1..]);
      assert a == [a[0]] + a[1..];
      assert b == [b[0]] + b[1..];
    }
  }
}
