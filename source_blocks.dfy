/** What `parseSources` (lib/graphRag.ts) reads back from a metadata block
    written one `key: value` line per field: each field expression captures
    the value written on its own line. */
module SourceBlocks {
  import opened Wrappers
  import opened Text
  import opened JsNumber
  import opened Types
  import opened GraphRag

  /** One line of a block: `key: value` and a newline. */
  function FieldLine(key: string, value: string): string {
    key + ": " + value + "\n"
  }

  /** The block holding the lines `ls`, each a key and its value, in order. */
  function Block(ls: seq<(string, string)>): string {
    if ls == [] then [] else Block(ls[..|ls| - 1]) + FieldLine(ls[|ls| - 1].0, ls[|ls| - 1].1)
  }

  /** Where line `t` starts. */
  function Start(ls: seq<(string, string)>, t: nat): nat
    requires t <= |ls|
  {
    |Block(ls[..t])|
  }

  /** A key the field expressions can name: lower-case letters and `_`. */
  predicate IsKeyText(k: string) {
    k != "" && forall i :: 0 <= i < |k| ==> ('a' <= k[i] <= 'z' || k[i] == '_')
  }

  /** A value as a generator writes it: non-empty, trimmed, on one line and
      without a colon. */
  predicate PlainValue(v: string) {
    v != "" && IsTrimmed(v) && forall i :: 0 <= i < |v| ==> v[i] != '\n' && v[i] != ':'
  }

  predicate WellFormed(ls: seq<(string, string)>) {
    forall t :: 0 <= t < |ls| ==> IsKeyText(ls[t].0) && PlainValue(ls[t].1)
  }

  /** `k` ends `key`. */
  predicate IsSuffix(k: string, key: string) {
    |k| <= |key| && key[|key| - |k|..] == k
  }

  /** The lines before `t` make up the start of the block. */
  lemma {:induction false} BlockPrefix(ls: seq<(string, string)>, t: nat)
    requires t <= |ls|
    ensures Start(ls, t) <= |Block(ls)|
    ensures Block(ls)[..Start(ls, t)] == Block(ls[..t])
  {
    if t < |ls| {
      var init := ls[..|ls| - 1];
      assert ls[..t] == init[..t];
      BlockPrefix(init, t);
      assert Block(ls) == Block(init) + FieldLine(ls[|ls| - 1].0, ls[|ls| - 1].1);
    } else {
      assert ls[..t] == ls;
    }
  }

  /** Line `t` sits between `Start(ls, t)` and `Start(ls, t + 1)`. */
  lemma LineAt(ls: seq<(string, string)>, t: nat)
    requires t < |ls|
    ensures Start(ls, t + 1) == Start(ls, t) + |FieldLine(ls[t].0, ls[t].1)| <= |Block(ls)|
    ensures Block(ls)[Start(ls, t)..Start(ls, t + 1)] == FieldLine(ls[t].0, ls[t].1)
  {
    assert ls[..t + 1][..t] == ls[..t];
    assert Block(ls[..t + 1]) == Block(ls[..t]) + FieldLine(ls[t].0, ls[t].1);
    BlockPrefix(ls, t + 1);
  }

  /** Later lines start later. */
  lemma StartMono(ls: seq<(string, string)>, t: nat, u: nat)
    requires t <= u <= |ls|
    ensures Start(ls, t) <= Start(ls, u)
  {
    assert ls[..u][..t] == ls[..t];
    BlockPrefix(ls[..u], t);
  }

  /** Line `u` ends in a newline, just before line `u + 1` starts. */
  lemma NewlineBefore(ls: seq<(string, string)>, u: nat)
    requires u < |ls|
    ensures 0 < Start(ls, u + 1) <= |Block(ls)| && Block(ls)[Start(ls, u + 1) - 1] == '\n'
  {
    LineAt(ls, u);
    SliceEndsLine(Block(ls), Start(ls, u), Start(ls, u + 1), ls[u].0, ls[u].1);
  }

  /** A slice spelling a line ends in a newline. */
  lemma SliceEndsLine(m: string, a: nat, b: nat, key: string, value: string)
    requires a <= b <= |m| && m[a..b] == FieldLine(key, value)
    ensures 0 < b && m[b - 1] == '\n'
  {
    var line := FieldLine(key, value);
    assert |line| > 0 && line[|line| - 1] == '\n';
    SliceLast(m, a, b, line);
  }

  /** The last character of a slice spelling `w` is `w`'s last. */
  lemma SliceLast(m: string, a: nat, b: nat, w: string)
    requires a < b <= |m| && m[a..b] == w
    ensures m[b - 1] == w[|w| - 1]
  {
    assert m[b - 1] == m[a..b][b - 1 - a];
  }

  /** In a well-formed block the only colons follow the keys. */
  lemma {:induction false} ColonAt(ls: seq<(string, string)>, x: nat) returns (t: nat)
    requires WellFormed(ls)
    requires x < |Block(ls)| && Block(ls)[x] == ':'
    ensures t < |ls| && x == Start(ls, t) + |ls[t].0|
  {
    var init := ls[..|ls| - 1];
    var key, value := ls[|ls| - 1].0, ls[|ls| - 1].1;
    var line := FieldLine(key, value);
    assert Block(ls) == Block(init) + line;
    assert init == ls[..|ls| - 1];
    if x < |Block(init)| {
      assert Block(init)[x] == ':';
      t := ColonAt(init, x);
      assert ls[..t] == init[..t];
    } else {
      var i := x - |Block(init)|;
      assert line[i] == ':';
      LineColons(key, value);
      t := |ls| - 1;
    }
  }

  /** The one colon of a line follows its key. */
  lemma LineColons(key: string, value: string)
    requires IsKeyText(key) && PlainValue(value)
    ensures forall i :: 0 <= i < |FieldLine(key, value)| && FieldLine(key, value)[i] == ':' ==> i == |key|
  {
    var line := FieldLine(key, value);
    assert forall j :: 0 <= j < |key| ==> line[j] == key[j];
    assert forall j :: |key| + 2 <= j < |key| + 2 + |value| ==> line[j] == value[j - |key| - 2];
    assert line[|key| + 1] == ' ' && line[|line| - 1] == '\n';
  }

  /** Earlier lines start earlier. */
  lemma StartBelow(ls: seq<(string, string)>, t: nat, u: nat)
    requires t <= |ls| && u <= |ls|
    ensures Start(ls, t) < Start(ls, u) ==> t < u
  {
    if u <= t {
      StartMono(ls, u, t);
    }
  }

  /** Lower-casing keeps colons and newlines, and only makes them. */
  lemma LowerKeeps(c: char)
    ensures Lower(c) == ':' <==> c == ':'
    ensures Lower(c) == '\n' <==> c == '\n'
    ensures 'a' <= c <= 'z' || c == '_' ==> Lower(c) == c
  {
  }

  /** A key occurrence is followed by its colon. */
  lemma KeyAtColon(lm: string, k: string, q: nat)
    ensures KeyAt(lm, k, q) ==> q + |k| < |lm| && lm[q + |k|] == ':'
  {
    if KeyAt(lm, k, q) {
      assert lm[q..q + |k| + 1][|k|] == (k + ":")[|k|];
    }
  }

  /** A key occurrence spells the key. */
  lemma KeyAtSpells(lm: string, k: string, q: nat)
    ensures KeyAt(lm, k, q) ==> q + |k| <= |lm| && lm[q..q + |k|] == k
  {
    if KeyAt(lm, k, q) {
      assert lm[q..q + |k| + 1][..|k|] == lm[q..q + |k|];
      assert (k + ":")[..|k|] == k;
    }
  }

  /** A key holds no newline, so it does not sit across one. */
  lemma NotKeyAcrossNewline(lm: string, k: string, q: nat, p: nat)
    requires IsKeyText(k) && q <= p < q + |k| && p < |lm| && lm[p] == '\n'
    ensures !KeyAt(lm, k, q)
  {
    if q + |k| + 1 <= |lm| {
      assert lm[q..q + |k| + 1][p - q] == '\n' != (k + ":")[p - q];
    }
  }

  /** `lm` is `m` lower-cased, character by character. */
  predicate LowerOf(lm: string, m: string) {
    |lm| == |m| && forall i :: 0 <= i < |m| ==> lm[i] == Lower(m[i])
  }

  /** Line `t`'s key opens the line. */
  lemma KeyInBlock(ls: seq<(string, string)>, t: nat)
    requires t < |ls|
    ensures Start(ls, t) + |ls[t].0| <= |Block(ls)|
    ensures Block(ls)[Start(ls, t)..Start(ls, t) + |ls[t].0|] == ls[t].0
  {
    LineAt(ls, t);
    var a, key := Start(ls, t), ls[t].0;
    var line := Block(ls)[a..Start(ls, t + 1)];
    assert line[..|key|] == Block(ls)[a..a + |key|];
    assert FieldLine(key, ls[t].1)[..|key|] == key;
  }

  /** The end of a word inside a text is the end of that text's slice. */
  lemma SliceEnd(m: string, a: nat, w: string, n: nat)
    requires a + |w| <= |m| && m[a..a + |w|] == w && n <= |w|
    ensures m[a + |w| - n..a + |w|] == w[|w| - n..]
  {
    assert m[a + |w| - n..a + |w|] == m[a..a + |w|][|w| - n..];
  }

  /** Lower-casing leaves key text, and colons, as they are. */
  lemma LowerKeyText(lm: string, m: string, q: nat, w: string)
    requires LowerOf(lm, m) && q + |w| <= |m| && m[q..q + |w|] == w
    requires forall i :: 0 <= i < |w| ==> 'a' <= w[i] <= 'z' || w[i] == '_' || w[i] == ':'
    ensures lm[q..q + |w|] == w
  {
    forall i | 0 <= i < |w|
      ensures lm[q..q + |w|][i] == w[i]
    {
      assert m[q + i] == m[q..q + |w|][i];
      LowerKeeps(w[i]);
    }
  }

  /** A key that ends where a key `key` of the text ends is a suffix of it. */
  lemma NotKeyInsideKey(lm: string, m: string, a: nat, key: string, k: string, q: nat)
    requires LowerOf(lm, m) && IsKeyText(key)
    requires a + |key| <= |m| && m[a..a + |key|] == key
    requires |k| <= |key| && q + |k| == a + |key|
    requires !IsSuffix(k, key)
    ensures !KeyAt(lm, k, q)
  {
    SliceEnd(m, a, key, |k|);
    var suffix := key[|key| - |k|..];
    assert forall i :: 0 <= i < |suffix| ==> suffix[i] == key[|key| - |k| + i];
    LowerKeyText(lm, m, q, suffix);
    KeyAtSpells(lm, k, q);
  }

  /** A key that ends where line `t`'s key ends is a suffix of it. */
  lemma NotKeyInsideLine(ls: seq<(string, string)>, lm: string, t: nat, k: string, q: nat)
    requires t < |ls| && IsKeyText(ls[t].0) && LowerOf(lm, Block(ls))
    requires |k| <= |ls[t].0| && q + |k| == Start(ls, t) + |ls[t].0|
    requires !IsSuffix(k, ls[t].0)
    ensures !KeyAt(lm, k, q)
  {
    KeyInBlock(ls, t);
    NotKeyInsideKey(lm, Block(ls), Start(ls, t), ls[t].0, k, q);
  }

  /** A key running past the end of a line holds that line's newline. */
  lemma NotKeyPastLine(ls: seq<(string, string)>, lm: string, j: nat, k: string, q: nat)
    requires 0 < j <= |ls| && IsKeyText(k) && LowerOf(lm, Block(ls))
    requires q < Start(ls, j) <= q + |k|
    ensures !KeyAt(lm, k, q)
  {
    var m, p := Block(ls), Start(ls, j) - 1;
    assert p < |m| && m[p] == '\n' by {
      var u := j - 1;
      assert u + 1 == j;
      NewlineBefore(ls, u);
    }
    assert |lm| == |m|;
    assert lm[p] == '\n' by {
      assert lm[p] == Lower(m[p]);
      LowerKeeps(m[p]);
    }
    NotKeyAcrossNewline(lm, k, q, p);
  }

  /** A key ending at a colon before line `j` ends an earlier line's key. */
  lemma NotKeyAtColon(ls: seq<(string, string)>, lm: string, j: nat, k: string, q: nat)
    requires WellFormed(ls) && j < |ls| && IsKeyText(k) && LowerOf(lm, Block(ls))
    requires forall t :: 0 <= t < j ==> !IsSuffix(k, ls[t].0)
    requires q + |k| < Start(ls, j) && q + |k| < |Block(ls)| && Block(ls)[q + |k|] == ':'
    ensures !KeyAt(lm, k, q)
  {
    var t := ColonAt(ls, q + |k|);
    StartBelow(ls, t, j);
    if |k| <= |ls[t].0| {
      NotKeyInsideLine(ls, lm, t, k, q);
    } else {
      NotKeyPastLine(ls, lm, t, k, q);
    }
  }

  /** A key occurrence before line `j` would end at a line's colon. */
  lemma NotKeyBefore(ls: seq<(string, string)>, lm: string, j: nat, k: string, q: nat)
    requires WellFormed(ls) && j < |ls| && IsKeyText(k) && LowerOf(lm, Block(ls))
    requires forall t :: 0 <= t < j ==> !IsSuffix(k, ls[t].0)
    requires q < Start(ls, j)
    ensures !KeyAt(lm, k, q)
  {
    var x := q + |k|;
    if x < |lm| && lm[x] == ':' {
      var m := Block(ls);
      assert |lm| == |m|;
      assert m[x] == ':' by {
        assert lm[x] == Lower(m[x]);
        LowerKeeps(m[x]);
      }
      if x >= Start(ls, j) {
        NotKeyPastLine(ls, lm, j, k, q);
      } else {
        NotKeyAtColon(ls, lm, j, k, q);
      }
    } else {
      KeyAtColon(lm, k, q);
    }
  }

  /** No key of `keys` at `p`: the alternation matches nothing there. */
  lemma {:induction false} KeyHereNone(lm: string, keys: seq<string>, p: nat)
    requires forall i :: 0 <= i < |keys| ==> !KeyAt(lm, keys[i], p)
    ensures KeyHere(lm, keys, p).None?
  {
    if keys != [] {
      assert !KeyAt(lm, keys[0], p);
      assert forall i :: 0 <= i < |keys[1..]| ==> keys[1..][i] == keys[i + 1];
      KeyHereNone(lm, keys[1..], p);
    }
  }

  /** A line is its key and colon, then a space, its value and a newline. */
  lemma FieldLineParts(key: string, value: string)
    ensures FieldLine(key, value)[..|key| + 1] == key + ":"
    ensures FieldLine(key, value)[|key| + 1..] == " " + value + "\n"
  {
  }

  /** A slice of a text that spells `w` spells its parts too. */
  lemma SliceParts(m: string, a: nat, b: nat, w: string, n: nat)
    requires a <= b <= |m| && m[a..b] == w && n <= |w|
    ensures m[a..a + n] == w[..n] && m[a + n..b] == w[n..]
  {
    assert m[a..a + n] == m[a..b][..n];
    assert m[a + n..b] == m[a..b][n..];
  }

  /** Line `j`'s key, with its colon, opens the line. */
  lemma KeyColonInBlock(ls: seq<(string, string)>, j: nat)
    requires j < |ls|
    ensures var a := Start(ls, j);
      a + |ls[j].0| + 1 <= |Block(ls)| && Block(ls)[a..a + |ls[j].0| + 1] == ls[j].0 + ":"
  {
    var m, a, b := Block(ls), Start(ls, j), Start(ls, j + 1);
    var line := FieldLine(ls[j].0, ls[j].1);
    assert a <= b <= |m| && m[a..b] == line && |ls[j].0| + 1 <= |line| by { LineAt(ls, j); }
    FieldLineParts(ls[j].0, ls[j].1);
    SliceParts(m, a, b, line, |ls[j].0| + 1);
  }

  /** Line `j`'s key, with its colon, opens the line, in any letter case. */
  lemma KeyAtLine(ls: seq<(string, string)>, lm: string, j: nat)
    requires j < |ls| && IsKeyText(ls[j].0) && LowerOf(lm, Block(ls))
    ensures KeyAt(lm, ls[j].0, Start(ls, j))
  {
    KeyColonInBlock(ls, j);
    LowerKeyAt(lm, Block(ls), Start(ls, j), ls[j].0);
  }

  /** A key spelled with its colon in a text is found in its lower-cased copy. */
  lemma LowerKeyAt(lm: string, m: string, a: nat, key: string)
    requires LowerOf(lm, m) && IsKeyText(key)
    requires a + |key| + 1 <= |m| && m[a..a + |key| + 1] == key + ":"
    ensures KeyAt(lm, key, a)
  {
    KeyColonText(key);
    LowerKeyText(lm, m, a, key + ":");
  }

  /** A key and its colon use only the characters lower-casing leaves alone. */
  lemma KeyColonText(key: string)
    requires IsKeyText(key)
    ensures forall i :: 0 <= i < |key + ":"| ==> 'a' <= (key + ":")[i] <= 'z' || (key + ":")[i] == '_' || (key + ":")[i] == ':'
  {
    var w := key + ":";
    assert forall i :: 0 <= i < |w| ==> w[i] == if i < |key| then key[i] else ':';
  }

  /** After line `j`'s colon come a space, its value and a newline. */
  lemma ValueOfLine(ls: seq<(string, string)>, j: nat, c: nat)
    requires j < |ls| && c == Start(ls, j) + |ls[j].0| + 1
    ensures c + |ls[j].1| + 2 <= |Block(ls)| && Block(ls)[c..c + |ls[j].1| + 2] == " " + ls[j].1 + "\n"
  {
    var key, value := ls[j].0, ls[j].1;
    var line := FieldLine(key, value);
    var m, a, b := Block(ls), Start(ls, j), Start(ls, j + 1);
    assert b == a + |key| + 1 + |value| + 2 <= |m| && m[a..b] == line by { LineAt(ls, j); }
    assert line[|key| + 1..] == " " + value + "\n" by { FieldLineParts(key, value); }
    SliceParts(m, a, b, line, |key| + 1);
    assert c + |value| + 2 == b;
  }

  /** The alternation tries the keys in order. */
  lemma KeyHereFirst(lm: string, keys: seq<string>, p: nat)
    requires |keys| > 0 && KeyAt(lm, keys[0], p)
    ensures KeyHere(lm, keys, p) == Some(keys[0])
  {
  }

  /** The field expression captures what follows the first key it finds. */
  lemma FieldValueAt(m: string, keys: seq<string>, a: nat, c: nat)
    requires FirstKey(ToLower(m), keys, 0) == Some((a, c))
    ensures FieldValue(m, keys) == ValueAfter(m, c)
  {
  }

  /** The field expression for `keys`, the first of which is line `j`'s key,
      captures line `j`'s value when no key ends the key of an earlier line. */
  lemma FieldFromLine(ls: seq<(string, string)>, j: nat, keys: seq<string>)
    requires WellFormed(ls) && j < |ls|
    requires |keys| > 0 && keys[0] == ls[j].0
    requires forall i :: 0 <= i < |keys| ==> IsKeyText(keys[i])
    requires forall i, t :: 0 <= i < |keys| && 0 <= t < j ==> !IsSuffix(keys[i], ls[t].0)
    ensures FieldValue(Block(ls), keys) == ls[j].1
  {
    FieldValueOfBlock(ls, j, keys);
    ValueAfterColon(ls, j, Start(ls, j) + |keys[0]| + 1);
  }

  /** What follows line `j`'s colon reads back as its value. */
  lemma ValueAfterColon(ls: seq<(string, string)>, j: nat, c: nat)
    requires WellFormed(ls) && j < |ls| && c == Start(ls, j) + |ls[j].0| + 1
    ensures c <= |Block(ls)| && ValueAfter(Block(ls), c) == ls[j].1
  {
    ValueOfLine(ls, j, c);
    assert PlainValue(ls[j].1);
    ValueAfterLine(Block(ls), c, ls[j].1);
  }

  /** The field expression captures what follows line `j`'s colon. */
  lemma FieldValueOfBlock(ls: seq<(string, string)>, j: nat, keys: seq<string>)
    requires WellFormed(ls) && j < |ls|
    requires |keys| > 0 && keys[0] == ls[j].0
    requires forall i :: 0 <= i < |keys| ==> IsKeyText(keys[i])
    requires forall i, t :: 0 <= i < |keys| && 0 <= t < j ==> !IsSuffix(keys[i], ls[t].0)
    ensures Start(ls, j) + |keys[0]| + 1 <= |Block(ls)|
    ensures FieldValue(Block(ls), keys) == ValueAfter(Block(ls), Start(ls, j) + |keys[0]| + 1)
  {
    var m := Block(ls);
    LowerOfToLower(m);
    FirstKeyOfBlock(ls, ToLower(m), j, keys);
    FieldValueAt(m, keys, Start(ls, j), Start(ls, j) + |keys[0]| + 1);
  }

  /** The field expression's keys are first found where line `j` starts. */
  lemma FirstKeyOfBlock(ls: seq<(string, string)>, lm: string, j: nat, keys: seq<string>)
    requires WellFormed(ls) && j < |ls| && LowerOf(lm, Block(ls))
    requires |keys| > 0 && keys[0] == ls[j].0
    requires forall i :: 0 <= i < |keys| ==> IsKeyText(keys[i])
    requires forall i, t :: 0 <= i < |keys| && 0 <= t < j ==> !IsSuffix(keys[i], ls[t].0)
    ensures FirstKey(lm, keys, 0) == Some((Start(ls, j), Start(ls, j) + |keys[0]| + 1))
  {
    var a := Start(ls, j);
    NoKeyBeforeLine(ls, lm, j, keys);
    KeyAtLine(ls, lm, j);
    KeyHereFirst(lm, keys, a);
    FirstKeyAt(lm, keys, 0, a);
  }

  lemma LowerOfToLower(m: string)
    ensures LowerOf(ToLower(m), m)
  {
  }

  /** None of `keys` sits before line `j` when none ends an earlier line's key. */
  lemma NoKeyBeforeLine(ls: seq<(string, string)>, lm: string, j: nat, keys: seq<string>)
    requires WellFormed(ls) && j < |ls| && LowerOf(lm, Block(ls))
    requires forall i :: 0 <= i < |keys| ==> IsKeyText(keys[i])
    requires forall i, t :: 0 <= i < |keys| && 0 <= t < j ==> !IsSuffix(keys[i], ls[t].0)
    ensures forall q :: 0 <= q < Start(ls, j) ==> KeyHere(lm, keys, q).None?
  {
    forall q | 0 <= q < Start(ls, j)
      ensures KeyHere(lm, keys, q).None?
    {
      forall i | 0 <= i < |keys|
        ensures !KeyAt(lm, keys[i], q)
      {
        NotKeyBefore(ls, lm, j, keys[i], q);
      }
      KeyHereNone(lm, keys, q);
    }
  }

  /** The metadata block a generator writes for a source, one line per
      field in the order `parseSources` lists them. */
  function SourceBlock(f: string, h: string, n: string, s: string, x: string): seq<(string, string)> {
    [("filename", f), ("human_readable", h), ("page_num", n), ("sheet_number", s), ("section", x)]
  }

  /** `FirstKey` from `from` finds the first position holding a key. */
  lemma {:induction false} FirstKeyAt(lm: string, keys: seq<string>, from: nat, p: nat)
    requires from <= p < |lm| && KeyHere(lm, keys, p).Some?
    requires forall q :: from <= q < p ==> KeyHere(lm, keys, q).None?
    ensures FirstKey(lm, keys, from) == Some((p, p + |KeyHere(lm, keys, p).value| + 1))
    decreases p - from
  {
    if from < p {
      FirstKeyAt(lm, keys, from + 1, p);
    }
  }

  /** The text up to a newline that `v` does not hold is `v`. */
  lemma {:induction false} TakeUntilNewline(v: string, rest: string)
    requires forall i :: 0 <= i < |v| ==> v[i] != '\n'
    ensures TakeUntil(v + "\n" + rest, '\n') == v
  {
    if v != [] {
      assert (v + "\n" + rest)[1..] == v[1..] + "\n" + rest;
      TakeUntilNewline(v[1..], rest);
    }
  }

  /** After a colon, a space, a plain value and a newline, the capture is
      the value. */
  lemma ValueAfterLine(m: string, c: nat, v: string)
    requires PlainValue(v)
    requires c + |v| + 2 <= |m| && m[c..c + |v| + 2] == " " + v + "\n"
    ensures ValueAfter(m, c) == v
  {
    assert m[c..][0] == ' ' && m[c..][1..] == m[c + 1..];
    assert m[c + 1..][0] == v[0];
    assert LeadingWs(m[c..]) == 1;
    assert m[c + 1..] == v + "\n" + m[c + |v| + 2..];
    TakeUntilNewline(v, m[c + |v| + 2..]);
    TrimTrimmed(v);
  }
  /** A source block spelled out. */
  lemma SourceBlockText(f: string, h: string, n: string, s: string, x: string)
    ensures Block(SourceBlock(f, h, n, s, x))
      == FieldLine("filename", f) + FieldLine("human_readable", h) + FieldLine("page_num", n)
        + FieldLine("sheet_number", s) + FieldLine("section", x)
  {
    var ls := SourceBlock(f, h, n, s, x);
    var b1 := Block(ls[..1]);
    assert b1 == FieldLine("filename", f) by {
      assert ls[..1] == [("filename", f)];
      assert Block([]) == [];
    }
    var b2 := Block(ls[..2]);
    assert b2 == b1 + FieldLine("human_readable", h) by {
      assert ls[..2][..1] == ls[..1];
    }
    var b3 := Block(ls[..3]);
    assert b3 == b2 + FieldLine("page_num", n) by {
      assert ls[..3][..2] == ls[..2];
    }
    var b4 := Block(ls[..4]);
    assert b4 == b3 + FieldLine("sheet_number", s) by {
      assert ls[..4][..3] == ls[..3];
    }
    assert Block(ls) == b4 + FieldLine("section", x);
  }

  /** The keys of the field expressions are key text. */
  lemma KeysAreKeyText()
    ensures IsKeyText("filename") && IsKeyText("document_id") && IsKeyText("human_readable")
    ensures IsKeyText("page_num") && IsKeyText("page_number") && IsKeyText("sheet_number")
    ensures IsKeyText("section")
  {
  }

  /** A source block is well formed when its values are plain. */
  lemma SourceBlockWellFormed(f: string, h: string, n: string, s: string, x: string)
    requires PlainValue(f) && PlainValue(h) && PlainValue(n) && PlainValue(s) && PlainValue(x)
    ensures WellFormed(SourceBlock(f, h, n, s, x))
  {
    KeysAreKeyText();
  }

  /** No page key ends the filename or human-readable key. */
  lemma PageKeysSuffixFree(f: string, h: string, n: string, s: string, x: string)
    ensures var ls := SourceBlock(f, h, n, s, x);
      forall i, t :: 0 <= i < |PageKeys| && 0 <= t < 2 ==> !IsSuffix(PageKeys[i], ls[t].0)
  {
    assert "filename"[0] != "page_num"[0];
    assert "human_readable"[6] != "page_num"[0];
    assert "human_readable"[3] != "page_number"[0];
  }

  /** The sheet key ends none of the keys before it. */
  lemma SheetKeysSuffixFree(f: string, h: string, n: string, s: string, x: string)
    ensures var ls := SourceBlock(f, h, n, s, x);
      forall i, t :: 0 <= i < |SheetKeys| && 0 <= t < 3 ==> !IsSuffix(SheetKeys[i], ls[t].0)
  {
    assert "human_readable"[2] != "sheet_number"[0];
  }

  /** The section key ends none of the keys before it. */
  lemma SectionKeysSuffixFree(f: string, h: string, n: string, s: string, x: string)
    ensures var ls := SourceBlock(f, h, n, s, x);
      forall i, t :: 0 <= i < |SectionKeys| && 0 <= t < 4 ==> !IsSuffix(SectionKeys[i], ls[t].0)
  {
    assert "filename"[1] != "section"[0];
    assert "human_readable"[7] != "section"[0];
    assert "page_num"[1] != "section"[0];
    assert "sheet_number"[5] != "section"[0];
  }

  lemma FilenameOfBlock(f: string, h: string, n: string, s: string, x: string)
    requires PlainValue(f) && PlainValue(h) && PlainValue(n) && PlainValue(s) && PlainValue(x)
    ensures FieldValue(Block(SourceBlock(f, h, n, s, x)), FilenameKeys) == f
  {
    var ls := SourceBlock(f, h, n, s, x);
    assert forall i :: 0 <= i < |FilenameKeys| ==> IsKeyText(FilenameKeys[i]) by {
      KeysAreKeyText();
    }
    assert WellFormed(ls) by {
      SourceBlockWellFormed(f, h, n, s, x);
    }
    FieldFromLine(ls, 0, FilenameKeys);
  }

  lemma HumanReadableOfBlock(f: string, h: string, n: string, s: string, x: string)
    requires PlainValue(f) && PlainValue(h) && PlainValue(n) && PlainValue(s) && PlainValue(x)
    ensures FieldValue(Block(SourceBlock(f, h, n, s, x)), HumanReadableKeys) == h
  {
    var ls := SourceBlock(f, h, n, s, x);
    assert forall i, t :: 0 <= i < |HumanReadableKeys| && 0 <= t < 1 ==> !IsSuffix(HumanReadableKeys[i], ls[t].0);
    assert forall i :: 0 <= i < |HumanReadableKeys| ==> IsKeyText(HumanReadableKeys[i]) by {
      KeysAreKeyText();
    }
    assert WellFormed(ls) by {
      SourceBlockWellFormed(f, h, n, s, x);
    }
    FieldFromLine(ls, 1, HumanReadableKeys);
  }

  lemma PageOfBlock(f: string, h: string, n: string, s: string, x: string)
    requires PlainValue(f) && PlainValue(h) && PlainValue(n) && PlainValue(s) && PlainValue(x)
    ensures FieldValue(Block(SourceBlock(f, h, n, s, x)), PageKeys) == n
  {
    var ls := SourceBlock(f, h, n, s, x);
    PageKeysSuffixFree(f, h, n, s, x);
    assert forall i :: 0 <= i < |PageKeys| ==> IsKeyText(PageKeys[i]) by {
      KeysAreKeyText();
    }
    assert WellFormed(ls) by {
      SourceBlockWellFormed(f, h, n, s, x);
    }
    FieldFromLine(ls, 2, PageKeys);
  }

  lemma SheetOfBlock(f: string, h: string, n: string, s: string, x: string)
    requires PlainValue(f) && PlainValue(h) && PlainValue(n) && PlainValue(s) && PlainValue(x)
    ensures FieldValue(Block(SourceBlock(f, h, n, s, x)), SheetKeys) == s
  {
    var ls := SourceBlock(f, h, n, s, x);
    SheetKeysSuffixFree(f, h, n, s, x);
    assert forall i :: 0 <= i < |SheetKeys| ==> IsKeyText(SheetKeys[i]) by {
      KeysAreKeyText();
    }
    assert WellFormed(ls) by {
      SourceBlockWellFormed(f, h, n, s, x);
    }
    FieldFromLine(ls, 3, SheetKeys);
  }

  lemma SectionOfBlock(f: string, h: string, n: string, s: string, x: string)
    requires PlainValue(f) && PlainValue(h) && PlainValue(n) && PlainValue(s) && PlainValue(x)
    ensures FieldValue(Block(SourceBlock(f, h, n, s, x)), SectionKeys) == x
  {
    var ls := SourceBlock(f, h, n, s, x);
    SectionKeysSuffixFree(f, h, n, s, x);
    assert forall i :: 0 <= i < |SectionKeys| ==> IsKeyText(SectionKeys[i]) by {
      KeysAreKeyText();
    }
    assert WellFormed(ls) by {
      SourceBlockWellFormed(f, h, n, s, x);
    }
    FieldFromLine(ls, 4, SectionKeys);
  }

  /** Every field of a source block is read back: the names as written, the
      page and sheet numbers as `parseInt` reads them. */
  lemma SourceOfBlock(f: string, h: string, n: string, s: string, x: string)
    requires PlainValue(f) && PlainValue(h) && PlainValue(n) && PlainValue(s) && PlainValue(x)
    ensures SourceOf(Block(SourceBlock(f, h, n, s, x)))
      == Source(f, h, ParseInt(n).GetOr(0), ParseInt(s).GetOr(0), x)
  {
    FilenameOfBlock(f, h, n, s, x);
    HumanReadableOfBlock(f, h, n, s, x);
    PageOfBlock(f, h, n, s, x);
    SheetOfBlock(f, h, n, s, x);
    SectionOfBlock(f, h, n, s, x);
  }
}
