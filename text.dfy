/** Character classes and string helpers shared by the parser, the query builder and the
    view models. Strings are `seq<char>`; only ASCII case mapping is modelled (see README,
    "Left out"). */
module Text {
  import opened Filtering

  /** `\d` */
  predicate IsDigit(c: char) { '0' <= c <= '9' }

  /** `[A-Z]` */
  predicate IsUpper(c: char) { 'A' <= c <= 'Z' }

  /** The characters `\w` matches and `\b` separates from the rest. */
  predicate IsWordChar(c: char) {
    IsDigit(c) || IsUpper(c) || ('a' <= c <= 'z') || c == '_'
  }

  /** `\s`: space, tab, line feed, vertical tab, form feed, carriage return. */
  predicate IsSpace(c: char) {
    c == ' ' || c == '\t' || c == '\n' || c == '\U{B}' || c == '\U{C}' || c == '\r'
  }

  /** Kotlin's `Char.isWhitespace()`, which `trim()` and `isBlank()` use: the ASCII controls
      tab to carriage return and U+001C to U+001F, and the Unicode space, line and paragraph
      separators. */
  predicate IsWhitespace(c: char) {
    || c == ' ' || ('\t' <= c <= '\r') || ('\U{1C}' <= c <= '\U{1F}')
    || c == '\U{A0}' || c == '\U{1680}' || ('\U{2000}' <= c <= '\U{200A}')
    || c == '\U{2028}' || c == '\U{2029}' || c == '\U{202F}' || c == '\U{205F}' || c == '\U{3000}'
  }

  /** Every character `\s` matches is white space to Kotlin, not the other way round. */
  lemma SpaceIsWhitespace(c: char)
    ensures IsSpace(c) ==> IsWhitespace(c)
    ensures !IsSpace('\U{1F}') && IsWhitespace('\U{1F}')
  {
  }

  predicate NotSpace(c: char) { !IsSpace(c) }

  predicate AllDigits(s: seq<char>) { forall i :: 0 <= i < |s| ==> IsDigit(s[i]) }

  predicate AllUpper(s: seq<char>) { forall i :: 0 <= i < |s| ==> IsUpper(s[i]) }

  /** `CharSequence.isBlank()`, also true of the empty string. */
  predicate IsBlank(s: seq<char>) { forall i :: 0 <= i < |s| ==> IsWhitespace(s[i]) }

  /** No white space at either end. */
  predicate Trimmed(s: seq<char>) { s != [] ==> !IsWhitespace(s[0]) && !IsWhitespace(s[|s| - 1]) }

  /** No two white-space characters next to each other. */
  predicate NoDoubleSpace(s: seq<char>) {
    forall i :: 0 <= i < |s| - 1 ==> !(IsSpace(s[i]) && IsSpace(s[i + 1]))
  }

  function LowerChar(c: char): char {
    if IsUpper(c) then (c as int + 32) as char else c
  }

  /** `String.lowercase()` on ASCII letters. */
  function Lower(s: seq<char>): (r: seq<char>)
    ensures |r| == |s|
    ensures forall i :: 0 <= i < |s| ==> r[i] == LowerChar(s[i])
  {
    if s == [] then [] else [LowerChar(s[0])] + Lower(s[1..])
  }

  /** `a.equals(b, ignoreCase = true)` on ASCII letters. */
  predicate EqualsIgnoreCase(a: seq<char>, b: seq<char>) {
    Lower(a) == Lower(b)
  }

  /** `list.joinToString(sep)`. */
  function Join(parts: seq<seq<char>>, sep: seq<char>): seq<char> {
    if parts == [] then []
    else if |parts| == 1 then parts[0]
    else parts[0] + sep + Join(parts[1..], sep)
  }

  /** The parts written one after another. */
  function Concat(parts: seq<seq<char>>): seq<char> {
    if parts == [] then [] else parts[0] + Concat(parts[1..])
  }

  /** Joining with the empty separator writes the parts one after another. */
  lemma {:induction false} JoinNoSeparator(parts: seq<seq<char>>)
    ensures Join(parts, []) == Concat(parts)
    decreases |parts|
  {
    if |parts| > 1 {
      JoinNoSeparator(parts[1..]);
    } else if |parts| == 1 {
      assert Concat(parts[1..]) == [];
    }
  }

  /** Appending a part to a non-empty list appends the separator and the part to the string. */
  lemma {:induction false} JoinSnoc(parts: seq<seq<char>>, x: seq<char>, sep: seq<char>)
    requires parts != []
    ensures Join(parts + [x], sep) == Join(parts, sep) + sep + x
    decreases |parts|
  {
    if |parts| == 1 {
      assert parts + [x] == [parts[0], x];
      assert [parts[0], x][1..] == [x];
    } else {
      assert (parts + [x])[1..] == parts[1..] + [x];
      JoinSnoc(parts[1..], x, sep);
    }
  }

  /** The position of the first `c` in `s`. */
  function FirstIndex(s: seq<char>, c: char): (i: nat)
    requires c in s
    ensures i < |s| && s[i] == c && c !in s[..i]
  {
    if s[0] == c then 0 else 1 + FirstIndex(s[1..], c)
  }

  /** `split(c)`: the pieces between the occurrences of `c`, at least one. */
  function Split(s: seq<char>, c: char): (pieces: seq<seq<char>>)
    ensures pieces != []
    ensures forall k :: 0 <= k < |pieces| ==> c !in pieces[k]
    decreases |s|
  {
    if c !in s then [s]
    else
      var i := FirstIndex(s, c);
      [s[..i]] + Split(s[i + 1..], c)
  }

  /** Splitting at the separator gives back the joined parts, when none of them holds it. */
  lemma {:induction false} SplitJoin(parts: seq<seq<char>>, c: char)
    ensures parts != [] && (forall k :: 0 <= k < |parts| ==> c !in parts[k]) ==>
      Split(Join(parts, [c]), c) == parts
    decreases |parts|
  {
    if |parts| > 1 && forall k :: 0 <= k < |parts| ==> c !in parts[k] {
      assert forall k :: 0 <= k < |parts| - 1 ==> c !in parts[1..][k];
      var s := Join(parts, [c]);
      assert s == parts[0] + [c] + Join(parts[1..], [c]);
      assert s[|parts[0]|] == c;
      assert s[..|parts[0]|] == parts[0];
      assert FirstIndex(s, c) == |parts[0]|;
      assert s[|parts[0]| + 1..] == Join(parts[1..], [c]);
      SplitJoin(parts[1..], c);
    }
  }

  function DigitChar(d: nat): char
    requires d < 10
  {
    ('0' as int + d) as char
  }

  /** The number a string of decimal digits denotes, most significant digit first. */
  function DigitsValue(s: seq<char>): nat
    requires AllDigits(s)
  {
    if s == [] then 0 else DigitsValue(s[..|s| - 1]) * 10 + (s[|s| - 1] as int - '0' as int)
  }

  /** The decimal digits of `n`, with no leading zero. */
  function NatToString(n: nat): (r: seq<char>)
    ensures r != [] && AllDigits(r)
    ensures DigitsValue(r) == n
    ensures r[0] == '0' ==> r == "0"
  {
    if n < 10 then [DigitChar(n)]
    else
      var r := NatToString(n / 10) + [DigitChar(n % 10)];
      assert r[..|r| - 1] == NatToString(n / 10);
      r
  }

  /** Kotlin's string template `"$n"` for an `Int`. */
  function IntToString(n: int): (r: seq<char>)
    ensures n >= 0 ==> AllDigits(r) && DigitsValue(r) == n
    ensures n < 0 ==> |r| >= 2 && r[0] == '-' && AllDigits(r[1..]) && DigitsValue(r[1..]) == -n
  {
    if n < 0 then
      var r := "-" + NatToString(-n);
      assert r[1..] == NatToString(-n);
      r
    else NatToString(n)
  }

  /** Drops the white space at the front; what it drops is blank. */
  function TrimStart(s: seq<char>): (r: seq<char>)
    ensures r != [] ==> !IsWhitespace(r[0])
    ensures |r| <= |s| && r == s[|s| - |r|..] && IsBlank(s[..|s| - |r|])
  {
    if s != [] && IsWhitespace(s[0]) then
      var r := TrimStart(s[1..]);
      assert s[..|s| - |r|] == [s[0]] + s[1..][..|s| - 1 - |r|];
      r
    else s
  }

  /** Drops the white space at the back; what it drops is blank. */
  function TrimEnd(s: seq<char>): (r: seq<char>)
    ensures r != [] ==> !IsWhitespace(r[|r| - 1])
    ensures |r| <= |s| && r == s[..|r|] && IsBlank(s[|r|..])
  {
    if s != [] && IsWhitespace(s[|s| - 1]) then
      var r := TrimEnd(s[..|s| - 1]);
      assert s[|r|..] == s[..|s| - 1][|r|..] + [s[|s| - 1]];
      assert r == s[..|s| - 1][..|r|] == s[..|r|];
      r
    else s
  }

  /** `r` is a slice of `s` with only blank text before and after it. */
  predicate BlankFramed(s: seq<char>, r: seq<char>) {
    exists i :: 0 <= i <= |s| - |r| && r == s[i..i + |r|] && IsBlank(s[..i]) && IsBlank(s[i + |r|..])
  }

  /** `String.trim()`: a slice of `s` with no white space at either end, everything cut off
      on either side being white space. */
  function Trim(s: seq<char>): (r: seq<char>)
    ensures Trimmed(r)
    ensures BlankFramed(s, r)
  {
    TrimEnds(s);
    TrimSlices(s);
    TrimEnd(TrimStart(s))
  }

  /** Cutting a blank prefix and then a blank suffix leaves no white space at either end. */
  lemma TrimEnds(s: seq<char>)
    ensures Trimmed(TrimEnd(TrimStart(s)))
  {
    var t := TrimStart(s);
    var r := TrimEnd(t);
    if r != [] {
      assert r[0] == t[0];
    }
  }

  /** Cutting a blank prefix and then a blank suffix cuts a slice out of the middle. */
  lemma TrimSlices(s: seq<char>)
    ensures BlankFramed(s, TrimEnd(TrimStart(s)))
  {
    var t := TrimStart(s);
    var r := TrimEnd(t);
    var i := |s| - |t|;
    assert IsBlank(s[i + |r|..]) by {
      assert s[i + |r|..] == t[|r|..];
    }
    assert r == s[i..i + |r|];
    assert 0 <= i <= |s| - |r| && r == s[i..i + |r|] && IsBlank(s[..i]) && IsBlank(s[i + |r|..]);
  }

  /** Drops the run of `\s` white space at the front; the other characters stay. */
  function DropSpaces(s: seq<char>): (r: seq<char>)
    ensures |r| <= |s|
    ensures r != [] ==> !IsSpace(r[0]) && r[|r| - 1] == s[|s| - 1]
    ensures r == [] && s != [] ==> IsSpace(s[|s| - 1])
    ensures Filter(NotSpace, r) == Filter(NotSpace, s)
  {
    if s != [] && IsSpace(s[0]) then
      FilterCons(NotSpace, s[0], s[1..]);
      assert s == [s[0]] + s[1..];
      DropSpaces(s[1..])
    else s
  }

  /** `replace(Regex("\\s+"), " ")`: every maximal run of white space becomes one space. */
  function Collapse(s: seq<char>): (r: seq<char>)
    ensures |r| <= |s| && (r == [] <==> s == [])
    ensures r != [] ==> (IsSpace(r[0]) <==> IsSpace(s[0]))
    ensures r != [] ==> (IsSpace(r[|r| - 1]) <==> IsSpace(s[|s| - 1]))
    ensures r != [] && !IsSpace(s[0]) ==> r[0] == s[0]
    ensures r != [] && !IsSpace(s[|s| - 1]) ==> r[|r| - 1] == s[|s| - 1]
    ensures NoDoubleSpace(r)
    decreases |s|
  {
    if s == [] then []
    else if IsSpace(s[0]) then
      var rest := DropSpaces(s[1..]);
      var tail := Collapse(rest);
      assert tail != [] ==> !IsSpace(tail[0]);
      [' '] + tail
    else
      var tail := Collapse(s[1..]);
      [s[0]] + tail
  }

  /** Collapsing keeps every other character, in order, and the white space left is plain
      spaces. */
  lemma {:induction false} CollapseKeepsText(s: seq<char>)
    ensures Filter(NotSpace, Collapse(s)) == Filter(NotSpace, s)
    ensures forall i :: 0 <= i < |Collapse(s)| && IsSpace(Collapse(s)[i]) ==> Collapse(s)[i] == ' '
    decreases |s|
  {
    if s != [] {
      FilterCons(NotSpace, s[0], s[1..]);
      assert s == [s[0]] + s[1..];
      if IsSpace(s[0]) {
        var tail := Collapse(DropSpaces(s[1..]));
        CollapseKeepsText(DropSpaces(s[1..]));
        FilterCons(NotSpace, ' ', tail);
        assert Collapse(s) == [' '] + tail;
      } else {
        var tail := Collapse(s[1..]);
        CollapseKeepsText(s[1..]);
        FilterCons(NotSpace, s[0], tail);
        assert Collapse(s) == [s[0]] + tail;
      }
    }
  }

  /** A trimmed string stays trimmed once its white-space runs are collapsed. */
  lemma {:induction false} CollapseTrimmed(s: seq<char>)
    requires Trimmed(s)
    ensures Trimmed(Collapse(s)) && NoDoubleSpace(Collapse(s))
  {
    if s != [] {
      SpaceIsWhitespace(s[0]);
      SpaceIsWhitespace(s[|s| - 1]);
    }
  }
}
