/** The heuristic card-text parser: the regular expressions of `TextRecognitionService`
    (`extractCollectorNumber`, `extractSetCode`, `extractRarity`, `extractCardName`) as
    scanners over `seq<char>`. `\b` is the ASCII word boundary, `\d` an ASCII digit, `\s` ASCII
    white space; `•` (U+2022) is not a word character. */
module CardTextParser {
  import opened Wrappers
  import opened Text

  /** The six regular expressions the parser uses. */
  datatype Pattern =
    | FourDigits       // \b(\d{4})\b
    | Fraction         // \b(\d{1,3})/(\d{1,3})\b
    | NumberRarity     // \b(\d{1,4})\s*[CURM]\b
    | SetWithLanguage  // \b([A-Z]{3})•[A-Z]{2}\b
    | SetCode          // \b([A-Z]{3})\b
    | RarityLetter     // \b[CURM]\b

  const Bullet: char := '\U{2022}'

  predicate IsRarityLetter(c: char) { c == 'C' || c == 'U' || c == 'R' || c == 'M' }

  /** A word character sits at index `i` (false outside the string). */
  predicate WordAt(s: seq<char>, i: int) { 0 <= i < |s| && IsWordChar(s[i]) }

  /** `\b` at position `i`, between `s[i-1]` and `s[i]`. */
  predicate Boundary(s: seq<char>, i: int) { WordAt(s, i - 1) != WordAt(s, i) }

  predicate DigitsBetween(s: seq<char>, a: nat, b: nat) {
    a <= b <= |s| && forall j :: a <= j < b ==> IsDigit(s[j])
  }

  predicate UpperBetween(s: seq<char>, a: nat, b: nat) {
    a <= b <= |s| && forall j :: a <= j < b ==> IsUpper(s[j])
  }

  predicate SpacesBetween(s: seq<char>, a: nat, b: nat) {
    a <= b <= |s| && forall j :: a <= j < b ==> IsSpace(s[j])
  }

  /** Reference semantics: the pattern can match `s[i..e]` with its capture group being `s[i..k]`.
      This is the set of all matches a backtracking engine may find starting at `i`. */
  predicate RegexMatch(p: Pattern, s: seq<char>, i: nat, k: nat, e: nat) {
    && Boundary(s, i) && e <= |s| && Boundary(s, e)
    && match p
       case FourDigits => k == e == i + 4 && DigitsBetween(s, i, k)
       case Fraction =>
         && i + 1 <= k <= i + 3 && k < |s| && DigitsBetween(s, i, k) && s[k] == '/'
         && k + 2 <= e <= k + 4 && DigitsBetween(s, k + 1, e)
       case NumberRarity =>
         && i + 1 <= k <= i + 4 && DigitsBetween(s, i, k)
         && k + 1 <= e && SpacesBetween(s, k, e - 1) && IsRarityLetter(s[e - 1])
       case SetWithLanguage =>
         && k == i + 3 && e == i + 6 && UpperBetween(s, i, k) && s[k] == Bullet
         && UpperBetween(s, k + 1, e)
       case SetCode => k == e == i + 3 && UpperBetween(s, i, k)
       case RarityLetter => k == e == i + 1 && IsRarityLetter(s[i])
  }

  /** Length of the run of digits starting at `i`. */
  function DigitRun(s: seq<char>, i: nat): (d: nat)
    requires i <= |s|
    ensures DigitsBetween(s, i, i + d) && (i + d == |s| || !IsDigit(s[i + d]))
    decreases |s| - i
  {
    if i < |s| && IsDigit(s[i]) then 1 + DigitRun(s, i + 1) else 0
  }

  /** Length of the run of white space starting at `i`. */
  function SpaceRun(s: seq<char>, i: nat): (d: nat)
    requires i <= |s|
    ensures SpacesBetween(s, i, i + d) && (i + d == |s| || !IsSpace(s[i + d]))
    decreases |s| - i
  {
    if i < |s| && IsSpace(s[i]) then 1 + SpaceRun(s, i + 1) else 0
  }

  /** The scanner: the match starting at `i`, as (end of capture group, end of match). Runs of
      digits and spaces are measured once, which is what the greedy, backtracking engine ends up
      with (see `ScannerIsRegex`). */
  function MatchAt(p: Pattern, s: seq<char>, i: nat): (r: Option<(nat, nat)>)
    requires i <= |s|
    ensures r.Some? ==> i < r.value.0 <= r.value.1 <= |s|
    ensures r.Some? && (p.FourDigits? || p.Fraction? || p.NumberRarity?) ==>
      r.value.0 - i <= 4 && DigitsBetween(s, i, r.value.0)
    ensures r.Some? && p.FourDigits? ==> r.value.0 - i == 4
    ensures r.Some? && (p.SetWithLanguage? || p.SetCode?) ==>
      r.value.0 - i == 3 && UpperBetween(s, i, r.value.0)
  {
    if !Boundary(s, i) then None
    else match p
      case FourDigits =>
        if DigitRun(s, i) >= 4 && Boundary(s, i + 4) then Some((i + 4, i + 4)) else None
      case Fraction =>
        var d := DigitRun(s, i);
        if 1 <= d <= 3 && i + d < |s| && s[i + d] == '/' then
          var m := DigitRun(s, i + d + 1);
          if 1 <= m <= 3 && Boundary(s, i + d + 1 + m) then Some((i + d, i + d + 1 + m)) else None
        else None
      case NumberRarity =>
        var d := DigitRun(s, i);
        if 1 <= d <= 4 then
          var l := i + d + SpaceRun(s, i + d);
          if l < |s| && IsRarityLetter(s[l]) && Boundary(s, l + 1) then Some((i + d, l + 1)) else None
        else None
      case SetWithLanguage =>
        if i + 6 <= |s| && UpperBetween(s, i, i + 3) && s[i + 3] == Bullet
           && UpperBetween(s, i + 4, i + 6) && Boundary(s, i + 6)
        then Some((i + 3, i + 6)) else None
      case SetCode =>
        if i + 3 <= |s| && UpperBetween(s, i, i + 3) && Boundary(s, i + 3) then Some((i + 3, i + 3)) else None
      case RarityLetter =>
        if i < |s| && IsRarityLetter(s[i]) && Boundary(s, i + 1) then Some((i + 1, i + 1)) else None
  }

  /** Inside a run of word characters there is no boundary. */
  lemma NoBoundaryInside(s: seq<char>, j: nat)
    requires 0 < j < |s| && IsWordChar(s[j - 1]) && IsWordChar(s[j])
    ensures !Boundary(s, j)
  {
  }

  /** The scanner finds exactly the matches of the regular expression: a match exists at `i` iff
      the scanner returns one, and then it is the only one. */
  lemma {:induction false} ScannerIsRegex(p: Pattern, s: seq<char>, i: nat, k: nat, e: nat)
    requires i <= |s|
    ensures RegexMatch(p, s, i, k, e) <==> MatchAt(p, s, i) == Some((k, e))
  {
    match p
    case FourDigits => FourDigitsIsRegex(s, i, k, e);
    case Fraction => FractionIsRegex(s, i, k, e);
    case NumberRarity => NumberRarityIsRegex(s, i, k, e);
    case SetWithLanguage =>
    case SetCode =>
    case RarityLetter =>
  }

  lemma FourDigitsIsRegex(s: seq<char>, i: nat, k: nat, e: nat)
    requires i <= |s|
    ensures RegexMatch(FourDigits, s, i, k, e) <==> MatchAt(FourDigits, s, i) == Some((k, e))
  {
    if RegexMatch(FourDigits, s, i, k, e) {
      DigitRunCovers(s, i, e);
    }
  }

  lemma FractionIsRegex(s: seq<char>, i: nat, k: nat, e: nat)
    requires i <= |s|
    ensures RegexMatch(Fraction, s, i, k, e) <==> MatchAt(Fraction, s, i) == Some((k, e))
  {
    if RegexMatch(Fraction, s, i, k, e) {
      DigitRunExact(s, i, k);
      var m := DigitRun(s, k + 1);
      DigitRunCovers(s, k + 1, e);
      if m > e - k - 1 {
        assert IsDigit(s[e]) && IsDigit(s[e - 1]);
        NoBoundaryInside(s, e);
      }
    }
  }

  lemma NumberRarityIsRegex(s: seq<char>, i: nat, k: nat, e: nat)
    requires i <= |s|
    ensures RegexMatch(NumberRarity, s, i, k, e) <==> MatchAt(NumberRarity, s, i) == Some((k, e))
  {
    if RegexMatch(NumberRarity, s, i, k, e) {
      assert !IsDigit(s[k]);
      DigitRunExact(s, i, k);
      assert !IsSpace(s[e - 1]);
      SpaceRunExact(s, k, e - 1);
    }
  }

  lemma {:induction false} DigitRunCovers(s: seq<char>, i: nat, e: nat)
    requires DigitsBetween(s, i, e)
    ensures DigitRun(s, i) >= e - i
    decreases e - i
  {
    if i < e { DigitRunCovers(s, i + 1, e); }
  }

  /** A digit run followed by a non-digit has exactly that length. */
  lemma DigitRunExact(s: seq<char>, i: nat, k: nat)
    requires DigitsBetween(s, i, k) && k < |s| && !IsDigit(s[k])
    ensures DigitRun(s, i) == k - i
  {
    DigitRunCovers(s, i, k);
  }

  lemma {:induction false} SpaceRunExact(s: seq<char>, i: nat, k: nat)
    requires SpacesBetween(s, i, k) && k < |s| && !IsSpace(s[k])
    ensures SpaceRun(s, i) == k - i
    decreases k - i
  {
    if i < k { SpaceRunExact(s, i + 1, k); }
  }

  /** `Regex.find`: the leftmost match at or after `from`, as (start, end of group, end). */
  function Find(p: Pattern, s: seq<char>, from: nat): (r: Option<(nat, nat, nat)>)
    requires from <= |s|
    ensures r.Some? ==> from <= r.value.0 <= |s| && MatchAt(p, s, r.value.0) == Some((r.value.1, r.value.2))
    ensures forall j :: from <= j <= |s| && (r.Some? ==> j < r.value.0) ==> MatchAt(p, s, j).None?
    decreases |s| - from
  {
    match MatchAt(p, s, from)
    case Some((k, e)) => Some((from, k, e))
    case None => if from == |s| then None else Find(p, s, from + 1)
  }

  /** No match of `p` starts before position `i`. */
  ghost predicate NoMatchBefore(p: Pattern, s: seq<char>, i: nat) {
    forall j: nat, k: nat, e: nat :: j < i ==> !RegexMatch(p, s, j, k, e)
  }

  /** `find` returns the leftmost match of the regular expression. */
  lemma {:induction false} FindIsLeftmost(p: Pattern, s: seq<char>, i: nat, k: nat, e: nat)
    requires i <= |s| && RegexMatch(p, s, i, k, e) && NoMatchBefore(p, s, i)
    ensures Find(p, s, 0) == Some((i, k, e))
  {
    ScannerIsRegex(p, s, i, k, e);
    var r := Find(p, s, 0);
    assert r.Some?;
    var (i', k', e') := r.value;
    ScannerIsRegex(p, s, i', k', e');
  }

  /** `find` returns null exactly when the regular expression matches nowhere. */
  lemma {:induction false} FindNone(p: Pattern, s: seq<char>)
    ensures Find(p, s, 0).None? <==> NoMatchBefore(p, s, |s| + 1)
  {
    if Find(p, s, 0).None? {
      forall j: nat, k: nat, e: nat | j < |s| + 1 ensures !RegexMatch(p, s, j, k, e) {
        ScannerIsRegex(p, s, j, k, e);
      }
    } else {
      var (i, k, e) := Find(p, s, 0).value;
      ScannerIsRegex(p, s, i, k, e);
    }
  }

  /** The capture group of the leftmost match. */
  function FirstGroup(p: Pattern, s: seq<char>): (g: Option<seq<char>>)
    ensures g.Some? && (p.FourDigits? || p.Fraction? || p.NumberRarity?) ==>
      1 <= |g.value| <= 4 && AllDigits(g.value)
    ensures g.Some? && (p.SetWithLanguage? || p.SetCode?) ==> |g.value| == 3 && AllUpper(g.value)
  {
    match Find(p, s, 0)
    case Some((i, k, _)) =>
      assert forall j :: 0 <= j < k - i ==> s[i..k][j] == s[i + j];
      Some(s[i..k])
    case None => None
  }

  /** `extractCollectorNumber`: a standalone 4-digit number, else the numerator of `n/total`,
      else a number followed by a rarity letter. */
  function ExtractCollectorNumber(text: seq<char>): (r: Option<seq<char>>)
    ensures r.Some? ==> 1 <= |r.value| <= 4 && AllDigits(r.value)
  {
    if FirstGroup(FourDigits, text).Some? then FirstGroup(FourDigits, text)
    else if FirstGroup(Fraction, text).Some? then FirstGroup(Fraction, text)
    else FirstGroup(NumberRarity, text)
  }

  /** `extractSetCode`: the code in front of `•XX`, else a standalone three-letter word. */
  function ExtractSetCode(text: seq<char>): (r: Option<seq<char>>)
    ensures r.Some? ==> |r.value| == 3 && AllUpper(r.value)
  {
    if FirstGroup(SetWithLanguage, text).Some? then FirstGroup(SetWithLanguage, text)
    else FirstGroup(SetCode, text)
  }

  /** `extractRarity`: plain containment of an upper-case letter, C before U before R before M. */
  function ExtractRarity(text: seq<char>): (r: Option<seq<char>>)
    ensures r.None? <==> 'C' !in text && 'U' !in text && 'R' !in text && 'M' !in text
    ensures r == Some("common") <==> 'C' in text
    ensures r == Some("uncommon") <==> 'C' !in text && 'U' in text
    ensures r == Some("rare") <==> 'C' !in text && 'U' !in text && 'R' in text
    ensures r == Some("mythic") <==> 'C' !in text && 'U' !in text && 'R' !in text && 'M' in text
  {
    if 'C' in text then Some("common")
    else if 'U' in text then Some("uncommon")
    else if 'R' in text then Some("rare")
    else if 'M' in text then Some("mythic")
    else None
  }

  /** The collector number prefers a standalone 4-digit number wherever it is. */
  lemma CollectorNumberPrefersFourDigits(text: seq<char>, i: nat)
    requires i <= |text| && RegexMatch(FourDigits, text, i, i + 4, i + 4)
    requires NoMatchBefore(FourDigits, text, i)
    ensures ExtractCollectorNumber(text) == Some(text[i..i + 4])
  {
    FindIsLeftmost(FourDigits, text, i, i + 4, i + 4);
  }

  /** Without a 4-digit number, the numerator of the leftmost `n/total` is taken. */
  lemma CollectorNumberFromFraction(text: seq<char>, i: nat, k: nat, e: nat)
    requires i <= |text| && RegexMatch(Fraction, text, i, k, e) && NoMatchBefore(Fraction, text, i)
    requires NoMatchBefore(FourDigits, text, |text| + 1)
    ensures ExtractCollectorNumber(text) == Some(text[i..k])
  {
    FindNone(FourDigits, text);
    FindIsLeftmost(Fraction, text, i, k, e);
  }

  /** Failing both, the number in front of the leftmost standalone rarity letter is taken. */
  lemma CollectorNumberBeforeRarity(text: seq<char>, i: nat, k: nat, e: nat)
    requires i <= |text| && RegexMatch(NumberRarity, text, i, k, e) && NoMatchBefore(NumberRarity, text, i)
    requires NoMatchBefore(FourDigits, text, |text| + 1) && NoMatchBefore(Fraction, text, |text| + 1)
    ensures ExtractCollectorNumber(text) == Some(text[i..k])
  {
    FindNone(FourDigits, text);
    FindNone(Fraction, text);
    FindIsLeftmost(NumberRarity, text, i, k, e);
  }

  /** No collector number exactly when none of the three patterns matches anywhere. */
  lemma CollectorNumberAbsent(text: seq<char>)
    ensures ExtractCollectorNumber(text).None? <==>
      && NoMatchBefore(FourDigits, text, |text| + 1)
      && NoMatchBefore(Fraction, text, |text| + 1)
      && NoMatchBefore(NumberRarity, text, |text| + 1)
  {
    FindNone(FourDigits, text);
    FindNone(Fraction, text);
    FindNone(NumberRarity, text);
  }

  /** The set code prefers the letters in front of `•XX`. */
  lemma SetCodePrefersLanguageForm(text: seq<char>, i: nat)
    requires i <= |text| && RegexMatch(SetWithLanguage, text, i, i + 3, i + 6)
    requires NoMatchBefore(SetWithLanguage, text, i)
    ensures ExtractSetCode(text) == Some(text[i..i + 3])
  {
    FindIsLeftmost(SetWithLanguage, text, i, i + 3, i + 6);
  }

  /** Otherwise the leftmost standalone three-letter word is the set code. */
  lemma SetCodeFromWord(text: seq<char>, i: nat)
    requires i <= |text| && RegexMatch(SetCode, text, i, i + 3, i + 3) && NoMatchBefore(SetCode, text, i)
    requires NoMatchBefore(SetWithLanguage, text, |text| + 1)
    ensures ExtractSetCode(text) == Some(text[i..i + 3])
  {
    FindNone(SetWithLanguage, text);
    FindIsLeftmost(SetCode, text, i, i + 3, i + 3);
  }

  /** No set code exactly when neither pattern matches anywhere. */
  lemma SetCodeAbsent(text: seq<char>)
    ensures ExtractSetCode(text).None? <==>
      NoMatchBefore(SetWithLanguage, text, |text| + 1) && NoMatchBefore(SetCode, text, |text| + 1)
  {
    FindNone(SetWithLanguage, text);
    FindNone(SetCode, text);
  }

  /** `text.replace(regex, "")` from position `i` on: every match is cut out, scanning left to right
      and resuming after each match; boundaries are judged on the whole input. */
  function RemoveFrom(p: Pattern, s: seq<char>, i: nat): (r: seq<char>)
    requires i <= |s|
    ensures |r| <= |s| - i
    ensures forall c :: c in r ==> c in s[i..]
    decreases |s| - i
  {
    if i == |s| then []
    else match MatchAt(p, s, i)
      case Some((_, e)) =>
        var rest := RemoveFrom(p, s, e);
        assert forall c :: c in s[e..] ==> c in s[i..] by {
          forall c | c in s[e..] ensures c in s[i..] {
            var j :| 0 <= j < |s[e..]| && s[e..][j] == c;
            assert s[i..][j + e - i] == c;
          }
        }
        rest
      case None =>
        var rest := RemoveFrom(p, s, i + 1);
        assert s[i..] == [s[i]] + s[i + 1..];
        [s[i]] + rest
  }

  /** What removal does from `i` on: it keeps the text before the leftmost match, cuts the match
      out and goes on after it; with no match left, it keeps the rest of the text as it is. */
  predicate CutsLeftmost(p: Pattern, s: seq<char>, i: nat)
    requires i <= |s|
  {
    match Find(p, s, i)
    case Some((b, _, e)) => b < e && RemoveFrom(p, s, i) == s[i..b] + RemoveFrom(p, s, e)
    case None => RemoveFrom(p, s, i) == s[i..]
  }

  /** Without a match at `i`, the search goes on from `i + 1`. */
  lemma FindSkips(p: Pattern, s: seq<char>, i: nat)
    requires i < |s| && MatchAt(p, s, i).None?
    ensures Find(p, s, i) == Find(p, s, i + 1)
  {
  }

  /** Without a match at `i`, removal keeps `s[i]`. */
  lemma RemoveKeeps(p: Pattern, s: seq<char>, i: nat)
    requires i < |s| && MatchAt(p, s, i).None?
    ensures RemoveFrom(p, s, i) == [s[i]] + RemoveFrom(p, s, i + 1)
  {
  }

  /** The sequence step behind `SkipUnmatched`: putting `s[i]` back in front. */
  lemma KeepFront(s: seq<char>, i: nat, b: Option<nat>, kept: seq<char>, rest: seq<char>, after: seq<char>)
    requires i < |s| && kept == [s[i]] + rest
    requires b.Some? ==> i < b.value <= |s| && rest == s[i + 1..b.value] + after
    requires b.None? ==> rest == s[i + 1..]
    ensures b.Some? ==> kept == s[i..b.value] + after
    ensures b.None? ==> kept == s[i..]
  {
    if b.Some? {
      assert s[i..b.value] == [s[i]] + s[i + 1..b.value];
    } else {
      assert s[i..] == [s[i]] + s[i + 1..];
    }
  }

  /** Without a match at `i`, what holds from `i + 1` on holds from `i` on. */
  lemma SkipUnmatched(p: Pattern, s: seq<char>, i: nat)
    requires i < |s| && MatchAt(p, s, i).None? && CutsLeftmost(p, s, i + 1)
    ensures CutsLeftmost(p, s, i)
  {
    FindSkips(p, s, i);
    RemoveKeeps(p, s, i);
    var f := Find(p, s, i + 1);
    var after := if f.Some? then RemoveFrom(p, s, f.value.2) else [];
    KeepFront(s, i, if f.Some? then Some(f.value.0) else None, RemoveFrom(p, s, i), RemoveFrom(p, s, i + 1), after);
  }

  /** A match at `i` is the leftmost one, and removal goes on after it. */
  lemma CutMatched(p: Pattern, s: seq<char>, i: nat)
    requires i < |s| && MatchAt(p, s, i).Some?
    ensures CutsLeftmost(p, s, i)
  {
    assert s[i..i] == [];
  }

  /** Removal keeps the text before the leftmost match, cuts the match out and goes on after it;
      with no match left, the rest of the text is kept as it is. */
  lemma {:induction false} RemoveCutsLeftmost(p: Pattern, s: seq<char>, i: nat)
    requires i <= |s|
    ensures CutsLeftmost(p, s, i)
    decreases |s| - i
  {
    if i == |s| {
      assert Find(p, s, i).None?;
    } else if MatchAt(p, s, i).None? {
      RemoveCutsLeftmost(p, s, i + 1);
      SkipUnmatched(p, s, i);
    } else {
      CutMatched(p, s, i);
    }
  }

  /** `text.replace(regex, "")`: the leftmost match is cut out, the text before it kept, and the
      search goes on after the match, so the matches removed never overlap. */
  function RemoveAll(p: Pattern, s: seq<char>): (r: seq<char>)
    ensures CutsLeftmost(p, s, 0) && r == RemoveFrom(p, s, 0)
    ensures Find(p, s, 0).None? ==> r == s
  {
    RemoveCutsLeftmost(p, s, 0);
    RemoveFrom(p, s, 0)
  }

  /** What `extractCardName` leaves of the text: the numbers, set codes and rarity letters cut out
      in that order, then trimmed, then every run of white space made a single space. */
  function CleanName(text: seq<char>): (r: seq<char>)
    ensures Trimmed(r) && NoDoubleSpace(r) && |r| <= |text|
  {
    var t := RemoveAll(FourDigits, text);
    var t := RemoveAll(Fraction, t);
    var t := RemoveAll(SetWithLanguage, t);
    var t := RemoveAll(SetCode, t);
    var t := RemoveAll(RarityLetter, t);
    var t := Trim(t);
    CollapseTrimmed(t);
    Collapse(t)
  }

  /** `extractCardName`: the text with the recognised codes removed, step by step; null unless
      more than two characters remain. */
  method ExtractCardName(text: seq<char>) returns (name: Option<seq<char>>)
    ensures name.Some? ==> |name.value| > 2 && Trimmed(name.value) && NoDoubleSpace(name.value)
    ensures name.Some? <==> |CleanName(text)| > 2
    ensures name.Some? ==> name.value == CleanName(text)
  {
    var cleanText := text;
    cleanText := RemoveAll(FourDigits, cleanText);
    cleanText := RemoveAll(Fraction, cleanText);
    cleanText := RemoveAll(SetWithLanguage, cleanText);
    cleanText := RemoveAll(SetCode, cleanText);
    cleanText := RemoveAll(RarityLetter, cleanText);
    cleanText := Collapse(Trim(cleanText));
    assert cleanText == CleanName(text);
    name := if |cleanText| > 2 then Some(cleanText) else None;
  }
}
