/** Character classes, case mapping and the regular-expression building blocks
    (JavaScript semantics) shared by the text-processing modules.
    Strings are sequences of Unicode scalar values. */
module Text {
  import Wrappers


  /* ---------------- character classes ---------------- */

  /** JavaScript `\s` (WhiteSpace and LineTerminator); also what `trim` removes. */
  predicate IsSpace(c: char) {
    c == ' ' || c == '\t' || c == '\n' || c == '\r' || c == '\U{000B}' || c == '\U{000C}'
    || c == '\U{00A0}' || c == '\U{1680}' || ('\U{2000}' <= c <= '\U{200A}')
    || c == '\U{2028}' || c == '\U{2029}' || c == '\U{202F}' || c == '\U{205F}'
    || c == '\U{3000}' || c == '\U{FEFF}'
  }

  /** `\d`: ASCII digits only, with or without the `u` flag. */
  predicate IsDigit(c: char) { '0' <= c <= '9' }

  predicate IsAsciiUpper(c: char) { 'A' <= c <= 'Z' }
  predicate IsAsciiLower(c: char) { 'a' <= c <= 'z' }

  /** `\w` and the word characters of `\b` without the `u` flag. */
  predicate IsWordChar(c: char) { IsAsciiUpper(c) || IsAsciiLower(c) || IsDigit(c) || c == '_' }

  /** `\p{Lu}` restricted to Basic Latin and Latin-1. */
  predicate IsUpperLetter(c: char) {
    IsAsciiUpper(c) || ('\U{00C0}' <= c <= '\U{00DE}' && c != '\U{00D7}')
  }

  /** `\p{Ll}` restricted to Basic Latin and Latin-1. */
  predicate IsLowerLetter(c: char) {
    IsAsciiLower(c) || c == '\U{00B5}' || ('\U{00DF}' <= c <= '\U{00FF}' && c != '\U{00F7}')
  }

  /** `\p{L}` restricted to the Latin script blocks up to Latin Extended-B. */
  predicate IsLetter(c: char) {
    IsUpperLetter(c) || IsLowerLetter(c) || c == '\U{00AA}' || c == '\U{00BA}'
    || ('\U{0100}' <= c <= '\U{024F}')
  }

  /* ---------------- case mapping ---------------- */

  /** Simple upper-case mapping; also the canonical form used by the `i` flag. */
  function UpperChar(c: char): (u: char)
    ensures IsAsciiLower(c) ==> IsAsciiUpper(u)
    ensures !IsAsciiLower(c) && c < '\U{00B5}' ==> u == c
  {
    if IsAsciiLower(c) || ('\U{00E0}' <= c <= '\U{00FE}' && c != '\U{00F7}') then (c as int - 32) as char
    else if c == '\U{00B5}' then '\U{039C}'
    else if c == '\U{00FF}' then '\U{0178}'
    else c
  }

  function LowerChar(c: char): (l: char)
    ensures IsAsciiUpper(c) ==> IsAsciiLower(l)
    ensures !IsUpperLetter(c) ==> l == c
  {
    if IsUpperLetter(c) then (c as int + 32) as char else c
  }

  /** `String.prototype.toUpperCase`: the sharp s becomes "SS". */
  function ToUpper(s: string): (r: string)
    ensures |r| >= |s|
  {
    if s == [] then []
    else (if s[0] == '\U{00DF}' then "SS" else [UpperChar(s[0])]) + ToUpper(s[1..])
  }

  /** `String.prototype.toLowerCase`. */
  function ToLower(s: string): (r: string)
    ensures |r| == |s|
    ensures forall k :: 0 <= k < |s| ==> r[k] == LowerChar(s[k])
  {
    if s == [] then [] else [LowerChar(s[0])] + ToLower(s[1..])
  }

  /** Does `w` occur at position `i` of `s` under the `i` flag? */
  predicate EqCIAt(s: string, i: nat, w: string)
    decreases |w|
  {
    if w == [] then i <= |s|
    else i < |s| && UpperChar(s[i]) == UpperChar(w[0]) && EqCIAt(s, i + 1, w[1..])
  }

  lemma {:induction false} EqCIAtBounds(s: string, i: nat, w: string)
    requires EqCIAt(s, i, w)
    ensures i + |w| <= |s|
    decreases |w|
  {
    if w != [] { EqCIAtBounds(s, i + 1, w[1..]); }
  }

  /** Does `w` occur exactly (case-sensitively) at position `i` of `s`? */
  predicate EqAt(s: string, i: nat, w: string) {
    i + |w| <= |s| && s[i..i + |w|] == w
  }

  /* ---------------- positions ---------------- */

  predicate WordAt(s: string, i: int) { 0 <= i < |s| && IsWordChar(s[i]) }

  /** `\b` at position `i` (between s[i-1] and s[i]). */
  predicate IsBoundary(s: string, i: int) { WordAt(s, i - 1) != WordAt(s, i) }

  /** Length of the run of characters satisfying `p` that starts at `i`. */
  function Run(s: string, i: nat, p: char -> bool): (n: nat)
    ensures i + n <= |s| || (i >= |s| && n == 0)
    ensures forall k :: i <= k < i + n ==> p(s[k])
    ensures i + n < |s| ==> !p(s[i + n])
    decreases |s| - i
  {
    if i < |s| && p(s[i]) then 1 + Run(s, i + 1, p) else 0
  }

  function SpaceRun(s: string, i: nat): (n: nat)
    ensures i + n <= |s| || (i >= |s| && n == 0)
    ensures forall k :: i <= k < i + n ==> IsSpace(s[k])
    ensures i + n < |s| ==> !IsSpace(s[i + n])
  {
    Run(s, i, IsSpace)
  }

  function DigitRun(s: string, i: nat): (n: nat)
    ensures i + n <= |s| || (i >= |s| && n == 0)
    ensures forall k :: i <= k < i + n ==> IsDigit(s[k])
    ensures i + n < |s| ==> !IsDigit(s[i + n])
  {
    Run(s, i, IsDigit)
  }

  /** Length of the greedy match of `\d+(?:[.,]\d+)?` at `i`, or 0. */
  function DecimalLen(s: string, i: nat): (n: nat)
    ensures n == 0 || (i + n <= |s| && IsDigit(s[i]))
    ensures i < |s| && IsDigit(s[i]) ==> n > 0
    ensures forall k :: i <= k < i + n ==> IsDigit(s[k]) || s[k] == '.' || s[k] == ','
  {
    var d := DigitRun(s, i);
    if d == 0 then 0
    else if i + d < |s| && (s[i + d] == '.' || s[i + d] == ',') && DigitRun(s, i + d + 1) > 0
    then d + 1 + DigitRun(s, i + d + 1)
    else d
  }

  /* ---------------- replace ---------------- */

  /** What a pattern does at one position: no match, or a match of `len`
      characters to be replaced by `out`. */
  datatype Match = NoMatch | Match(len: nat, out: string)

  /** `s.replace(/pattern/g, …)` from position `i` on: at each position the
      matcher `f` is tried; a match is replaced and scanning resumes after it,
      otherwise the character is kept. None of the patterns modelled here
      matches the empty string. */
  function ReplaceAllFrom(s: string, i: nat, f: (string, nat) -> Match): string
    decreases |s| - i
  {
    if i >= |s| then []
    else if f(s, i).Match? && 0 < f(s, i).len && i + f(s, i).len <= |s|
    then f(s, i).out + ReplaceAllFrom(s, i + f(s, i).len, f)
    else [s[i]] + ReplaceAllFrom(s, i + 1, f)
  }

  function ReplaceAll(s: string, f: (string, nat) -> Match): string {
    ReplaceAllFrom(s, 0, f)
  }

  /** `s.replace(/pattern/, …)` without the `g` flag: only the leftmost match. */
  function ReplaceFirstFrom(s: string, i: nat, f: (string, nat) -> Match): string
    decreases |s| - i
  {
    if i >= |s| then []
    else if f(s, i).Match? && 0 < f(s, i).len && i + f(s, i).len <= |s|
    then f(s, i).out + s[i + f(s, i).len..]
    else [s[i]] + ReplaceFirstFrom(s, i + 1, f)
  }

  function ReplaceFirst(s: string, f: (string, nat) -> Match): string {
    ReplaceFirstFrom(s, 0, f)
  }

  /** `s.replace(/[class]/g, c)`: every character of the class becomes `c`. */
  function ReplaceChars(s: string, p: char -> bool, c: char): (r: string)
    ensures |r| == |s|
    ensures forall k :: 0 <= k < |s| ==> r[k] == (if p(s[k]) then c else s[k])
  {
    if s == [] then [] else [if p(s[0]) then c else s[0]] + ReplaceChars(s[1..], p, c)
  }

  predicate AllChars(s: string, p: char -> bool) {
    forall k :: 0 <= k < |s| ==> p(s[k])
  }

  lemma {:induction false} ConcatKeeps(a: string, b: string, p: char -> bool)
    requires AllChars(a, p) && AllChars(b, p)
    ensures AllChars(a + b, p)
  {
    forall k | 0 <= k < |a + b| ensures p((a + b)[k]) {
      if k < |a| { assert (a + b)[k] == a[k]; } else { assert (a + b)[k] == b[k - |a|]; }
    }
  }

  lemma {:induction false} SliceKeeps(s: string, i: nat, j: nat, p: char -> bool)
    requires AllChars(s, p) && i <= j <= |s|
    ensures AllChars(s[i..j], p)
  {
    forall k | 0 <= k < j - i ensures p(s[i..j][k]) { assert s[i..j][k] == s[i + k]; }
  }

  predicate HasNonSpace(s: string) {
    exists k :: 0 <= k < |s| && !IsSpace(s[k])
  }

  /** A global replace keeps a character property when every replacement does. */
  lemma {:induction false} ReplaceAllKeeps(s: string, i: nat, f: (string, nat) -> Match, p: char -> bool)
    requires AllChars(s, p)
    requires forall j :: f(s, j).Match? ==> AllChars(f(s, j).out, p)
    ensures AllChars(ReplaceAllFrom(s, i, f), p)
    decreases |s| - i
  {
    if i < |s| {
      if f(s, i).Match? && 0 < f(s, i).len && i + f(s, i).len <= |s| {
        ReplaceAllKeeps(s, i + f(s, i).len, f, p);
      } else {
        ReplaceAllKeeps(s, i + 1, f, p);
      }
    }
  }

  /** A global replace whose replacements are never blank cannot blank out a
      string that has a non-space character. */
  lemma {:induction false} ReplaceAllKeepsNonSpace(s: string, i: nat, f: (string, nat) -> Match)
    requires exists k :: i <= k < |s| && !IsSpace(s[k])
    requires forall j :: f(s, j).Match? ==> HasNonSpace(f(s, j).out)
    ensures HasNonSpace(ReplaceAllFrom(s, i, f))
    decreases |s| - i, 1
  {
    var k :| i <= k < |s| && !IsSpace(s[k]);
    if f(s, i).Match? && 0 < f(s, i).len && i + f(s, i).len <= |s| {
      assert HasNonSpace(f(s, i).out);
      ReplaceAllAt(s, i, f);
      HasNonSpaceConcat(f(s, i).out, ReplaceAllFrom(s, i + f(s, i).len, f));
    } else if !IsSpace(s[i]) {
      KeepsNonSpaceHere(s, i, f);
    } else {
      KeepsNonSpaceLater(s, i, f, k);
    }
  }

  /** A kept non-space character survives a global replace. */
  lemma {:induction false} KeepsNonSpaceHere(s: string, i: nat, f: (string, nat) -> Match)
    requires i < |s| && !IsSpace(s[i])
    requires !(f(s, i).Match? && 0 < f(s, i).len && i + f(s, i).len <= |s|)
    ensures HasNonSpace(ReplaceAllFrom(s, i, f))
  {
    ReplaceAllKeep(s, i, f);
    HasNonSpaceConcat([s[i]], ReplaceAllFrom(s, i + 1, f));
    assert [s[i]][0] == s[i];
  }

  /** A kept space is followed by the replaced rest, which keeps a non-space. */
  lemma {:induction false} KeepsNonSpaceLater(s: string, i: nat, f: (string, nat) -> Match, k: nat)
    requires i < k < |s| && !IsSpace(s[k])
    requires !(f(s, i).Match? && 0 < f(s, i).len && i + f(s, i).len <= |s|)
    requires forall j :: f(s, j).Match? ==> HasNonSpace(f(s, j).out)
    ensures HasNonSpace(ReplaceAllFrom(s, i, f))
    decreases |s| - i, 0
  {
    ReplaceAllKeepsNonSpace(s, i + 1, f);
    ReplaceAllKeep(s, i, f);
    HasNonSpaceConcat([s[i]], ReplaceAllFrom(s, i + 1, f));
  }


  /** Whitespace only as single ' ' characters (ends unconstrained). */
  predicate SingleSpaced(r: string) {
    (forall k :: 0 <= k < |r| && IsSpace(r[k]) ==> r[k] == ' ')
    && (forall i, j :: 0 <= i < |r| && 0 <= j < |r| && j == i + 1 && r[i] == ' ' ==> r[j] != ' ')
  }

  lemma {:induction false} SingleSpacedConcat(a: string, b: string)
    requires SingleSpaced(a) && SingleSpaced(b)
    requires a != [] && b != [] ==> a[|a| - 1] != ' ' || b[0] != ' '
    ensures SingleSpaced(a + b)
  {
    var r := a + b;
    forall i, j | 0 <= i < |r| && 0 <= j < |r| && j == i + 1 && r[i] == ' ' ensures r[j] != ' ' {
      if j < |a| {
        assert r[i] == a[i] && r[j] == a[j];
      } else if i >= |a| {
        assert r[i] == b[i - |a|] && r[j] == b[j - |a|];
      } else {
        assert r[i] == a[|a| - 1] && r[j] == b[0];
      }
    }
    forall k | 0 <= k < |r| && IsSpace(r[k]) ensures r[k] == ' ' {
      if k < |a| { assert r[k] == a[k]; } else { assert r[k] == b[k - |a|]; }
    }
  }

  /** A global replace from a position of a normalized text, when every
      replacement is non-empty normalized text: copied characters keep their
      neighbours and a replacement neither starts nor ends with a space. */
  lemma {:induction false} ReplaceAllNormalized(s: string, i: nat, f: (string, nat) -> Match)
    requires IsNormalized(s) && i <= |s|
    requires forall j :: f(s, j).Match? ==> f(s, j).out != [] && IsNormalized(f(s, j).out)
    ensures var r := ReplaceAllFrom(s, i, f);
      SingleSpaced(r) && (r == [] <==> i == |s|)
      && (r != [] ==> r[|r| - 1] != ' ' && (r[0] == ' ' ==> s[i] == ' '))
    decreases |s| - i
  {
    if i < |s| {
      var r := ReplaceAllFrom(s, i, f);
      var m := f(s, i);
      if m.Match? && 0 < m.len && i + m.len <= |s| {
        ReplaceAllNormalized(s, i + m.len, f);
        ReplaceAllAt(s, i, f);
        SingleSpacedReplaced(m.out, ReplaceAllFrom(s, i + m.len, f));
      } else {
        ReplaceAllNormalized(s, i + 1, f);
        ReplaceAllKeep(s, i, f);
        NormalizedAt(s, i);
        SingleSpacedCopied(s[i], ReplaceAllFrom(s, i + 1, f));
      }
    }
  }

  /** What normalized text says about one position and the next. */
  lemma {:induction false} NormalizedAt(s: string, i: nat)
    requires IsNormalized(s) && i < |s|
    ensures IsSpace(s[i]) ==> s[i] == ' '
    ensures s[i] == ' ' ==> i + 1 < |s| && s[i + 1] != ' '
  {
    if s[i] == ' ' {
      assert i + 1 < |s|;
      assert s[i + 1] != ' ';
    }
  }

  /** A replacement that is non-empty normalized text, in front of the rest. */
  lemma {:induction false} SingleSpacedReplaced(out: string, rest: string)
    requires out != [] && IsNormalized(out) && SingleSpaced(rest)
    requires rest != [] ==> rest[|rest| - 1] != ' '
    ensures var r := out + rest; SingleSpaced(r) && r[|r| - 1] != ' ' && r[0] != ' '
  {
    SingleSpacedConcat(out, rest);
    if rest != [] { assert (out + rest)[|out + rest| - 1] == rest[|rest| - 1]; }
    assert (out + rest)[0] == out[0];
  }

  /** A copied character in front of the rest. */
  lemma {:induction false} SingleSpacedCopied(c: char, rest: string)
    requires IsSpace(c) ==> c == ' '
    requires SingleSpaced(rest)
    requires rest == [] ==> c != ' '
    requires rest != [] ==> rest[|rest| - 1] != ' ' && (c == ' ' ==> rest[0] != ' ')
    ensures var r := [c] + rest; SingleSpaced(r) && r[|r| - 1] != ' ' && r[0] == c
  {
    SingleSpacedConcat([c], rest);
    if rest != [] { assert ([c] + rest)[|[c] + rest| - 1] == rest[|rest| - 1]; }
  }

  /** A global replace keeps text normalized when every replacement is
      non-empty normalized text. */
  lemma {:induction false} ReplaceAllKeepsNormalized(s: string, f: (string, nat) -> Match)
    requires IsNormalized(s)
    requires forall j :: f(s, j).Match? ==> f(s, j).out != [] && IsNormalized(f(s, j).out)
    ensures IsNormalized(ReplaceAll(s, f))
  {
    ReplaceAllNormalized(s, 0, f);
  }

  /** A text without whitespace. */
  predicate NoSpaceIn(a: string) {
    forall k :: 0 <= k < |a| ==> !IsSpace(a[k])
  }

  /** Two normalized pieces joined by one space make normalized text. */
  lemma {:induction false} JoinedNormalized(a: string, b: string)
    requires a != [] && b != [] && IsNormalized(a) && IsNormalized(b)
    ensures IsNormalized(a + " " + b)
  {
    SingleSpacedConcat(a, " ");
    SingleSpacedConcat(a + " ", b);
    var r := a + " " + b;
    assert r[0] == a[0] && r[|r| - 1] == b[|b| - 1];
  }

  lemma {:induction false} NoSpaceNormalized(a: string)
    requires NoSpaceIn(a)
    ensures IsNormalized(a)
  {
  }

  /* ---------------- whitespace ---------------- */

  function SpacesMatch(s: string, i: nat): Match {
    if SpaceRun(s, i) > 0 then Match(SpaceRun(s, i), " ") else NoMatch
  }

  /** `s.replace(/\s+/g, ' ')`. */
  function CollapseSpaces(s: string): string {
    ReplaceAll(s, SpacesMatch)
  }

  function TrimStart(s: string): (r: string)
    ensures |r| <= |s| && r == s[|s| - |r|..]
    ensures r != [] ==> !IsSpace(r[0])
    ensures r == [] ==> forall k :: 0 <= k < |s| ==> IsSpace(s[k])
  {
    if s != [] && IsSpace(s[0]) then
      var r := TrimStart(s[1..]);
      DropFirstSuffix(s, r);
      DropFirstAllSpace(s, r);
      r
    else s
  }

  lemma DropFirstSuffix(s: string, r: string)
    requires s != [] && |r| <= |s| - 1 && r == s[1..][|s| - 1 - |r|..]
    ensures r == s[|s| - |r|..]
  {
  }

  lemma DropFirstAllSpace(s: string, r: string)
    requires s != [] && IsSpace(s[0])
    requires r == [] ==> forall k :: 0 <= k < |s| - 1 ==> IsSpace(s[1..][k])
    ensures r == [] ==> forall k :: 0 <= k < |s| ==> IsSpace(s[k])
  {
    if r == [] {
      forall k | 0 < k < |s| ensures IsSpace(s[k]) { assert s[k] == s[1..][k - 1]; }
    }
  }

  function TrimEnd(s: string): (r: string)
    ensures |r| <= |s| && r == s[..|r|]
    ensures r != [] ==> !IsSpace(r[|r| - 1])
    ensures r == [] ==> forall k :: 0 <= k < |s| ==> IsSpace(s[k])
  {
    if s != [] && IsSpace(s[|s| - 1]) then TrimEnd(s[..|s| - 1]) else s
  }

  /** `String.prototype.trim`. */
  function Trim(s: string): string {
    TrimEnd(TrimStart(s))
  }

  /** Trimming takes a contiguous slice, empty exactly for all-whitespace input,
      that neither starts nor ends with whitespace. */
  lemma {:induction false} TrimSpec(s: string)
    ensures var r := Trim(s); var a := |s| - |TrimStart(s)|;
      (r == [] <==> forall k :: 0 <= k < |s| ==> IsSpace(s[k]))
      && (r != [] ==> !IsSpace(r[0]) && !IsSpace(r[|r| - 1]))
      && a + |r| <= |s| && r == s[a..a + |r|]
  {
    TrimEmpty(s);
    TrimEnds(s);
    TrimSlice(s);
  }

  lemma {:induction false} TrimEmpty(s: string)
    ensures Trim(s) == [] <==> forall k :: 0 <= k < |s| ==> IsSpace(s[k])
  {
    var t := TrimStart(s);
    if t != [] {
      assert !IsSpace(t[0]);
      assert TrimEnd(t) != [];
      assert t[0] == s[|s| - |t|];
    }
  }

  lemma {:induction false} TrimEnds(s: string)
    ensures Trim(s) != [] ==> !IsSpace(Trim(s)[0]) && !IsSpace(Trim(s)[|Trim(s)| - 1])
  {
    var t := TrimStart(s);
    var r := TrimEnd(t);
    if r != [] {
      assert r == t[..|r|];
      assert r[0] == t[0];
    }
  }

  lemma {:induction false} TrimSlice(s: string)
    ensures var a := |s| - |TrimStart(s)|; a + |Trim(s)| <= |s| && Trim(s) == s[a..a + |Trim(s)|]
  {
    var t := TrimStart(s);
    var r := TrimEnd(t);
    var a := |s| - |t|;
    assert t == s[a..];
    assert r == t[..|r|];
  }

  /** Trimming keeps a character property. */
  lemma {:induction false} TrimKeeps(s: string, p: char -> bool)
    requires AllChars(s, p)
    ensures AllChars(Trim(s), p)
  {
    TrimSpec(s);
    var r := Trim(s);
    var a := |s| - |TrimStart(s)|;
    forall k | 0 <= k < |r| ensures p(r[k]) { assert r[k] == s[a + k]; }
  }

  /** A string in the form `normSpaces` produces: whitespace only as single
      interior ' ' characters. */
  predicate IsNormalized(s: string) {
    (forall k :: 0 <= k < |s| && IsSpace(s[k]) ==> s[k] == ' ')
    && (s != [] ==> s[0] != ' ' && s[|s| - 1] != ' ')
    && (forall i, j :: 0 <= i < |s| && 0 <= j < |s| && j == i + 1 && s[i] == ' ' ==> s[j] != ' ')
  }

  /** `normSpaces`: collapse every whitespace run to one space, then trim. */
  function NormSpaces(s: string): string {
    Trim(CollapseSpaces(s))
  }

  lemma {:induction false} CollapseShape(s: string, i: nat)
    ensures SingleSpaced(ReplaceAllFrom(s, i, SpacesMatch))
    ensures (i < |s| && !IsSpace(s[i])) ==> ReplaceAllFrom(s, i, SpacesMatch)[0] == s[i]
    ensures i < |s| && IsSpace(s[i]) ==> ReplaceAllFrom(s, i, SpacesMatch)[0] == ' '
    ensures ReplaceAllFrom(s, i, SpacesMatch) == [] <==> i >= |s|
    decreases |s| - i, 1
  {
    if i < |s| {
      if SpaceRun(s, i) > 0 {
        CollapseShapeSpace(s, i);
      } else {
        CollapseShapeChar(s, i);
      }
    }
  }

  /** `CollapseShape` at a whitespace run. */
  lemma {:induction false} CollapseShapeSpace(s: string, i: nat)
    requires i < |s| && SpaceRun(s, i) > 0
    ensures SingleSpaced(ReplaceAllFrom(s, i, SpacesMatch))
    ensures IsSpace(s[i]) && ReplaceAllFrom(s, i, SpacesMatch) != [] && ReplaceAllFrom(s, i, SpacesMatch)[0] == ' '
    decreases |s| - i, 0
  {
    var j := i + SpaceRun(s, i);
    CollapseShape(s, j);
    var t := ReplaceAllFrom(s, j, SpacesMatch);
    CollapseSpaceStep(s, i);
    assert t != [] ==> t[0] != ' ' by {
      if t != [] { assert j < |s| && !IsSpace(s[j]); }
    }
    CollapsedCons(' ', t);
  }

  /** `CollapseShape` at any other character. */
  lemma {:induction false} CollapseShapeChar(s: string, i: nat)
    requires i < |s| && SpaceRun(s, i) == 0
    ensures SingleSpaced(ReplaceAllFrom(s, i, SpacesMatch))
    ensures !IsSpace(s[i]) && ReplaceAllFrom(s, i, SpacesMatch) != [] && ReplaceAllFrom(s, i, SpacesMatch)[0] == s[i]
    decreases |s| - i, 0
  {
    CollapseShape(s, i + 1);
    CollapseCharStep(s, i);
    CollapsedCons(s[i], ReplaceAllFrom(s, i + 1, SpacesMatch));
  }

  /** A character put in front of collapsed text keeps it collapsed when it
      is not whitespace, or is a ' ' not followed by another. */
  lemma {:induction false} CollapsedCons(c: char, t: string)
    requires SingleSpaced(t)
    requires IsSpace(c) ==> c == ' '
    requires c == ' ' && t != [] ==> t[0] != ' '
    ensures SingleSpaced([c] + t)
  {
    SingleSpacedConcat([c], t);
  }

  lemma {:induction false} CollapseNonSpace(s: string, i: nat)
    ensures HasNonSpace(ReplaceAllFrom(s, i, SpacesMatch)) <==> exists k :: i <= k < |s| && !IsSpace(s[k])
    decreases |s| - i
  {
    if i < |s| {
      var n := SpaceRun(s, i);
      if n > 0 {
        CollapseNonSpace(s, i + n);
        CollapseSpaceStep(s, i);
        HasNonSpaceConcat(" ", ReplaceAllFrom(s, i + n, SpacesMatch));
        NonSpaceSkip(s, i, n);
      } else {
        CollapseNonSpace(s, i + 1);
        CollapseCharStep(s, i);
        HasNonSpaceConcat([s[i]], ReplaceAllFrom(s, i + 1, SpacesMatch));
        assert [s[i]][0] == s[i];
      }
    }
  }

  /** A run of whitespace collapses to one ' '. */
  lemma {:induction false} CollapseSpaceStep(s: string, i: nat)
    requires SpaceRun(s, i) > 0
    ensures ReplaceAllFrom(s, i, SpacesMatch) == " " + ReplaceAllFrom(s, i + SpaceRun(s, i), SpacesMatch)
  {
  }

  /** Any other character is kept. */
  lemma {:induction false} CollapseCharStep(s: string, i: nat)
    requires i < |s| && SpaceRun(s, i) == 0
    ensures ReplaceAllFrom(s, i, SpacesMatch) == [s[i]] + ReplaceAllFrom(s, i + 1, SpacesMatch)
  {
  }

  lemma {:induction false} HasNonSpaceConcat(a: string, b: string)
    ensures HasNonSpace(a + b) <==> HasNonSpace(a) || HasNonSpace(b)
  {
    if HasNonSpace(a + b) {
      var w :| 0 <= w < |a + b| && !IsSpace((a + b)[w]);
      if w >= |a| {
        assert b[w - |a|] == (a + b)[w];
      } else {
        assert a[w] == (a + b)[w];
      }
    }
    if HasNonSpace(a) {
      var w :| 0 <= w < |a| && !IsSpace(a[w]);
      assert (a + b)[w] == a[w];
    }
    if HasNonSpace(b) {
      var w :| 0 <= w < |b| && !IsSpace(b[w]);
      assert (a + b)[|a| + w] == b[w];
    }
  }

  /** Skipping `n` whitespace characters keeps whether a non-space follows. */
  lemma {:induction false} NonSpaceSkip(s: string, i: nat, n: nat)
    requires i + n <= |s|
    requires forall k :: i <= k < i + n ==> IsSpace(s[k])
    ensures (exists k :: i <= k < |s| && !IsSpace(s[k])) <==> (exists k :: i + n <= k < |s| && !IsSpace(s[k]))
  {
  }

  /** Trimming a collapsed string keeps it collapsed and gives the normalized shape. */
  lemma {:induction false} TrimCollapsed(c: string)
    requires SingleSpaced(c)
    ensures IsNormalized(Trim(c))
  {
    TrimKeepsCollapsed(c);
    TrimEnds(c);
    CollapsedUnpadded(Trim(c));
  }

  lemma {:induction false} TrimKeepsCollapsed(c: string)
    requires SingleSpaced(c)
    ensures SingleSpaced(Trim(c))
  {
    var t := TrimStart(c);
    SliceCollapsed(c, t, |c| - |t|);
    var r := TrimEnd(t);
    SliceCollapsed(t, r, 0);
  }

  /** A slice of a collapsed string is collapsed. */
  lemma {:induction false} SliceCollapsed(c: string, r: string, a: nat)
    requires SingleSpaced(c) && a + |r| <= |c| && r == c[a..a + |r|]
    ensures SingleSpaced(r)
  {
    forall k | 0 <= k < |r| && IsSpace(r[k]) ensures r[k] == ' ' { assert r[k] == c[a + k]; }
    forall i, j | 0 <= i < |r| && 0 <= j < |r| && j == i + 1 && r[i] == ' ' ensures r[j] != ' ' {
      assert r[i] == c[a + i] && r[j] == c[a + j];
    }
  }

  /** A collapsed string that neither starts nor ends with whitespace is normalized. */
  lemma {:induction false} CollapsedUnpadded(r: string)
    requires SingleSpaced(r) && (r != [] ==> !IsSpace(r[0]) && !IsSpace(r[|r| - 1]))
    ensures IsNormalized(r)
  {
  }

  /** What `normSpaces` produces has the normalized shape, and it is empty
      exactly when the input is all whitespace. */
  lemma {:induction false} NormSpacesShape(s: string)
    ensures IsNormalized(NormSpaces(s))
    ensures NormSpaces(s) == [] <==> forall k :: 0 <= k < |s| ==> IsSpace(s[k])
  {
    var c := CollapseSpaces(s);
    CollapseShape(s, 0);
    CollapseNonSpace(s, 0);
    TrimCollapsed(c);
    TrimSpec(c);
    if NormSpaces(s) == [] {
      assert !HasNonSpace(c);
    }
  }

  /** `normSpaces` keeps a character property that holds of ' '. */
  lemma {:induction false} NormSpacesKeeps(s: string, p: char -> bool)
    requires AllChars(s, p) && p(' ')
    ensures AllChars(NormSpaces(s), p)
  {
    ReplaceAllKeeps(s, 0, SpacesMatch, p);
    TrimKeeps(CollapseSpaces(s), p);
  }

  /** Collapsing leaves alone a suffix whose whitespace is already single ' '
      characters. */
  lemma {:induction false} CollapseNormalized(s: string, i: nat)
    requires i <= |s|
    requires forall k :: i <= k < |s| && IsSpace(s[k]) ==> s[k] == ' '
    requires forall k :: i <= k < |s| - 1 && s[k] == ' ' ==> s[k + 1] != ' '
    ensures ReplaceAllFrom(s, i, SpacesMatch) == s[i..]
    decreases |s| - i
  {
    if i < |s| {
      CollapseNormalized(s, i + 1);
      assert s[i..] == [s[i]] + s[i + 1..];
      if IsSpace(s[i]) {
        assert i + 1 < |s| ==> !IsSpace(s[i + 1]);
        assert SpaceRun(s, i) == 1;
        CollapseSpaceStep(s, i);
        assert [s[i]] == " ";
      } else {
        CollapseCharStep(s, i);
      }
    }
  }

  /** Collapsing copies a stretch whose whitespace is single ' ' characters
      and that does not end in whitespace. */
  lemma {:induction false} CollapsePlainPrefix(s: string, i: nat, n: nat)
    requires i <= n <= |s|
    requires forall k :: i <= k < n && IsSpace(s[k]) ==> s[k] == ' '
    requires forall k :: i <= k < n && IsSpace(s[k]) ==> k + 1 < n && !IsSpace(s[k + 1])
    ensures ReplaceAllFrom(s, i, SpacesMatch) == s[i..n] + ReplaceAllFrom(s, n, SpacesMatch)
    decreases n - i
  {
    if i < n {
      CollapsePlainPrefix(s, i + 1, n);
      CollapsePlainStep(s, i, n);
    }
  }

  lemma {:induction false} CollapsePlainStep(s: string, i: nat, n: nat)
    requires i < n <= |s|
    requires IsSpace(s[i]) ==> s[i] == ' ' && i + 1 < n && !IsSpace(s[i + 1])
    requires ReplaceAllFrom(s, i + 1, SpacesMatch) == s[i + 1..n] + ReplaceAllFrom(s, n, SpacesMatch)
    ensures ReplaceAllFrom(s, i, SpacesMatch) == s[i..n] + ReplaceAllFrom(s, n, SpacesMatch)
  {
    SliceCons(s, i, n);
    Wrappers.SeqAssoc([s[i]], s[i + 1..n], ReplaceAllFrom(s, n, SpacesMatch));
    CollapseKeeps(s, i);
  }

  /** A character that is not the start of a longer whitespace run, or is
      not whitespace at all, is copied by the collapse. */
  lemma {:induction false} CollapseKeeps(s: string, i: nat)
    requires i < |s|
    requires IsSpace(s[i]) ==> s[i] == ' ' && i + 1 < |s| && !IsSpace(s[i + 1])
    ensures ReplaceAllFrom(s, i, SpacesMatch) == [s[i]] + ReplaceAllFrom(s, i + 1, SpacesMatch)
  {
    if IsSpace(s[i]) {
      RunUpTo(s, i, i + 1, IsSpace);
      CollapseSpaceStep(s, i);
      assert [s[i]] == " ";
    } else {
      RunUpTo(s, i, i, IsSpace);
      CollapseCharStep(s, i);
    }
  }

  lemma {:induction false} SliceCons(s: string, i: nat, n: nat)
    requires i < n <= |s|
    ensures s[i..n] == [s[i]] + s[i + 1..n]
  {
  }

  /** In normalized text every whitespace character is a ' ' followed by a
      non-space. */
  lemma {:induction false} NormalizedSingleSpaces(x: string)
    requires IsNormalized(x)
    ensures forall k :: 0 <= k < |x| && IsSpace(x[k]) ==> x[k] == ' ' && k + 1 < |x| && !IsSpace(x[k + 1])
  {
    forall k | 0 <= k < |x| && IsSpace(x[k]) ensures x[k] == ' ' && k + 1 < |x| && !IsSpace(x[k + 1]) {
      assert k + 1 < |x| ==> x[k + 1] != ' ';
    }
  }

  /** Trailing whitespace after a normalized text collapses to one ' '. */
  lemma {:induction false} CollapseTrailing(x: string, t: string)
    requires IsNormalized(x) && t != []
    requires forall k :: 0 <= k < |t| ==> IsSpace(t[k])
    ensures CollapseSpaces(x + t) == x + " "
  {
    var s := x + t;
    NormalizedSingleSpaces(x);
    assert forall k :: 0 <= k < |x| ==> s[k] == x[k];
    CollapsePlainPrefix(s, 0, |x|);
    assert s[0..|x|] == x;
    CollapseBlankTail(s, |x|);
  }

  /** A whitespace tail collapses to one ' '. */
  lemma {:induction false} CollapseBlankTail(s: string, i: nat)
    requires i < |s| && forall k :: i <= k < |s| ==> IsSpace(s[k])
    ensures ReplaceAllFrom(s, i, SpacesMatch) == " "
  {
    RunToEnd(s, i, IsSpace);
    CollapseSpaceStep(s, i);
    assert ReplaceAllFrom(s, |s|, SpacesMatch) == [];
  }

  /** Trailing whitespace after a normalized text is dropped. */
  lemma {:induction false} NormSpacesTrailing(x: string, t: string)
    requires IsNormalized(x) && x != [] && t != []
    requires forall k :: 0 <= k < |t| ==> IsSpace(t[k])
    ensures NormSpaces(x + t) == x
  {
    CollapseTrailing(x, t);
    var c := x + " ";
    assert TrimStart(c) == c;
    assert c[..|c| - 1] == x;
    assert TrimEnd(c) == TrimEnd(x);
  }

  /** A global replace whose pattern matches nowhere leaves the text alone. */
  lemma {:induction false} ReplaceAllNoMatch(s: string, i: nat, f: (string, nat) -> Match)
    requires i <= |s|
    requires forall j :: i <= j < |s| ==> f(s, j).NoMatch?
    ensures ReplaceAllFrom(s, i, f) == s[i..]
    decreases |s| - i
  {
    if i < |s| {
      ReplaceAllNoMatch(s, i + 1, f);
      assert s[i..] == [s[i]] + s[i + 1..];
    }
  }

  /** A run that stops at position `n`. */
  lemma {:induction false} RunUpTo(s: string, i: nat, n: nat, q: char -> bool)
    requires i <= n < |s| && !q(s[n])
    requires forall k :: i <= k < n ==> q(s[k])
    ensures Run(s, i, q) == n - i
    decreases n - i
  {
    if i < n { RunUpTo(s, i + 1, n, q); }
  }

  /** A run that reaches the end of the string. */
  lemma {:induction false} RunToEnd(s: string, i: nat, q: char -> bool)
    requires i <= |s| && forall k :: i <= k < |s| ==> q(s[k])
    ensures Run(s, i, q) == |s| - i
    decreases |s| - i
  {
    if i < |s| { RunToEnd(s, i + 1, q); }
  }

  /** Positions without a match are copied through one by one. */
  lemma {:induction false} ReplaceAllSkip(s: string, i: nat, n: nat, f: (string, nat) -> Match)
    requires i <= n <= |s|
    requires forall j :: i <= j < n ==> f(s, j).NoMatch?
    ensures ReplaceAllFrom(s, i, f) == s[i..n] + ReplaceAllFrom(s, n, f)
    decreases n - i
  {
    if i < n {
      ReplaceAllSkip(s, i + 1, n, f);
      ReplaceAllMiss(s, i, f);
      SliceCons(s, i, n);
      Wrappers.SeqAssoc([s[i]], s[i + 1..n], ReplaceAllFrom(s, n, f));
    } else {
      assert s[i..n] == [];
    }
  }

  /** A global replace at a real match emits the replacement and goes on
      after the matched text. */
  lemma {:induction false} ReplaceAllAt(s: string, i: nat, f: (string, nat) -> Match)
    requires i < |s| && f(s, i).Match? && 0 < f(s, i).len && i + f(s, i).len <= |s|
    ensures ReplaceAllFrom(s, i, f) == f(s, i).out + ReplaceAllFrom(s, i + f(s, i).len, f)
  {
  }

  /** A global replace keeps a character where no usable match starts. */
  lemma {:induction false} ReplaceAllKeep(s: string, i: nat, f: (string, nat) -> Match)
    requires i < |s| && !(f(s, i).Match? && 0 < f(s, i).len && i + f(s, i).len <= |s|)
    ensures ReplaceAllFrom(s, i, f) == [s[i]] + ReplaceAllFrom(s, i + 1, f)
  {
  }

  /** A global replace keeps a character where nothing matches. */
  lemma {:induction false} ReplaceAllMiss(s: string, i: nat, f: (string, nat) -> Match)
    requires i < |s| && f(s, i).NoMatch?
    ensures ReplaceAllFrom(s, i, f) == [s[i]] + ReplaceAllFrom(s, i + 1, f)
  {
  }

  /** A global replace with exactly one match, at `[p, e)`. */
  lemma {:induction false} ReplaceAllOne(s: string, p: nat, e: nat, out: string, f: (string, nat) -> Match)
    requires p < e <= |s|
    requires forall j :: 0 <= j < p ==> f(s, j).NoMatch?
    requires forall j :: e <= j < |s| ==> f(s, j).NoMatch?
    requires f(s, p) == Match(e - p, out)
    ensures ReplaceAll(s, f) == s[..p] + out + s[e..]
  {
    ReplaceAllNoMatch(s, e, f);
    ReplaceAllSkip(s, 0, p, f);
    ReplaceAllAt(s, p, f);
    assert s[0..p] == s[..p];
  }

  /** `\s{2,}`, replaced by a single space. */
  function LongSpacesMatch(s: string, i: nat): Match {
    if SpaceRun(s, i) >= 2 then Match(SpaceRun(s, i), " ") else NoMatch
  }

  /** Whether the `n` characters of `s` from `j` on (as far as they exist)
      are all whitespace. */
  predicate SpacesAt(s: string, j: nat, n: nat) {
    forall k :: j <= k < j + n && k < |s| ==> IsSpace(s[k])
  }

  /** A global replace whose matches cover only whitespace keeps the
      non-whitespace character at `k`, so a non-blank text stays non-blank. */
  lemma {:induction false} ReplaceSpacesKeepsNonSpace(s: string, i: nat, k: nat, f: (string, nat) -> Match)
    requires i <= k < |s| && !IsSpace(s[k])
    requires forall j :: f(s, j).Match? ==> SpacesAt(s, j, f(s, j).len)
    ensures HasNonSpace(ReplaceAllFrom(s, i, f))
    decreases |s| - i
  {
    var r := ReplaceAllFrom(s, i, f);
    var m := f(s, i);
    if m.Match? && 0 < m.len && i + m.len <= |s| {
      assert SpacesAt(s, i, m.len);
      assert k >= i + m.len;
      ReplaceSpacesKeepsNonSpace(s, i + m.len, k, f);
      var t := ReplaceAllFrom(s, i + m.len, f);
      assert r == m.out + t;
      var w :| 0 <= w < |t| && !IsSpace(t[w]);
      assert r[|m.out| + w] == t[w];
    } else if k == i {
      assert r[0] == s[i];
    } else {
      ReplaceSpacesKeepsNonSpace(s, i + 1, k, f);
      var t := ReplaceAllFrom(s, i + 1, f);
      assert r == [s[i]] + t;
      var w :| 0 <= w < |t| && !IsSpace(t[w]);
      assert r[w + 1] == t[w];
    }
  }

  /** Collapsing long space runs keeps a non-blank text non-blank. */
  lemma {:induction false} LongSpacesKeepNonSpace(s: string)
    requires HasNonSpace(s)
    ensures HasNonSpace(ReplaceAll(s, LongSpacesMatch))
  {
    forall j | LongSpacesMatch(s, j).Match? ensures SpacesAt(s, j, LongSpacesMatch(s, j).len) {
    }
    var k :| 0 <= k < |s| && !IsSpace(s[k]);
    ReplaceSpacesKeepsNonSpace(s, 0, k, LongSpacesMatch);
  }

  /** A normalized string has no run of two whitespace characters. */
  lemma {:induction false} NormalizedNoLongSpaces(s: string)
    requires IsNormalized(s)
    ensures ReplaceAll(s, LongSpacesMatch) == s
  {
    forall j | 0 <= j < |s| ensures LongSpacesMatch(s, j).NoMatch? {
      if IsSpace(s[j]) {
        assert j + 1 < |s| ==> !IsSpace(s[j + 1]);
      }
    }
    ReplaceAllNoMatch(s, 0, LongSpacesMatch);
    assert s[0..] == s;
  }

  /** `normSpaces` is the identity on normalized strings, so it is idempotent. */
  lemma {:induction false} NormSpacesIdem(s: string)
    requires IsNormalized(s)
    ensures NormSpaces(s) == s
  {
    CollapseNormalized(s, 0);
    assert s[0..] == s;
    if s != [] {
      assert !IsSpace(s[0]) && !IsSpace(s[|s| - 1]);
    }
  }

  lemma {:induction false} NormSpacesTwice(s: string)
    ensures NormSpaces(NormSpaces(s)) == NormSpaces(s)
  {
    NormSpacesShape(s);
    NormSpacesIdem(NormSpaces(s));
  }

  /* ---------------- split and join ---------------- */

  /** `s.split(sep)` with a one-character separator. */
  function Split(s: string, sep: char): (parts: seq<string>)
    ensures |parts| >= 1
    ensures forall k :: 0 <= k < |parts| ==> sep !in parts[k]
  {
    SplitFrom(s, sep, [])
  }

  function SplitFrom(s: string, sep: char, cur: string): (parts: seq<string>)
    requires sep !in cur
    ensures |parts| >= 1
    ensures forall k :: 0 <= k < |parts| ==> sep !in parts[k]
  {
    if s == [] then [cur]
    else if s[0] == sep then [cur] + SplitFrom(s[1..], sep, [])
    else SplitFrom(s[1..], sep, cur + [s[0]])
  }

  /** `parts.join(sep)`. */
  function Join(parts: seq<string>, sep: string): string {
    if parts == [] then []
    else if |parts| == 1 then parts[0]
    else parts[0] + sep + Join(parts[1..], sep)
  }

  lemma {:induction false} JoinSplit(s: string, sep: char, cur: string)
    requires sep !in cur
    ensures Join(SplitFrom(s, sep, cur), [sep]) == cur + s
  {
    if s == [] {
    } else if s[0] == sep {
      var rest := SplitFrom(s[1..], sep, []);
      JoinSplit(s[1..], sep, []);
      var parts := [cur] + rest;
      assert parts[0] == cur && parts[1..] == rest;
      assert Join(parts, [sep]) == cur + [sep] + Join(rest, [sep]);
      assert [] + s[1..] == s[1..];
      assert s == [sep] + s[1..];
      Wrappers.SeqAssoc(cur, [sep], s[1..]);
    } else {
      JoinSplit(s[1..], sep, cur + [s[0]]);
      assert cur + s == (cur + [s[0]]) + s[1..];
    }
  }

  /** Splitting and re-joining with the same separator gives the string back. */
  lemma {:induction false} JoinOfSplit(s: string, sep: char)
    ensures Join(Split(s, sep), [sep]) == s
  {
    JoinSplit(s, sep, []);
  }

  /** `s.split(/\r?\n/)`: split at '\n' and drop one '\r' right before each '\n'. */
  function Lines(s: string): (lines: seq<string>)
    ensures |lines| >= 1
  {
    var parts := Split(s, '\n');
    seq(|parts|, k requires 0 <= k < |parts| =>
      if k < |parts| - 1 && parts[k] != [] && parts[k][|parts[k]| - 1] == '\r'
      then parts[k][..|parts[k]| - 1] else parts[k])
  }

  /** A separator-free string is one part. */
  lemma {:induction false} SplitFromPlain(s: string, sep: char, cur: string)
    requires sep !in cur && sep !in s
    ensures SplitFrom(s, sep, cur) == [cur + s]
  {
    if s == [] {
      assert cur + s == cur;
    } else {
      assert s[0] != sep;
      SplitFromPlain(s[1..], sep, cur + [s[0]]);
      assert cur + s == (cur + [s[0]]) + s[1..];
    }
  }

  /** A separator ends the current part. */
  lemma {:induction false} SplitFromConcat(a: string, rest: string, sep: char, cur: string)
    requires sep !in cur && sep !in a
    ensures SplitFrom(a + [sep] + rest, sep, cur) == [cur + a] + SplitFrom(rest, sep, [])
  {
    var t := a + [sep] + rest;
    if a == [] {
      assert t == [sep] + rest;
      assert t[1..] == rest;
      assert cur + a == cur;
    } else {
      assert t[0] == a[0];
      assert t[1..] == a[1..] + [sep] + rest;
      SplitFromConcat(a[1..], rest, sep, cur + [a[0]]);
      assert cur + a == (cur + [a[0]]) + a[1..];
    }
  }

  /** `(a + sep + b + sep + c).split(sep)` is `[a, b, c]` for separator-free parts. */
  lemma {:induction false} SplitThree(a: string, b: string, c: string, sep: char)
    requires sep !in a && sep !in b && sep !in c
    ensures Split(a + [sep] + b + [sep] + c, sep) == [a, b, c]
  {
    assert a + [sep] + b + [sep] + c == a + [sep] + (b + [sep] + c);
    SplitFromConcat(a, b + [sep] + c, sep, []);
    SplitFromConcat(b, c, sep, []);
    SplitFromPlain(c, sep, []);
    assert [] + a == a && [] + b == b && [] + c == c;
  }

  /** A string splits into several parts exactly when it holds the separator. */
  lemma {:induction false} SplitFromCount(s: string, sep: char, cur: string)
    requires sep !in cur
    ensures |SplitFrom(s, sep, cur)| >= 2 <==> sep in s
  {
    if s == [] {
    } else if s[0] == sep {
      assert sep in s;
    } else {
      SplitFromCount(s[1..], sep, cur + [s[0]]);
      assert sep in s <==> sep in s[1..] by {
        assert s == [s[0]] + s[1..];
      }
    }
  }

  /** A normalized string is its own trim. */
  lemma {:induction false} TrimNormalized(s: string)
    requires IsNormalized(s)
    ensures Trim(s) == s
  {
    if s != [] {
      assert !IsSpace(s[0]) && !IsSpace(s[|s| - 1]);
      TrimUnpadded(s);
    }
  }

  /** A string with no whitespace at either end is its own trim. */
  lemma {:induction false} TrimUnpadded(s: string)
    requires s != [] && !IsSpace(s[0]) && !IsSpace(s[|s| - 1])
    ensures Trim(s) == s
  {
    assert TrimStart(s) == s;
    assert TrimEnd(s) == s;
  }

  /* ---------------- filtering ---------------- */

  /** `s.replace(/[^class]/g, '')`: the characters of the class, in order. */
  function Keep(s: string, p: char -> bool): (r: string)
    ensures |r| <= |s|
    ensures AllChars(r, p)
  {
    if s == [] then [] else (if p(s[0]) then [s[0]] else []) + Keep(s[1..], p)
  }

  /** Filtering keeps every character of a string that is all in the class. */
  lemma {:induction false} KeepAll(s: string, p: char -> bool)
    requires AllChars(s, p)
    ensures Keep(s, p) == s
  {
    if s != [] {
      assert p(s[0]);
      SliceKeeps(s, 1, |s|, p);
      assert s[1..|s|] == s[1..];
      KeepAll(s[1..], p);
    }
  }

  /** Filtering distributes over concatenation. */
  lemma {:induction false} KeepConcat(a: string, b: string, p: char -> bool)
    ensures Keep(a + b, p) == Keep(a, p) + Keep(b, p)
  {
    if a == [] {
      assert a + b == b;
    } else {
      var h := if p(a[0]) then [a[0]] else [];
      assert (a + b)[0] == a[0];
      assert (a + b)[1..] == a[1..] + b;
      assert Keep(a + b, p) == h + Keep(a[1..] + b, p);
      KeepConcat(a[1..], b, p);
      assert Keep(a, p) == h + Keep(a[1..], p);
      Wrappers.SeqAssoc(h, Keep(a[1..], p), Keep(b, p));
    }
  }


  /** The filter is empty exactly when no character is in the class. */
  lemma {:induction false} KeepEmpty(s: string, p: char -> bool)
    ensures Keep(s, p) == [] <==> forall k :: 0 <= k < |s| ==> !p(s[k])
  {
    if s != [] {
      KeepEmpty(s[1..], p);
      assert forall k :: 1 <= k < |s| ==> s[k] == s[1..][k - 1];
    }
  }

  /** Filtering keeps any character property of the input. */
  lemma {:induction false} KeepKeeps(s: string, p: char -> bool, q: char -> bool)
    requires AllChars(s, q)
    ensures AllChars(Keep(s, p), q)
  {
    if s != [] {
      assert q(s[0]);
      SliceKeeps(s, 1, |s|, q);
      assert s[1..|s|] == s[1..];
      KeepKeeps(s[1..], p, q);
      ConcatKeeps(if p(s[0]) then [s[0]] else [], Keep(s[1..], p), q);
    }
  }

  /** A first replace changes nothing when the pattern matches nowhere. */
  lemma {:induction false} ReplaceFirstNoMatch(s: string, i: nat, f: (string, nat) -> Match)
    requires forall j :: i <= j < |s| ==> f(s, j).NoMatch?
    ensures ReplaceFirstFrom(s, i, f) == if i <= |s| then s[i..] else []
    decreases |s| - i
  {
    if i < |s| {
      ReplaceFirstNoMatch(s, i + 1, f);
      assert s[i..] == [s[i]] + s[i + 1..];
    }
  }

  /** Lower-casing leaves text without upper-case letters unchanged. */
  lemma {:induction false} ToLowerNoUpper(s: string)
    requires forall k :: 0 <= k < |s| ==> !IsUpperLetter(s[k])
    ensures ToLower(s) == s
  {
    var r := ToLower(s);
    forall k | 0 <= k < |s| ensures r[k] == s[k] {
      assert r[k] == LowerChar(s[k]);
    }
  }

  lemma {:induction false} ToLowerConcat(a: string, b: string)
    ensures ToLower(a + b) == ToLower(a) + ToLower(b)
  {
    var r := ToLower(a + b);
    assert |r| == |ToLower(a) + ToLower(b)|;
    forall k | 0 <= k < |r| ensures r[k] == (ToLower(a) + ToLower(b))[k] {
      if k < |a| { assert (a + b)[k] == a[k]; } else { assert (a + b)[k] == b[k - |a|]; }
    }
  }
}
