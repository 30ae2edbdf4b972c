/** Product-name and unit-phrase processing of price labels
    (price-recommendation/agrolinkName.ts). Every regular expression is a
    matcher over the string being scanned. */
module AgrolinkName {
  import opened Wrappers
  import opened Text
  import opened JsNumber

  datatype SplitResult = SplitResult(name: string, unit: Option<string>)
  datatype UnitDetails = UnitDetails(unitKind: Option<string>, unitKg: Option<Number>, packCount: Option<Number>)

  const UnitWords: seq<string> :=
    ["cx", "sc", "kg", "g", "l", "lt", "un", "unid", "ma\U{00E7}o", "maco", "d\U{00FA}zia", "duzia", "dz"]

  const Stopwords: seq<string> :=
    ["produtor", "produtora", "produtores", "produtoras",
     "beneficiador", "beneficiadora", "beneficiadores", "beneficiadoras",
     "beneficiado", "beneficiados", "beneficiada", "beneficiadas",
     "tipo", "tipos", "E", "primeira", "segunda"]

  /** The unit words removed from names are the literal unit words. */
  const UnitStopwords: seq<string> := UnitWords

  /* ---------------- generic word alternation ---------------- */

  /** Length of the first alternative of `words` that occurs at `i` (under the
      `i` flag) and is followed by a word boundary: `(?:w1|w2|…)\b`. */
  function FirstWordAt(s: string, i: nat, words: seq<string>): (n: Option<nat>)
    ensures n.Some? ==> i + n.value <= |s| && IsBoundary(s, i + n.value)
    ensures n.Some? ==> exists w :: w in words && |w| == n.value && EqCIAt(s, i, w)
    ensures (exists w :: w in words && w != [] && EqCIAt(s, i, w) && IsBoundary(s, i + |w|)) ==> n.Some?
  {
    if words == [] then None
    else if words[0] != [] && EqCIAt(s, i, words[0]) && IsBoundary(s, i + |words[0]|)
    then EqCIAtBounds(s, i, words[0]); Some(|words[0]|)
    else FirstWordAt(s, i, words[1..])
  }

  /** `\b(?:w1|w2|…)\b` under the `gi` flags, replaced by `out`. */
  function WordsMatch(s: string, i: nat, words: seq<string>, out: string): (m: Match)
    ensures m.Match? ==> m.out == out && IsBoundary(s, i) && i + m.len <= |s| && IsBoundary(s, i + m.len)
    ensures m.Match? ==> exists w :: w in words && |w| == m.len && EqCIAt(s, i, w)
    ensures IsBoundary(s, i) && (exists w :: w in words && w != [] && EqCIAt(s, i, w) && IsBoundary(s, i + |w|))
            ==> m.Match?
  {
    if IsBoundary(s, i) then
      match FirstWordAt(s, i, words)
      case Some(n) => Match(n, out)
      case None => NoMatch
    else NoMatch
  }

  /** `\bw\b` under the `gi` flags, replaced by `out`. */
  function WholeWordMatch(s: string, i: nat, w: string, out: string): (m: Match)
    ensures m.Match? ==> m.out == out
  {
    WordsMatch(s, i, [w], out)
  }

  /* ---------------- normSpaces / stripLocationSuffix ---------------- */

  /** `\bJUAZEIRO\s*\(BA\)\b` with `gi`, replaced by a space. The final `\b`
      needs a word character right after the `)`. */
  function JuazeiroBaMatch(s: string, i: nat): Match {
    var j := i + 8 + SpaceRun(s, i + 8);
    if IsBoundary(s, i) && EqCIAt(s, i, "JUAZEIRO") && EqCIAt(s, j, "(BA)") && IsBoundary(s, j + 4)
    then Match(j + 4 - i, " ") else NoMatch
  }

  /** `\(\s*[A-Z]{2}\s*\)\s*$` (case-sensitive), replaced by a space. */
  function StateSuffixMatch(s: string, i: nat): Match {
    var j := i + 1 + SpaceRun(s, i + 1);
    var k := j + 2 + SpaceRun(s, j + 2);
    if i < |s| && s[i] == '(' && j + 1 < |s| && IsAsciiUpper(s[j]) && IsAsciiUpper(s[j + 1])
       && k < |s| && s[k] == ')' && k + 1 + SpaceRun(s, k + 1) == |s|
    then Match(|s| - i, " ") else NoMatch
  }

  /** `\bJUAZEIRO\b\s*$` with `gi`, replaced by a space. */
  function JuazeiroEndMatch(s: string, i: nat): Match {
    if IsBoundary(s, i) && EqCIAt(s, i, "JUAZEIRO") && IsBoundary(s, i + 8)
       && i + 8 + SpaceRun(s, i + 8) == |s|
    then Match(|s| - i, " ") else NoMatch
  }

  /** `stripLocationSuffix`: drops a trailing locality ("Juazeiro", "(BA)"). */
  function StripLocationSuffix(s: string): string {
    NormSpaces(ReplaceAll(ReplaceAll(ReplaceAll(s, JuazeiroBaMatch), StateSuffixMatch), JuazeiroEndMatch))
  }

  /* ---------------- cleanProductName ---------------- */

  /** `\([^)]*\)`: from an opening parenthesis to the first closing one. */
  function ParenMatch(s: string, i: nat): Match {
    var j := i + 1 + Run(s, i + 1, c => c != ')');
    if i < |s| && s[i] == '(' && j < |s| then Match(j + 1 - i, " ") else NoMatch
  }

  predicate IsOrdinalSign(c: char) { c == '\U{00BA}' || c == '\U{00AA}' }

  /** `\b\d+[ºª]?\b`: a standalone number; the ordinal sign is taken only when a
      word character follows it, otherwise the digits alone must end at a boundary. */
  function NumberMatch(s: string, i: nat): Match {
    var k := i + DigitRun(s, i);
    if IsBoundary(s, i) && i < |s| && IsDigit(s[i]) then
      if k < |s| && IsOrdinalSign(s[k]) && WordAt(s, k + 1) then Match(k + 1 - i, " ")
      else if IsBoundary(s, k) then Match(k - i, " ")
      else NoMatch
    else NoMatch
  }

  /** `[|:–—\-]` */
  predicate IsSeparatorChar(c: char) {
    c == '|' || c == ':' || c == '\U{2013}' || c == '\U{2014}' || c == '-'
  }

  /** `[ºª°]` */
  predicate IsDegreeChar(c: char) { c == '\U{00BA}' || c == '\U{00AA}' || c == '\U{00B0}' }

  /** `s.replace(/^[\-–—]\s*\/, '')` */
  function StripLeadingDash(s: string): string {
    if s != [] && (s[0] == '-' || s[0] == '\U{2013}' || s[0] == '\U{2014}') then s[1 + SpaceRun(s, 1)..]
    else s
  }

  /** End of up to `n` groups `\w+\s*` starting at `p` (greedy; no other split
      of the groups can reach a `:`). */
  function LabelGroupsEnd(s: string, p: nat, n: nat): (q: nat)
    ensures p <= q
    ensures p <= |s| ==> q <= |s|
    decreases n
  {
    if n > 0 && p < |s| && IsWordChar(s[p]) then
      var w := p + Run(s, p, IsWordChar);
      LabelGroupsEnd(s, w + SpaceRun(s, w), n - 1)
    else p
  }

  /** `s.replace(/^(?:\w+\s*){0,2}:\s*\/i, '')`: a leading "LABEL:" prefix. */
  function StripLabelPrefix(s: string): string {
    var q := LabelGroupsEnd(s, 0, 2);
    if q < |s| && s[q] == ':' then s[q + 1 + SpaceRun(s, q + 1)..] else s
  }

  predicate IsNameChar(c: char) { IsLetter(c) || IsSpace(c) }

  function StopwordMatch(s: string, i: nat): Match { WordsMatch(s, i, Stopwords, " ") }
  function UnitStopwordMatch(s: string, i: nat): Match { WordsMatch(s, i, UnitStopwords, " ") }

  /** Steps of `cleanProductName` that remove parenthesised asides, standalone
      numbers, separators, a leading dash and ordinal signs, then trim. */
  function StripSymbols(original: string): string {
    var s1 := ReplaceAll(original, ParenMatch);
    var s2 := ReplaceAll(s1, NumberMatch);
    var s3 := ReplaceChars(s2, IsSeparatorChar, ' ');
    var s4 := StripLeadingDash(s3);
    Trim(ReplaceChars(s4, IsDegreeChar, ' '))
  }

  /** Steps of `cleanProductName` that remove stopwords, a label prefix and
      unit words. */
  function RemoveWords(s: string): string {
    ReplaceAll(StripLabelPrefix(ReplaceAll(s, StopwordMatch)), UnitStopwordMatch)
  }

  /** `s.replace(/[^\p{L}\s]/gu, ' ')` */
  function KeepNameChars(s: string): (r: string)
    ensures AllChars(r, IsNameChar)
    ensures |r| == |s|
    ensures forall k :: 0 <= k < |s| ==> (IsNameChar(s[k]) ==> r[k] == s[k]) && (!IsNameChar(s[k]) ==> r[k] == ' ')
  {
    ReplaceChars(s, c => !IsNameChar(c), ' ')
  }

  /** The rewriting chain of `cleanProductName` applied to the space-normalized
      label, before the fallback. */
  function CleanPasses(original: string): string {
    NormSpaces(KeepNameChars(RemoveWords(StripSymbols(original))))
  }

  /** `cleanProductName`: strips asides, numbers, separators, stopwords and
      unit words; falls back to the space-normalized label when nothing is left. */
  function CleanProductName(raw: string): string {
    if raw == [] then []
    else
      var original := NormSpaces(raw);
      var s := CleanPasses(original);
      if s == [] then original else s
  }

  /** A cleaned name: letters separated by single spaces. */
  predicate IsCleanName(s: string) {
    IsNormalized(s) && forall k :: 0 <= k < |s| ==> IsLetter(s[k]) || s[k] == ' '
  }

  lemma {:induction false} CleanPassesShape(original: string)
    ensures IsCleanName(CleanPasses(original))
  {
    var t := KeepNameChars(RemoveWords(StripSymbols(original)));
    NormSpacesShape(t);
    NormSpacesKeeps(t, IsNameChar);
    var r := NormSpaces(t);
    forall k | 0 <= k < |r| ensures IsLetter(r[k]) || r[k] == ' ' {
      assert IsNameChar(r[k]);
    }
  }

  /** `cleanProductName` of "" is "". Otherwise the result is empty exactly when
      the label is all whitespace; it is the cleaned text (letters and single
      interior spaces) when the cleaning leaves any, and the space-normalized
      label when the cleaning removes everything. */
  lemma {:induction false} CleanProductNameSpec(raw: string)
    ensures raw == [] ==> CleanProductName(raw) == []
    ensures CleanProductName(raw) == [] <==> forall k :: 0 <= k < |raw| ==> IsSpace(raw[k])
    ensures CleanPasses(NormSpaces(raw)) != [] ==>
              CleanProductName(raw) == CleanPasses(NormSpaces(raw)) && IsCleanName(CleanProductName(raw))
    ensures raw != [] && CleanPasses(NormSpaces(raw)) == [] ==> CleanProductName(raw) == NormSpaces(raw)
    ensures IsNormalized(CleanProductName(raw))
  {
    var original := NormSpaces(raw);
    var cleaned := CleanPasses(original);
    NormSpacesShape(raw);
    CleanPassesShape(original);
    CleanProductNameUnfold(raw);
    if original == [] {
      CleanPassesOfEmpty();
    }
    CleanFallback(raw, original, cleaned, CleanProductName(raw));
  }

  /** Nothing cleans to nothing. */
  lemma CleanPassesOfEmpty()
    ensures CleanPasses([]) == []
  {
    var e: string := [];
    ReplaceAllOfEmpty(ParenMatch);
    ReplaceAllOfEmpty(NumberMatch);
    assert ReplaceChars(e, IsSeparatorChar, ' ') == e;
    assert StripLeadingDash(e) == e;
    assert ReplaceChars(e, IsDegreeChar, ' ') == e;
    TrimOfEmpty();
    assert StripSymbols(e) == e;
    ReplaceAllOfEmpty(StopwordMatch);
    assert StripLabelPrefix(e) == e;
    ReplaceAllOfEmpty(UnitStopwordMatch);
    assert RemoveWords(e) == e;
    assert KeepNameChars(e) == e;
    NormSpacesShape(e);
  }

  lemma {:induction false} ReplaceAllOfEmpty(f: (string, nat) -> Match)
    ensures ReplaceAll([], f) == []
  {
  }

  lemma TrimOfEmpty()
    ensures Trim([]) == []
  {
    assert TrimStart([]) == [];
  }

  lemma {:induction false} CleanProductNameUnfold(raw: string)
    ensures CleanProductName(raw) ==
      if raw == [] then [] else if CleanPasses(NormSpaces(raw)) == [] then NormSpaces(raw) else CleanPasses(NormSpaces(raw))
  {
  }

  /** The fallback of `cleanProductName`, for a normalized label `original`
      and a cleaned text `s`. */
  lemma {:induction false} CleanFallback(raw: string, original: string, s: string, r: string)
    requires r == if raw == [] then [] else if s == [] then original else s
    requires IsNormalized(original) && IsCleanName(s)
    requires original == [] <==> forall k :: 0 <= k < |raw| ==> IsSpace(raw[k])
    requires original == [] ==> s == []
    ensures raw == [] ==> r == []
    ensures r == [] <==> forall k :: 0 <= k < |raw| ==> IsSpace(raw[k])
    ensures s != [] ==> r == s && IsCleanName(r)
    ensures raw != [] && s == [] ==> r == original
    ensures IsNormalized(r)
  {
  }

  /** A label with any non-space character never cleans to the empty name. */
  lemma {:induction false} CleanProductNameNonEmpty(raw: string)
    requires exists k :: 0 <= k < |raw| && !IsSpace(raw[k])
    ensures CleanProductName(raw) != []
  {
    CleanProductNameSpec(raw);
  }

  /* ---------------- normalizeUnit ---------------- */

  /** The text of the greedy `\d+(?:[.,]\d+)?` at `j` (empty when there is none). */
  function DecimalText(s: string, j: nat): (r: string)
    ensures r == [] || (j + |r| <= |s| && r == s[j..j + |r|])
  {
    if DecimalLen(s, j) > 0 then s[j..j + DecimalLen(s, j)] else []
  }

  /** `(Cx|cx)\s*(\d+(?:[.,]\d+)?)\s*(Kg|kg)?` (or the same with Sc/sc) replaced
      by "<canon> $2 Kg"; the spaces before an absent "Kg" are consumed too. */
  function PackMatch(s: string, i: nat, canon: string, lower: string): Match {
    var j := i + 2 + SpaceRun(s, i + 2);
    var num := DecimalText(s, j);
    var k := j + |num| + SpaceRun(s, j + |num|);
    if (EqAt(s, i, canon) || EqAt(s, i, lower)) && num != [] then
      var end := if EqAt(s, k, "Kg") || EqAt(s, k, "kg") then k + 2 else k;
      Match(end - i, canon + " " + num + " Kg")
    else NoMatch
  }

  function CxPackMatch(s: string, i: nat): Match { PackMatch(s, i, "Cx", "cx") }
  function ScPackMatch(s: string, i: nat): Match { PackMatch(s, i, "Sc", "sc") }

  /** `(\d+(?:[.,]\d+)?)\s*(Kg|kg)\b` replaced by "$1 Kg". */
  function KgSuffixMatch(s: string, i: nat): Match {
    var num := DecimalText(s, i);
    var k := i + |num| + SpaceRun(s, i + |num|);
    if num != [] && (EqAt(s, k, "Kg") || EqAt(s, k, "kg")) && IsBoundary(s, k + 2)
    then Match(k + 2 - i, num + " Kg") else NoMatch
  }

  predicate IsParen(c: char) { c == '(' || c == ')' }
  predicate IsUnitChar(c: char) { IsLetter(c) || IsDigit(c) || IsSpace(c) }

  /** The unit abbreviations respelled by whole word, each with its
      spelling, in the order of the passes. */
  const Spellings: seq<(string, string)> :=
    [("cx", "Cx"), ("sc", "Sc"), ("kg", "Kg"), ("g", "g"), ("lt", "Lt"), ("l", "L"), ("unid", "Unid"), ("un", "Un")]

  /** The matcher of `/\bw\b/gi` replaced by `c`. */
  function WordPass(w: string, c: string): (string, nat) -> Match {
    (s: string, i: nat) => WholeWordMatch(s, i, w, c)
  }

  /** The respelling passes of `ps`, one after the other. */
  function RespellAll(s: string, ps: seq<(string, string)>): string
    decreases |ps|
  {
    if ps == [] then s else RespellAll(ReplaceAll(s, WordPass(ps[0].0, ps[0].1)), ps[1..])
  }

  /** Spelling canonicalization of the unit abbreviations, in source order. */
  function CanonicalizeWords(s: string): string {
    RespellAll(s, Spellings)
  }

  /** `u.replace(/[()]/g, ' ').replace(/[^\p{L}\d\s]/gu, ' ')`: every character
      other than a letter, a digit or whitespace becomes a space. */
  function KeepUnitChars(u: string): (r: string)
    ensures |r| == |u|
    ensures AllChars(r, IsUnitChar)
    ensures forall k :: 0 <= k < |u| ==> (IsSpace(r[k]) <==> !IsLetter(u[k]) && !IsDigit(u[k]))
  {
    UnitCharsKept(u);
    ReplaceChars(ReplaceChars(u, IsParen, ' '), c => !IsUnitChar(c), ' ')
  }

  /** What the two replacements make of one character. */
  function UnitCharOf(x: char): char {
    var y := if IsParen(x) then ' ' else x;
    if !IsUnitChar(y) then ' ' else y
  }

  lemma {:induction false} UnitCharsKept(u: string)
    ensures forall k :: 0 <= k < |u| ==>
      IsUnitChar(UnitCharOf(u[k])) && (IsSpace(UnitCharOf(u[k])) <==> !IsLetter(u[k]) && !IsDigit(u[k]))
  {
    forall k | 0 <= k < |u|
      ensures IsUnitChar(UnitCharOf(u[k])) && (IsSpace(UnitCharOf(u[k])) <==> !IsLetter(u[k]) && !IsDigit(u[k]))
    {
      assert IsSpace(' ') && IsUnitChar(' ');
    }
  }

  /** The symbol-free, space-normalized unit phrase `normalizeUnit` works on. */
  function UnitBase(u: string): string {
    NormSpaces(KeepUnitChars(u))
  }

  /** Inserting spaces in glued "Cx20Kg", "Sc 50" and "20kg" forms. */
  function SpaceOutPacks(s: string): string {
    ReplaceAll(ReplaceAll(ReplaceAll(s, CxPackMatch), ScPackMatch), KgSuffixMatch)
  }

  /** `normalizeUnit`: null for a missing, empty or symbol-only phrase; otherwise
      spaces inserted in glued Cx/Sc/number/Kg forms and abbreviations canonicalized. */
  function NormalizeUnit(u: Option<string>): Option<string> {
    if u.None? || u.value == [] then None
    else
      var s := UnitBase(u.value);
      if s == [] then None
      else Some(NormSpaces(CanonicalizeWords(SpaceOutPacks(s))))
  }

  predicate IsUnitOutChar(c: char) { IsLetter(c) || IsDigit(c) || c == ' ' }

  /** A text property both the character set and non-blankness make up. */
  predicate UnitText(s: string) { AllChars(s, IsUnitOutChar) && HasNonSpace(s) }

  /** A global replace whose replacements are unit text keeps unit text. */
  lemma {:induction false} ReplaceKeepsUnitText(s: string, f: (string, nat) -> Match)
    requires UnitText(s)
    requires forall j :: f(s, j).Match? ==> UnitText(f(s, j).out)
    ensures UnitText(ReplaceAll(s, f))
  {
    ReplaceAllKeeps(s, 0, f, IsUnitOutChar);
    ReplaceAllKeepsNonSpace(s, 0, f);
  }

  lemma {:induction false} KgTextIsUnitText(t: string)
    requires AllChars(t, IsUnitOutChar)
    ensures UnitText(t + " Kg")
  {
    assert AllChars(" Kg", IsUnitOutChar);
    ConcatKeeps(t, " Kg", IsUnitOutChar);
    var o := t + " Kg";
    assert o[|o| - 1] == 'g';
  }

  lemma {:induction false} DecimalTextKeeps(s: string, j: nat)
    requires AllChars(s, IsUnitOutChar)
    ensures AllChars(DecimalText(s, j), IsUnitOutChar)
  {
    var r := DecimalText(s, j);
    if r != [] { SliceKeeps(s, j, j + |r|, IsUnitOutChar); }
  }

  lemma {:induction false} PackMatchKeeps(s: string, canon: string, lower: string)
    requires AllChars(s, IsUnitOutChar) && AllChars(canon, IsUnitOutChar)
    ensures forall j :: PackMatch(s, j, canon, lower).Match? ==> UnitText(PackMatch(s, j, canon, lower).out)
  {
    forall j: nat | PackMatch(s, j, canon, lower).Match?
      ensures UnitText(PackMatch(s, j, canon, lower).out)
    {
      var num := DecimalText(s, j + 2 + SpaceRun(s, j + 2));
      DecimalTextKeeps(s, j + 2 + SpaceRun(s, j + 2));
      assert AllChars(" ", IsUnitOutChar);
      ConcatKeeps(canon, " ", IsUnitOutChar);
      ConcatKeeps(canon + " ", num, IsUnitOutChar);
      KgTextIsUnitText(canon + " " + num);
    }
  }

  lemma {:induction false} KgSuffixKeeps(s: string)
    requires AllChars(s, IsUnitOutChar)
    ensures forall j :: KgSuffixMatch(s, j).Match? ==> UnitText(KgSuffixMatch(s, j).out)
  {
    forall j: nat | KgSuffixMatch(s, j).Match?
      ensures UnitText(KgSuffixMatch(s, j).out)
    {
      DecimalTextKeeps(s, j);
      KgTextIsUnitText(DecimalText(s, j));
    }
  }

  lemma {:induction false} SpaceOutPacksKeeps(s: string)
    requires UnitText(s)
    ensures UnitText(SpaceOutPacks(s))
  {
    assert AllChars("Cx", IsUnitOutChar) && AllChars("Sc", IsUnitOutChar);
    PackMatchKeeps(s, "Cx", "cx");
    ReplaceKeepsUnitText(s, CxPackMatch);
    var a := ReplaceAll(s, CxPackMatch);
    PackMatchKeeps(a, "Sc", "sc");
    ReplaceKeepsUnitText(a, ScPackMatch);
    var b := ReplaceAll(a, ScPackMatch);
    KgSuffixKeeps(b);
    ReplaceKeepsUnitText(b, KgSuffixMatch);
  }

  /** A whole-word rewrite into unit text keeps unit text. */
  lemma {:induction false} WordKeeps(s: string, f: (string, nat) -> Match, out: string)
    requires UnitText(s) && UnitText(out)
    requires forall j :: f(s, j).Match? ==> f(s, j).out == out
    ensures UnitText(ReplaceAll(s, f))
  {
    ReplaceKeepsUnitText(s, f);
  }

  lemma {:induction false} LiteralUnitText(w: string)
    requires w != [] && forall k :: 0 <= k < |w| ==> IsAsciiUpper(w[k]) || IsAsciiLower(w[k])
    ensures UnitText(w)
  {
    assert !IsSpace(w[0]);
  }

  lemma {:induction false} RespellAllKeeps(s: string, ps: seq<(string, string)>)
    requires UnitText(s)
    requires forall n :: 0 <= n < |ps| ==>
               (ps[n].1 != [] && forall k :: 0 <= k < |ps[n].1| ==> IsAsciiUpper(ps[n].1[k]) || IsAsciiLower(ps[n].1[k]))
    ensures UnitText(RespellAll(s, ps))
    decreases |ps|
  {
    if ps != [] {
      LiteralUnitText(ps[0].1);
      WordKeeps(s, WordPass(ps[0].0, ps[0].1), ps[0].1);
      assert forall n :: 0 <= n < |ps[1..]| ==> ps[1..][n] == ps[n + 1];
      RespellAllKeeps(ReplaceAll(s, WordPass(ps[0].0, ps[0].1)), ps[1..]);
    }
  }

  lemma {:induction false} CanonicalizeKeeps(s: string)
    requires UnitText(s)
    ensures UnitText(CanonicalizeWords(s))
  {
    RespellAllKeeps(s, Spellings);
  }

  /** Normalization leaves a string of unit characters when the input has
      only unit characters (letters, digits, whitespace). */
  lemma {:induction false} NormSpacesUnitChars(t: string)
    requires AllChars(t, IsUnitChar)
    ensures AllChars(NormSpaces(t), IsUnitOutChar)
  {
    NormSpacesKeeps(t, IsUnitChar);
    NormSpacesShape(t);
    var r := NormSpaces(t);
    forall k | 0 <= k < |r| ensures IsUnitOutChar(r[k]) {
      assert IsUnitChar(r[k]);
    }
  }

  lemma {:induction false} UnitBaseShape(u: string)
    ensures AllChars(UnitBase(u), IsUnitOutChar)
    ensures UnitBase(u) == [] <==> forall k :: 0 <= k < |u| ==> !IsLetter(u[k]) && !IsDigit(u[k])
    ensures UnitBase(u) != [] ==> HasNonSpace(UnitBase(u))
  {
    var t := KeepUnitChars(u);
    NormSpacesUnitChars(t);
    NormSpacesShape(t);
    var r := UnitBase(u);
    if r != [] {
      TrimSpec(CollapseSpaces(t));
      assert !IsSpace(r[0]);
    }
  }

  /** `normalizeUnit` gives null exactly for a missing phrase or one without any
      letter or digit; otherwise a non-empty phrase of letters, digits and
      single interior spaces. */
  lemma {:induction false} NormalizeUnitSpec(u: Option<string>)
    ensures NormalizeUnit(u).None? <==>
      (u.None? || forall k :: 0 <= k < |u.value| ==> !IsLetter(u.value[k]) && !IsDigit(u.value[k]))
    ensures NormalizeUnit(u).Some? ==>
      var r := NormalizeUnit(u).value;
      r != [] && IsNormalized(r) && AllChars(r, IsUnitOutChar)
  {
    if u.Some? {
      UnitBaseShape(u.value);
      var s := UnitBase(u.value);
      if s != [] {
        SpaceOutPacksKeeps(s);
        CanonicalizeKeeps(SpaceOutPacks(s));
        var cw := CanonicalizeWords(SpaceOutPacks(s));
        NormSpacesShape(cw);
        NormSpacesKeeps(cw, IsUnitOutChar);
      }
    }
  }

  /* ---------------- splitAgrolinkProduct ---------------- */

  /** `^(Cx|Sc)(\d+(?:[.,]\d+)?)Kg$` with `i`: the length of the number, or 0. */
  function GluedNumLen(t: string): (d: nat)
    ensures d > 0 ==> 2 + d <= |t|
  {
    var d := DecimalLen(t, 2);
    if (EqCIAt(t, 0, "Cx") || EqCIAt(t, 0, "Sc")) && d > 0 && EqCIAt(t, 2 + d, "Kg") && 2 + d + 2 == |t|
    then d else 0
  }

  /** `t` from position `j` on equals one of `words`, ignoring case. */
  predicate EndsWithWordCI(t: string, j: nat, words: seq<string>)
    decreases |words|
  {
    words != [] && ((EqCIAt(t, j, words[0]) && j + |words[0]| == |t|) || EndsWithWordCI(t, j, words[1..]))
  }

  /** `^\d+(?:[.,]\d+)?\s*(kg|g|l|lt)$` with `i`. */
  predicate IsNumWithSuffix(t: string) {
    var d := DecimalLen(t, 0);
    d > 0 && EndsWithWordCI(t, d + SpaceRun(t, d), ["kg", "g", "l", "lt"])
  }

  /** `^(?:cx|sc|…|dz|mo-\d{1,2})$` with `i`. */
  predicate IsUnitWord(t: string) {
    EndsWithWordCI(t, 0, UnitWords)
    || (EqCIAt(t, 0, "mo-") && 4 <= |t| <= 5 && IsDigit(t[3]) && (|t| == 5 ==> IsDigit(t[4])))
  }

  /** `^\d+(?:[.,]\d+)?$` */
  predicate IsNumber(t: string) {
    DecimalLen(t, 0) == |t| && |t| > 0
  }

  /** A token the right-to-left scan collects into the unit phrase. */
  predicate IsUnitToken(t: string) {
    GluedNumLen(t) > 0 || IsNumWithSuffix(t) || IsUnitWord(t) || IsNumber(t)
  }

  predicate AllUnitTokens(ts: seq<string>) {
    forall j :: 0 <= j < |ts| ==> IsUnitToken(ts[j])
  }

  /** What a unit token contributes to the phrase: a glued "Cx20Kg" becomes
      "Cx", "20Kg"; any other token stays as it is. */
  function ExpandUnit(t: string): seq<string> {
    var d := GluedNumLen(t);
    if d > 0 then [t[..2], t[2..2 + d] + "Kg"] else [t]
  }

  function ExpandUnits(ts: seq<string>): seq<string> {
    if ts == [] then [] else ExpandUnit(ts[0]) + ExpandUnits(ts[1..])
  }

  /** Length of the maximal run of elements satisfying `p` at the end of `xs`. */
  function TrailingRun<T>(xs: seq<T>, p: T -> bool): (k: nat)
    ensures k <= |xs|
  {
    if xs == [] || !p(xs[|xs| - 1]) then 0
    else 1 + TrailingRun(xs[..|xs| - 1], p)
  }

  /** Every element of the run satisfies `p` and the element before it does not:
      the run is maximal. */
  lemma {:induction false} TrailingRunSpec<T>(xs: seq<T>, p: T -> bool)
    ensures forall j :: |xs| - TrailingRun(xs, p) <= j < |xs| ==> p(xs[j])
    ensures TrailingRun(xs, p) < |xs| ==> !p(xs[|xs| - 1 - TrailingRun(xs, p)])
    decreases |xs|
  {
    if xs != [] && p(xs[|xs| - 1]) {
      var ys := xs[..|xs| - 1];
      TrailingRunSpec(ys, p);
      forall j | |xs| - TrailingRun(xs, p) <= j < |xs| ensures p(xs[j]) {
        if j < |xs| - 1 { assert xs[j] == ys[j]; }
      }
      if TrailingRun(xs, p) < |xs| {
        assert xs[|xs| - 1 - TrailingRun(xs, p)] == ys[|ys| - 1 - TrailingRun(ys, p)];
      }
    }
  }

  /** The run ends right after the last element that fails `p`. */
  lemma {:induction false} TrailingRunAt<T>(xs: seq<T>, p: T -> bool, i: nat)
    requires i < |xs| && !p(xs[i])
    requires forall j :: i < j < |xs| ==> p(xs[j])
    ensures TrailingRun(xs, p) == |xs| - 1 - i
  {
    TrailingRunSpec(xs, p);
  }

  /** The run covers everything when every element satisfies `p`. */
  lemma {:induction false} TrailingRunAll<T>(xs: seq<T>, p: T -> bool)
    requires forall j :: 0 <= j < |xs| ==> p(xs[j])
    ensures TrailingRun(xs, p) == |xs|
  {
    TrailingRunSpec(xs, p);
  }

  /** A scan from the right that has seen only elements satisfying `p` extends
      its lower bound on the run by one more such element. */
  lemma {:induction false} TrailingRunExtend<T>(xs: seq<T>, p: T -> bool, i: nat)
    requires i < |xs| && p(xs[i]) && |xs| - 1 - i <= TrailingRun(xs, p)
    ensures |xs| - i <= TrailingRun(xs, p)
  {
    TrailingRunSpec(xs, p);
  }

  /** A scan from the right that meets an element failing `p` has found the run. */
  lemma {:induction false} TrailingRunStop<T>(xs: seq<T>, p: T -> bool, i: nat)
    requires i < |xs| && !p(xs[i]) && |xs| - 1 - i <= TrailingRun(xs, p)
    ensures TrailingRun(xs, p) == |xs| - 1 - i
  {
    TrailingRunSpec(xs, p);
  }

  /** Length of the maximal run of unit tokens at the end of `ts`. */
  function TrailingUnitRun(ts: seq<string>): (k: nat)
    ensures k <= |ts|
  {
    TrailingRun(ts, IsUnitToken)
  }

  /** The location-stripped, space-normalized label the splitter scans. */
  function SplitInput(raw: string): string {
    NormSpaces(StripLocationSuffix(raw))
  }

  /** The text `splitAgrolinkProduct` hands to the name cleaner, for the
      location-stripped, space-normalized label `s`: the tokens before the
      maximal trailing run of unit tokens, or the whole label when every token
      is a unit token. */
  function NameText(s: string): string {
    var tokens := Split(s, ' ');
    var k := TrailingUnitRun(tokens);
    if k == |tokens| then s else NormSpaces(Join(tokens[..|tokens| - k], " "))
  }

  /** The unit phrase `splitAgrolinkProduct` hands to the unit normalizer: the
      expanded trailing run of unit tokens, when it is not empty and a name
      token precedes it. */
  function UnitPhrase(s: string): Option<string> {
    var tokens := Split(s, ' ');
    var k := TrailingUnitRun(tokens);
    if k == 0 || k == |tokens| then None else Some(Join(ExpandUnits(tokens[|tokens| - k..]), " "))
  }

  /** Reference definition of `splitAgrolinkProduct` on the location-stripped,
      space-normalized label `s`. */
  function SplitLabel(s: string): SplitResult {
    if s == [] then SplitResult([], None)
    else SplitResult(CleanProductName(NameText(s)), if UnitPhrase(s).None? then None else NormalizeUnit(UnitPhrase(s)))
  }

  /** Reference definition of `splitAgrolinkProduct`. */
  function SplitSpec(raw: string): SplitResult {
    if raw == [] then SplitResult([], None) else SplitLabel(SplitInput(raw))
  }

  lemma {:induction false} ExpandUnitsCons(t: string, ts: seq<string>)
    ensures ExpandUnits([t] + ts) == ExpandUnit(t) + ExpandUnits(ts)
  {
    assert ([t] + ts)[1..] == ts;
  }

  lemma {:induction false} UnitScanStep(tokens: seq<string>, i: nat)
    requires i < |tokens|
    ensures ExpandUnits(tokens[i..]) == ExpandUnit(tokens[i]) + ExpandUnits(tokens[i + 1..])
    ensures GluedNumLen(tokens[i]) > 0 ==>
      ExpandUnit(tokens[i]) == [tokens[i][..2], tokens[i][2..2 + GluedNumLen(tokens[i])] + "Kg"]
    ensures GluedNumLen(tokens[i]) == 0 ==> ExpandUnit(tokens[i]) == [tokens[i]]
  {
    ExpandUnitsCons(tokens[i], tokens[i + 1..]);
    assert tokens[i..] == [tokens[i]] + tokens[i + 1..];
  }

  /** One step of the right-to-left scan over the trailing run. */
  lemma {:induction false} UnitRunStep(tokens: seq<string>, i: nat)
    requires i < |tokens| && |tokens| - 1 - i <= TrailingUnitRun(tokens)
    ensures IsUnitToken(tokens[i]) ==> |tokens| - i <= TrailingUnitRun(tokens)
    ensures !IsUnitToken(tokens[i]) ==> TrailingUnitRun(tokens) == |tokens| - 1 - i
  {
    if IsUnitToken(tokens[i]) {
      TrailingRunExtend(tokens, IsUnitToken, i);
    } else {
      TrailingRunStop(tokens, IsUnitToken, i);
    }
  }

  /** The branch chain of the scan on one token `t`: whether it belongs to
      the unit phrase and, if so, the tokens it contributes. */
  method ScanToken(t: string) returns (unit: bool, parts: seq<string>)
    ensures unit == IsUnitToken(t)
    ensures unit ==> parts == ExpandUnit(t)
  {
    var d := GluedNumLen(t);
    if d > 0 {
      return true, [t[..2], t[2..2 + d] + "Kg"];
    } else if IsNumWithSuffix(t) {
      return true, [t];
    } else if IsUnitWord(t) || IsNumber(t) {
      return true, [t];
    }
    // the source's pair form "CX 10KG" needs IsNumWithSuffix(t), which the
    // second branch already takes, so that branch is left out here
    return false, [];
  }

  /** The right-to-left scan of `splitAgrolinkProduct`: `i` is the index of the
      first token from the right that is not a unit token (-1 if there is none)
      and `unitTokens` the expanded tokens after it, in their order. */
  method ScanUnitTokens(tokens: seq<string>) returns (i: int, unitTokens: seq<string>)
    ensures -1 <= i < |tokens|
    ensures i == |tokens| - 1 - TrailingUnitRun(tokens)
    ensures unitTokens == ExpandUnits(tokens[i + 1..])
  {
    unitTokens := [];
    i := |tokens| - 1;
    while i >= 0
      invariant -1 <= i < |tokens|
      invariant |tokens| - 1 - i <= TrailingUnitRun(tokens)
      invariant unitTokens == ExpandUnits(tokens[i + 1..])
      decreases i + 1
    {
      var unit, parts := ScanToken(tokens[i]);
      UnitRunStep(tokens, i);
      if !unit {
        return;
      }
      UnitScanStep(tokens, i);
      unitTokens := parts + unitTokens;
      i := i - 1;
    }
  }

  /** The outcome of the scan, as `NameText` and `UnitText` state it. */
  lemma {:induction false} SplitLabelOfScan(s: string, tokens: seq<string>, i: int, unitTokens: seq<string>)
    requires s != [] && tokens == Split(s, ' ')
    requires -1 <= i < |tokens| && i == |tokens| - 1 - TrailingUnitRun(tokens)
    requires unitTokens == ExpandUnits(tokens[i + 1..])
    ensures i >= 0 ==> NameText(s) == NormSpaces(Join(tokens[..i + 1], " "))
    ensures i >= 0 ==> UnitPhrase(s) == if |unitTokens| > 0 then Some(Join(unitTokens, " ")) else None
    ensures i < 0 ==> NameText(s) == s && UnitPhrase(s) == None
  {
    if i == |tokens| - 1 {
      assert tokens[i + 1..] == [];
    } else if i >= 0 {
      assert |tokens[i + 1..]| > 0;
      assert ExpandUnits(tokens[i + 1..]) != [] by {
        assert |ExpandUnit(tokens[i + 1..][0])| > 0;
      }
    }
  }

  /** `splitAgrolinkProduct`: separates the product name from a trailing unit
      phrase. */
  method SplitAgrolinkProduct(raw: string) returns (r: SplitResult)
    ensures r == SplitSpec(raw)
  {
    if raw == [] { return SplitResult([], None); }
    var s := SplitInput(raw);
    if s == [] { return SplitResult([], None); }
    var tokens := Split(s, ' ');
    var i, unitTokens := ScanUnitTokens(tokens);
    SplitLabelOfScan(s, tokens, i, unitTokens);
    if i >= 0 {
      var unit := if |unitTokens| > 0 then NormalizeUnit(Some(Join(unitTokens, " "))) else None;
      return SplitResult(CleanProductName(NormSpaces(Join(tokens[..i + 1], " "))), unit);
    }
    return SplitResult(CleanProductName(s), None);
  }

  /** When the last token is not a unit token (the trailing run of unit
      tokens is empty) there is no unit, and the name is the cleaned label. */
  lemma {:induction false} SplitNoUnitToken(s: string)
    requires s != [] && IsNormalized(s)
    requires TrailingUnitRun(Split(s, ' ')) == 0
    ensures NameText(s) == s && UnitPhrase(s) == None
    ensures SplitLabel(s) == SplitResult(CleanProductName(s), None)
  {
    NoRunNoPhrase(s);
    NoRunName(s);
    assert Join(Split(s, ' '), " ") == s by {
      JoinOfSplit(s, ' ');
      assert [' '] == " ";
    }
    NormSpacesIdem(s);
  }

  /** `NameText` when some token precedes the trailing run. */
  lemma {:induction false} NameTextOfRun(s: string)
    ensures var ts := Split(s, ' '); var k := TrailingUnitRun(ts);
      k != |ts| ==> NameText(s) == NormSpaces(Join(ts[..|ts| - k], " "))
  {
  }

  lemma {:induction false} NoRunName(s: string)
    requires TrailingUnitRun(Split(s, ' ')) == 0
    ensures NameText(s) == NormSpaces(Join(Split(s, ' '), " "))
  {
    NameTextOfRun(s);
    WholeName(Split(s, ' '), TrailingUnitRun(Split(s, ' ')), NameText(s));
  }

  lemma {:induction false} WholeName(ts: seq<string>, k: nat, name: string)
    requires k == 0 && |ts| >= 1
    requires k != |ts| ==> name == NormSpaces(Join(ts[..|ts| - k], " "))
    ensures name == NormSpaces(Join(ts, " "))
  {
    assert ts[..|ts| - k] == ts;
  }

  lemma {:induction false} NoRunNoPhrase(s: string)
    requires TrailingUnitRun(Split(s, ' ')) == 0
    ensures UnitPhrase(s) == None
  {
  }

  /** A last token that is not a unit token leaves the trailing run empty. */
  lemma {:induction false} NoTrailingUnitRun(ts: seq<string>)
    requires |ts| > 0
    ensures !IsUnitToken(ts[|ts| - 1]) ==> TrailingUnitRun(ts) == 0
  {
  }

  /** When every token is a unit token there is no unit either, and the name is
      the cleaned label. */
  lemma {:induction false} SplitAllUnitTokens(s: string)
    requires s != []
    requires AllUnitTokens(Split(s, ' '))
    ensures NameText(s) == s && UnitPhrase(s) == None
    ensures SplitLabel(s) == SplitResult(CleanProductName(s), None)
  {
    TrailingRunAll(Split(s, ' '), IsUnitToken);
  }

  /** When the trailing run of unit tokens is preceded by a non-unit token, the
      name is the cleaned text of the tokens up to and including that token and
      the unit is the normalized phrase of the run, in order. */
  lemma {:induction false} SplitWithUnit(s: string)
    requires s != []
    requires var ts := Split(s, ' '); 0 < TrailingUnitRun(ts) < |ts|
    ensures var ts := Split(s, ' ');
      var i := |ts| - 1 - TrailingUnitRun(ts);
      !IsUnitToken(ts[i]) && (forall j :: i < j < |ts| ==> IsUnitToken(ts[j])) &&
      NameText(s) == NormSpaces(Join(ts[..i + 1], " ")) &&
      UnitPhrase(s) == Some(Join(ExpandUnits(ts[i + 1..]), " ")) &&
      SplitLabel(s) == SplitResult(CleanProductName(NormSpaces(Join(ts[..i + 1], " "))),
                                   NormalizeUnit(Some(Join(ExpandUnits(ts[i + 1..]), " "))))
  {
    TrailingRunSpec(Split(s, ' '), IsUnitToken);
  }

  /** For a label whose last token is not a unit token, `splitAgrolinkProduct`
      gives no unit and the cleaned location-stripped label as the name. */
  lemma {:induction false} SplitSpecNoUnitToken(raw: string)
    requires raw != [] && SplitInput(raw) != []
    requires var ts := Split(SplitInput(raw), ' '); !IsUnitToken(ts[|ts| - 1])
    ensures SplitSpec(raw) == SplitResult(CleanProductName(SplitInput(raw)), None)
  {
    SplitInputNormalized(raw);
    NoTrailingUnitRun(Split(SplitInput(raw), ' '));
    SplitNoUnitToken(SplitInput(raw));
  }

  /** For a label made only of unit tokens, `splitAgrolinkProduct` gives no unit
      and the cleaned location-stripped label as the name. */
  lemma {:induction false} SplitSpecAllUnitTokens(raw: string)
    requires raw != [] && SplitInput(raw) != []
    requires AllUnitTokens(Split(SplitInput(raw), ' '))
    ensures SplitSpec(raw) == SplitResult(CleanProductName(SplitInput(raw)), None)
  {
    SplitAllUnitTokens(SplitInput(raw));
  }

  /** The label the splitter scans is normalized. */
  lemma {:induction false} SplitInputNormalized(raw: string)
    ensures IsNormalized(SplitInput(raw))
  {
    NormSpacesShape(StripLocationSuffix(raw));
  }

  /* ---------------- parseUnitDetails ---------------- */

  datatype Tail = TailFail | TailOk(weight: Option<string>)

  /** `\s*(\d+(?:[.,]\d+)?)?\s*Kg?$` with `i` at position `p`: a final "K",
      optionally followed by "g", after an optional number. */
  function UnitTail(s: string, p: nat): Tail {
    var q := p + SpaceRun(s, p);
    var d := DecimalLen(s, q);
    var r := q + d + SpaceRun(s, q + d);
    if r < |s| && UpperChar(s[r]) == 'K' && (r + 1 == |s| || (r + 2 == |s| && UpperChar(s[r + 1]) == 'G'))
    then TailOk(if d > 0 then Some(s[q..q + d]) else None)
    else TailFail
  }

  /** Lengths of the kind alternatives `Cx|Sc|Kg|Mo-\d{1,2}|Lt|L|Un|Unid` that
      occur at `p` (under `i`), in the order the regex tries them. */
  function KindLengths(s: string, p: nat): seq<nat>
    ensures forall k :: 0 <= k < |KindLengths(s, p)| ==> 0 < KindLengths(s, p)[k]
  {
    (if EqCIAt(s, p, "Cx") then [2] else [])
    + (if EqCIAt(s, p, "Sc") then [2] else [])
    + (if EqCIAt(s, p, "Kg") then [2] else [])
    + (if EqCIAt(s, p, "Mo-") && p + 3 < |s| && IsDigit(s[p + 3])
       then (if p + 4 < |s| && IsDigit(s[p + 4]) then [5, 4] else [4]) else [])
    + (if EqCIAt(s, p, "Lt") then [2] else [])
    + (if EqCIAt(s, p, "L") then [1] else [])
    + (if EqCIAt(s, p, "Un") then [2] else [])
    + (if EqCIAt(s, p, "Unid") then [4] else [])
  }

  datatype KindMatch = NoKind | KindAt(len: nat, weight: Option<string>)

  /** The first kind alternative after which the tail matches. */
  function FirstKind(s: string, p: nat, lens: seq<nat>): KindMatch {
    if lens == [] then NoKind
    else match UnitTail(s, p + lens[0])
      case TailOk(w) => KindAt(lens[0], w)
      case TailFail => FirstKind(s, p, lens[1..])
  }

  datatype Pattern1 = NoP1 | P1(pack: Option<string>, kind: string, weight: Option<string>)

  /** `^(?:(\d+(?:[.,]\d+)?)\s+)?(Cx|Sc|Kg|Mo-\d{1,2}|Lt|L|Un|Unid)\s*(\d+(?:[.,]\d+)?)?\s*Kg?$`
      with `i`. A leading number must be followed by whitespace and is then
      always part of the match (no alternative starts with a digit). */
  function MatchPattern1(s: string): Pattern1 {
    var lead := DecimalLen(s, 0);
    var gap := SpaceRun(s, lead);
    if lead > 0 && gap == 0 then NoP1 else Pattern1At(s, lead, lead + gap)
  }

  /** The rest of the first pattern once the leading number (of length
      `lead`, possibly 0) and its whitespace end at `p`. */
  function Pattern1At(s: string, lead: nat, p: nat): Pattern1 {
    match FirstKind(s, p, KindLengths(s, p))
    case NoKind => NoP1
    case KindAt(len, w) =>
      if p + len <= |s| then P1(if 0 < lead <= |s| then Some(s[..lead]) else None, s[p..p + len], w)
      else NoP1
  }

  /** `^(\d+(?:[.,]\d+)?)\s*Kg$` with `i`: the number, if the string has that shape. */
  function MatchPattern2(s: string): Option<string> {
    var d := DecimalLen(s, 0);
    var k := d + SpaceRun(s, d);
    if d > 0 && EqCIAt(s, k, "Kg") && k + 2 == |s| then Some(s[..d]) else None
  }

  /** `x.replace(',', '.')`: the first comma becomes a dot. */
  function CommaToDot(x: string): (r: string)
    ensures |r| == |x|
  {
    if x == [] then [] else if x[0] == ',' then ['.'] + x[1..] else [x[0]] + CommaToDot(x[1..])
  }

  /** `parseFloat(m.replace(',', '.'))` */
  function ReadNumber(m: string): Number {
    ParseFloat(CommaToDot(m))
  }

  /** `charAt(0).toUpperCase() + slice(1).toLowerCase()` */
  function CapitalizeKind(k: string): string {
    if k == [] then [] else ToUpper([k[0]]) + ToLower(k[1..])
  }

  const NoDetails := UnitDetails(None, None, None)

  /** `parseUnitDetails`: kind, weight in kg and pack count of a unit phrase. */
  function ParseUnitDetails(unit: Option<string>): (r: UnitDetails)
    ensures (unit.None? || unit.value == []) ==> r == NoDetails
    ensures r.unitKind.None? ==> r == NoDetails
    ensures r.unitKind == Some("Kg") ==> r.unitKg.Some?
  {
    if unit.None? || unit.value == [] then NoDetails
    else UnitDetailsOf(NormSpaces(unit.value))
  }

  /** The three patterns of `parseUnitDetails`, tried in order on the
      whitespace-normalized phrase `s`. */
  function UnitDetailsOf(s: string): (r: UnitDetails)
    ensures r.unitKind.None? ==> r == NoDetails
    ensures r.unitKind == Some("Kg") ==> r.unitKg.Some?
  {
    match MatchPattern1(s)
    case P1(pack, kindRaw, weight) => DetailsOfPattern1(pack, kindRaw, weight)
    case NoP1 => DetailsOfPattern2(s)
  }

  /** The result when the first pattern matched with the given groups. */
  function DetailsOfPattern1(pack: Option<string>, kindRaw: string, weight: Option<string>): (r: UnitDetails)
    ensures r.unitKind.Some?
    ensures r.unitKind == Some("Kg") ==> r.unitKg.Some?
  {
    var packCount := if pack.Some? then Some(ReadNumber(pack.value)) else None;
    var unitKind := CapitalizeKind(kindRaw);
    if unitKind == "Kg" && packCount.Some? && Truthy(packCount.value) && weight.None? then
      UnitDetails(Some("Kg"), packCount, None)
    else
      var kg := if weight.Some? then Some(ReadNumber(weight.value))
                else if unitKind == "Kg" then Some(Num(1.0)) else None;
      UnitDetails(Some(unitKind), kg, packCount)
  }

  /** The result when the first pattern did not match. */
  function DetailsOfPattern2(s: string): (r: UnitDetails)
    ensures r.unitKind.None? ==> r == NoDetails
    ensures r.unitKind.Some? ==> r.unitKind == Some("Kg") && r.unitKg.Some?
  {
    match MatchPattern2(s)
    case Some(n) => UnitDetails(Some("Kg"), Some(ReadNumber(n)), None)
    case None =>
      if |s| == 2 && EqCIAt(s, 0, "Kg") then UnitDetails(Some("Kg"), Some(Num(1.0)), None)
      else NoDetails
  }

  /* ---------------- reading numbers ---------------- */

  lemma {:induction false} CommaToDotDigits(x: string)
    requires AllChars(x, IsDigit)
    ensures CommaToDot(x) == x
  {
    if x != [] {
      assert IsDigit(x[0]);
      assert AllChars(x[1..], IsDigit) by {
        forall k | 0 <= k < |x[1..]| ensures IsDigit(x[1..][k]) { assert x[1..][k] == x[k + 1]; }
      }
      CommaToDotDigits(x[1..]);
    }
  }

  lemma {:induction false} CommaToDotFirst(w: string, f: string)
    requires AllChars(w, IsDigit)
    ensures CommaToDot(w + "," + f) == w + "." + f
  {
    if w == [] {
      assert w + "," + f == [','] + f;
    } else {
      assert IsDigit(w[0]);
      assert AllChars(w[1..], IsDigit) by {
        forall k | 0 <= k < |w[1..]| ensures IsDigit(w[1..][k]) { assert w[1..][k] == w[k + 1]; }
      }
      CommaToDotFirst(w[1..], f);
      assert (w + "," + f)[1..] == w[1..] + "," + f;
      assert w + "." + f == [w[0]] + (w[1..] + "." + f);
    }
  }

  /** A whole number in a unit phrase reads as its digit value. */
  lemma {:induction false} ReadNumberDigits(n: string)
    requires n != [] && AllChars(n, IsDigit)
    ensures ReadNumber(n) == Num(DigitsValue(n) as real)
  {
    CommaToDotDigits(n);
    ParseFloatDigits(n);
  }

  /** A comma decimal "<whole>,<frac>" reads as the same value as with a dot. */
  lemma {:induction false} ReadNumberComma(whole: string, frac: string)
    requires whole != [] && AllChars(whole, IsDigit)
    requires frac != [] && AllChars(frac, IsDigit)
    ensures ReadNumber(whole + "," + frac) == Num(DecimalValue(whole, frac))
  {
    CommaToDotFirst(whole, frac);
    ParseFloatDecimal(whole, frac);
  }
}
