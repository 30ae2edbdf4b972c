/** The bulletin label "Alho Comum Cx 10Kg Juazeiro (BA)" worked through
    `splitAgrolinkProduct`: the locality is stripped, "Cx" and "10Kg" form the
    trailing unit run, the name cleans to itself and the unit normalizes to
    "Cx 10 Kg". Each pass is settled by a small lemma over any string with the
    right characters at the right places, then applied to the label. */
module SplitExamples {
  import opened Wrappers
  import opened Text
  import opened AgrolinkName
  import opened UnitSpelling
  import opened NormalizeExamples

  /** The label the splitter scans, once the locality is gone. */
  const Stripped: string := "Alho Comum Cx 10Kg"
  const Locality: string := " Juazeiro (BA)"
  const Label: string := Stripped + Locality
  const Name: string := "Alho Comum"

  /* ---------------- passes in general ---------------- */

  /** A pass that matches nowhere changes nothing. */
  lemma {:induction false} NoMatchFixed(t: string, f: (string, nat) -> Match)
    requires forall j :: 0 <= j < |t| ==> f(t, j).NoMatch?
    ensures ReplaceAll(t, f) == t
  {
    ReplaceAllNoMatch(t, 0, f);
    assert t[0..] == t;
  }

  /** A pass whose one match covers `[p, e)` splices `out` in its place. */
  lemma {:induction false} OneMatchGives(t: string, p: nat, e: nat, out: string, f: (string, nat) -> Match, r: string)
    requires p < e <= |t|
    requires forall j :: 0 <= j < p ==> f(t, j).NoMatch?
    requires forall j :: e <= j < |t| ==> f(t, j).NoMatch?
    requires f(t, p) == Match(e - p, out)
    requires r == t[..p] + out + t[e..]
    ensures ReplaceAll(t, f) == r
  {
    ReplaceAllOne(t, p, e, out, f);
  }

  lemma {:induction false} EqCIAtHead(s: string, i: nat, w: string)
    ensures EqCIAt(s, i, w) && w != [] ==> i < |s| && UpperChar(s[i]) == UpperChar(w[0])
  {
    EqCIAtIff(s, i, w);
  }

  /* ---------------- stripLocationSuffix ---------------- */

  /** "JUAZEIRO (BA)" cannot start where no "J" is. */
  lemma {:induction false} JuazeiroBaNoHead(s: string, j: nat)
    requires j < |s| && UpperChar(s[j]) != 'J'
    ensures JuazeiroBaMatch(s, j).NoMatch?
  {
    EqCIAtHead(s, j, "JUAZEIRO");
  }

  /** A "Juazeiro (XX)" that ends the text has no word boundary after the ")". */
  lemma {:induction false} JuazeiroBaNoTail(s: string, i: nat)
    requires i + 13 == |s| && IsSpace(s[i + 8]) && !IsSpace(s[i + 9]) && !IsWordChar(s[i + 12])
    ensures JuazeiroBaMatch(s, i).NoMatch?
  {
    SpaceRunIs(s, i + 8, 1);
  }

  /** A closing "(XX)" is the state suffix. */
  lemma {:induction false} StateAt(s: string, i: nat)
    requires i + 4 == |s| && s[i] == '(' && IsAsciiUpper(s[i + 1]) && IsAsciiUpper(s[i + 2]) && s[i + 3] == ')'
    ensures StateSuffixMatch(s, i) == Match(4, " ")
  {
    SpaceRunIs(s, i + 1, 0);
    SpaceRunIs(s, i + 3, 0);
    SpaceRunIs(s, i + 4, 0);
  }

  lemma {:induction false} StateNoAt(s: string, j: nat)
    requires j < |s| && s[j] != '('
    ensures StateSuffixMatch(s, j).NoMatch?
  {
  }

  /** A word "Juazeiro" followed only by spaces is the trailing locality. */
  lemma {:induction false} JuazeiroEndAt(x: string)
    ensures JuazeiroEndMatch(x + " Juazeiro  ", |x| + 1) == Match(10, " ")
  {
    var a := x + " Juazeiro  ";
    var i := |x| + 1;
    assert forall k :: 0 <= k < 8 ==> a[i + k] == "Juazeiro"[k];
    EqCIAtIff(a, i, "JUAZEIRO");
    SpaceRunIs(a, i + 8, 2);
  }

  lemma {:induction false} JuazeiroEndNoHead(s: string, j: nat)
    requires j < |s| && UpperChar(s[j]) != 'J'
    ensures JuazeiroEndMatch(s, j).NoMatch?
  {
    EqCIAtHead(s, j, "JUAZEIRO");
  }

  /** Text without "J" or "(" before the locality. */
  predicate PlainBefore(x: string) {
    forall k :: 0 <= k < |x| ==> UpperChar(x[k]) != 'J' && x[k] != '('
  }

  /** The combined "JUAZEIRO (BA)" pattern never fires: it needs a word
      character after the ")". */
  lemma {:induction false} JuazeiroBaFixed(x: string)
    requires PlainBefore(x)
    ensures ReplaceAll(x + Locality, JuazeiroBaMatch) == x + Locality
  {
    var s := x + Locality;
    var n := |x|;
    forall j | 0 <= j < |s| ensures JuazeiroBaMatch(s, j).NoMatch? {
      if j == n + 1 {
        JuazeiroBaNoTail(s, j);
      } else {
        JuazeiroBaNoHead(s, j);
      }
    }
    NoMatchFixed(s, JuazeiroBaMatch);
  }

  /** "(BA)" at the end is dropped as a state suffix. */
  lemma {:induction false} StateDropped(x: string)
    requires PlainBefore(x)
    ensures ReplaceAll(x + Locality, StateSuffixMatch) == x + " Juazeiro  "
  {
    var s := x + Locality;
    var n := |x|;
    StateAt(s, n + 10);
    forall j | 0 <= j < n + 10 ensures StateSuffixMatch(s, j).NoMatch? {
      StateNoAt(s, j);
    }
    OneMatchGives(s, n + 10, n + 14, " ", StateSuffixMatch, x + " Juazeiro  ");
  }

  /** The trailing "Juazeiro" is then dropped as a locality. */
  lemma {:induction false} JuazeiroDropped(x: string)
    requires PlainBefore(x)
    ensures ReplaceAll(x + " Juazeiro  ", JuazeiroEndMatch) == x + "  "
  {
    var a := x + " Juazeiro  ";
    var n := |x|;
    JuazeiroEndAt(x);
    forall j | 0 <= j < n + 1 ensures JuazeiroEndMatch(a, j).NoMatch? {
      JuazeiroEndNoHead(a, j);
    }
    JuazeiroSplice(x);
    OneMatchGives(a, n + 1, n + 11, " ", JuazeiroEndMatch, x + "  ");
  }

  lemma {:induction false} JuazeiroSplice(x: string)
    ensures var a := x + " Juazeiro  "; a[..|x| + 1] + " " + a[|x| + 11..] == x + "  "
  {
    var a := x + " Juazeiro  ";
    assert a[..|x| + 1] == x + " ";
  }

  /** A normalized text followed by " Juazeiro (BA)" loses the locality. */
  lemma {:induction false} SplitInputJuazeiro(x: string)
    requires x != [] && IsNormalized(x) && PlainBefore(x)
    ensures SplitInput(x + Locality) == x
  {
    JuazeiroBaFixed(x);
    StateDropped(x);
    JuazeiroDropped(x);
    NormSpacesTrailing(x, "  ");
    NormSpacesIdem(x);
  }

  lemma StrippedNormalized()
    ensures IsNormalized(Stripped)
  {
  }

  lemma LabelSplitInput()
    ensures SplitInput(Label) == Stripped
  {
    StrippedNormalized();
    SplitInputJuazeiro(Stripped);
  }

  /* ---------------- the trailing unit run ---------------- */

  lemma {:induction false} SplitFour(a: string, b: string, c: string, d: string)
    requires ' ' !in a && ' ' !in b && ' ' !in c && ' ' !in d
    ensures Split(a + " " + b + " " + c + " " + d, ' ') == [a, b, c, d]
  {
    var rest := b + " " + c + " " + d;
    assert a + " " + b + " " + c + " " + d == a + [' '] + rest;
    SplitFromConcat(a, rest, ' ', []);
    SplitThree(b, c, d, ' ');
    assert [] + a == a;
  }

  lemma {:induction false} RunOfLastTwo<T>(a: T, b: T, c: T, d: T, p: T -> bool)
    requires !p(b) && p(c) && p(d)
    ensures TrailingRun([a, b, c, d], p) == 2
  {
    TrailingRunAt([a, b, c, d], p, 1);
  }

  /** A label of four words whose last two form the trailing run of plain unit
      tokens: the name is the first two words and the unit phrase the last two. */
  lemma {:induction false} FourTokens(s: string, a: string, b: string, c: string, d: string, name: string, unit: string)
    requires s == a + " " + b + " " + c + " " + d && name == a + " " + b && unit == c + " " + d
    requires ' ' !in a && ' ' !in b && ' ' !in c && ' ' !in d
    requires TrailingUnitRun([a, b, c, d]) == 2
    requires GluedNumLen(c) == 0 && GluedNumLen(d) == 0
    ensures NameText(s) == NormSpaces(name)
    ensures UnitPhrase(s) == Some(unit)
  {
    SplitFour(a, b, c, d);
    var ts := [a, b, c, d];
    assert ts[..2] == [a, b];
    assert Join([a, b], " ") == a + " " + b by {
      assert [a, b][1..] == [b];
    }
    assert ts[2..] == [c, d];
    ExpandUnitsCons(c, [d]);
    ExpandUnitsCons(d, []);
    assert ExpandUnits([c, d]) == [c, d] by {
      assert [c, d] == [c] + [d];
      assert [d] == [d] + [];
    }
    assert Join([c, d], " ") == c + " " + d by {
      assert [c, d][1..] == [d];
    }
  }
  /** Upper-cased first letters of the unit words. */
  predicate UnitHead(c: char) {
    c == 'C' || c == 'S' || c == 'K' || c == 'G' || c == 'L' || c == 'U' || c == 'M' || c == 'D'
  }

  lemma UnitWordHeads()
    ensures forall n :: 0 <= n < |UnitWords| ==>
      UnitWords[n] != [] && UnitHead(UpperChar(UnitWords[n][0]))
      && (UpperChar(UnitWords[n][0]) == 'C' ==> |UnitWords[n]| >= 2 && UpperChar(UnitWords[n][1]) == 'X')
  {
  }

  /** No unit word starts at `j`: its first letter starts none, or it is a "C"
      not followed by an "X". */
  predicate NoUnitWordStart(s: string, j: nat) {
    j < |s| && UnitHead(UpperChar(s[j])) ==> UpperChar(s[j]) == 'C' && (j + 1 < |s| ==> UpperChar(s[j + 1]) != 'X')
  }

  lemma {:induction false} EqCIAtSecond(s: string, i: nat, w: string)
    ensures EqCIAt(s, i, w) && |w| >= 2 ==> i + 1 < |s| && UpperChar(s[i + 1]) == UpperChar(w[1])
  {
    EqCIAtIff(s, i, w);
  }

  lemma {:induction false} NoUnitWordAt(s: string, j: nat)
    requires NoUnitWordStart(s, j)
    ensures forall n :: 0 <= n < |UnitWords| ==> !EqCIAt(s, j, UnitWords[n])
  {
    UnitWordHeads();
    forall n | 0 <= n < |UnitWords| ensures !EqCIAt(s, j, UnitWords[n]) {
      EqCIAtHead(s, j, UnitWords[n]);
      EqCIAtSecond(s, j, UnitWords[n]);
    }
  }

  lemma {:induction false} EndsWithNone(t: string, j: nat, ws: seq<string>)
    requires forall n :: 0 <= n < |ws| ==> !EqCIAt(t, j, ws[n])
    ensures !EndsWithWordCI(t, j, ws)
    decreases |ws|
  {
    if ws != [] {
      EndsWithNone(t, j, ws[1..]);
    }
  }

  /** A word starting with neither "Cx" nor "Sc" is no glued pack. */
  lemma {:induction false} NotGlued(t: string)
    requires t != [] && NoUnitWordStart(t, 0)
    ensures GluedNumLen(t) == 0
  {
    EqCIAtHead(t, 0, "Cx");
    EqCIAtSecond(t, 0, "Cx");
    EqCIAtHead(t, 0, "Sc");
  }

  lemma {:induction false} NotUnitWord(t: string)
    requires t != [] && NoUnitWordStart(t, 0)
    ensures !IsUnitWord(t)
  {
    EqCIAtHead(t, 0, "mo-");
    NoUnitWordAt(t, 0);
    EndsWithNone(t, 0, UnitWords);
  }

  lemma {:induction false} NotNumeric(t: string)
    requires t != [] && !IsDigit(t[0])
    ensures !IsNumWithSuffix(t) && !IsNumber(t)
  {
  }

  /** A word that starts with neither a digit nor a unit word is no unit token. */
  lemma {:induction false} NotUnitToken(t: string)
    requires t != [] && !IsDigit(t[0]) && NoUnitWordStart(t, 0)
    ensures !IsUnitToken(t)
  {
    NotGlued(t);
    NotUnitWord(t);
    NotNumeric(t);
  }

  lemma {:induction false} WeightDecimal(t: string)
    requires |t| == 4 && IsDigit(t[0]) && IsDigit(t[1]) && t[2] == 'K'
    ensures DecimalLen(t, 0) == 2 && SpaceRun(t, 2) == 0
  {
    DigitRunIs(t, 0, 2);
    SpaceRunIs(t, 2, 0);
  }

  lemma {:induction false} WeightSuffix(t: string)
    requires |t| == 4 && IsDigit(t[0]) && IsDigit(t[1]) && t[2] == 'K' && t[3] == 'g'
    ensures IsNumWithSuffix(t)
  {
    WeightDecimal(t);
    EqCIAtIff(t, 2, "kg");
    assert EndsWithWordCI(t, 2, ["kg", "g", "l", "lt"]);
  }

  lemma {:induction false} WeightNotGlued(t: string)
    requires |t| == 4 && IsDigit(t[0])
    ensures GluedNumLen(t) == 0
  {
    EqCIAtHead(t, 0, "Cx");
    EqCIAtHead(t, 0, "Sc");
  }

  /** Two digits and "Kg": a weight token, not a glued pack. */
  lemma {:induction false} WeightToken(t: string)
    requires |t| == 4 && IsDigit(t[0]) && IsDigit(t[1]) && t[2] == 'K' && t[3] == 'g'
    ensures IsUnitToken(t) && GluedNumLen(t) == 0
  {
    WeightSuffix(t);
    WeightNotGlued(t);
  }

  lemma {:induction false} BoxWord(t: string)
    requires |t| == 2 && t[0] == 'C' && t[1] == 'x'
    ensures IsUnitWord(t)
  {
    EqCIAtIff(t, 0, "cx");
    assert UnitWords[0] == "cx";
  }

  /** "Cx": the box unit word. */
  lemma {:induction false} BoxToken(t: string)
    requires |t| == 2 && t[0] == 'C' && t[1] == 'x'
    ensures IsUnitToken(t) && GluedNumLen(t) == 0
  {
    BoxWord(t);
    DigitRunIs(t, 2, 0);
  }

  lemma StrippedRun()
    ensures TrailingUnitRun(["Alho", "Comum", "Cx", "10Kg"]) == 2
  {
    NotUnitToken("Comum");
    WeightToken("10Kg");
    BoxToken("Cx");
    RunOfLastTwo("Alho", "Comum", "Cx", "10Kg", IsUnitToken);
  }

  lemma StrippedWords()
    ensures Stripped == "Alho" + " " + "Comum" + " " + "Cx" + " " + "10Kg"
  {
  }

  lemma PartsJoined()
    ensures "Alho Comum" == "Alho" + " " + "Comum" && "Cx 10Kg" == "Cx" + " " + "10Kg"
    ensures ' ' !in "Alho" && ' ' !in "Comum" && ' ' !in "Cx" && ' ' !in "10Kg"
  {
  }

  lemma UnitTokensPlain()
    ensures TrailingUnitRun(["Alho", "Comum", "Cx", "10Kg"]) == 2
    ensures GluedNumLen("Cx") == 0 && GluedNumLen("10Kg") == 0
  {
    StrippedRun();
    WeightNotGlued("10Kg");
    BoxToken("Cx");
  }

  lemma StrippedParts()
    ensures NameText(Stripped) == NormSpaces("Alho Comum")
    ensures UnitPhrase(Stripped) == Some("Cx 10Kg")
  {
    StrippedWords();
    PartsJoined();
    UnitTokensPlain();
    FourTokens(Stripped, "Alho", "Comum", "Cx", "10Kg", "Alho Comum", "Cx 10Kg");
  }

  /* ---------------- cleanProductName ---------------- */

  /** A normalized name of ASCII letters and single spaces. */
  predicate PlainName(s: string) {
    s != [] && IsNormalized(s) && forall k :: 0 <= k < |s| ==> IsAsciiLetter(s[k]) || s[k] == ' '
  }

  lemma {:induction false} ReplaceCharsNone(s: string, p: char -> bool, c: char)
    requires forall k :: 0 <= k < |s| ==> !p(s[k])
    ensures ReplaceChars(s, p, c) == s
  {
  }

  /** Without parentheses, digits, separators or ordinal signs the symbol
      passes keep a plain name. */
  lemma {:induction false} NoParensOrNumbers(s: string)
    requires PlainName(s)
    ensures ReplaceAll(ReplaceAll(s, ParenMatch), NumberMatch) == s
  {
    forall j | 0 <= j < |s| ensures ParenMatch(s, j).NoMatch? && NumberMatch(s, j).NoMatch? {
    }
    NoMatchFixed(s, ParenMatch);
    NoMatchFixed(s, NumberMatch);
  }

  lemma {:induction false} StripSymbolsPlain(s: string)
    requires PlainName(s)
    ensures StripSymbols(s) == s
  {
    NoParensOrNumbers(s);
    ReplaceCharsNone(s, IsSeparatorChar, ' ');
    ReplaceCharsNone(s, IsDegreeChar, ' ');
    TrimNormalized(s);
  }

  /** Upper-cased first letters of the stopwords. */
  predicate StopHead(c: char) { c == 'P' || c == 'B' || c == 'T' || c == 'E' || c == 'S' }

  lemma StopwordHeads()
    ensures forall n :: 0 <= n < |Stopwords| ==> Stopwords[n] != [] && StopHead(UpperChar(Stopwords[n][0]))
  {
  }

  lemma {:induction false} WordsNone(s: string, j: nat, words: seq<string>, out: string)
    requires forall n :: 0 <= n < |words| ==> !EqCIAt(s, j, words[n])
    ensures WordsMatch(s, j, words, out).NoMatch?
  {
    forall w | w in words ensures !EqCIAt(s, j, w) {
      var n :| 0 <= n < |words| && words[n] == w;
    }
  }

  /** No word of the text starts like a stopword. */
  lemma {:induction false} StopwordsAbsent(s: string)
    requires forall j :: 0 <= j < |s| && IsBoundary(s, j) ==> !StopHead(UpperChar(s[j]))
    ensures ReplaceAll(s, StopwordMatch) == s
  {
    StopwordHeads();
    forall j | 0 <= j < |s| ensures StopwordMatch(s, j).NoMatch? {
      if IsBoundary(s, j) {
        forall n | 0 <= n < |Stopwords| ensures !EqCIAt(s, j, Stopwords[n]) {
          EqCIAtHead(s, j, Stopwords[n]);
        }
        WordsNone(s, j, Stopwords, " ");
      }
    }
    NoMatchFixed(s, StopwordMatch);
  }

  /** No word of the text starts like a unit word. */
  lemma {:induction false} UnitWordsAbsent(s: string)
    requires forall j :: 0 <= j < |s| && IsBoundary(s, j) ==> NoUnitWordStart(s, j)
    ensures ReplaceAll(s, UnitStopwordMatch) == s
  {
    forall j | 0 <= j < |s| ensures UnitStopwordMatch(s, j).NoMatch? {
      if IsBoundary(s, j) {
        NoUnitWordAt(s, j);
        WordsNone(s, j, UnitStopwords, " ");
      }
    }
    NoMatchFixed(s, UnitStopwordMatch);
  }

  /** Without a ":" there is no label prefix. */
  lemma {:induction false} LabelPrefixAbsent(s: string)
    requires forall k :: 0 <= k < |s| ==> s[k] != ':'
    ensures StripLabelPrefix(s) == s
  {
  }

  lemma {:induction false} RemoveWordsPlain(s: string)
    requires PlainName(s)
    requires forall j :: 0 <= j < |s| && IsBoundary(s, j) ==> !StopHead(UpperChar(s[j])) && NoUnitWordStart(s, j)
    ensures RemoveWords(s) == s
  {
    StopwordsAbsent(s);
    assert ReplaceAll(s, StopwordMatch) == s;
    forall k | 0 <= k < |s| ensures s[k] != ':' {
      assert IsAsciiLetter(s[k]) || s[k] == ' ';
    }
    LabelPrefixAbsent(s);
    UnitWordsAbsent(s);
  }

  lemma {:induction false} KeepNameCharsPlain(s: string)
    requires PlainName(s)
    ensures KeepNameChars(s) == s
  {
    assert forall k :: 0 <= k < |s| ==> KeepNameChars(s)[k] == s[k];
  }

  /** A plain name none of whose words starts like a stopword or a unit word
      is its own cleaned form. */
  lemma {:induction false} CleanPlain(s: string)
    requires PlainName(s)
    requires forall j :: 0 <= j < |s| && IsBoundary(s, j) ==> !StopHead(UpperChar(s[j])) && NoUnitWordStart(s, j)
    ensures CleanProductName(s) == s
  {
    NormSpacesIdem(s);
    StripSymbolsPlain(s);
    RemoveWordsPlain(s);
    KeepNameCharsPlain(s);
  }

  lemma NamePlain()
    ensures PlainName("Alho Comum")
  {
  }

  lemma NameWordStarts()
    ensures var s := "Alho Comum";
      forall j :: 0 <= j < |s| && IsBoundary(s, j) ==> !StopHead(UpperChar(s[j])) && NoUnitWordStart(s, j)
  {
  }

  lemma NameCleaned()
    ensures CleanProductName("Alho Comum") == "Alho Comum"
  {
    NamePlain();
    NameWordStarts();
    CleanPlain("Alho Comum");
  }

  /* ---------------- splitAgrolinkProduct ---------------- */

  /** The split assembled from its parts: the stripped label, the name text and
      its cleaned form, the unit phrase and its normalized form. */
  lemma {:induction false} SplitFromParts(raw: string, x: string, text: string, name: string, phrase: string, unit: string)
    requires raw != [] && x != [] && SplitInput(raw) == x
    requires NameText(x) == text && CleanProductName(text) == name
    requires UnitPhrase(x) == Some(phrase) && NormalizeUnit(Some(phrase)) == Some(unit)
    ensures SplitSpec(raw) == SplitResult(name, Some(unit))
  {
  }

  lemma LabelText()
    ensures Label == "Alho Comum Cx 10Kg Juazeiro (BA)"
  {
  }

  lemma StrippedName()
    ensures NameText(Stripped) == "Alho Comum"
  {
    StrippedParts();
    NamePlain();
    NormSpacesIdem("Alho Comum");
  }

  /** The bulletin label "Alho Comum Cx 10Kg Juazeiro (BA)" splits into the
      name "Alho Comum" and the unit "Cx 10 Kg". */
  lemma SplitBulletinLabel()
    ensures SplitSpec("Alho Comum Cx 10Kg Juazeiro (BA)") == SplitResult("Alho Comum", Some("Cx 10 Kg"))
  {
    LabelText();
    LabelSplitInput();
    StrippedName();
    StrippedParts();
    NameCleaned();
    NormalizeUnitBulletinBox();
    SplitFromParts(Label, Stripped, "Alho Comum", "Alho Comum", "Cx 10Kg", "Cx 10 Kg");
  }
}
