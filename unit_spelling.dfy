/** The spellings `normalizeUnit` (price-recommendation/agrolinkName.ts) gives
    the unit abbreviations: after its respelling passes, every whole-word
    "cx", "sc", "kg", "g", "lt", "l", "unid" and "un", in any case, is written
    Cx, Sc, Kg, g, Lt, L, Unid and Un, and the glued forms it spaces out. */
module UnitSpelling {
  import opened Wrappers
  import opened Text
  import opened AgrolinkName

  predicate IsAsciiLetter(c: char) { IsAsciiUpper(c) || IsAsciiLower(c) }

  /** `\bw\b` at `i` under the `i` flag. */
  predicate WholeWordAt(s: string, i: nat, w: string) {
    i + |w| <= |s| && IsBoundary(s, i) && EqCIAt(s, i, w) && IsBoundary(s, i + |w|)
  }

  /** Every whole-word occurrence of `w`, in any case, is spelled `c`. */
  ghost predicate SpelledAs(s: string, w: string, c: string) {
    forall i: nat :: WholeWordAt(s, i, w) ==> EqAt(s, i, c)
  }

  /** A non-empty word of lower-case ASCII letters. */
  predicate LowerWord(w: string) {
    w != [] && forall k :: 0 <= k < |w| ==> IsAsciiLower(w[k])
  }

  /** `c` is a spelling of the lower-case word `w`: the same letters in any case. */
  predicate Respells(w: string, c: string) {
    LowerWord(w) && |c| == |w|
    && forall k :: 0 <= k < |w| ==> IsAsciiLetter(c[k]) && UpperChar(c[k]) == UpperChar(w[k])
  }

  /** Equal up to the case of an ASCII letter. */
  predicate FoldEq(a: char, b: char) {
    a == b || (IsAsciiLetter(a) && IsAsciiLetter(b) && UpperChar(a) == UpperChar(b))
  }

  /** `r` is `s` with some ASCII letters in another case. */
  predicate SameFold(r: string, s: string) {
    |r| == |s| && forall k :: 0 <= k < |s| ==> FoldEq(r[k], s[k])
  }

  /* ---------------- occurrences of a word ---------------- */

  lemma {:induction false} EqCIAtIff(s: string, i: nat, w: string)
    ensures EqCIAt(s, i, w) <==> i + |w| <= |s| && forall k :: 0 <= k < |w| ==> UpperChar(s[i + k]) == UpperChar(w[k])
    decreases |w|
  {
    if w != [] {
      EqCIAtIff(s, i + 1, w[1..]);
      assert forall k :: 1 <= k < |w| ==> w[1..][k - 1] == w[k];
    }
  }

  lemma {:induction false} UpperOfAsciiUpper(x: char)
    requires IsAsciiUpper(UpperChar(x))
    ensures IsAsciiLetter(x)
  {
  }

  /** The text under an occurrence of a lower-case word is ASCII letters. */
  lemma {:induction false} OccurrenceLetters(s: string, i: nat, w: string)
    requires LowerWord(w) && EqCIAt(s, i, w)
    ensures i + |w| <= |s|
    ensures forall k :: i <= k < i + |w| ==> IsAsciiLetter(s[k]) && UpperChar(s[k]) == UpperChar(w[k - i])
  {
    EqCIAtIff(s, i, w);
    forall k | i <= k < i + |w| ensures IsAsciiLetter(s[k]) && UpperChar(s[k]) == UpperChar(w[k - i]) {
      assert UpperChar(s[i + (k - i)]) == UpperChar(w[k - i]);
      UpperOfAsciiUpper(s[k]);
    }
  }

  /** No word boundary falls strictly inside a whole word. */
  lemma {:induction false} NoBoundaryInside(s: string, j: nat, w: string, n: nat)
    requires LowerWord(w) && WholeWordAt(s, j, w) && j < n < j + |w|
    ensures !IsBoundary(s, n)
  {
    OccurrenceLetters(s, j, w);
    assert IsAsciiLetter(s[n - 1]) && IsAsciiLetter(s[n]);
  }

  /** Whole words that overlap start together and are the same word. */
  lemma {:induction false} WholeWordsDisjoint(s: string, j: nat, w: string, j2: nat, v: string)
    requires LowerWord(w) && LowerWord(v)
    requires WholeWordAt(s, j, w) && WholeWordAt(s, j2, v)
    requires j2 < j + |w| && j < j2 + |v|
    ensures j == j2 && w == v
  {
    if j < j2 {
      NoBoundaryInside(s, j, w, j2);
    } else if j2 < j {
      NoBoundaryInside(s, j2, v, j);
    } else if |w| < |v| {
      NoBoundaryInside(s, j, v, j + |w|);
    } else if |v| < |w| {
      NoBoundaryInside(s, j, w, j + |v|);
    } else {
      OccurrenceLetters(s, j, w);
      OccurrenceLetters(s, j, v);
      forall k | 0 <= k < |w| ensures w[k] == v[k] {
        assert UpperChar(w[k]) == UpperChar(s[j + k]) == UpperChar(v[k]);
      }
    }
  }

  /** The matcher of one respelling pass finds exactly the whole words. */
  lemma {:induction false} WholeWordMatchAt(s: string, j: nat, w: string, c: string)
    requires w != []
    ensures WholeWordMatch(s, j, w, c) == if WholeWordAt(s, j, w) then Match(|w|, c) else NoMatch
  {
    var m := WholeWordMatch(s, j, w, c);
    assert w in [w];
    if m.Match? {
      var v :| v in [w] && |v| == m.len && EqCIAt(s, j, v);
      assert v == w;
    }
  }

  /** Occurrences are the same in texts that differ only in case. */
  lemma {:induction false} FoldKeepsWholeWord(r: string, s: string, j: nat, w: string)
    requires SameFold(r, s)
    ensures WholeWordAt(r, j, w) <==> WholeWordAt(s, j, w)
  {
    EqCIAtIff(r, j, w);
    EqCIAtIff(s, j, w);
    assert forall k :: 0 <= k < |s| ==> UpperChar(r[k]) == UpperChar(s[k]) && (IsWordChar(r[k]) <==> IsWordChar(s[k]));
  }

  lemma {:induction false} SameFoldTrans(a: string, b: string, c: string)
    requires SameFold(a, b) && SameFold(b, c)
    ensures SameFold(a, c)
  {
    forall k | 0 <= k < |c| ensures FoldEq(a[k], c[k]) {
      assert FoldEq(a[k], b[k]) && FoldEq(b[k], c[k]);
    }
  }

  /** A change of case keeps text normalized. */
  lemma {:induction false} SameFoldNormalized(r: string, s: string)
    requires SameFold(r, s) && IsNormalized(s)
    ensures IsNormalized(r)
  {
    assert forall k :: 0 <= k < |s| ==> (IsSpace(r[k]) <==> IsSpace(s[k])) && (r[k] == ' ' <==> s[k] == ' ');
  }

  /* ---------------- one respelling pass ---------------- */

  /** `k` lies inside a whole-word occurrence of `w`. */
  ghost predicate Covered(s: string, w: string, k: nat) {
    exists j: nat :: j <= k < j + |w| && WholeWordAt(s, j, w)
  }

  /** What one pass leaves of `s` from the scan position `i` on. */
  ghost function Respell(s: string, i: nat, w: string, c: string): string
    decreases |s| - i
  {
    if i >= |s| then []
    else if w != [] && WholeWordAt(s, i, w) then c + Respell(s, i + |w|, w, c)
    else [s[i]] + Respell(s, i + 1, w, c)
  }

  lemma {:induction false} RespellIsReplace(s: string, i: nat, w: string, c: string)
    requires w != [] && |c| == |w|
    ensures ReplaceAllFrom(s, i, WordPass(w, c)) == Respell(s, i, w, c)
  {
    var f := WordPass(w, c);
    forall j | 0 <= j < |s| ensures FindsWord(s, j, w, c, f) {
      WholeWordMatchAt(s, j, w, c);
    }
    ReplaceIsRespell(s, i, w, c, f);
  }

  /** The matcher `f` finds the whole word `w` at `j`, rewriting it to `c`,
      and nothing where `w` is not. */
  predicate FindsWord(s: string, j: nat, w: string, c: string, f: (string, nat) -> Match) {
    f(s, j) == if WholeWordAt(s, j, w) then Match(|w|, c) else NoMatch
  }

  /** A global replace whose matcher finds exactly the whole words `w`,
      rewriting each to `c`, is the respelling. */
  lemma {:induction false} ReplaceIsRespell(s: string, i: nat, w: string, c: string, f: (string, nat) -> Match)
    requires w != []
    requires forall j :: 0 <= j < |s| ==> FindsWord(s, j, w, c, f)
    ensures ReplaceAllFrom(s, i, f) == Respell(s, i, w, c)
    decreases |s| - i
  {
    if i < |s| {
      assert FindsWord(s, i, w, c, f);
      if WholeWordAt(s, i, w) {
        ReplaceIsRespell(s, i + |w|, w, c, f);
        RespellHitStep(s, i, w, c, f);
      } else {
        ReplaceIsRespell(s, i + 1, w, c, f);
        RespellMissStep(s, i, w, c, f);
      }
    }
  }

  /** One step at an occurrence: both sides write `c` and skip the word. */
  lemma {:induction false} RespellHitStep(s: string, i: nat, w: string, c: string, f: (string, nat) -> Match)
    requires w != [] && i < |s| && WholeWordAt(s, i, w) && f(s, i) == Match(|w|, c)
    requires ReplaceAllFrom(s, i + |w|, f) == Respell(s, i + |w|, w, c)
    ensures ReplaceAllFrom(s, i, f) == Respell(s, i, w, c)
  {
    RespellUnfold(s, i, w, c);
    ReplaceAllAt(s, i, f);
  }

  /** One step elsewhere: both sides keep the character. */
  lemma {:induction false} RespellMissStep(s: string, i: nat, w: string, c: string, f: (string, nat) -> Match)
    requires w != [] && i < |s| && !WholeWordAt(s, i, w) && f(s, i) == NoMatch
    requires ReplaceAllFrom(s, i + 1, f) == Respell(s, i + 1, w, c)
    ensures ReplaceAllFrom(s, i, f) == Respell(s, i, w, c)
  {
    RespellUnfold(s, i, w, c);
    ReplaceAllMiss(s, i, f);
  }

  lemma {:induction false} RespellLen(s: string, i: nat, w: string, c: string)
    requires |c| == |w| && i <= |s|
    ensures |Respell(s, i, w, c)| == |s| - i
    decreases |s| - i
  {
    if i < |s| {
      if w != [] && WholeWordAt(s, i, w) {
        RespellLen(s, i + |w|, w, c);
      } else {
        RespellLen(s, i + 1, w, c);
      }
    }
  }

  lemma {:induction false} RespellUnfold(s: string, i: nat, w: string, c: string)
    requires w != [] && i < |s|
    ensures WholeWordAt(s, i, w) ==> Respell(s, i, w, c) == c + Respell(s, i + |w|, w, c)
    ensures !WholeWordAt(s, i, w) ==> Respell(s, i, w, c) == [s[i]] + Respell(s, i + 1, w, c)
  {
  }

  /** Inside an occurrence the pass writes `c`, a respelling of the text there. */
  lemma {:induction false} RespellInside(s: string, i: nat, w: string, c: string, r: string, k: nat)
    requires Respells(w, c) && WholeWordAt(s, i, w) && i <= k < i + |w|
    requires |c| <= |r| && r[..|c|] == c
    ensures FoldEq(r[k - i], s[k]) && Covered(s, w, k)
  {
    OccurrenceLetters(s, i, w);
    assert r[k - i] == c[k - i];
    assert UpperChar(c[k - i]) == UpperChar(w[k - i]);
  }

  /** A character changes only inside an occurrence, and only in case. */
  lemma {:induction false} RespellAt(s: string, i: nat, w: string, c: string, k: nat)
    requires Respells(w, c) && i <= k < |s|
    ensures |Respell(s, i, w, c)| == |s| - i
    ensures FoldEq(Respell(s, i, w, c)[k - i], s[k])
    ensures Respell(s, i, w, c)[k - i] != s[k] ==> Covered(s, w, k)
    decreases |s| - i, 1
  {
    RespellLen(s, i, w, c);
    if WholeWordAt(s, i, w) {
      RespellUnfold(s, i, w, c);
      RespellAtFromWord(s, i, w, c, k);
    } else {
      RespellUnfold(s, i, w, c);
      RespellAtFromChar(s, i, w, c, k);
    }
  }

  /** `RespellAt` when the scan position is an occurrence. */
  lemma {:induction false} RespellAtFromWord(s: string, i: nat, w: string, c: string, k: nat)
    requires Respells(w, c) && i <= k < |s| && WholeWordAt(s, i, w)
    requires Respell(s, i, w, c) == c + Respell(s, i + |w|, w, c) && |Respell(s, i, w, c)| == |s| - i
    ensures FoldEq(Respell(s, i, w, c)[k - i], s[k])
    ensures Respell(s, i, w, c)[k - i] != s[k] ==> Covered(s, w, k)
    decreases |s| - i, 0
  {
    var r := Respell(s, i, w, c);
    var rest := Respell(s, i + |w|, w, c);
    if k < i + |w| {
      PrefixOfConcat(c, rest);
      RespellInside(s, i, w, c, r, k);
    } else {
      RespellAt(s, i + |w|, w, c, k);
      IndexInTail(c, rest, k - i);
    }
  }

  /** `RespellAt` when the scan position keeps its character. */
  lemma {:induction false} RespellAtFromChar(s: string, i: nat, w: string, c: string, k: nat)
    requires Respells(w, c) && i <= k < |s|
    requires Respell(s, i, w, c) == [s[i]] + Respell(s, i + 1, w, c) && |Respell(s, i, w, c)| == |s| - i
    ensures FoldEq(Respell(s, i, w, c)[k - i], s[k])
    ensures Respell(s, i, w, c)[k - i] != s[k] ==> Covered(s, w, k)
    decreases |s| - i, 0
  {
    var rest := Respell(s, i + 1, w, c);
    if k == i {
      IndexInHead([s[i]], rest, 0);
    } else {
      RespellAt(s, i + 1, w, c, k);
      IndexInTail([s[i]], rest, k - i);
    }
  }

  /** Every occurrence from the scan position on is replaced by `c`. */
  lemma {:induction false} RespellHit(s: string, i: nat, w: string, c: string, j: nat, m: nat)
    requires LowerWord(w) && |c| == |w| && i <= j && WholeWordAt(s, j, w) && m < |w|
    ensures |Respell(s, i, w, c)| == |s| - i
    ensures Respell(s, i, w, c)[j - i + m] == c[m]
    decreases |s| - i, 1
  {
    RespellLen(s, i, w, c);
    if j == i {
      RespellHitHere(s, i, w, c, m);
    } else if WholeWordAt(s, i, w) {
      RespellUnfold(s, i, w, c);
      RespellHitFromWord(s, i, w, c, j, m);
    } else {
      RespellUnfold(s, i, w, c);
      RespellHitFromChar(s, i, w, c, j, m);
    }
  }

  /** `RespellHit` when the scan position is an earlier occurrence. */
  lemma {:induction false} RespellHitFromWord(s: string, i: nat, w: string, c: string, j: nat, m: nat)
    requires LowerWord(w) && |c| == |w| && i < j && WholeWordAt(s, j, w) && m < |w|
    requires WholeWordAt(s, i, w) && Respell(s, i, w, c) == c + Respell(s, i + |w|, w, c)
    ensures |Respell(s, i, w, c)| == |s| - i
    ensures Respell(s, i, w, c)[j - i + m] == c[m]
    decreases |s| - i, 0
  {
    if j < i + |w| {
      NoBoundaryInside(s, i, w, j);
    } else {
      RespellHit(s, i + |w|, w, c, j, m);
      IndexInTail(c, Respell(s, i + |w|, w, c), j - i + m);
    }
  }

  /** `RespellHit` when the scan position, before the occurrence, keeps its character. */
  lemma {:induction false} RespellHitFromChar(s: string, i: nat, w: string, c: string, j: nat, m: nat)
    requires LowerWord(w) && |c| == |w| && i < j && WholeWordAt(s, j, w) && m < |w|
    requires i < |s| && Respell(s, i, w, c) == [s[i]] + Respell(s, i + 1, w, c)
    ensures |Respell(s, i, w, c)| == |s| - i
    ensures Respell(s, i, w, c)[j - i + m] == c[m]
    decreases |s| - i, 0
  {
    RespellHit(s, i + 1, w, c, j, m);
    IndexInTail([s[i]], Respell(s, i + 1, w, c), j - i + m);
  }

  /** At an occurrence the pass writes `c` first. */
  lemma {:induction false} RespellHitHere(s: string, i: nat, w: string, c: string, m: nat)
    requires w != [] && |c| == |w| && i < |s| && WholeWordAt(s, i, w) && m < |w|
    requires |Respell(s, i, w, c)| == |s| - i
    ensures Respell(s, i, w, c)[m] == c[m]
  {
    RespellUnfold(s, i, w, c);
    IndexInHead(c, Respell(s, i + |w|, w, c), m);
  }

  /** Inside an occurrence already spelled `c`, the pass writes what is there. */
  lemma {:induction false} RespellCoveredAt(s: string, w: string, c: string, j: nat, k: nat)
    requires LowerWord(w) && |c| == |w| && WholeWordAt(s, j, w) && EqAt(s, j, c) && j <= k < j + |w|
    ensures |Respell(s, 0, w, c)| == |s| && Respell(s, 0, w, c)[k] == s[k]
  {
    RespellHit(s, 0, w, c, j, k - j);
    EqAtIndex(s, j, c, k - j);
  }

  lemma {:induction false} EqAtIndex(s: string, j: nat, c: string, m: nat)
    requires EqAt(s, j, c) && m < |c|
    ensures s[j + m] == c[m]
  {
    assert s[j..j + |c|][m] == s[j + m];
  }

  lemma {:induction false} PrefixOfConcat(a: string, b: string)
    ensures (a + b)[..|a|] == a
  {
    assert forall k :: 0 <= k < |a| ==> (a + b)[..|a|][k] == a[k];
  }

  lemma {:induction false} IndexInHead(a: string, b: string, k: nat)
    requires k < |a|
    ensures (a + b)[k] == a[k]
  {
  }

  lemma {:induction false} IndexInTail(a: string, b: string, k: nat)
    requires |a| <= k < |a| + |b|
    ensures (a + b)[k] == b[k - |a|]
  {
  }

  lemma {:induction false} RespellSameFold(s: string, w: string, c: string)
    requires Respells(w, c)
    ensures SameFold(Respell(s, 0, w, c), s)
  {
    RespellLen(s, 0, w, c);
    forall k | 0 <= k < |s| ensures FoldEq(Respell(s, 0, w, c)[k], s[k]) {
      RespellAt(s, 0, w, c, k);
    }
  }

  /** After the pass, `w` is spelled `c`. */
  lemma {:induction false} RespellSpells(s: string, w: string, c: string)
    requires Respells(w, c)
    ensures SpelledAs(Respell(s, 0, w, c), w, c)
  {
    var r := Respell(s, 0, w, c);
    RespellSameFold(s, w, c);
    forall j: nat | WholeWordAt(r, j, w) ensures EqAt(r, j, c) {
      FoldKeepsWholeWord(r, s, j, w);
      forall m | 0 <= m < |w| ensures r[j + m] == c[m] {
        RespellHit(s, 0, w, c, j, m);
      }
      assert r[j..j + |c|] == c;
    }
  }

  /** The pass keeps the spelling of every other abbreviation. */
  lemma {:induction false} RespellKeepsOther(s: string, w: string, c: string, v: string, d: string)
    requires Respells(w, c) && Respells(v, d) && v != w && SpelledAs(s, v, d)
    ensures SpelledAs(Respell(s, 0, w, c), v, d)
  {
    var r := Respell(s, 0, w, c);
    RespellSameFold(s, w, c);
    forall j: nat | WholeWordAt(r, j, v) ensures EqAt(r, j, d) {
      FoldKeepsWholeWord(r, s, j, v);
      assert EqAt(s, j, d);
      forall k | j <= k < j + |d| ensures r[k] == s[k] {
        RespellAt(s, 0, w, c, k);
        if r[k] != s[k] {
          var j2: nat :| j2 <= k < j2 + |w| && WholeWordAt(s, j2, w);
          WholeWordsDisjoint(s, j, v, j2, w);
        }
      }
      assert r[j..j + |d|] == s[j..j + |d|];
    }
  }

  lemma {:induction false} RespellCoveredSpelled(s: string, w: string, c: string, k: nat)
    requires Respells(w, c) && SpelledAs(s, w, c) && k < |s| && Covered(s, w, k)
    ensures |Respell(s, 0, w, c)| == |s| && Respell(s, 0, w, c)[k] == s[k]
  {
    var j: nat :| j <= k < j + |w| && WholeWordAt(s, j, w);
    assert EqAt(s, j, c);
    RespellCoveredAt(s, w, c, j, k);
  }

  /** A pass over text where `w` is already spelled `c` changes nothing. */
  lemma {:induction false} RespellFixed(s: string, w: string, c: string)
    requires Respells(w, c) && SpelledAs(s, w, c)
    ensures Respell(s, 0, w, c) == s
  {
    var r := Respell(s, 0, w, c);
    RespellLen(s, 0, w, c);
    forall k | 0 <= k < |s| ensures r[k] == s[k] {
      if Covered(s, w, k) {
        RespellCoveredSpelled(s, w, c, k);
      } else {
        RespellAt(s, 0, w, c, k);
      }
    }
  }

  /* ---------------- the respelling passes of normalizeUnit ---------------- */

  /** A list of abbreviations with their spellings, no word twice. */
  ghost predicate SpellingList(ps: seq<(string, string)>) {
    (forall n :: 0 <= n < |ps| ==> Respells(ps[n].0, ps[n].1))
    && forall a, b :: 0 <= a < b < |ps| ==> ps[a].0 != ps[b].0
  }

  /** All the passes of `ps`, over text in which the words of `done` are
      already spelled: the text changes only in case, and afterwards the
      words of both lists are spelled. */
  lemma {:induction false} RespellAllSpells(s: string, ps: seq<(string, string)>, done: seq<(string, string)>)
    requires SpellingList(done + ps)
    requires forall n :: 0 <= n < |done| ==> SpelledAs(s, done[n].0, done[n].1)
    ensures SameFold(RespellAll(s, ps), s)
    ensures forall n :: 0 <= n < |done + ps| ==> SpelledAs(RespellAll(s, ps), (done + ps)[n].0, (done + ps)[n].1)
    decreases |ps|
  {
    if ps != [] {
      var all := done + ps;
      var w := ps[0].0;
      var c := ps[0].1;
      assert all[|done|] == (w, c);
      forall n | 0 <= n < |done| ensures Respells(done[n].0, done[n].1) && done[n].0 != w {
        assert all[n] == done[n];
      }
      RespellPass(s, w, c, done);
      var t := ReplaceAll(s, WordPass(w, c));
      var done' := done + [(w, c)];
      assert done' + ps[1..] == all;
      RespellAllSpells(t, ps[1..], done');
      SameFoldTrans(RespellAll(t, ps[1..]), t, s);
    }
  }

  /** One pass, over text in which the words of `done` are spelled, changes
      only case and leaves `w` spelled as well. */
  lemma {:induction false} RespellPass(s: string, w: string, c: string, done: seq<(string, string)>)
    requires Respells(w, c)
    requires forall n :: 0 <= n < |done| ==> Respells(done[n].0, done[n].1) && done[n].0 != w
    requires forall n :: 0 <= n < |done| ==> SpelledAs(s, done[n].0, done[n].1)
    ensures SameFold(ReplaceAll(s, WordPass(w, c)), s)
    ensures forall n :: 0 <= n < |done + [(w, c)]| ==>
      SpelledAs(ReplaceAll(s, WordPass(w, c)), (done + [(w, c)])[n].0, (done + [(w, c)])[n].1)
  {
    var t := ReplaceAll(s, WordPass(w, c));
    var done' := done + [(w, c)];
    RespellIsReplace(s, 0, w, c);
    RespellSameFold(s, w, c);
    RespellSpells(s, w, c);
    RespellKeepsAll(s, w, c, done);
    forall n | 0 <= n < |done'| ensures SpelledAs(t, done'[n].0, done'[n].1) {
      if n < |done| {
        assert done'[n] == done[n];
      } else {
        assert done'[n] == (w, c);
      }
    }
  }

  /** One pass keeps the spelling of every abbreviation in `done`. */
  lemma {:induction false} RespellKeepsAll(s: string, w: string, c: string, done: seq<(string, string)>)
    requires Respells(w, c)
    requires forall n :: 0 <= n < |done| ==> Respells(done[n].0, done[n].1) && done[n].0 != w
    requires forall n :: 0 <= n < |done| ==> SpelledAs(s, done[n].0, done[n].1)
    ensures forall n :: 0 <= n < |done| ==> SpelledAs(Respell(s, 0, w, c), done[n].0, done[n].1)
  {
    forall n | 0 <= n < |done| ensures SpelledAs(Respell(s, 0, w, c), done[n].0, done[n].1) {
      RespellKeepsOther(s, w, c, done[n].0, done[n].1);
    }
  }

  /** Passes over text whose words are all spelled change nothing. */
  lemma {:induction false} RespellAllFixed(s: string, ps: seq<(string, string)>)
    requires forall n :: 0 <= n < |ps| ==> Respells(ps[n].0, ps[n].1) && SpelledAs(s, ps[n].0, ps[n].1)
    ensures RespellAll(s, ps) == s
    decreases |ps|
  {
    if ps != [] {
      RespellIsReplace(s, 0, ps[0].0, ps[0].1);
      RespellFixed(s, ps[0].0, ps[0].1);
      assert forall n :: 0 <= n < |ps[1..]| ==> ps[1..][n] == ps[n + 1];
      RespellAllFixed(s, ps[1..]);
    }
  }

  lemma {:induction false} SpellingsRespell(n: nat)
    requires n < |Spellings|
    ensures Respells(Spellings[n].0, Spellings[n].1)
  {
    if n == 0 {
      assert Respells("cx", "Cx");
    } else if n == 1 {
      assert Respells("sc", "Sc");
    } else if n == 2 {
      assert Respells("kg", "Kg");
    } else if n == 3 {
      assert Respells("g", "g");
    } else if n == 4 {
      assert Respells("lt", "Lt");
    } else if n == 5 {
      assert Respells("l", "L");
    } else if n == 6 {
      assert Respells("unid", "Unid");
    } else {
      assert Respells("un", "Un");
    }
  }

  lemma SpellingsWellFormed()
    ensures SpellingList(Spellings)
  {
    forall n | 0 <= n < |Spellings| ensures Respells(Spellings[n].0, Spellings[n].1) {
      SpellingsRespell(n);
    }
  }

  /** The abbreviation passes only change case, and afterwards every
      abbreviation has its spelling. */
  lemma {:induction false} CanonicalizeSpells(s: string)
    ensures SameFold(CanonicalizeWords(s), s)
    ensures forall n :: 0 <= n < |Spellings| ==> SpelledAs(CanonicalizeWords(s), Spellings[n].0, Spellings[n].1)
  {
    SpellingsWellFormed();
    assert [] + Spellings == Spellings;
    RespellAllSpells(s, Spellings, []);
  }

  /** On text whose abbreviations are already spelled, the passes change nothing. */
  lemma {:induction false} CanonicalizeFixed(s: string)
    requires forall n :: 0 <= n < |Spellings| ==> SpelledAs(s, Spellings[n].0, Spellings[n].1)
    ensures CanonicalizeWords(s) == s
  {
    SpellingsWellFormed();
    RespellAllFixed(s, Spellings);
  }

  /* ---------------- spacing out glued forms ---------------- */

  /** The greedy number has no whitespace. */
  lemma {:induction false} DecimalTextNoSpace(s: string, j: nat)
    ensures NoSpaceIn(DecimalText(s, j))
  {
    var n := DecimalLen(s, j);
    if n > 0 {
      var d := DigitRun(s, j);
      forall k | j <= k < j + n ensures !IsSpace(s[k]) {
        if k >= j + d + 1 { assert IsDigit(s[k]); }
      }
      var r := DecimalText(s, j);
      forall k | 0 <= k < |r| ensures !IsSpace(r[k]) { assert r[k] == s[j + k]; }
    }
  }

  /** "<num> Kg" is normalized text. */
  lemma {:induction false} KgTextNormalized(num: string)
    requires num != [] && NoSpaceIn(num)
    ensures IsNormalized(num + " Kg")
  {
    NoSpaceNormalized(num);
    NoSpaceNormalized("Kg");
    JoinedNormalized(num, "Kg");
    assert num + " Kg" == num + " " + "Kg";
  }

  lemma {:induction false} PackOutNormalized(s: string, i: nat, canon: string, lower: string)
    requires canon != [] && NoSpaceIn(canon)
    ensures PackMatch(s, i, canon, lower).Match? ==>
      PackMatch(s, i, canon, lower).out != [] && IsNormalized(PackMatch(s, i, canon, lower).out)
  {
    var m := PackMatch(s, i, canon, lower);
    if m.Match? {
      var num := DecimalText(s, i + 2 + SpaceRun(s, i + 2));
      DecimalTextNoSpace(s, i + 2 + SpaceRun(s, i + 2));
      KgTextNormalized(num);
      NoSpaceNormalized(canon);
      JoinedNormalized(canon, num + " Kg");
      assert m.out == canon + " " + (num + " Kg");
    }
  }

  /** Spacing out the glued forms keeps the phrase normalized. */
  lemma {:induction false} SpaceOutPacksNormalized(s: string)
    requires IsNormalized(s)
    ensures IsNormalized(SpaceOutPacks(s))
  {
    forall j: nat ensures CxPackMatch(s, j).Match? ==> CxPackMatch(s, j).out != [] && IsNormalized(CxPackMatch(s, j).out) {
      PackOutNormalized(s, j, "Cx", "cx");
    }
    ReplaceAllKeepsNormalized(s, CxPackMatch);
    var a := ReplaceAll(s, CxPackMatch);
    forall j: nat ensures ScPackMatch(a, j).Match? ==> ScPackMatch(a, j).out != [] && IsNormalized(ScPackMatch(a, j).out) {
      PackOutNormalized(a, j, "Sc", "sc");
    }
    ReplaceAllKeepsNormalized(a, ScPackMatch);
    var b := ReplaceAll(a, ScPackMatch);
    forall j: nat ensures KgSuffixMatch(b, j).Match? ==> KgSuffixMatch(b, j).out != [] && IsNormalized(KgSuffixMatch(b, j).out) {
      DecimalTextNoSpace(b, j);
      if KgSuffixMatch(b, j).Match? { KgTextNormalized(DecimalText(b, j)); }
    }
    ReplaceAllKeepsNormalized(b, KgSuffixMatch);
  }

  /* ---------------- normalizeUnit ---------------- */

  /** `normalizeUnit` writes every unit abbreviation in its canonical spelling:
      no whole-word "cx", "KG", "lt", "UN" and so on survives in another case. */
  lemma {:induction false} NormalizeUnitSpelling(u: Option<string>)
    ensures NormalizeUnit(u).Some? ==>
      forall n :: 0 <= n < |Spellings| ==> SpelledAs(NormalizeUnit(u).value, Spellings[n].0, Spellings[n].1)
  {
    if NormalizeUnit(u).Some? {
      var s := UnitBase(u.value);
      NormSpacesShape(KeepUnitChars(u.value));
      SpaceOutPacksNormalized(s);
      var t := SpaceOutPacks(s);
      CanonicalizeSpells(t);
      SameFoldNormalized(CanonicalizeWords(t), t);
      NormSpacesIdem(CanonicalizeWords(t));
    }
  }
}
