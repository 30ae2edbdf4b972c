/** Unit phrases worked through `normalizeUnit`: the bulletin's "Cx 10Kg" and
    the glued "cx10kg" its comments name. Each example is assembled from small
    facts about one pass at a time. */
module NormalizeExamples {
  import opened Wrappers
  import opened Text
  import opened AgrolinkName
  import opened UnitSpelling

  /* ---------------- shared steps ---------------- */

  /** Letters, digits and spaces survive the symbol removal unchanged. */
  lemma {:induction false} KeepUnitCharsPlain(u: string)
    requires forall k :: 0 <= k < |u| ==> IsLetter(u[k]) || IsDigit(u[k]) || u[k] == ' '
    ensures KeepUnitChars(u) == u
  {
    var a := ReplaceChars(u, IsParen, ' ');
    assert forall k :: 0 <= k < |u| ==> a[k] == u[k];
    assert a == u;
    var b := ReplaceChars(a, c => !IsUnitChar(c), ' ');
    assert forall k :: 0 <= k < |u| ==> b[k] == u[k];
  }

  /** A normalized phrase of unit characters is its own base. */
  lemma {:induction false} UnitBasePlain(u: string)
    requires forall k :: 0 <= k < |u| ==> IsLetter(u[k]) || IsDigit(u[k]) || u[k] == ' '
    requires IsNormalized(u)
    ensures UnitBase(u) == u
  {
    KeepUnitCharsPlain(u);
    NormSpacesIdem(u);
  }

  lemma {:induction false} RunIs(s: string, i: nat, n: nat, p: char -> bool)
    requires i + n <= |s| && forall k :: i <= k < i + n ==> p(s[k])
    requires i + n < |s| ==> !p(s[i + n])
    ensures Run(s, i, p) == n
    decreases n
  {
    if n > 0 {
      RunIs(s, i + 1, n - 1, p);
    }
  }

  lemma {:induction false} DigitRunIs(s: string, i: nat, n: nat)
    requires i + n <= |s| && forall k :: i <= k < i + n ==> IsDigit(s[k])
    requires i + n < |s| ==> !IsDigit(s[i + n])
    ensures DigitRun(s, i) == n
  {
    RunIs(s, i, n, IsDigit);
  }

  lemma {:induction false} SpaceRunIs(s: string, i: nat, n: nat)
    requires i + n <= |s| && forall k :: i <= k < i + n ==> IsSpace(s[k])
    requires i + n < |s| ==> !IsSpace(s[i + n])
    ensures SpaceRun(s, i) == n
  {
    RunIs(s, i, n, IsSpace);
  }

  lemma {:induction false} EqAtHead(s: string, j: nat, w: string)
    ensures EqAt(s, j, w) && w != [] ==> s[j] == w[0]
  {
    if EqAt(s, j, w) && w != [] {
      assert s[j..j + |w|][0] == s[j];
    }
  }

  /** No pack starts where neither spelling of its word is written. */
  lemma {:induction false} PackMatchMiss(s: string, i: nat, canon: string, lower: string)
    requires !EqAt(s, i, canon) && !EqAt(s, i, lower)
    ensures PackMatch(s, i, canon, lower).NoMatch?
  {
  }

  lemma {:induction false} WholeWordHead(s: string, i: nat, w: string)
    ensures WholeWordAt(s, i, w) && w != [] ==> i < |s| && UpperChar(s[i]) == UpperChar(w[0]) && IsBoundary(s, i)
  {
    EqCIAtIff(s, i, w);
  }

  /** A word whose first letter never starts a word in `t` is spelled vacuously. */
  lemma {:induction false} SpelledNowhere(t: string, w: string, c: string)
    requires w != []
    requires forall i :: 0 <= i < |t| ==> !(UpperChar(t[i]) == UpperChar(w[0]) && IsBoundary(t, i))
    ensures SpelledAs(t, w, c)
  {
    forall i: nat ensures WholeWordAt(t, i, w) ==> EqAt(t, i, c) {
      WholeWordHead(t, i, w);
    }
  }

  /** A word that can start only at `p`, where `c` is written. */
  lemma {:induction false} SpelledOnlyAt(t: string, w: string, c: string, p: nat)
    requires w != [] && EqAt(t, p, c)
    requires forall i :: 0 <= i < |t| && UpperChar(t[i]) == UpperChar(w[0]) && IsBoundary(t, i) ==> i == p
    ensures SpelledAs(t, w, c)
  {
    forall i: nat ensures WholeWordAt(t, i, w) ==> EqAt(t, i, c) {
      WholeWordHead(t, i, w);
    }
  }

  /** The last step: text already spaced out and spelled is the result. */
  lemma {:induction false} NormalizeUnitFinish(u: string, t: string)
    requires u != [] && UnitBase(u) != [] && SpaceOutPacks(UnitBase(u)) == t
    requires forall n :: 0 <= n < |Spellings| ==> SpelledAs(t, Spellings[n].0, Spellings[n].1)
    requires IsNormalized(t)
    ensures NormalizeUnit(Some(u)) == Some(t)
  {
    CanonicalizeFixed(t);
    NormSpacesIdem(t);
  }

  /* ---------------- "Cx 10 Kg" ---------------- */

  const BoxOf10: string := "Cx 10 Kg"

  lemma BoxOf10Normalized()
    ensures IsNormalized(BoxOf10)
  {
  }

  lemma BoxOf10NoSack()
    ensures ReplaceAll(BoxOf10, ScPackMatch) == BoxOf10
  {
    var t := BoxOf10;
    forall j | 0 <= j < |t| ensures ScPackMatch(t, j).NoMatch? {
      EqAtHead(t, j, "Sc");
      EqAtHead(t, j, "sc");
      PackMatchMiss(t, j, "Sc", "sc");
    }
    ReplaceAllNoMatch(t, 0, ScPackMatch);
  }

  lemma BoxOf10KgAt()
    ensures KgSuffixMatch(BoxOf10, 3) == Match(5, "10 Kg")
  {
    BoxOf10KgPieces();
  }

  lemma BoxOf10KgPieces()
    ensures DecimalText(BoxOf10, 3) == "10" && SpaceRun(BoxOf10, 5) == 1
    ensures EqAt(BoxOf10, 6, "Kg") && IsBoundary(BoxOf10, 8)
  {
    var t := BoxOf10;
    DigitRunIs(t, 3, 2);
    assert DecimalText(t, 3) == "10";
    SpaceRunIs(t, 5, 1);
    assert EqAt(t, 6, "Kg");
  }

  lemma BoxOf10NoKgBefore()
    ensures forall j :: 0 <= j < 3 ==> KgSuffixMatch(BoxOf10, j).NoMatch?
  {
    forall j | 0 <= j < 3 ensures KgSuffixMatch(BoxOf10, j).NoMatch? {
      DigitRunIs(BoxOf10, j, 0);
    }
  }

  /** A pass whose one match rewrites `[p, e)` into the same text changes nothing. */
  lemma {:induction false} OneMatchFixed(t: string, p: nat, e: nat, f: (string, nat) -> Match)
    requires p < e <= |t|
    requires forall j :: 0 <= j < p ==> f(t, j).NoMatch?
    requires forall j :: e <= j < |t| ==> f(t, j).NoMatch?
    requires f(t, p) == Match(e - p, t[p..e])
    ensures ReplaceAll(t, f) == t
  {
    ReplaceAllOne(t, p, e, t[p..e], f);
    assert t[..p] + t[p..e] + t[e..] == t;
  }

  lemma BoxOf10KgPass()
    ensures ReplaceAll(BoxOf10, KgSuffixMatch) == BoxOf10
  {
    BoxOf10KgAt();
    BoxOf10NoKgBefore();
    assert BoxOf10[3..8] == "10 Kg";
    OneMatchFixed(BoxOf10, 3, 8, KgSuffixMatch);
  }

  lemma {:induction false} BoxOf10SpelledAt(n: nat)
    requires n < |Spellings|
    ensures SpelledAs(BoxOf10, Spellings[n].0, Spellings[n].1)
  {
    if n < 4 {
      BoxOf10SpelledFirst(n);
    } else {
      BoxOf10SpelledLast(n);
    }
  }

  lemma {:induction false} BoxOf10SpelledFirst(n: nat)
    requires n < 4
    ensures SpelledAs(BoxOf10, Spellings[n].0, Spellings[n].1)
  {
    var t := BoxOf10;
    if n == 0 {
      assert t[0..2] == "Cx";
      SpelledOnlyAt(t, "cx", "Cx", 0);
    } else if n == 1 {
      SpelledNowhere(t, "sc", "Sc");
    } else if n == 2 {
      assert t[6..8] == "Kg";
      SpelledOnlyAt(t, "kg", "Kg", 6);
    } else {
      SpelledNowhere(t, "g", "g");
    }
  }

  lemma {:induction false} BoxOf10SpelledLast(n: nat)
    requires 4 <= n < |Spellings|
    ensures SpelledAs(BoxOf10, Spellings[n].0, Spellings[n].1)
  {
    var t := BoxOf10;
    if n == 4 {
      SpelledNowhere(t, "lt", "Lt");
    } else if n == 5 {
      SpelledNowhere(t, "l", "L");
    } else if n == 6 {
      SpelledNowhere(t, "unid", "Unid");
    } else {
      SpelledNowhere(t, "un", "Un");
    }
  }

  lemma BoxOf10Spelled()
    ensures forall n :: 0 <= n < |Spellings| ==> SpelledAs(BoxOf10, Spellings[n].0, Spellings[n].1)
  {
    forall n | 0 <= n < |Spellings| ensures SpelledAs(BoxOf10, Spellings[n].0, Spellings[n].1) {
      BoxOf10SpelledAt(n);
    }
  }

  /* ---------------- "Cx 10Kg" ---------------- */

  const BulletinBox: string := "Cx 10Kg"

  lemma BulletinBoxBase()
    ensures UnitBase(BulletinBox) == BulletinBox
  {
    UnitBasePlain(BulletinBox);
  }

  lemma BulletinBoxPackAt()
    ensures CxPackMatch(BulletinBox, 0) == Match(7, "Cx 10 Kg")
  {
    BulletinBoxPieces();
  }

  lemma BulletinBoxPieces()
    ensures SpaceRun(BulletinBox, 2) == 1 && DecimalText(BulletinBox, 3) == "10" && SpaceRun(BulletinBox, 5) == 0
    ensures EqAt(BulletinBox, 0, "Cx") && EqAt(BulletinBox, 5, "Kg")
  {
    var t := BulletinBox;
    SpaceRunIs(t, 2, 1);
    DigitRunIs(t, 3, 2);
    assert DecimalText(t, 3) == "10";
    SpaceRunIs(t, 5, 0);
    assert EqAt(t, 0, "Cx") && EqAt(t, 5, "Kg");
  }

  lemma BulletinBoxBoxed()
    ensures ReplaceAll(BulletinBox, CxPackMatch) == BoxOf10
  {
    BulletinBoxPackAt();
    ReplaceAllOne(BulletinBox, 0, 7, "Cx 10 Kg", CxPackMatch);
  }

  /** The bulletin's "Cx 10Kg" normalizes to "Cx 10 Kg". */
  lemma NormalizeUnitBulletinBox()
    ensures NormalizeUnit(Some("Cx 10Kg")) == Some("Cx 10 Kg")
  {
    BulletinBoxBase();
    BulletinBoxBoxed();
    BoxOf10NoSack();
    BoxOf10KgPass();
    BoxOf10Spelled();
    BoxOf10Normalized();
    NormalizeUnitFinish(BulletinBox, BoxOf10);
  }

  /* ---------------- "cx10kg" ---------------- */

  const GluedBox: string := "cx10kg"

  lemma GluedBoxBase()
    ensures UnitBase(GluedBox) == GluedBox
  {
    UnitBasePlain(GluedBox);
  }

  lemma GluedBoxPackAt()
    ensures CxPackMatch(GluedBox, 0) == Match(6, "Cx 10 Kg")
  {
    GluedBoxPieces();
  }

  lemma GluedBoxPieces()
    ensures SpaceRun(GluedBox, 2) == 0 && DecimalText(GluedBox, 2) == "10" && SpaceRun(GluedBox, 4) == 0
    ensures EqAt(GluedBox, 0, "cx") && EqAt(GluedBox, 4, "kg")
  {
    var t := GluedBox;
    SpaceRunIs(t, 2, 0);
    DigitRunIs(t, 2, 2);
    assert DecimalText(t, 2) == "10";
    SpaceRunIs(t, 4, 0);
    assert EqAt(t, 0, "cx") && EqAt(t, 4, "kg");
  }

  lemma GluedBoxBoxed()
    ensures ReplaceAll(GluedBox, CxPackMatch) == BoxOf10
  {
    GluedBoxPackAt();
    ReplaceAllOne(GluedBox, 0, 6, "Cx 10 Kg", CxPackMatch);
  }

  /** The glued lower-case "cx10kg" normalizes to "Cx 10 Kg". */
  lemma NormalizeUnitGluedBox()
    ensures NormalizeUnit(Some("cx10kg")) == Some("Cx 10 Kg")
  {
    GluedBoxBase();
    GluedBoxBoxed();
    BoxOf10NoSack();
    BoxOf10KgPass();
    BoxOf10Spelled();
    BoxOf10Normalized();
    NormalizeUnitFinish(GluedBox, BoxOf10);
  }
}
