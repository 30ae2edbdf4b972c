/** Unit phrases of the price bulletin worked through `parseUnitDetails`.
    Each example is assembled from small facts about the regex pieces at fixed
    positions of the phrase: the solver evaluates each piece cheaply on its own,
    but not all of them at once. */
module UnitExamples {
  import opened Wrappers
  import opened Text
  import opened JsNumber
  import opened AgrolinkName

  /* ---------------- shared facts ---------------- */

  lemma CapitalizedKinds()
    ensures CapitalizeKind("Cx") == "Cx" && CapitalizeKind("Sc") == "Sc"
  {
    assert ToUpper("C") == "C" && ToUpper("S") == "S";
    assert ToLower("x") == "x" && ToLower("c") == "c";
    assert "Cx"[1..] == "x" && "Sc"[1..] == "c";
  }

  lemma DigitValue12() ensures DigitsValue("12") == 12 {}
  lemma DigitValue13() ensures DigitsValue("13") == 13 {}

  lemma Read12()
    ensures ReadNumber("12") == Num(12.0)
  {
    ReadNumberDigits("12");
    DigitValue12();
  }

  lemma Read13()
    ensures ReadNumber("13") == Num(13.0)
  {
    ReadNumberDigits("13");
    DigitValue13();
  }

  /* ---------------- "12 Cx 13 Kg" ---------------- */

  lemma PackOfBoxesNormalized()
    ensures IsNormalized("12 Cx 13 Kg")
  {
  }

  lemma PackOfBoxesCount()
    ensures DecimalLen("12 Cx 13 Kg", 0) == 2
  {
  }

  lemma PackOfBoxesGap()
    ensures SpaceRun("12 Cx 13 Kg", 2) == 1
  {
  }

  lemma PackOfBoxesKinds()
    ensures KindLengths("12 Cx 13 Kg", 3) == [2]
  {
  }

  lemma PackOfBoxesWeight()
    ensures SpaceRun("12 Cx 13 Kg", 5) == 1 && DecimalLen("12 Cx 13 Kg", 6) == 2
  {
  }

  lemma PackOfBoxesKgSpace()
    ensures SpaceRun("12 Cx 13 Kg", 8) == 1
  {
  }

  lemma PackOfBoxesSlices()
    ensures "12 Cx 13 Kg"[..2] == "12" && "12 Cx 13 Kg"[3..5] == "Cx" && "12 Cx 13 Kg"[6..8] == "13"
  {
  }

  lemma PackOfBoxesTail()
    ensures UnitTail("12 Cx 13 Kg", 5) == TailOk(Some("13"))
  {
    PackOfBoxesWeight();
    PackOfBoxesKgSpace();
    PackOfBoxesSlices();
  }

  lemma PackOfBoxesKind()
    ensures FirstKind("12 Cx 13 Kg", 3, [2]) == KindAt(2, Some("13"))
  {
    PackOfBoxesTail();
  }

  lemma PackOfBoxesKindAt()
    ensures Pattern1At("12 Cx 13 Kg", 2, 3) == P1(Some("12"), "Cx", Some("13"))
  {
    PackOfBoxesKinds();
    PackOfBoxesKind();
    PackOfBoxesSlices();
  }

  lemma PackOfBoxesPattern1()
    ensures MatchPattern1("12 Cx 13 Kg") == P1(Some("12"), "Cx", Some("13"))
  {
    PackOfBoxesCount();
    PackOfBoxesGap();
    PackOfBoxesKindAt();
  }

  lemma PackOfBoxesGroups()
    ensures DetailsOfPattern1(Some("12"), "Cx", Some("13")) == UnitDetails(Some("Cx"), Some(Num(13.0)), Some(Num(12.0)))
  {
    Read12();
    Read13();
    CapitalizedKinds();
  }

  /** "12 Cx 13 Kg": twelve boxes of 13 kg. */
  lemma ParseUnitDetailsPackOfBoxes()
    ensures ParseUnitDetails(Some("12 Cx 13 Kg")) == UnitDetails(Some("Cx"), Some(Num(13.0)), Some(Num(12.0)))
  {
    PackOfBoxesNormalized();
    NormSpacesIdem("12 Cx 13 Kg");
    PackOfBoxesPattern1();
    PackOfBoxesGroups();
  }

  /* ---------------- "Cx 20 Kg" ---------------- */

  lemma DigitValue20() ensures DigitsValue("20") == 20 {}

  lemma Read20()
    ensures ReadNumber("20") == Num(20.0)
  {
    ReadNumberDigits("20");
    DigitValue20();
  }

  lemma BoxNormalized()
    ensures IsNormalized("Cx 20 Kg")
  {
  }

  lemma BoxLead()
    ensures DecimalLen("Cx 20 Kg", 0) == 0 && SpaceRun("Cx 20 Kg", 0) == 0
  {
  }

  lemma BoxKinds()
    ensures KindLengths("Cx 20 Kg", 0) == [2]
  {
  }

  lemma BoxWeight()
    ensures SpaceRun("Cx 20 Kg", 2) == 1 && DecimalLen("Cx 20 Kg", 3) == 2
  {
  }

  lemma BoxKgSpace()
    ensures SpaceRun("Cx 20 Kg", 5) == 1
  {
  }

  lemma BoxSlices()
    ensures "Cx 20 Kg"[0..2] == "Cx" && "Cx 20 Kg"[3..5] == "20"
  {
  }

  lemma BoxTail()
    ensures UnitTail("Cx 20 Kg", 2) == TailOk(Some("20"))
  {
    BoxWeight();
    BoxKgSpace();
    BoxSlices();
  }

  lemma BoxKind()
    ensures FirstKind("Cx 20 Kg", 0, [2]) == KindAt(2, Some("20"))
  {
    BoxTail();
  }

  lemma BoxKindAt()
    ensures Pattern1At("Cx 20 Kg", 0, 0) == P1(None, "Cx", Some("20"))
  {
    BoxKinds();
    BoxKind();
    BoxSlices();
  }

  lemma BoxPattern1()
    ensures MatchPattern1("Cx 20 Kg") == P1(None, "Cx", Some("20"))
  {
    BoxLead();
    BoxKindAt();
  }

  lemma BoxGroups()
    ensures DetailsOfPattern1(None, "Cx", Some("20")) == UnitDetails(Some("Cx"), Some(Num(20.0)), None)
  {
    Read20();
    CapitalizedKinds();
  }

  /** "Cx 20 Kg": a box of 20 kg, no pack count. */
  lemma ParseUnitDetailsBox()
    ensures ParseUnitDetails(Some("Cx 20 Kg")) == UnitDetails(Some("Cx"), Some(Num(20.0)), None)
  {
    BoxNormalized();
    NormSpacesIdem("Cx 20 Kg");
    BoxPattern1();
    BoxGroups();
  }

  /* ---------------- "15 Kg" ---------------- */

  lemma DigitValue15() ensures DigitsValue("15") == 15 {}

  lemma Read15()
    ensures ReadNumber("15") == Num(15.0)
  {
    ReadNumberDigits("15");
    DigitValue15();
  }

  lemma WeightNormalized()
    ensures IsNormalized("15 Kg")
  {
  }

  lemma WeightLead()
    ensures DecimalLen("15 Kg", 0) == 2 && SpaceRun("15 Kg", 2) == 1
  {
  }

  lemma WeightKinds()
    ensures KindLengths("15 Kg", 3) == [2]
  {
  }

  /** After the kind "Kg" nothing is left for the mandatory final "K". */
  lemma WeightNoTail()
    ensures UnitTail("15 Kg", 5) == TailFail
  {
  }

  lemma WeightNoKind()
    ensures FirstKind("15 Kg", 3, [2]) == NoKind
  {
    WeightNoTail();
    assert [2][1..] == [];
  }

  lemma WeightNoPattern1()
    ensures MatchPattern1("15 Kg") == NoP1
  {
    WeightLead();
    WeightKinds();
    WeightNoKind();
  }

  lemma WeightPattern2()
    ensures MatchPattern2("15 Kg") == Some("15")
  {
    WeightLead();
    assert EqCIAt("15 Kg", 3, "Kg");
    assert "15 Kg"[..2] == "15";
  }

  /** "15 Kg": the first pattern fails (it needs a final "K" after the kind),
      the second reads 15 kg. */
  lemma ParseUnitDetailsWeight()
    ensures ParseUnitDetails(Some("15 Kg")) == UnitDetails(Some("Kg"), Some(Num(15.0)), None)
  {
    WeightNormalized();
    NormSpacesIdem("15 Kg");
    WeightNoPattern1();
    WeightPattern2();
    Read15();
  }

  /* ---------------- "Kg", "Un" and "Cx" alone ---------------- */

  lemma KgLead()
    ensures DecimalLen("Kg", 0) == 0 && SpaceRun("Kg", 0) == 0
  {
  }

  lemma KgKinds()
    ensures KindLengths("Kg", 0) == [2]
  {
  }

  lemma KgNoKind()
    ensures FirstKind("Kg", 0, [2]) == NoKind
  {
    assert UnitTail("Kg", 2) == TailFail;
    assert [2][1..] == [];
  }

  lemma KgNoPattern1()
    ensures MatchPattern1("Kg") == NoP1
  {
    KgLead();
    KgKinds();
    KgNoKind();
  }

  /** "Kg" alone: one kilogram. */
  lemma ParseUnitDetailsKg()
    ensures ParseUnitDetails(Some("Kg")) == UnitDetails(Some("Kg"), Some(Num(1.0)), None)
  {
    assert IsNormalized("Kg");
    NormSpacesIdem("Kg");
    KgNoPattern1();
    assert MatchPattern2("Kg") == None by { KgLead(); }
  }

  lemma UnLead()
    ensures DecimalLen("Un", 0) == 0 && SpaceRun("Un", 0) == 0
  {
  }

  lemma UnKinds()
    ensures KindLengths("Un", 0) == [2]
  {
  }

  lemma UnNoKind()
    ensures FirstKind("Un", 0, [2]) == NoKind
  {
    assert UnitTail("Un", 2) == TailFail;
    assert [2][1..] == [];
  }

  lemma UnNoPattern1()
    ensures MatchPattern1("Un") == NoP1
  {
    UnLead();
    UnKinds();
    UnNoKind();
  }

  /** A normalized phrase that matches neither pattern and is not "Kg"
      carries no details. */
  lemma {:induction false} BareDetails(s: string)
    requires s != [] && NormSpaces(s) == s
    requires MatchPattern1(s) == NoP1 && MatchPattern2(s) == None && !EqCIAt(s, 0, "Kg")
    ensures ParseUnitDetails(Some(s)) == NoDetails
  {
  }

  /** A bare "Un" carries no details. */
  lemma ParseUnitDetailsUn()
    ensures ParseUnitDetails(Some("Un")) == NoDetails
  {
    UnMatchesNothing();
    BareDetails("Un");
  }

  /** "Un" is normalized and none of the three patterns matches it. */
  lemma UnMatchesNothing()
    ensures NormSpaces("Un") == "Un"
    ensures MatchPattern1("Un") == NoP1 && MatchPattern2("Un") == None && !EqCIAt("Un", 0, "Kg")
  {
    assert IsNormalized("Un");
    NormSpacesIdem("Un");
    UnNoPattern1();
    UnLead();
  }

  lemma CxLead()
    ensures DecimalLen("Cx", 0) == 0 && SpaceRun("Cx", 0) == 0
  {
  }

  lemma CxKinds()
    ensures KindLengths("Cx", 0) == [2]
  {
  }

  lemma CxNoKind()
    ensures FirstKind("Cx", 0, [2]) == NoKind
  {
    assert UnitTail("Cx", 2) == TailFail;
    assert [2][1..] == [];
  }

  lemma CxNoPattern1()
    ensures MatchPattern1("Cx") == NoP1
  {
    CxLead();
    CxKinds();
    CxNoKind();
  }

  /** A bare "Cx" carries no details. */
  lemma ParseUnitDetailsCx()
    ensures ParseUnitDetails(Some("Cx")) == NoDetails
  {
    CxMatchesNothing();
    BareDetails("Cx");
  }

  /** "Cx" is normalized and none of the three patterns matches it. */
  lemma CxMatchesNothing()
    ensures NormSpaces("Cx") == "Cx"
    ensures MatchPattern1("Cx") == NoP1 && MatchPattern2("Cx") == None && !EqCIAt("Cx", 0, "Kg")
  {
    assert IsNormalized("Cx");
    NormSpacesIdem("Cx");
    CxNoPattern1();
    CxLead();
  }

  /* ---------------- "Sc 2,5 Kg" ---------------- */

  lemma ReadTwoAndAHalf()
    ensures ReadNumber("2,5") == Num(2.5)
  {
    CommaDigits();
    ReadNumberComma("2", "5");
    TwoAndAHalf();
  }

  lemma CommaDigits()
    ensures "2" + "," + "5" == "2,5"
  {
  }

  lemma TwoAndAHalf()
    ensures DecimalValue("2", "5") == 2.5
  {
    assert DigitsValue("2") == 2 && FracValue("5") == 0.5;
  }

  lemma CommaNormalized()
    ensures IsNormalized("Sc 2,5 Kg")
  {
  }

  lemma CommaLead()
    ensures DecimalLen("Sc 2,5 Kg", 0) == 0 && SpaceRun("Sc 2,5 Kg", 0) == 0
  {
  }

  lemma CommaKinds()
    ensures KindLengths("Sc 2,5 Kg", 0) == [2]
  {
  }

  lemma CommaGap()
    ensures SpaceRun("Sc 2,5 Kg", 2) == 1
  {
  }

  lemma CommaWeight()
    ensures DecimalLen("Sc 2,5 Kg", 3) == 3
  {
    assert DigitRun("Sc 2,5 Kg", 3) == 1;
    assert DigitRun("Sc 2,5 Kg", 5) == 1;
  }

  lemma CommaKgSpace()
    ensures SpaceRun("Sc 2,5 Kg", 6) == 1
  {
  }

  lemma CommaSlices()
    ensures "Sc 2,5 Kg"[0..2] == "Sc" && "Sc 2,5 Kg"[3..6] == "2,5"
  {
  }

  lemma CommaTail()
    ensures UnitTail("Sc 2,5 Kg", 2) == TailOk(Some("2,5"))
  {
    CommaGap();
    CommaWeight();
    CommaKgSpace();
    CommaSlices();
    var s := "Sc 2,5 Kg";
    assert |s| == 9 && s[7] == 'K' && s[8] == 'g';
    assert UpperChar('K') == 'K' && UpperChar('g') == 'G';
  }

  lemma CommaKind()
    ensures FirstKind("Sc 2,5 Kg", 0, [2]) == KindAt(2, Some("2,5"))
  {
    CommaTail();
  }

  lemma CommaKindAt()
    ensures Pattern1At("Sc 2,5 Kg", 0, 0) == P1(None, "Sc", Some("2,5"))
  {
    CommaKinds();
    CommaKind();
    CommaSlices();
  }

  lemma CommaPattern1()
    ensures MatchPattern1("Sc 2,5 Kg") == P1(None, "Sc", Some("2,5"))
  {
    CommaLead();
    CommaKindAt();
  }

  lemma CommaGroups()
    ensures DetailsOfPattern1(None, "Sc", Some("2,5")) == UnitDetails(Some("Sc"), Some(Num(2.5)), None)
  {
    ReadTwoAndAHalf();
    CapitalizedKinds();
  }

  /** "Sc 2,5 Kg": a comma decimal weight is read as 2.5 kg. */
  lemma ParseUnitDetailsComma()
    ensures ParseUnitDetails(Some("Sc 2,5 Kg")) == UnitDetails(Some("Sc"), Some(Num(2.5)), None)
  {
    CommaNormalized();
    NormSpacesIdem("Sc 2,5 Kg");
    CommaPattern1();
    CommaGroups();
  }
}
