/**
 * Worked lines: what the extractor makes of a few typical lines,
 * read off the model as the code is written.
 */
module WorkedLines {
  import opened Results
  import opened PyStr
  import opened Patterns
  import opened PatternFacts
  import opened NameClassifier
  import opened FieldExtractor

  const DecimalLine := "2.5 mg"
  const IntegerLine := "500 mg"
  const DailyLine := "take 1 daily"

  /** Without a '-' anywhere, the "a-b-c" triplet cannot match. */
  lemma NoDashNoTriplet(s: string)
    requires forall k :: 0 <= k < |s| ==> s[k] != '-'
    ensures TripletSearch(s).None?
  {
    forall i: nat | i <= |s| ensures TripletAt(s, i).None? {
      if i < |s| && IsDigit(s[i]) && Boundary(s, i) {
        assert DashNumber(s, DigitRun(s, i)).None?;
      }
    }
  }

  /** "mg" followed by the end of the line, at position 4. */
  lemma MgAtFour(s: string)
    requires |s| == 6 && s[4] == 'm' && s[5] == 'g' && IsDigit(s[2]) && s[3] == ' '
    ensures SpaceRun(s, 3) == 4 && UnitWithBoundary(s, DosageKeywords, 4, 0) == Some(6)
  {
    SpaceRunIs(s, 3, 4);
    assert s[4..6] == "mg";
    assert Lower("mg") == "mg";
  }

  lemma DecimalCandidates()
    ensures NumberCandidates(DecimalLine, 0) == [Num(0, 1, 3), Num(0, 1, 1)]
  {
    var s := DecimalLine;
    DigitRunIs(s, 0, 1);
    DigitRunIs(s, 2, 3);
    assert FractionEnd(s, 1) == 3;
  }

  lemma DecimalMatch()
    ensures DosageAt(DecimalLine, 0) == Some(DosageGroups(Some("2.5"), Some(".5"), Some("mg"), None, None, None))
  {
    var s := DecimalLine;
    DecimalCandidates();
    MgAtFour(s);
    assert s[0..3] == "2.5" && s[1..3] == ".5" && s[4..6] == "mg";
  }

  /**
   * "2.5 mg": group 2 of the dosage match is the decimal part, so the
   * dosage reads "2.5 .5" and the unit is lost.
   */
  lemma DecimalDosageRepeatsFraction()
    ensures Dosage(DecimalLine, true) == "2.5 .5"
  {
    DecimalMatch();
    DosageSearchFirst(DecimalLine, 0);
    DosageWithUnitMatch(DecimalLine, true);
    DecimalText();
  }

  /** The text the dosage is assembled from for "2.5 mg". */
  lemma DecimalText()
    ensures "2.5" + " " + ".5" == "2.5 .5"
  {
  }

  lemma IntegerMatch()
    ensures DosageAt(IntegerLine, 0).Some? && DosageAt(IntegerLine, 0).value.g2.None?
  {
    var s := IntegerLine;
    DigitRunIs(s, 0, 3);
    assert FractionEnd(s, 3) == 3;
    assert NumberCandidates(s, 0) == [Num(0, 3, 3)];
    MgAtFour(s);
  }

  /** "500 mg": an integer has no group 2, so the dosage is "Not specified". */
  lemma IntegerDosageNotSpecified()
    ensures Dosage(IntegerLine, true) == NotSpecified
  {
    IntegerMatch();
    DosageSearchFirst(IntegerLine, 0);
  }

  lemma NoNumberBeforeFive(i: nat)
    requires i < 5
    ensures FreqNumberAt(DailyLine, "daily", i).None?
  {
    assert !IsDigit(DailyLine[i]);
  }

  lemma DailyMatch()
    ensures FreqNumberAt(DailyLine, "daily", 5) == Some(FreqGroups("1", None))
  {
    var s := DailyLine;
    DigitRunIs(s, 5, 6);
    assert FractionEnd(s, 6) == 6;
    assert NumberCandidates(s, 5) == [Num(5, 6, 6)];
    SpaceRunIs(s, 6, 7);
    assert s[7..12] == "daily";
    assert Lower("daily") == "daily";
    assert s[5..6] == "1";
  }

  lemma DailySearch()
    ensures FreqNumberSearch(DailyLine, "daily") == Some(FreqGroups("1", None))
  {
    forall i: nat | i < 5 ensures FreqNumberAt(DailyLine, "daily", i).None? {
      NoNumberBeforeFive(i);
    }
    DailyMatch();
    FreqNumberSearchFirst(DailyLine, "daily", 5);
  }

  /**
   * "take 1 daily": the search for "daily" finds the integer 1, whose
   * fraction group is `None`, and the membership test on it raises.
   */
  lemma IntegerBeforeDailyCrashes()
    ensures Frequency(DailyLine) == Crashed
  {
    NoDashNoTriplet(DailyLine);
    DailySearch();
    assert FrequencyKeywords[0] == "daily";
    assert IntegerBefore(DailyLine, "daily");
    ScanStep(DailyLine, FrequencyKeywords, 0, NotSpecified);
  }

  // ---------------------------------------------------------------------------
  // "1-0-1": the morning/afternoon/night triplet

  const TripletLine := "1-0-1"

  lemma TripletLineSplit()
    ensures TripletSplit(TripletLine, 0, 1, 2, 3, 4, 5)
  {
    var s := TripletLine;
    assert s[1] == '-' && s[3] == '-';
    assert DashSep(s, 1, 2) && DashSep(s, 3, 4);
    assert Boundary(s, 0) && Boundary(s, 5);
  }

  /** "1-0-1" reads as one dose in the morning, none in the afternoon and one at night. */
  lemma TripletLineFrequency()
    ensures Frequency(TripletLine) == Ok("Morning: 1, Afternoon: 0, Night: 1")
  {
    TripletLineSplit();
    TripletFrequency(TripletLine, 0, 1, 2, 3, 4, 5);
    TripletText();
  }

  lemma TripletText()
    ensures "Morning: " + TripletLine[0..1] + ", Afternoon: " + TripletLine[2..3] + ", Night: " + TripletLine[4..5]
            == "Morning: 1, Afternoon: 0, Night: 1"
  {
    assert TripletLine[0..1] == "1" && TripletLine[2..3] == "0" && TripletLine[4..5] == "1";
  }

  // ---------------------------------------------------------------------------
  // "Paracetamol 500 mg": a name line that ends in a strength

  const StrengthLine := "Paracetamol 500 mg"

  lemma StrengthFragment()
    ensures UnitFragmentAt(StrengthLine, 11, "mg") == Some(18)
  {
    var s := StrengthLine;
    assert s[11] == ' ' && s[15] == ' ' && s[16] == 'm' && s[17] == 'g';
    assert AllDigits(s[12..15]) by {
      assert s[12] == '5' && s[13] == '0' && s[14] == '0';
    }
    assert StartsAtFold(s, 16, "mg") by {
      assert Lower(s[16..18]) == "mg";
    }
    assert Boundary(s, 18);
    UnitFragmentComplete(s, "mg", 11, 12, 15, 15, 16, 18);
  }

  lemma NoFragmentInWord(k: nat)
    requires k < 11
    ensures UnitFragmentAt(StrengthLine, k, "mg").None?
  {
    assert StrengthLine[..11] == "Paracetamol";
    assert StrengthLine[k] == StrengthLine[..11][k];
    assert IsUpper(StrengthLine[k]) || IsLowerLetter(StrengthLine[k]);
  }

  lemma StrengthLineHasNoPunct()
    ensures forall k :: 0 <= k < |StrengthLine| ==> !IsPunct(StrengthLine[k])
  {
    forall k | 0 <= k < |StrengthLine| ensures !IsPunct(StrengthLine[k]) {
      assert IsWord(StrengthLine[k]) || StrengthLine[k] == ' ';
    }
  }

  lemma StrengthLineKept()
    ensures Strip(RemovePunct(StrengthLine)) == StrengthLine
  {
    StrengthLineHasNoPunct();
    assert Stripped(StrengthLine) by {
      assert StrengthLine[0] == 'P' && StrengthLine[17] == 'g';
    }
    StripOfStripped(StrengthLine);
  }

  lemma NameStripped()
    ensures Strip("Paracetamol") == "Paracetamol"
  {
    StripOfStripped("Paracetamol");
  }

  lemma StrengthSuffix()
    ensures SuffixUnit(StrengthLine, 0) == Some("mg")
  {
    assert Lower(StrengthLine)[15..] == " mg";
    assert EndsWith(Lower(StrengthLine), " " + DosageKeywords[0]);
  }

  lemma NoFragmentBeforeStrength()
    ensures forall k :: 0 <= k < 11 ==> UnitFragmentAt(StrengthLine, k, "mg").None?
  {
    forall k | 0 <= k < 11 ensures UnitFragmentAt(StrengthLine, k, "mg").None? {
      NoFragmentInWord(k);
    }
  }

  lemma NamePart()
    ensures StrengthLine[0..11] == "Paracetamol"
  {
  }

  lemma StrengthRemoved()
    ensures RemoveUnitFragments(StrengthLine, "mg", 0) == "Paracetamol"
  {
    NoFragmentBeforeStrength();
    StrengthFragment();
    TrailingFragmentRemoved(StrengthLine, "mg", 0, 11);
    NamePart();
  }

  /** The strength "500 mg" at the end of a name line is dropped from the stored name. */
  lemma StrengthDroppedFromName()
    ensures CleanedName(StrengthLine) == "Paracetamol"
  {
    StrengthLineKept();
    StrengthSuffix();
    StrengthRemoved();
    NameStripped();
  }
}
