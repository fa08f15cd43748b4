/** Worked rows: what the cleaning does to particular values. */
module Scenarios {
  import opened Values
  import opened Text
  import opened Rules
  import opened Archive
  import opened Predictions
  import opened Joins

  /** A 9/11 rating is repaired to 14/10 and rendered "14/10". */
  lemma RatingNineElevenScenario(x: ArchiveRow)
    requires x.numerator == 9 && x.denominator == 11
    ensures WithRatings(RepairedRatings([x]))[0].ratings == Some("14/10")
  {
    assert NatToString(14) == "14" by {
      assert NatToString(14) == NatToString(1) + [DigitChar(4)];
    }
    assert NatToString(10) == "10" by {
      assert NatToString(10) == NatToString(1) + [DigitChar(0)];
    }
    assert IntToString(14) == "14" && IntToString(10) == "10";
    assert RatingsString(14, 10) == "14/10";
    var t := RepairedRatings([x]);
    assert t[0].numerator == 14 && t[0].denominator == 10;
    assert WithRatings(t)[0] == AddRatingsRow(t[0]);
  }

  /** The repair goes by value, not by row: a rating of 9/10, which is in
      no exception, still has its numerator rewritten to 14, and a 1/10
      has its numerator rewritten to 9. */
  lemma RatingRepairByValue(x: ArchiveRow, y: ArchiveRow)
    requires x.numerator == 9 && x.denominator == 10
    requires y.numerator == 1 && y.denominator == 10
    ensures RepairedRatings([x, y]) == [x.(numerator := 14), y.(numerator := 9)]
  {
    var r := RepairedRatings([x, y]);
    assert r[0] == x.(numerator := 14) && r[1] == y.(numerator := 9);
  }

  /** The name "the" reads as lower-case and ends up "None". */
  lemma NameTheScenario()
    ensures FillNone(MaskLowerName(Str("the"))) == Str(NONE_TEXT)
  {
    IsLowerMeaning("the");
    assert "the"[0] == 't' && "the"[1] == 'h' && "the"[2] == 'e';
  }

  /** A capitalised name is kept, and so is a name with no letters. */
  lemma NameKeptScenario()
    ensures FillNone(MaskLowerName(Str("Bella"))) == Str("Bella")
    ensures FillNone(MaskLowerName(Str("42"))) == Str("42")
  {
    assert !IsLower("Bella") by { assert "Bella"[0] == 'B'; }
    assert !IsLower("42") by { IsLowerMeaning("42"); }
  }

  /** doggo and pupper set, the other markers "None": the stage is
      "doggo,pupper". */
  lemma DoggoPupperScenario()
    ensures DogStage(BlankMarker(Str(DOGGO)), BlankMarker(Str(NONE_TEXT)), BlankMarker(Str(PUPPER)), BlankMarker(Null))
      == Str("doggo,pupper")
  {
    assert DOGGO != NONE_TEXT && PUPPER != NONE_TEXT by {
      assert DOGGO[0] != NONE_TEXT[0] && PUPPER[0] != NONE_TEXT[0];
    }
    assert DOGGO + "" + PUPPER + "" == DOGGO + PUPPER;
  }

  /** Only the third label is a dog: its capitalised form is the breed. */
  lemma ThirdRankScenario()
    ensures Breed(CapitalizeLabels(PredictRow("1", "seat_belt", false, "paper_towel", false, "golden_retriever", true)))
      == "Golden_retriever"
  {
    var r := CapitalizeLabels(PredictRow("1", "seat_belt", false, "paper_towel", false, "golden_retriever", true));
    assert Label(r, 3) == Capitalize("golden_retriever");
    assert Capitalize("golden_retriever") == "Golden_retriever";
  }

  /** A tweet whose three labels are not dogs gets the sentinel; a tweet
      missing from `predict` gets null. */
  lemma SentinelVersusNull(e1: EngagedRow, e2: EngagedRow)
    requires e1.arc.tweetId == "1" && e2.arc.tweetId == "2"
    ensures LeftJoin([e1, e2], BreedTable([PredictRow("1", "a", false, "b", false, "c", false)]))
      == [MasterRow(e1, Some(NO_PREDICTION)), MasterRow(e2, None)]
  {
    var right := BreedTable([PredictRow("1", "a", false, "b", false, "c", false)]);
    assert right == [BreedRow("1", NO_PREDICTION)];
    assert "2" != "1";
    assert LeftJoin([e2], right) == LeftRows(e2, right) + LeftJoin([], right);
    assert [e1, e2][1..] == [e2];
  }
}
