/** The whole cleaning run of CML_Wrangle_act.py, lines 306-644, from the
    three raw tables to the master table, and what every master row is
    guaranteed to satisfy. */
module Pipeline {
  import opened Values
  import opened Text
  import opened Rules
  import opened Tables
  import opened Archive
  import opened Predictions
  import opened Joins

  /** The raw archive still has its four marker columns. */
  predicate RawArchive(t: seq<ArchiveRow>)
  {
    forall i :: 0 <= i < |t| ==> t[i].stage.Markers?
  }

  /** `twit_arc` after line 472, as a function of the raw archive. */
  function NamesRepaired(raw: seq<ArchiveRow>): seq<ArchiveRow>
  {
    NullsFilled(MaskedNames(WithRatings(RepairedRatings(Originals(FirstUrls(NonNullUrls(raw)))))))
  }

  /** The steps up to line 472 keep the marker columns. */
  lemma MarkersKept(raw: seq<ArchiveRow>)
    requires RawArchive(raw)
    ensures RawArchive(NamesRepaired(raw))
  {
    var t1 := NonNullUrls(raw);
    var t2 := FirstUrls(t1);
    var t3 := Originals(t2);
    forall i | 0 <= i < |t3| ensures t3[i].stage.Markers? {
      assert t3[i] in t2;
      var j :| 0 <= j < |t2| && t2[j] == t3[i];
      assert t1[j] in raw;
    }
  }

  /** `twit_arc` after line 582, as a function of the raw archive. */
  function CleanArchive(raw: seq<ArchiveRow>): seq<ArchiveRow>
    requires RawArchive(raw)
  {
    MarkersKept(raw);
    ConsolidatedStages(BlankedMarkers(NamesRepaired(raw)))
  }

  /** The master table of line 644. */
  function Master(raw: seq<ArchiveRow>, tweets: seq<TweetCounts>, predict: seq<PredictRow>): seq<MasterRow>
    requires RawArchive(raw)
  {
    LeftJoin(InnerJoin(CleanArchive(raw), tweets), BreedTable(CapitalizedTable(predict)))
  }

  /** Lines 306-582 run on the frame `twit_arc`, step by step. */
  method CleanTwitArc(raw: seq<ArchiveRow>) returns (twitArc: ArchiveFrame)
    requires RawArchive(raw)
    ensures twitArc.rows == CleanArchive(raw)
  {
    twitArc := new ArchiveFrame(raw);
    twitArc.DropNullUrls();
    twitArc.DeduplicateUrls();
    twitArc.DropRetweets();
    twitArc.RepairRatings();
    twitArc.AddRatings();
    twitArc.MaskLowerNames();
    twitArc.FillNulls();
    assert twitArc.rows == NamesRepaired(raw);
    MarkersKept(raw);
    twitArc.BlankStageMarkers();
    twitArc.ConsolidateStages();
  }

  /** Lines 627-641: the breed list built by its loop, beside the ids. */
  method PredictCopy(predict: seq<PredictRow>) returns (predictCopy: seq<BreedRow>)
    ensures predictCopy == BreedTable(predict)
  {
    var dogPredict := DogPredictions(predict);
    predictCopy := seq(|dogPredict|, i requires 0 <= i < |dogPredict| => BreedRow(predict[i].tweetId, dogPredict[i]));
  }

  /** The notebook, run on frames: the archive steps in the script's order,
      then the label capitalisation of line 524 (which the script runs
      between lines 472 and 563; the two frames share no state, so this
      does not change the result), then the inner merge, the breed loop
      and the left merge. */
  method Wrangle(raw: seq<ArchiveRow>, tweets: seq<TweetCounts>, predict: seq<PredictRow>)
    returns (master: seq<MasterRow>)
    requires RawArchive(raw)
    ensures master == Master(raw, tweets, predict)
  {
    var twitArc := CleanTwitArc(raw);
    var predictFrame := new PredictFrame(predict);
    predictFrame.CapitalizeColumns();
    var engaged := InnerJoin(twitArc.rows, tweets);
    var predictCopy := PredictCopy(predictFrame.rows);
    master := LeftJoin(engaged, predictCopy);
  }

  // ---------------------------------------------------------------------
  // What every cleaned row satisfies
  // ---------------------------------------------------------------------

  /** A row of `twit_arc` after line 582: one URL and no comma; the retweet
      column holds the "None" string; the denominator is none of the
      repaired ones; `ratings` is the canonical rendering of the two rating
      numbers; the
      name is a string that does not read as lower-case; and the dog stage
      is a non-empty string. */
  predicate Cleaned(x: ArchiveRow)
  {
    && x.urls.Str? && ',' !in x.urls.s
    && x.retweetedStatusId == Str(NONE_TEXT)
    && x.denominator !in {11, 20, 2, 7}
    && x.ratings.Some? && CanonicalRatings(x.ratings.value)
    && ParseRatings(x.ratings.value) == Some((x.numerator, x.denominator))
    && x.name.Str? && !IsLower(x.name.s)
    && x.stage.Consolidated? && x.stage.dogStage.Str? && x.stage.dogStage.s != ""
  }

  /** `x` descends from a raw row with the same id that had a URL and was
      not a retweet. */
  predicate FromRaw(raw: seq<ArchiveRow>, x: ArchiveRow)
  {
    exists r :: r in raw && r.tweetId == x.tweetId && HasUrls(r) && IsOriginal(r)
  }

  /** The rows left after line 345, with what they already satisfy. */
  predicate Filtered(raw: seq<ArchiveRow>, x: ArchiveRow)
  {
    && x.urls.Str? && ',' !in x.urls.s
    && x.retweetedStatusId.Null?
    && x.stage.Markers?
    && FromRaw(raw, x)
  }

  lemma FilteredRows(raw: seq<ArchiveRow>)
    requires RawArchive(raw)
    ensures forall x :: x in Originals(FirstUrls(NonNullUrls(raw))) ==> Filtered(raw, x)
  {
    var t1 := NonNullUrls(raw);
    var t2 := FirstUrls(t1);
    forall x | x in Originals(t2)
      ensures Filtered(raw, x)
    {
      var j :| 0 <= j < |t2| && t2[j] == x;
      assert t1[j] in raw;
    }
  }

  /** The rows left after line 472, with what they already satisfy. */
  predicate Repaired(raw: seq<ArchiveRow>, x: ArchiveRow)
  {
    && x.urls.Str? && ',' !in x.urls.s
    && x.retweetedStatusId == Str(NONE_TEXT)
    && x.denominator !in {11, 20, 2, 7}
    && x.ratings.Some? && CanonicalRatings(x.ratings.value)
    && ParseRatings(x.ratings.value) == Some((x.numerator, x.denominator))
    && x.name.Str? && !IsLower(x.name.s)
    && x.stage.Markers?
    && FromRaw(raw, x)
  }

  /** Lines 402-472 keep what the filters established and add the rating,
      name and null guarantees. */
  lemma MiddleRows(raw: seq<ArchiveRow>, t3: seq<ArchiveRow>)
    requires forall i :: 0 <= i < |t3| ==> Filtered(raw, t3[i])
    ensures var t7 := NullsFilled(MaskedNames(WithRatings(RepairedRatings(t3))));
      forall i :: 0 <= i < |t7| ==> Repaired(raw, t7[i])
  {
    var t6 := MaskedNames(WithRatings(RepairedRatings(t3)));
    var t7 := NullsFilled(t6);
    assert !IsLower(NONE_TEXT) by {
      assert NONE_TEXT[0] == 'N';
    }
    forall i | 0 <= i < |t7|
      ensures Repaired(raw, t7[i])
    {
      if t6[i].name.Null? {
        assert t7[i].name == Str(NONE_TEXT);
      }
      assert t7[i].tweetId == t3[i].tweetId;
    }
  }

  /** Lines 563-582 turn the markers into a non-empty stage and keep the
      rest. */
  lemma FinalRows(raw: seq<ArchiveRow>, t7: seq<ArchiveRow>)
    requires RawArchive(t7)
    requires forall i :: 0 <= i < |t7| ==> Repaired(raw, t7[i])
    ensures var t9 := ConsolidatedStages(BlankedMarkers(t7));
      forall i :: 0 <= i < |t9| ==> Cleaned(t9[i]) && FromRaw(raw, t9[i])
  {
    var t9 := ConsolidatedStages(BlankedMarkers(t7));
    forall i | 0 <= i < |t9|
      ensures Cleaned(t9[i]) && FromRaw(raw, t9[i])
    {
      var m := t7[i].stage;
      StageNeverEmpty(m.doggo, m.floofer, m.pupper, m.puppo);
      assert t9[i].tweetId == t7[i].tweetId;
    }
  }

  /** Every row of `twit_arc` after line 582 is cleaned and descends from
      a raw row that had a URL and was not a retweet. */
  lemma CleanArchiveRows(raw: seq<ArchiveRow>)
    requires RawArchive(raw)
    ensures forall i :: 0 <= i < |CleanArchive(raw)| ==>
      Cleaned(CleanArchive(raw)[i]) && FromRaw(raw, CleanArchive(raw)[i])
  {
    var t3 := Originals(FirstUrls(NonNullUrls(raw)));
    FilteredRows(raw);
    assert forall i :: 0 <= i < |t3| ==> Filtered(raw, t3[i]);
    MiddleRows(raw, t3);
    MarkersKept(raw);
    FinalRows(raw, NamesRepaired(raw));
  }

  // ---------------------------------------------------------------------
  // What every master row satisfies
  // ---------------------------------------------------------------------

  /** The engagement counts of `e` are those of a row of `tweets` with
      its id. */
  predicate CountsFrom(tweets: seq<TweetCounts>, e: EngagedRow)
  {
    exists j :: 0 <= j < |tweets| && tweets[j].tweetId == e.arc.tweetId
      && e.retweetCount == tweets[j].retweetCount && e.favoriteCount == tweets[j].favoriteCount
  }

  /** `p` is null exactly when no row of `predict` has the id `id`, and
      otherwise is the breed the scan picks from the capitalised labels of
      such a row. */
  predicate BreedFrom(predict: seq<PredictRow>, id: string, p: Option<string>)
  {
    && (p.None? <==> forall j :: 0 <= j < |predict| ==> predict[j].tweetId != id)
    && (p.Some? ==> exists j :: 0 <= j < |predict| && predict[j].tweetId == id && p.value == Breed(CapitalizeLabels(predict[j])))
  }

  /** The breed column that line 644 attaches. */
  lemma BreedColumn(engaged: seq<EngagedRow>, predict: seq<PredictRow>, k: nat) returns (i: nat)
    requires k < |LeftJoin(engaged, BreedTable(CapitalizedTable(predict)))|
    ensures i < |engaged| && LeftJoin(engaged, BreedTable(CapitalizedTable(predict)))[k].tweet == engaged[i]
    ensures var m := LeftJoin(engaged, BreedTable(CapitalizedTable(predict)))[k];
      BreedFrom(predict, m.tweet.arc.tweetId, m.dogPredict)
  {
    var breeds := BreedTable(CapitalizedTable(predict));
    var m := LeftJoin(engaged, breeds)[k];
    i := LeftJoinSound(engaged, breeds, k);
    var id := m.tweet.arc.tweetId;
    if HasKey(breeds, BreedKey, id) {
      var j :| 0 <= j < |breeds| && BreedKey(breeds[j]) == id;
      assert predict[j].tweetId == id;
    } else {
      forall j | 0 <= j < |predict| ensures predict[j].tweetId != id {
        assert BreedKey(breeds[j]) == predict[j].tweetId;
      }
    }
  }

  /** The properties of the master table: every row is a cleaned archive
      row descending from a usable raw row, carries the engagement counts
      of a row of `tweets` with its id, and carries the breed of the
      prediction row with its id, or null when there is none. */
  lemma MasterRowFacts(raw: seq<ArchiveRow>, tweets: seq<TweetCounts>, predict: seq<PredictRow>, k: nat)
    requires RawArchive(raw)
    requires k < |Master(raw, tweets, predict)|
    ensures var m := Master(raw, tweets, predict)[k];
      && Cleaned(m.tweet.arc)
      && FromRaw(raw, m.tweet.arc)
      && CountsFrom(tweets, m.tweet)
      && BreedFrom(predict, m.tweet.arc.tweetId, m.dogPredict)
  {
    var clean := CleanArchive(raw);
    var engaged := InnerJoin(clean, tweets);
    var e := BreedColumn(engaged, predict, k);
    var i, j := InnerJoinWitness(clean, tweets, e);
    CleanArchiveRows(raw);
    assert Cleaned(clean[i]) && FromRaw(raw, clean[i]);
  }

  /** A raw archive row whose id the engagement table lacks is not in the
      master table (the inner merge of line 606 drops it). */
  lemma MissingCountsDropped(raw: seq<ArchiveRow>, tweets: seq<TweetCounts>, predict: seq<PredictRow>, id: string)
    requires RawArchive(raw)
    requires forall j :: 0 <= j < |tweets| ==> tweets[j].tweetId != id
    ensures forall k :: 0 <= k < |Master(raw, tweets, predict)| ==> Master(raw, tweets, predict)[k].tweet.arc.tweetId != id
  {
    forall k | 0 <= k < |Master(raw, tweets, predict)|
      ensures Master(raw, tweets, predict)[k].tweet.arc.tweetId != id
    {
      MasterRowFacts(raw, tweets, predict, k);
    }
  }

  /** The cleaning keeps the archive's ids unique: the filters drop rows
      and the other steps keep every row's id. */
  lemma CleanArchiveUnique(raw: seq<ArchiveRow>)
    requires RawArchive(raw)
    requires UniqueBy(raw, ArcKey)
    ensures UniqueBy(CleanArchive(raw), ArcKey)
  {
    var t1 := NonNullUrls(raw);
    FilterUnique(raw, HasUrls, ArcKey);
    var t2 := FirstUrls(t1);
    UniqueBySameKeys(t1, ArcKey, t2, ArcKey);
    var t3 := Originals(t2);
    FilterUnique(t2, IsOriginal, ArcKey);
    var t7 := NamesRepaired(raw);
    UniqueBySameKeys(t3, ArcKey, t7, ArcKey);
    MarkersKept(raw);
    UniqueBySameKeys(t7, ArcKey, CleanArchive(raw), ArcKey);
  }

  /** With unique ids in each of the three inputs, the master table has
      one row per archive row that survives the cleaning and has engagement
      counts, and no id appears twice. */
  lemma MasterUniqueIds(raw: seq<ArchiveRow>, tweets: seq<TweetCounts>, predict: seq<PredictRow>)
    requires RawArchive(raw)
    requires UniqueBy(raw, ArcKey) && UniqueBy(tweets, CountsKey) && UniqueBy(predict, PredictKey)
    ensures |Master(raw, tweets, predict)| == CountIf(CleanArchive(raw), (a: ArchiveRow) => HasKey(tweets, CountsKey, a.tweetId))
    ensures UniqueBy(Master(raw, tweets, predict), MasterKey)
  {
    var clean := CleanArchive(raw);
    CleanArchiveUnique(raw);
    var engaged := InnerJoin(clean, tweets);
    InnerJoinUniqueIds(clean, tweets);
    InnerJoinOneRowPerMatch(clean, tweets);
    var breeds := BreedTable(CapitalizedTable(predict));
    UniqueBySameKeys(predict, PredictKey, breeds, BreedKey);
    LeftJoinOneToOne(engaged, breeds);
    UniqueBySameKeys(engaged, EngagedKey, Master(raw, tweets, predict), MasterKey);
  }
}
