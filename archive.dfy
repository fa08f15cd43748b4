/** The archive table `twit_arc` and the in-place cleaning steps the
    notebook runs on it (CML_Wrangle_act.py:306-582). Each step is a
    function on the table, stating what the step leaves behind, and a
    method of ArchiveFrame that performs it on the frame in place. */
module Archive {
  import opened Values
  import opened Text
  import opened Rules
  import opened Tables

  /** The four marker columns of the raw archive, or the one `dog_stage`
      column that replaces them at lines 576-582. */
  datatype Stage =
    | Markers(doggo: Cell, floofer: Cell, pupper: Cell, puppo: Cell)
    | Consolidated(dogStage: Cell)

  /** One row of `twit_arc`, restricted to the columns the cleaning reads
      or writes. `urls` is `expanded_urls`, and after lines 313-314 the
      `correct_expanded_urls` column that replaces it; `ratings` is `None`
      until line 412 creates the column. */
  datatype ArchiveRow = ArchiveRow(
    tweetId: string,
    urls: Cell,
    retweetedStatusId: Cell,
    retweetedStatusUserId: Cell,
    retweetedStatusTimestamp: Cell,
    numerator: int,
    denominator: int,
    ratings: Option<string>,
    name: Cell,
    stage: Stage)

  predicate HasUrls(r: ArchiveRow) { r.urls.Str? }
  predicate IsOriginal(r: ArchiveRow) { r.retweetedStatusId.Null? }
  predicate HasMarkers(r: ArchiveRow) { r.stage.Markers? }

  // ---------------------------------------------------------------------
  // The steps on one row
  // ---------------------------------------------------------------------

  function DedupUrlsRow(r: ArchiveRow): ArchiveRow
    requires HasUrls(r)
  {
    r.(urls := Str(DeleteDuplicatedUrls(r.urls.s)))
  }

  function RepairRatingsRow(r: ArchiveRow): ArchiveRow
  {
    r.(numerator := RepairNumerator(r.numerator), denominator := RepairDenominator(r.denominator))
  }

  function AddRatingsRow(r: ArchiveRow): ArchiveRow
  {
    r.(ratings := Some(RatingsString(r.numerator, r.denominator)))
  }

  function MaskNameRow(r: ArchiveRow): ArchiveRow
  {
    r.(name := MaskLowerName(r.name))
  }

  /** Line 472 reaches every column: each NaN cell of the row becomes "None". */
  function FillNoneRow(r: ArchiveRow): ArchiveRow
  {
    r.(urls := FillNone(r.urls),
       retweetedStatusId := FillNone(r.retweetedStatusId),
       retweetedStatusUserId := FillNone(r.retweetedStatusUserId),
       retweetedStatusTimestamp := FillNone(r.retweetedStatusTimestamp),
       name := FillNone(r.name),
       stage := match r.stage
         case Markers(d, f, p, q) => Markers(FillNone(d), FillNone(f), FillNone(p), FillNone(q))
         case Consolidated(s) => Consolidated(FillNone(s)))
  }

  function BlankMarkersRow(r: ArchiveRow): ArchiveRow
    requires HasMarkers(r)
  {
    var m := r.stage;
    r.(stage := Markers(BlankMarker(m.doggo), BlankMarker(m.floofer), BlankMarker(m.pupper), BlankMarker(m.puppo)))
  }

  function ConsolidateRow(r: ArchiveRow): ArchiveRow
    requires HasMarkers(r)
  {
    var m := r.stage;
    r.(stage := Consolidated(DogStage(m.doggo, m.floofer, m.pupper, m.puppo)))
  }

  // ---------------------------------------------------------------------
  // The steps on the table
  // ---------------------------------------------------------------------

  /** Line 306: `dropna(subset=['expanded_urls'])`. */
  function NonNullUrls(t: seq<ArchiveRow>): (r: seq<ArchiveRow>)
    ensures forall x :: x in r ==> HasUrls(x) && x in t
    ensures forall x :: x in t && HasUrls(x) ==> x in r
    ensures |r| == CountIf(t, HasUrls)
  {
    FilterSize(t, HasUrls);
    Filter(t, HasUrls)
  }

  /** Lines 313-314: `correct_expanded_urls` computed by
      `delete_duplicated_urls` replaces `expanded_urls`. Each new cell is the
      prefix of the old one that stops before its first comma. */
  function FirstUrls(t: seq<ArchiveRow>): (r: seq<ArchiveRow>)
    requires forall i :: 0 <= i < |t| ==> t[i].urls.Str?
    ensures |r| == |t|
    ensures forall i :: 0 <= i < |t| ==>
      && HasUrls(r[i])
      && r[i].urls.s <= t[i].urls.s
      && ',' !in r[i].urls.s
      && (|r[i].urls.s| < |t[i].urls.s| ==> t[i].urls.s[|r[i].urls.s|] == ',')
      && r[i] == t[i].(urls := r[i].urls)
  {
    seq(|t|, i requires 0 <= i < |t| => DedupUrlsRow(t[i]))
  }

  /** Lines 343-345: the rows whose `retweeted_status_id` is not null are
      dropped; no other column is looked at. */
  function Originals(t: seq<ArchiveRow>): (r: seq<ArchiveRow>)
    ensures forall x :: x in r ==> IsOriginal(x) && x in t
    ensures forall x :: x in t && IsOriginal(x) ==> x in r
    ensures |r| == CountIf(t, IsOriginal)
  {
    FilterSize(t, IsOriginal);
    Filter(t, IsOriginal)
  }

  /** Lines 402-403: both rating columns pass through their replacement
      table, on every row; after it no denominator is 11, 20, 2 or 7. */
  function RepairedRatings(t: seq<ArchiveRow>): (r: seq<ArchiveRow>)
    ensures |r| == |t|
    ensures forall i :: 0 <= i < |t| ==>
      && r[i].numerator == RepairNumerator(t[i].numerator)
      && r[i].denominator == RepairDenominator(t[i].denominator)
      && r[i].denominator !in {11, 20, 2, 7}
      && r[i] == t[i].(numerator := r[i].numerator, denominator := r[i].denominator)
  {
    seq(|t|, i requires 0 <= i < |t| => RepairRatingsRow(t[i]))
  }

  /** Line 412: the new `ratings` column is the canonical "N/D" rendering
      of the row's two rating numbers (`Rules.RatingsStringUnique`). */
  function WithRatings(t: seq<ArchiveRow>): (r: seq<ArchiveRow>)
    ensures |r| == |t|
    ensures forall i :: 0 <= i < |t| ==>
      && r[i].ratings.Some?
      && CanonicalRatings(r[i].ratings.value)
      && ParseRatings(r[i].ratings.value) == Some((t[i].numerator, t[i].denominator))
      && r[i] == t[i].(ratings := r[i].ratings)
  {
    seq(|t|, i requires 0 <= i < |t| => AddRatingsRow(t[i]))
  }

  /** Lines 469-471: a name is set to NaN exactly when it is missing or
      reads as lower-case; any other name is kept. */
  function MaskedNames(t: seq<ArchiveRow>): (r: seq<ArchiveRow>)
    ensures |r| == |t|
    ensures forall i :: 0 <= i < |t| ==>
      && (r[i].name.Null? <==> t[i].name.Null? || IsLower(t[i].name.s))
      && (r[i].name.Str? ==> r[i].name == t[i].name)
      && r[i] == t[i].(name := r[i].name)
  {
    seq(|t|, i requires 0 <= i < |t| => MaskNameRow(t[i]))
  }

  /** `b` is cell `a` after `replace(np.nan, "None")`. */
  predicate Filled(a: Cell, b: Cell)
  {
    if a.Null? then b == Str(NONE_TEXT) else b == a
  }

  predicate StageFilled(a: Stage, b: Stage)
  {
    match a
    case Markers(d, f, p, q) =>
      b.Markers? && Filled(d, b.doggo) && Filled(f, b.floofer) && Filled(p, b.pupper) && Filled(q, b.puppo)
    case Consolidated(s) => b.Consolidated? && Filled(s, b.dogStage)
  }

  /** Line 472: every NaN cell of every column becomes "None", and no other
      cell changes. */
  function NullsFilled(t: seq<ArchiveRow>): (r: seq<ArchiveRow>)
    ensures |r| == |t|
    ensures forall i :: 0 <= i < |t| ==>
      && Filled(t[i].urls, r[i].urls)
      && Filled(t[i].retweetedStatusId, r[i].retweetedStatusId)
      && Filled(t[i].retweetedStatusUserId, r[i].retweetedStatusUserId)
      && Filled(t[i].retweetedStatusTimestamp, r[i].retweetedStatusTimestamp)
      && Filled(t[i].name, r[i].name)
      && StageFilled(t[i].stage, r[i].stage)
      && r[i].tweetId == t[i].tweetId
      && r[i].numerator == t[i].numerator
      && r[i].denominator == t[i].denominator
      && r[i].ratings == t[i].ratings
  {
    seq(|t|, i requires 0 <= i < |t| => FillNoneRow(t[i]))
  }

  /** Lines 563-570: in each marker column "None" and NaN become ''. */
  function BlankedMarkers(t: seq<ArchiveRow>): (r: seq<ArchiveRow>)
    requires forall i :: 0 <= i < |t| ==> t[i].stage.Markers?
    ensures |r| == |t|
    ensures forall i :: 0 <= i < |t| ==>
      && HasMarkers(r[i])
      && r[i].stage.doggo == BlankMarker(t[i].stage.doggo)
      && r[i].stage.floofer == BlankMarker(t[i].stage.floofer)
      && r[i].stage.pupper == BlankMarker(t[i].stage.pupper)
      && r[i].stage.puppo == BlankMarker(t[i].stage.puppo)
      && r[i] == t[i].(stage := r[i].stage)
  {
    seq(|t|, i requires 0 <= i < |t| => BlankMarkersRow(t[i]))
  }

  /** Lines 576-582: the `dog_stage` column replaces the four markers. */
  function ConsolidatedStages(t: seq<ArchiveRow>): (r: seq<ArchiveRow>)
    requires forall i :: 0 <= i < |t| ==> t[i].stage.Markers?
    ensures |r| == |t|
    ensures forall i :: 0 <= i < |t| ==>
      && !HasMarkers(r[i])
      && r[i].stage.dogStage == DogStage(t[i].stage.doggo, t[i].stage.floofer, t[i].stage.pupper, t[i].stage.puppo)
      && r[i] == t[i].(stage := r[i].stage)
  {
    seq(|t|, i requires 0 <= i < |t| => ConsolidateRow(t[i]))
  }

  // ---------------------------------------------------------------------
  // The frame, changed in place
  // ---------------------------------------------------------------------

  /** The DataFrame `twit_arc` between lines 306 and 582: every step
      replaces its rows. */
  class ArchiveFrame {
    var rows: seq<ArchiveRow>

    constructor (table: seq<ArchiveRow>)
      ensures rows == table
    {
      rows := table;
    }

    method DropNullUrls()
      modifies this
      ensures rows == NonNullUrls(old(rows))
      ensures forall x :: x in rows ==> HasUrls(x)
    {
      rows := NonNullUrls(rows);
    }

    method DeduplicateUrls()
      requires forall i :: 0 <= i < |rows| ==> rows[i].urls.Str?
      modifies this
      ensures rows == FirstUrls(old(rows))
      ensures forall x :: x in rows ==> HasUrls(x) && ',' !in x.urls.s
    {
      rows := FirstUrls(rows);
    }

    method DropRetweets()
      modifies this
      ensures rows == Originals(old(rows))
      ensures forall x :: x in rows ==> IsOriginal(x)
    {
      rows := Originals(rows);
    }

    method RepairRatings()
      modifies this
      ensures rows == RepairedRatings(old(rows))
    {
      rows := RepairedRatings(rows);
    }

    method AddRatings()
      modifies this
      ensures rows == WithRatings(old(rows))
    {
      rows := WithRatings(rows);
    }

    method MaskLowerNames()
      modifies this
      ensures rows == MaskedNames(old(rows))
    {
      rows := MaskedNames(rows);
    }

    method FillNulls()
      modifies this
      ensures rows == NullsFilled(old(rows))
    {
      rows := NullsFilled(rows);
    }

    method BlankStageMarkers()
      requires forall i :: 0 <= i < |rows| ==> rows[i].stage.Markers?
      modifies this
      ensures rows == BlankedMarkers(old(rows))
    {
      rows := BlankedMarkers(rows);
    }

    method ConsolidateStages()
      requires forall i :: 0 <= i < |rows| ==> rows[i].stage.Markers?
      modifies this
      ensures rows == ConsolidatedStages(old(rows))
      ensures forall x :: x in rows ==> !HasMarkers(x)
    {
      rows := ConsolidatedStages(rows);
    }
  }

  // ---------------------------------------------------------------------
  // Properties of the filters
  // ---------------------------------------------------------------------

  /** The notebook's check at line 353: once the rows with a
      `retweeted_status_id` are gone, `retweeted_status_user_id` is null
      everywhere, provided the two columns are null on the same rows. */
  lemma RetweetColumnsClearedTogether(t: seq<ArchiveRow>)
    requires forall x :: x in t ==> (x.retweetedStatusId.Null? <==> x.retweetedStatusUserId.Null?)
    ensures forall x :: x in Originals(t) ==> x.retweetedStatusUserId.Null?
  {
  }

  /** Only `retweeted_status_id` is tested: a row with a
      `retweeted_status_user_id` but no `retweeted_status_id` survives. */
  lemma OnlyRetweetIdIsTested(x: ArchiveRow)
    requires x.retweetedStatusId.Null? && x.retweetedStatusUserId.Str?
    ensures Originals([x]) == [x]
  {
    FilterKeepsAll([x], IsOriginal);
  }

  /** The notebook's check at lines 325-327: after the two URL steps no
      cell holds a comma. */
  lemma NoUrlHoldsComma(t: seq<ArchiveRow>)
    ensures forall x :: x in FirstUrls(NonNullUrls(t)) ==> HasUrls(x) && ',' !in x.urls.s
  {
    var r := FirstUrls(NonNullUrls(t));
    forall x | x in r
      ensures HasUrls(x) && ',' !in x.urls.s
    {
      var i :| 0 <= i < |r| && r[i] == x;
    }
  }
}
