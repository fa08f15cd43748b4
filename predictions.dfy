/** The image-prediction table `predict`: the capitalisation of its three
    labels (CML_Wrangle_act.py:521-524) and the breed scan that builds the
    `dog_predict` list (CML_Wrangle_act.py:627-641). */
module Predictions {
  import opened Text

  /** One row of `predict`, restricted to the columns the notebook reads:
      the three ranked labels and their "is a dog" flags. */
  datatype PredictRow = PredictRow(
    tweetId: string,
    p1: string, p1Dog: bool,
    p2: string, p2Dog: bool,
    p3: string, p3Dog: bool)

  /** One row of `predict_copy` (line 641). */
  datatype BreedRow = BreedRow(tweetId: string, dogPredict: string)

  const NO_PREDICTION: string := "No correct prediction"

  /** The label of rank `k`. */
  function Label(r: PredictRow, k: int): string
    requires 1 <= k <= 3
  {
    if k == 1 then r.p1 else if k == 2 then r.p2 else r.p3
  }

  /** The "is a dog" flag of rank `k`. */
  predicate IsDog(r: PredictRow, k: int)
    requires 1 <= k <= 3
  {
    if k == 1 then r.p1Dog else if k == 2 then r.p2Dog else r.p3Dog
  }

  /** The row with the label of rank `k` replaced by `v`. */
  function WithLabel(r: PredictRow, k: int, v: string): PredictRow
    requires 1 <= k <= 3
  {
    if k == 1 then r.(p1 := v) else if k == 2 then r.(p2 := v) else r.(p3 := v)
  }

  // ---------------------------------------------------------------------
  // Label capitalisation (lines 521-524)
  // ---------------------------------------------------------------------

  /** The row once the columns of rank 1 .. c - 1 have gone through
      `str.capitalize()`. */
  function CapitalizedBelow(r: PredictRow, c: int): PredictRow
  {
    r.(p1 := if 1 < c then Capitalize(r.p1) else r.p1,
       p2 := if 2 < c then Capitalize(r.p2) else r.p2,
       p3 := if 3 < c then Capitalize(r.p3) else r.p3)
  }

  /** All three label columns capitalised; each label depends only on its
      own column, and the flags and the tweet id do not change. */
  function CapitalizeLabels(r: PredictRow): (c: PredictRow)
    ensures forall k :: 1 <= k <= 3 ==> Label(c, k) == Capitalize(Label(r, k)) && IsDog(c, k) == IsDog(r, k)
    ensures c.tweetId == r.tweetId
  {
    CapitalizedBelow(r, 4)
  }

  lemma CapitalizeLabelsIdempotent(r: PredictRow)
    ensures CapitalizeLabels(CapitalizeLabels(r)) == CapitalizeLabels(r)
  {
    CapitalizeIdempotent(r.p1);
    CapitalizeIdempotent(r.p2);
    CapitalizeIdempotent(r.p3);
  }

  /** The table once every row has its labels capitalised. */
  function CapitalizedTable(t: seq<PredictRow>): seq<PredictRow>
  {
    seq(|t|, i requires 0 <= i < |t| => CapitalizeLabels(t[i]))
  }

  /** `predict[col].str.capitalize()` written back to column `k`: that
      label of every row is capitalised and nothing else changes. */
  function CapitalizeColumn(t: seq<PredictRow>, k: int): (r: seq<PredictRow>)
    requires 1 <= k <= 3
    ensures |r| == |t|
    ensures forall i :: 0 <= i < |t| ==> r[i] == WithLabel(t[i], k, Capitalize(Label(t[i], k)))
  {
    seq(|t|, i requires 0 <= i < |t| => WithLabel(t[i], k, Capitalize(Label(t[i], k))))
  }

  /** The DataFrame `predict` while its labels are rewritten in place. */
  class PredictFrame {
    var rows: seq<PredictRow>

    constructor (table: seq<PredictRow>)
      ensures rows == table
    {
      rows := table;
    }

    /** Lines 521-524: `for columns in ['p1', 'p2', 'p3']`, each column is
        replaced by `str.capitalize()` of itself. */
    method CapitalizeColumns()
      modifies this
      ensures |rows| == |old(rows)|
      ensures forall i :: 0 <= i < |rows| ==> rows[i] == CapitalizeLabels(old(rows)[i])
      ensures rows == CapitalizedTable(old(rows))
    {
      for c := 1 to 4
        invariant |rows| == |old(rows)|
        invariant forall i :: 0 <= i < |rows| ==> rows[i] == CapitalizedBelow(old(rows)[i], c)
      {
        rows := CapitalizeColumn(rows, c);
      }
    }
  }

  // ---------------------------------------------------------------------
  // Breed selection (lines 627-641)
  // ---------------------------------------------------------------------

  /** The breed the scan picks for one row: the label of the first rank
      whose flag is true, or the sentinel when no flag is. */
  function Breed(r: PredictRow): (b: string)
    ensures (exists k :: 1 <= k <= 3 && IsDog(r, k)) ==>
      exists k :: 1 <= k <= 3 && IsDog(r, k) && b == Label(r, k) && (forall j :: 1 <= j < k ==> !IsDog(r, j))
    ensures (forall k :: 1 <= k <= 3 ==> !IsDog(r, k)) ==> b == NO_PREDICTION
  {
    if r.p1Dog then
      assert IsDog(r, 1) && Label(r, 1) == r.p1;
      r.p1
    else if r.p2Dog then
      assert IsDog(r, 2) && Label(r, 2) == r.p2 && !IsDog(r, 1);
      r.p2
    else if r.p3Dog then
      assert IsDog(r, 3) && Label(r, 3) == r.p3 && !IsDog(r, 1) && !IsDog(r, 2);
      r.p3
    else
      assert !IsDog(r, 1) && !IsDog(r, 2) && !IsDog(r, 3);
      NO_PREDICTION
  }

  /** The loop of lines 629-637: one entry appended per row of `predict`,
      in row order. */
  method DogPredictions(predict: seq<PredictRow>) returns (dogPredict: seq<string>)
    ensures |dogPredict| == |predict|
    ensures forall i :: 0 <= i < |predict| ==> dogPredict[i] == Breed(predict[i])
  {
    dogPredict := [];
    for i := 0 to |predict|
      invariant |dogPredict| == i
      invariant forall j :: 0 <= j < i ==> dogPredict[j] == Breed(predict[j])
    {
      if predict[i].p1Dog == true {
        dogPredict := dogPredict + [predict[i].p1];
      } else if predict[i].p2Dog == true {
        dogPredict := dogPredict + [predict[i].p2];
      } else if predict[i].p3Dog == true {
        dogPredict := dogPredict + [predict[i].p3];
      } else {
        dogPredict := dogPredict + [NO_PREDICTION];
      }
    }
  }

  /** Lines 640-641: `predict_copy`, the tweet id of each row beside its
      `dog_predict` entry. */
  function BreedTable(predict: seq<PredictRow>): (b: seq<BreedRow>)
    ensures |b| == |predict|
    ensures forall i :: 0 <= i < |predict| ==> b[i].tweetId == predict[i].tweetId && b[i].dogPredict == Breed(predict[i])
  {
    seq(|predict|, i requires 0 <= i < |predict| => BreedRow(predict[i].tweetId, Breed(predict[i])))
  }
}
