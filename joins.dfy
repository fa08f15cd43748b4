/** The two joins on `tweet_id`: the inner merge with the engagement counts
    (CML_Wrangle_act.py:604-606) and the left merge with the breed column
    (CML_Wrangle_act.py:644). pandas keeps the order of the left table and,
    for one left row, the order of its partners in the right table. */
module Joins {
  import opened Values
  import opened Tables
  import opened Archive
  import opened Predictions

  /** One row of `id_retweet` (line 605). */
  datatype TweetCounts = TweetCounts(tweetId: string, retweetCount: int, favoriteCount: int)

  /** One row of `twit_arc` after line 606. */
  datatype EngagedRow = EngagedRow(arc: ArchiveRow, retweetCount: int, favoriteCount: int)

  /** One row of `twit_arc` after line 644; `dogPredict` is NaN (`None`)
      where `predict_copy` has no row with the same id. */
  datatype MasterRow = MasterRow(tweet: EngagedRow, dogPredict: Option<string>)

  function ArcKey(a: ArchiveRow): string { a.tweetId }
  function CountsKey(c: TweetCounts): string { c.tweetId }
  function EngagedKey(e: EngagedRow): string { e.arc.tweetId }
  function BreedKey(b: BreedRow): string { b.tweetId }
  function PredictKey(p: PredictRow): string { p.tweetId }
  function MasterKey(m: MasterRow): string { m.tweet.arc.tweetId }

  function Engage(a: ArchiveRow, c: TweetCounts): EngagedRow
  {
    EngagedRow(a, c.retweetCount, c.favoriteCount)
  }

  // ---------------------------------------------------------------------
  // Inner merge (line 606)
  // ---------------------------------------------------------------------

  /** The output rows one archive row gives: one per engagement row with
      the same id, in the engagement table's order. */
  function Matches(a: ArchiveRow, right: seq<TweetCounts>): (m: seq<EngagedRow>)
    ensures |m| == KeyCount(right, CountsKey, a.tweetId)
    ensures forall k :: 0 <= k < |m| ==> m[k].arc == a
  {
    if right == [] then []
    else (if right[0].tweetId == a.tweetId then [Engage(a, right[0])] else []) + Matches(a, right[1..])
  }

  /** Each output row of `Matches` comes from a partner of `a`. */
  lemma {:induction false} MatchesSound(a: ArchiveRow, right: seq<TweetCounts>, k: nat) returns (j: nat)
    requires k < |Matches(a, right)|
    ensures j < |right| && right[j].tweetId == a.tweetId && Matches(a, right)[k] == Engage(a, right[j])
  {
    var head := if right[0].tweetId == a.tweetId then [Engage(a, right[0])] else [];
    assert Matches(a, right) == head + Matches(a, right[1..]);
    if k < |head| {
      j := 0;
    } else {
      var j' := MatchesSound(a, right[1..], k - |head|);
      j := j' + 1;
    }
  }

  /** Each partner of `a` gives an output row of `Matches`. */
  lemma {:induction false} MatchesComplete(a: ArchiveRow, right: seq<TweetCounts>, j: nat) returns (k: nat)
    requires j < |right| && right[j].tweetId == a.tweetId
    ensures k < |Matches(a, right)| && Matches(a, right)[k] == Engage(a, right[j])
  {
    var head := if right[0].tweetId == a.tweetId then [Engage(a, right[0])] else [];
    assert Matches(a, right) == head + Matches(a, right[1..]);
    if j == 0 {
      k := 0;
    } else {
      var k' := MatchesComplete(a, right[1..], j - 1);
      k := k' + |head|;
    }
  }

  /** `pd.merge(twit_arc, id_retweet, on=['tweet_id'])`, left rows in
      order, each followed by its partners. It has one row per matching
      pair of rows. */
  function InnerJoin(left: seq<ArchiveRow>, right: seq<TweetCounts>): (out: seq<EngagedRow>)
    ensures |out| == PairCount(left, right)
  {
    if left == [] then [] else Matches(left[0], right) + InnerJoin(left[1..], right)
  }

  /** The number of pairs of rows, one from each table, with the same id. */
  function PairCount(left: seq<ArchiveRow>, right: seq<TweetCounts>): nat
  {
    if left == [] then 0 else KeyCount(right, CountsKey, left[0].tweetId) + PairCount(left[1..], right)
  }

  lemma {:induction false} InnerJoinWitness(left: seq<ArchiveRow>, right: seq<TweetCounts>, k: nat) returns (i: nat, j: nat)
    requires k < |InnerJoin(left, right)|
    ensures i < |left| && j < |right| && left[i].tweetId == right[j].tweetId
    ensures InnerJoin(left, right)[k] == Engage(left[i], right[j])
  {
    var m := Matches(left[0], right);
    if k < |m| {
      i := 0;
      j := MatchesSound(left[0], right, k);
    } else {
      var i', j' := InnerJoinWitness(left[1..], right, k - |m|);
      i, j := i' + 1, j';
    }
  }

  /** `e` pairs a row of `left` with a row of `right` of the same id. */
  predicate FromPair(left: seq<ArchiveRow>, right: seq<TweetCounts>, e: EngagedRow)
  {
    exists i, j :: 0 <= i < |left| && 0 <= j < |right| && left[i].tweetId == right[j].tweetId && e == Engage(left[i], right[j])
  }

  /** Every row of the inner merge pairs an archive row with an engagement
      row of the same id. */
  lemma InnerJoinSound(left: seq<ArchiveRow>, right: seq<TweetCounts>)
    ensures forall k :: 0 <= k < |InnerJoin(left, right)| ==> FromPair(left, right, InnerJoin(left, right)[k])
  {
    forall k | 0 <= k < |InnerJoin(left, right)|
      ensures FromPair(left, right, InnerJoin(left, right)[k])
    {
      var i, j := InnerJoinWitness(left, right, k);
    }
  }

  /** Every pair of rows with the same id is in the inner merge. */
  lemma {:induction false} InnerJoinComplete(left: seq<ArchiveRow>, right: seq<TweetCounts>, i: nat, j: nat)
    requires i < |left| && j < |right| && left[i].tweetId == right[j].tweetId
    ensures Engage(left[i], right[j]) in InnerJoin(left, right)
  {
    var m := Matches(left[0], right);
    assert InnerJoin(left, right) == m + InnerJoin(left[1..], right);
    if i == 0 {
      var k := MatchesComplete(left[0], right, j);
      assert m[k] == Engage(left[i], right[j]);
    } else {
      InnerJoinComplete(left[1..], right, i - 1, j);
    }
  }

  /** The engagement ids are unique in the data the notebook reads, and then
      every archive row with a partner gives exactly one output row. */
  lemma {:induction false} InnerJoinOneRowPerMatch(left: seq<ArchiveRow>, right: seq<TweetCounts>)
    requires UniqueBy(right, CountsKey)
    ensures |InnerJoin(left, right)| == CountIf(left, (a: ArchiveRow) => HasKey(right, CountsKey, a.tweetId))
  {
    if left != [] {
      KeyCountUnique(right, CountsKey, left[0].tweetId);
      InnerJoinOneRowPerMatch(left[1..], right);
    }
  }

  /** Every row of the inner merge carries a row of the archive. */
  lemma {:induction false} InnerJoinRowFromLeft(left: seq<ArchiveRow>, right: seq<TweetCounts>, k: nat) returns (i: nat)
    requires k < |InnerJoin(left, right)|
    ensures i < |left| && InnerJoin(left, right)[k].arc == left[i]
  {
    var m := Matches(left[0], right);
    if k < |m| {
      i := 0;
    } else {
      var i' := InnerJoinRowFromLeft(left[1..], right, k - |m|);
      i := i' + 1;
    }
  }

  /** With unique ids on both sides, the merged table has unique ids. */
  lemma {:induction false} InnerJoinUniqueIds(left: seq<ArchiveRow>, right: seq<TweetCounts>)
    requires UniqueBy(left, ArcKey)
    requires UniqueBy(right, CountsKey)
    ensures UniqueBy(InnerJoin(left, right), EngagedKey)
  {
    if left != [] {
      var u := left[1..];
      UniqueByTail(left, ArcKey);
      InnerJoinUniqueIds(u, right);
      var m := Matches(left[0], right);
      var rest := InnerJoin(u, right);
      KeyCountUnique(right, CountsKey, left[0].tweetId);
      forall k | 0 <= k < |rest|
        ensures EngagedKey(rest[k]) != left[0].tweetId
      {
        var i := InnerJoinRowFromLeft(u, right, k);
      }
      var out := m + rest;
      assert out == InnerJoin(left, right);
      forall a, b | 0 <= a < b < |out|
        ensures EngagedKey(out[a]) != EngagedKey(out[b])
      {
        if a >= |m| {
          assert out[a] == rest[a - |m|] && out[b] == rest[b - |m|];
        } else if b >= |m| {
          assert out[b] == rest[b - |m|];
        }
      }
    }
  }

  // ---------------------------------------------------------------------
  // Left merge (line 644)
  // ---------------------------------------------------------------------

  /** The output rows a row with partners in `predict_copy` gives: one per
      partner, carrying its breed. */
  function BreedMatches(e: EngagedRow, right: seq<BreedRow>): (m: seq<MasterRow>)
    ensures |m| == KeyCount(right, BreedKey, e.arc.tweetId)
    ensures forall k :: 0 <= k < |m| ==> m[k].tweet == e && m[k].dogPredict.Some?
  {
    if right == [] then []
    else
      (if right[0].tweetId == e.arc.tweetId then [MasterRow(e, Some(right[0].dogPredict))] else [])
      + BreedMatches(e, right[1..])
  }

  lemma {:induction false} BreedMatchesSound(e: EngagedRow, right: seq<BreedRow>, k: nat) returns (j: nat)
    requires k < |BreedMatches(e, right)|
    ensures j < |right| && right[j].tweetId == e.arc.tweetId
    ensures BreedMatches(e, right)[k] == MasterRow(e, Some(right[j].dogPredict))
  {
    var head := if right[0].tweetId == e.arc.tweetId then [MasterRow(e, Some(right[0].dogPredict))] else [];
    assert BreedMatches(e, right) == head + BreedMatches(e, right[1..]);
    if k < |head| {
      j := 0;
    } else {
      var j' := BreedMatchesSound(e, right[1..], k - |head|);
      j := j' + 1;
    }
  }

  /** Each partner of `e` in `predict_copy` gives an output row of
      `BreedMatches`. */
  lemma {:induction false} BreedMatchesComplete(e: EngagedRow, right: seq<BreedRow>, j: nat) returns (k: nat)
    requires j < |right| && right[j].tweetId == e.arc.tweetId
    ensures k < |BreedMatches(e, right)| && BreedMatches(e, right)[k] == MasterRow(e, Some(right[j].dogPredict))
  {
    var head := if right[0].tweetId == e.arc.tweetId then [MasterRow(e, Some(right[0].dogPredict))] else [];
    assert BreedMatches(e, right) == head + BreedMatches(e, right[1..]);
    if j == 0 {
      k := 0;
    } else {
      var k' := BreedMatchesComplete(e, right[1..], j - 1);
      k := k' + |head|;
    }
  }

  /** The number of rows one left row gives: one per partner, or one when
      it has none. */
  function LeftCount(right: seq<BreedRow>, id: string): nat
  {
    if HasKey(right, BreedKey, id) then KeyCount(right, BreedKey, id) else 1
  }

  /** The rows one left row gives: its partners, or itself with a null
      breed when it has none. */
  function LeftRows(e: EngagedRow, right: seq<BreedRow>): (m: seq<MasterRow>)
    ensures |m| == LeftCount(right, e.arc.tweetId) >= 1
    ensures forall k :: 0 <= k < |m| ==> m[k].tweet == e
    ensures forall k :: 0 <= k < |m| ==> (m[k].dogPredict.None? <==> !HasKey(right, BreedKey, e.arc.tweetId))
  {
    KeyCountZero(right, BreedKey, e.arc.tweetId);
    var m := BreedMatches(e, right);
    if m == [] then [MasterRow(e, None)] else m
  }

  /** `pd.merge(twit_arc, predict_copy, on=['tweet_id'], how='left')`:
      left rows in order, each followed by its partners or, when it has
      none, kept once with a null breed. */
  function LeftJoin(left: seq<EngagedRow>, right: seq<BreedRow>): (out: seq<MasterRow>)
    ensures |out| == LeftPairCount(left, right) >= |left|
    ensures forall k :: 0 <= k < |out| ==>
      (out[k].dogPredict.None? <==> !HasKey(right, BreedKey, out[k].tweet.arc.tweetId))
  {
    if left == [] then []
    else
      var m := LeftRows(left[0], right);
      var rest := LeftJoin(left[1..], right);
      assert forall k :: 0 <= k < |rest| ==> (m + rest)[|m| + k] == rest[k];
      m + rest
  }

  /** The length of the left merge: for each left row, the number of its
      partners, or one when it has none. */
  function LeftPairCount(left: seq<EngagedRow>, right: seq<BreedRow>): nat
  {
    if left == [] then 0 else LeftCount(right, left[0].arc.tweetId) + LeftPairCount(left[1..], right)
  }

  /** Every pair of a left row and a `predict_copy` row with the same id
      appears in the left merge, with that row's breed. */
  lemma {:induction false} LeftJoinComplete(left: seq<EngagedRow>, right: seq<BreedRow>, i: nat, j: nat) returns (k: nat)
    requires i < |left| && j < |right| && left[i].arc.tweetId == right[j].tweetId
    ensures k < |LeftJoin(left, right)| && LeftJoin(left, right)[k] == MasterRow(left[i], Some(right[j].dogPredict))
  {
    var m := LeftRows(left[0], right);
    assert LeftJoin(left, right) == m + LeftJoin(left[1..], right);
    if i == 0 {
      k := BreedMatchesComplete(left[0], right, j);
    } else {
      var k' := LeftJoinComplete(left[1..], right, i - 1, j);
      k := k' + |m|;
    }
  }

  /** Each row of the left merge carries a row of the archive and, when it
      has a breed, the breed of a `predict_copy` row with the same id. */
  lemma {:induction false} LeftJoinSound(left: seq<EngagedRow>, right: seq<BreedRow>, k: nat) returns (i: nat)
    requires k < |LeftJoin(left, right)|
    ensures i < |left| && LeftJoin(left, right)[k].tweet == left[i]
    ensures LeftJoin(left, right)[k].dogPredict.Some? ==>
      exists j :: 0 <= j < |right| && right[j].tweetId == left[i].arc.tweetId
        && LeftJoin(left, right)[k].dogPredict == Some(right[j].dogPredict)
  {
    var m := LeftRows(left[0], right);
    assert LeftJoin(left, right) == m + LeftJoin(left[1..], right);
    if k < |m| {
      i := 0;
      if BreedMatches(left[0], right) != [] {
        var j := BreedMatchesSound(left[0], right, k);
      }
    } else {
      var i' := LeftJoinSound(left[1..], right, k - |m|);
      i := i' + 1;
    }
  }

  /** The left merge drops no archive row. */
  lemma {:induction false} LeftJoinKeepsRow(left: seq<EngagedRow>, right: seq<BreedRow>, i: nat) returns (k: nat)
    requires i < |left|
    ensures k < |LeftJoin(left, right)| && LeftJoin(left, right)[k].tweet == left[i]
  {
    var m := LeftRows(left[0], right);
    assert LeftJoin(left, right) == m + LeftJoin(left[1..], right);
    if i == 0 {
      k := 0;
    } else {
      var k' := LeftJoinKeepsRow(left[1..], right, i - 1);
      k := k' + |m|;
    }
  }

  /** The breed of the first `predict_copy` row with the id, or null when
      there is none. When ids are unique this is the breed the merge
      attaches (`LeftRowsUnique`); a repeated id gets one row per partner. */
  function PredictionFor(right: seq<BreedRow>, id: string): (p: Option<string>)
    ensures p.None? <==> !HasKey(right, BreedKey, id)
  {
    if right == [] then None
    else
      HasKeyCons(right, BreedKey, id);
      if right[0].tweetId == id then Some(right[0].dogPredict) else PredictionFor(right[1..], id)
  }

  lemma {:induction false} PredictionForUnique(right: seq<BreedRow>, id: string, j: nat)
    requires UniqueBy(right, BreedKey)
    requires j < |right| && right[j].tweetId == id
    ensures PredictionFor(right, id) == Some(right[j].dogPredict)
  {
    if j > 0 {
      UniqueByTail(right, BreedKey);
      assert right[0].tweetId != right[j].tweetId;
      PredictionForUnique(right[1..], id, j - 1);
    }
  }

  /** With unique ids in `predict_copy`, a row gives exactly one output
      row, holding its breed or null. */
  lemma LeftRowsUnique(e: EngagedRow, right: seq<BreedRow>)
    requires UniqueBy(right, BreedKey)
    ensures LeftRows(e, right) == [MasterRow(e, PredictionFor(right, e.arc.tweetId))]
  {
    KeyCountUnique(right, BreedKey, e.arc.tweetId);
    var m := BreedMatches(e, right);
    if m != [] {
      var j := BreedMatchesSound(e, right, 0);
      PredictionForUnique(right, e.arc.tweetId, j);
    }
  }

  /** `predict` has one row per tweet, so the left merge changes no row
      count: row i of the result is row i of the archive with its breed. */
  lemma {:induction false} LeftJoinOneToOne(left: seq<EngagedRow>, right: seq<BreedRow>)
    requires UniqueBy(right, BreedKey)
    ensures |LeftJoin(left, right)| == |left|
    ensures forall i :: 0 <= i < |left| ==>
      LeftJoin(left, right)[i] == MasterRow(left[i], PredictionFor(right, left[i].arc.tweetId))
  {
    if left != [] {
      LeftRowsUnique(left[0], right);
      LeftJoinOneToOne(left[1..], right);
      var out := LeftJoin(left, right);
      assert out == LeftRows(left[0], right) + LeftJoin(left[1..], right);
      assert forall i :: 1 <= i < |left| ==> out[i] == LeftJoin(left[1..], right)[i - 1] && left[i] == left[1..][i - 1];
    }
  }
}
