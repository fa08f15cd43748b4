/** Row filtering as pandas does it with `dropna(subset=...)` and
    `drop(index)`: the rows that pass are kept, in their order, unchanged. */
module Tables {
  import opened Values

  function Filter<T>(t: seq<T>, keep: T -> bool): (r: seq<T>)
    ensures |r| <= |t|
    ensures forall i :: 0 <= i < |r| ==> r[i] in t && keep(r[i])
    ensures forall i :: 0 <= i < |t| && keep(t[i]) ==> t[i] in r
  {
    if t == [] then []
    else (if keep(t[0]) then [t[0]] else []) + Filter(t[1..], keep)
  }

  /** Filtering distributes over concatenation: the rows that survive keep
      their relative order. */
  lemma {:induction false} FilterAppend<T>(a: seq<T>, b: seq<T>, keep: T -> bool)
    ensures Filter(a + b, keep) == Filter(a, keep) + Filter(b, keep)
  {
    if a != [] {
      assert (a + b)[1..] == a[1..] + b;
      FilterAppend(a[1..], b, keep);
    } else {
      assert a + b == b;
    }
  }

  /** A table whose rows all pass comes back unchanged. */
  lemma {:induction false} FilterKeepsAll<T>(t: seq<T>, keep: T -> bool)
    requires forall i :: 0 <= i < |t| ==> keep(t[i])
    ensures Filter(t, keep) == t
  {
    if t != [] {
      FilterKeepsAll(t[1..], keep);
    }
  }

  /** The number of rows that pass. */
  function CountIf<T>(t: seq<T>, keep: T -> bool): nat
  {
    if t == [] then 0 else (if keep(t[0]) then 1 else 0) + CountIf(t[1..], keep)
  }

  lemma {:induction false} FilterSize<T>(t: seq<T>, keep: T -> bool)
    ensures |Filter(t, keep)| == CountIf(t, keep)
  {
    if t != [] {
      FilterSize(t[1..], keep);
    }
  }

  // ---------------------------------------------------------------------
  // Keys, as `pd.merge(..., on=['tweet_id'])` sees them
  // ---------------------------------------------------------------------

  predicate HasKey<T>(t: seq<T>, key: T -> string, id: string)
  {
    exists j :: 0 <= j < |t| && key(t[j]) == id
  }

  /** No two rows share a key. */
  predicate UniqueBy<T>(t: seq<T>, key: T -> string)
  {
    forall i, j :: 0 <= i < j < |t| ==> key(t[i]) != key(t[j])
  }

  /** The number of rows whose key is `id`. */
  function KeyCount<T>(t: seq<T>, key: T -> string, id: string): nat
  {
    if t == [] then 0 else (if key(t[0]) == id then 1 else 0) + KeyCount(t[1..], key, id)
  }

  /** A key is present when the first row has it or the rest does. */
  lemma HasKeyCons<T>(t: seq<T>, key: T -> string, id: string)
    requires t != []
    ensures HasKey(t, key, id) <==> key(t[0]) == id || HasKey(t[1..], key, id)
  {
    var u := t[1..];
    assert forall j :: 0 <= j < |u| ==> u[j] == t[j + 1];
    if HasKey(t, key, id) && key(t[0]) != id {
      var j :| 0 <= j < |t| && key(t[j]) == id;
      assert key(u[j - 1]) == id;
    }
  }

  /** Dropping the first row keeps the keys unique. */
  lemma UniqueByTail<T>(t: seq<T>, key: T -> string)
    requires t != [] && UniqueBy(t, key)
    ensures UniqueBy(t[1..], key)
    ensures !HasKey(t[1..], key, key(t[0]))
  {
    var u := t[1..];
    assert forall j :: 0 <= j < |u| ==> u[j] == t[j + 1];
  }

  /** A key is counted zero times exactly when it is absent. */
  lemma {:induction false} KeyCountZero<T>(t: seq<T>, key: T -> string, id: string)
    ensures KeyCount(t, key, id) == 0 <==> !HasKey(t, key, id)
  {
    if t != [] {
      KeyCountZero(t[1..], key, id);
      HasKeyCons(t, key, id);
    }
  }

  /** A key occurs in a table without repeated keys once if it occurs at
      all, and not otherwise. */
  lemma {:induction false} KeyCountUnique<T>(t: seq<T>, key: T -> string, id: string)
    requires UniqueBy(t, key)
    ensures KeyCount(t, key, id) == if HasKey(t, key, id) then 1 else 0
  {
    if t != [] {
      UniqueByTail(t, key);
      KeyCountUnique(t[1..], key, id);
      HasKeyCons(t, key, id);
    }
  }

  /** Filtering never repeats a row, so it keeps keys unique. */
  lemma {:induction false} FilterUnique<T>(t: seq<T>, keep: T -> bool, key: T -> string)
    requires UniqueBy(t, key)
    ensures UniqueBy(Filter(t, keep), key)
  {
    if t != [] {
      var u := t[1..];
      UniqueByTail(t, key);
      FilterUnique(u, keep, key);
      var rest := Filter(u, keep);
      forall k | 0 <= k < |rest|
        ensures key(rest[k]) != key(t[0])
      {
        var j :| 0 <= j < |u| && u[j] == rest[k];
      }
      var head := if keep(t[0]) then [t[0]] else [];
      var r := head + rest;
      assert r == Filter(t, keep);
      forall a, b | 0 <= a < b < |r|
        ensures key(r[a]) != key(r[b])
      {
        if a >= |head| {
          assert r[a] == rest[a - |head|] && r[b] == rest[b - |head|];
        } else {
          assert r[b] == rest[b - |head|];
        }
      }
    }
  }

  /** A table whose row i has the key of row i of a table with unique keys
      has unique keys too. */
  lemma UniqueBySameKeys<T, U>(t: seq<T>, kt: T -> string, r: seq<U>, kr: U -> string)
    requires UniqueBy(t, kt)
    requires |r| == |t| && forall i :: 0 <= i < |t| ==> kr(r[i]) == kt(t[i])
    ensures UniqueBy(r, kr)
  {
  }
}
