/** The per-cell rules of the cleaning notebook: the URL de-duplication,
    the rating replacement tables and the `ratings` string, the name mask,
    the whole-frame NaN fill, and the dog-stage decode table. */
module Rules {
  import opened Values
  import opened Text

  // ---------------------------------------------------------------------
  // delete_duplicated_urls (CML_Wrangle_act.py:309-311)
  // ---------------------------------------------------------------------

  /** `url.split(',')[0]`: the text before the first comma. The three
      clauses pin the result down: a prefix without a comma that stops
      either at the end of `url` or at a comma. */
  function DeleteDuplicatedUrls(url: string): (r: string)
    ensures r <= url
    ensures ',' !in r
    ensures |r| < |url| ==> url[|r|] == ','
  {
    if url == [] || url[0] == ',' then [] else [url[0]] + DeleteDuplicatedUrls(url[1..])
  }

  /** Any prefix that has no comma and ends where `url` ends or at a comma
      is the first field: the contract above has exactly one solution. */
  lemma FirstFieldUnique(url: string, p: string)
    requires p <= url && ',' !in p
    requires |p| == |url| || url[|p|] == ','
    ensures p == DeleteDuplicatedUrls(url)
  {
    var r := DeleteDuplicatedUrls(url);
    assert forall i :: 0 <= i < |p| && i < |r| ==> p[i] == r[i];
    assert |p| < |url| ==> url[|p|] !in r;
    assert |r| < |url| ==> url[|r|] !in p;
  }

  /** A cell without a comma is left as it was. */
  lemma DeleteDuplicatedUrlsKeepsSingle(url: string)
    requires ',' !in url
    ensures DeleteDuplicatedUrls(url) == url
  {
    FirstFieldUnique(url, url);
  }

  lemma DeleteDuplicatedUrlsIdempotent(url: string)
    ensures DeleteDuplicatedUrls(DeleteDuplicatedUrls(url)) == DeleteDuplicatedUrls(url)
  {
    DeleteDuplicatedUrlsKeepsSingle(DeleteDuplicatedUrls(url));
  }

  // ---------------------------------------------------------------------
  // Rating replacement (CML_Wrangle_act.py:402-403)
  // ---------------------------------------------------------------------

  const NUMERATOR_FROM: seq<int> := [9, 4, 7, 1, 24]
  const NUMERATOR_TO: seq<int> := [14, 13, 10, 9, 10]
  const DENOMINATOR_FROM: seq<int> := [11, 20, 11, 2, 7]
  const DENOMINATOR_TO: seq<int> := [10, 10, 10, 10, 10]

  /** One cell of pandas' `Series.replace(from, to)` with two lists of equal
      length. Every mask is taken on the original value, so a cell is
      rewritten at most once (a 1 that becomes 9 is not then turned into
      14); when a value is listed twice the later pair is the one that
      sticks. */
  function ReplaceList(x: int, from: seq<int>, to: seq<int>): (r: int)
    requires |from| == |to|
    ensures (forall j :: 0 <= j < |from| ==> from[j] != x) ==> r == x
    ensures forall j :: 0 <= j < |from| && from[j] == x && (forall k :: j < k < |from| ==> from[k] != x) ==> r == to[j]
    decreases |from|
  {
    if from == [] then x
    else if from[|from| - 1] == x then to[|to| - 1]
    else
      var from', to' := from[..|from| - 1], to[..|to| - 1];
      assert forall j :: 0 <= j < |from'| ==> from'[j] == from[j] && to'[j] == to[j];
      ReplaceList(x, from', to')
  }

  /** The numerator column after line 402: 9, 4, 7, 1 and 24 become 14, 13,
      10, 9 and 10 in whichever row they stand; every other value stays. */
  function RepairNumerator(n: int): (r: int)
    ensures n == 9 ==> r == 14
    ensures n == 4 ==> r == 13
    ensures n == 7 ==> r == 10
    ensures n == 1 ==> r == 9
    ensures n == 24 ==> r == 10
    ensures n !in {9, 4, 7, 1, 24} ==> r == n
  {
    var f := NUMERATOR_FROM;
    assert f[0] == 9 && f[1] == 4 && f[2] == 7 && f[3] == 1 && f[4] == 24;
    ReplaceList(n, f, NUMERATOR_TO)
  }

  /** The denominator column after line 403: 11, 20, 2 and 7 become 10 in
      whichever row they stand; every other value stays, so none of the
      four is left. */
  function RepairDenominator(d: int): (r: int)
    ensures d in {11, 20, 2, 7} ==> r == 10
    ensures d !in {11, 20, 2, 7} ==> r == d
    ensures r !in {11, 20, 2, 7}
  {
    var f := DENOMINATOR_FROM;
    assert f[0] == 11 && f[1] == 20 && f[2] == 11 && f[3] == 2 && f[4] == 7;
    assert forall j :: 0 <= j < |f| ==> DENOMINATOR_TO[j] == 10;
    ReplaceList(d, f, DENOMINATOR_TO)
  }

  lemma RepairDenominatorIdempotent(d: int)
    ensures RepairDenominator(RepairDenominator(d)) == RepairDenominator(d)
  {
  }

  /** Applying the numerator replacement a second time is not a no-op:
      the first pass maps 1 to 9 and a second pass would map that 9 to 14. */
  lemma RepairNumeratorNotIdempotent()
    ensures RepairNumerator(1) == 9
    ensures RepairNumerator(RepairNumerator(1)) == 14
  {
  }

  // ---------------------------------------------------------------------
  // The ratings column (CML_Wrangle_act.py:412)
  // ---------------------------------------------------------------------

  /** `str(numerator) + "/" + str(denominator)`; the contract says the
      string is two canonical integer renderings around one '/', and
      reads back into exactly the two numbers. With `RatingsStringUnique`
      this pins the string down completely. */
  function RatingsString(num: int, den: int): (s: string)
    ensures CanonicalRatings(s)
    ensures ParseRatings(s) == Some((num, den))
  {
    var a := IntToString(num);
    var b := IntToString(den);
    IndexOfAfter(a, '/', b);
    var s := a + "/" + b;
    assert s[..|a|] == a && s[|a| + 1..] == b;
    IntToStringRoundTrip(num);
    IntToStringRoundTrip(den);
    s
  }

  /** Reads an "N/D" rating back: the text before the first '/' and the text
      after it, each as a Python int. */
  function ParseRatings(s: string): Option<(int, int)>
  {
    match IndexOf(s, '/')
    case None => None
    case Some(k) =>
      match (ParseInt(s[..k]), ParseInt(s[k + 1..]))
      case (Some(n), Some(d)) => Some((n, d))
      case _ => None
  }

  /** Text before the first '/' and text after it, both written as `str`
      writes an int. */
  predicate CanonicalRatings(s: string)
  {
    match IndexOf(s, '/')
    case None => false
    case Some(k) => CanonicalInt(s[..k]) && CanonicalInt(s[k + 1..])
  }

  /** Only one canonical string reads back as a given rating. */
  lemma RatingsStringUnique(s: string, num: int, den: int)
    requires CanonicalRatings(s) && ParseRatings(s) == Some((num, den))
    ensures s == RatingsString(num, den)
  {
    var k := IndexOf(s, '/').value;
    IntToStringUnique(s[..k], num);
    IntToStringUnique(s[k + 1..], den);
    assert s == s[..k] + "/" + s[k + 1..];
  }

  // ---------------------------------------------------------------------
  // Name repair (CML_Wrangle_act.py:469-472)
  // ---------------------------------------------------------------------

  /** Lines 469-471 on one cell: the mask is `fillna("lower").str.islower()`,
      and a masked cell is set to NaN. A missing name is filled with the
      lower-case word "lower", so it is masked too. */
  function MaskLowerName(name: Cell): (r: Cell)
    ensures r.Null? <==> name.Null? || IsLower(name.s)
    ensures r.Str? ==> r == name
  {
    var filled := if name.Null? then "lower" else name.s;
    if IsLower(filled) then Null else name
  }

  /** Line 472 on one cell: `replace(np.nan, "None")`. */
  function FillNone(c: Cell): (r: Cell)
    ensures r.Str?
    ensures c.Null? ==> r == Str(NONE_TEXT)
    ensures c.Str? ==> r == c
  {
    if c.Null? then Str(NONE_TEXT) else c
  }

  /** Lines 469-472 together: a name ends up "None" when it was missing,
      read as lower-case, or already said "None"; otherwise it is kept. No
      repaired name reads as lower-case, so none of them is "a". */
  lemma NameRepair(name: Cell)
    ensures FillNone(MaskLowerName(name)).Str?
    ensures var r := FillNone(MaskLowerName(name)).s;
      && !IsLower(r)
      && r != "a"
      && (r == NONE_TEXT <==> name.Null? || IsLower(name.s) || name.s == NONE_TEXT)
      && (r != NONE_TEXT ==> name == Str(r))
  {
    assert !IsLower(NONE_TEXT);
    assert IsLower("a");
  }

  // ---------------------------------------------------------------------
  // Dog stage (CML_Wrangle_act.py:563-580)
  // ---------------------------------------------------------------------

  const DOGGO: string := "doggo"
  const FLOOFER: string := "floofer"
  const PUPPER: string := "pupper"
  const PUPPO: string := "puppo"

  /** Lines 563-570 on one marker cell: `replace('None', '')`, then
      `replace(np.NaN, '')`. */
  function BlankMarker(c: Cell): (r: Cell)
    ensures r.Str?
    ensures c.Null? || c == Str(NONE_TEXT) ==> r == Str("")
    ensures c.Str? && c.s != NONE_TEXT ==> r == c
  {
    var c1 := if c == Str(NONE_TEXT) then Str("") else c;
    if c1.Null? then Str("") else c1
  }

  /** pandas `+` on two object cells: concatenation, NaN if either is NaN. */
  function ConcatCells(a: Cell, b: Cell): Cell
  {
    if a.Null? || b.Null? then Null else Str(a.s + b.s)
  }

  /** Lines 577-580: the three known two-marker concatenations get their
      comma-joined names and the empty concatenation becomes "None"; any
      other value is left as it is. */
  function RenameStage(stage: Cell): (r: Cell)
    ensures stage.Null? <==> r.Null?
    ensures r.Str? ==> r.s != ""
    ensures stage == Str(DOGGO + PUPPER) ==> r == Str("doggo,pupper")
    ensures stage == Str(DOGGO + PUPPO) ==> r == Str("doggo,puppo")
    ensures stage == Str(DOGGO + FLOOFER) ==> r == Str("doggo,floofer")
    ensures stage == Str("") ==> r == Str(NONE_TEXT)
    ensures stage.Str? && stage.s !in {DOGGO + PUPPER, DOGGO + PUPPO, DOGGO + FLOOFER, ""} ==> r == stage
  {
    assert DOGGO + PUPPER == "doggopupper";
    assert DOGGO + PUPPO == "doggopuppo";
    assert DOGGO + FLOOFER == "doggofloofer";
    match stage
    case Null => Null
    case Str(s) =>
      if s == "doggopupper" then Str("doggo,pupper")
      else if s == "doggopuppo" then Str("doggo,puppo")
      else if s == "doggofloofer" then Str("doggo,floofer")
      else if s == "" then Str(NONE_TEXT)
      else stage
  }

  /** Line 576 followed by lines 577-580: the four markers concatenated in
      the order doggo, floofer, pupper, puppo, then renamed. The stage is
      NaN exactly when one marker is, since `+` propagates NaN, and a
      string stage is never empty. */
  function DogStage(doggo: Cell, floofer: Cell, pupper: Cell, puppo: Cell): (r: Cell)
    ensures r.Null? <==> doggo.Null? || floofer.Null? || pupper.Null? || puppo.Null?
    ensures r.Str? ==> r.s != ""
  {
    RenameStage(ConcatCells(ConcatCells(ConcatCells(doggo, floofer), pupper), puppo))
  }

  /** After the markers are blanked the stage is never NaN and never empty,
      and it is "None" when no marker was set. */
  lemma StageNeverEmpty(doggo: Cell, floofer: Cell, pupper: Cell, puppo: Cell)
    ensures var r := DogStage(BlankMarker(doggo), BlankMarker(floofer), BlankMarker(pupper), BlankMarker(puppo));
      r.Str? && r.s != ""
    ensures (forall c :: c in [doggo, floofer, pupper, puppo] ==> c.Null? || c == Str(NONE_TEXT)) ==>
      DogStage(BlankMarker(doggo), BlankMarker(floofer), BlankMarker(pupper), BlankMarker(puppo)) == Str(NONE_TEXT)
  {
    if forall c :: c in [doggo, floofer, pupper, puppo] ==> c.Null? || c == Str(NONE_TEXT) {
      assert doggo in [doggo, floofer, pupper, puppo];
      assert floofer in [doggo, floofer, pupper, puppo];
      assert pupper in [doggo, floofer, pupper, puppo];
      assert puppo in [doggo, floofer, pupper, puppo];
      assert "" + "" + "" + "" == "";
    }
  }

  /** The markers as the archive writes them: missing, "None", or the
      marker's own name. */
  predicate WellFormedMarker(c: Cell, name: string)
  {
    c.Null? || c == Str(NONE_TEXT) || c == Str(name)
  }

  datatype Flags = Flags(doggo: bool, floofer: bool, pupper: bool, puppo: bool)

  const NO_FLAGS := Flags(false, false, false, false)

  function Part(isSet: bool, name: string): string
  {
    if isSet then name else ""
  }

  /** The concatenation of line 576 for a given set of markers. */
  function Parts(f: Flags): string
  {
    Part(f.doggo, DOGGO) + Part(f.floofer, FLOOFER) + Part(f.pupper, PUPPER) + Part(f.puppo, PUPPO)
  }

  /** The stage the notebook writes for a given set of markers. */
  function StageName(f: Flags): string
  {
    RenameStage(Str(Parts(f))).s
  }

  /** The three marker pairs lines 577-579 rename. */
  predicate RenamedPair(f: Flags)
  {
    f in {Flags(true, false, true, false), Flags(true, false, false, true), Flags(true, true, false, false)}
  }

  /** Strips `p` from the front of `s` when it is there. */
  function StripPrefix(s: string, p: string): (bool, string)
  {
    if p <= s then (true, s[|p|..]) else (false, s)
  }

  /** Reads the markers off the front of a concatenation, in the order of
      line 576; returns what is left over. */
  function ReadParts(stage: string): (Flags, string)
  {
    var (d, s1) := StripPrefix(stage, DOGGO);
    var (f, s2) := StripPrefix(s1, FLOOFER);
    var (p, s3) := StripPrefix(s2, PUPPER);
    var (q, s4) := StripPrefix(s3, PUPPO);
    (Flags(d, f, p, q), s4)
  }

  /** Reads a stage back into the markers that produce it: the inverse of
      StageName. `None` for a value no set of markers produces. */
  function StageFlags(stage: string): Option<Flags>
  {
    if stage == NONE_TEXT then Some(NO_FLAGS)
    else if stage == "doggo,pupper" then Some(Flags(true, false, true, false))
    else if stage == "doggo,puppo" then Some(Flags(true, false, false, true))
    else if stage == "doggo,floofer" then Some(Flags(true, true, false, false))
    else
      var (f, rest) := ReadParts(stage);
      if rest == [] && f != NO_FLAGS && !RenamedPair(f) then Some(f) else None
  }

  lemma StripPart(b: bool, name: string, rest: string)
    requires !b ==> !(name <= rest)
    ensures StripPrefix(Part(b, name) + rest, name) == (b, rest)
  {
    if b {
      assert (name + rest)[..|name|] == name;
      assert (name + rest)[|name|..] == rest;
    } else {
      assert Part(b, name) + rest == rest;
    }
  }

  /** No marker name is a prefix of the parts that follow it. */
  lemma PartsPrefixFree(f: Flags)
    ensures !(DOGGO <= Part(f.floofer, FLOOFER) + Part(f.pupper, PUPPER) + Part(f.puppo, PUPPO))
    ensures !(FLOOFER <= Part(f.pupper, PUPPER) + Part(f.puppo, PUPPO))
    ensures !(PUPPER <= Part(f.puppo, PUPPO))
    ensures !(PUPPO <= "")
  {
    var s := Part(f.floofer, FLOOFER) + Part(f.pupper, PUPPER) + Part(f.puppo, PUPPO);
    if s != [] {
      assert s[0] == 'f' || s[0] == 'p';
      assert DOGGO[0] == 'd';
    }
    var t := Part(f.pupper, PUPPER) + Part(f.puppo, PUPPO);
    if t != [] {
      assert t[0] == 'p';
      assert FLOOFER[0] == 'f';
    }
    if f.puppo {
      assert PUPPER[4] != PUPPO[4];
    }
  }

  /** ReadParts undoes the concatenation. */
  lemma {:induction false} ReadPartsOfParts(f: Flags)
    ensures ReadParts(Parts(f)) == (f, [])
  {
    PartsPrefixFree(f);
    var a := Part(f.doggo, DOGGO);
    var b := Part(f.floofer, FLOOFER);
    var c := Part(f.pupper, PUPPER);
    var d := Part(f.puppo, PUPPO);
    assert Parts(f) == a + (b + (c + (d + "")));
    StripPart(f.doggo, DOGGO, b + (c + (d + "")));
    StripPart(f.floofer, FLOOFER, c + (d + ""));
    StripPart(f.pupper, PUPPER, d + "");
    StripPart(f.puppo, PUPPO, "");
  }

  /** Every character of a concatenation is a lower-case letter. */
  lemma PartsLetters(f: Flags)
    ensures forall i :: 0 <= i < |Parts(f)| ==> IsLowerChar(Parts(f)[i])
  {
    assert forall i :: 0 <= i < |DOGGO| ==> IsLowerChar(DOGGO[i]);
    assert forall i :: 0 <= i < |FLOOFER| ==> IsLowerChar(FLOOFER[i]);
    assert forall i :: 0 <= i < |PUPPER| ==> IsLowerChar(PUPPER[i]);
    assert forall i :: 0 <= i < |PUPPO| ==> IsLowerChar(PUPPO[i]);
  }

  /** The stage loses nothing: every set of markers is read back from the
      stage it produces. */
  lemma StageRoundTrip(f: Flags)
    ensures StageFlags(StageName(f)) == Some(f)
  {
    var c := Parts(f);
    if f == NO_FLAGS {
      assert c == "";
    } else if RenamedPair(f) {
      assert DOGGO + PUPPER == "doggopupper";
      assert DOGGO + PUPPO == "doggopuppo";
      assert DOGGO + FLOOFER == "doggofloofer";
      if f == Flags(true, false, true, false) {
        assert c == DOGGO + "" + PUPPER + "" == DOGGO + PUPPER;
      } else if f == Flags(true, false, false, true) {
        assert c == DOGGO + "" + "" + PUPPO == DOGGO + PUPPO;
      } else {
        assert c == DOGGO + FLOOFER + "" + "" == DOGGO + FLOOFER;
      }
    } else {
      ReadPartsOfParts(f);
      ReadPartsOfParts(Flags(true, false, true, false));
      ReadPartsOfParts(Flags(true, false, false, true));
      ReadPartsOfParts(Flags(true, true, false, false));
      assert c != "" by {
        assert Parts(f) == "" ==> ReadParts(Parts(f)) == ReadParts(Parts(NO_FLAGS));
        ReadPartsOfParts(NO_FLAGS);
      }
      assert StageName(f) == c;
      PartsLetters(f);
      assert c[0] != NONE_TEXT[0];
      assert c != "doggo,pupper" && c != "doggo,puppo" && c != "doggo,floofer" by {
        if |c| > 5 { assert IsLowerChar(c[5]); }
      }
    }
  }

  lemma BlankWellFormed(c: Cell, name: string)
    requires WellFormedMarker(c, name) && name != NONE_TEXT
    ensures BlankMarker(c) == Str(Part(c == Str(name), name))
  {
  }

  /** For markers as the archive writes them, the consolidated stage is one
      of the sixteen StageName values, and StageFlags recovers from it
      exactly which markers were set. */
  lemma StageOfMarkers(doggo: Cell, floofer: Cell, pupper: Cell, puppo: Cell)
    requires WellFormedMarker(doggo, DOGGO) && WellFormedMarker(floofer, FLOOFER)
    requires WellFormedMarker(pupper, PUPPER) && WellFormedMarker(puppo, PUPPO)
    ensures var f := Flags(doggo == Str(DOGGO), floofer == Str(FLOOFER), pupper == Str(PUPPER), puppo == Str(PUPPO));
      && DogStage(BlankMarker(doggo), BlankMarker(floofer), BlankMarker(pupper), BlankMarker(puppo)) == Str(StageName(f))
      && StageFlags(StageName(f)) == Some(f)
  {
    var f := Flags(doggo == Str(DOGGO), floofer == Str(FLOOFER), pupper == Str(PUPPER), puppo == Str(PUPPO));
    BlankWellFormed(doggo, DOGGO);
    BlankWellFormed(floofer, FLOOFER);
    BlankWellFormed(pupper, PUPPER);
    BlankWellFormed(puppo, PUPPO);
    StageRoundTrip(f);
  }
}
