/** Ids with optional versions, as multi-fetch calls take them: order, text, and the parsing of a list. */
module IdVersions {
  import opened Common
  import opened Decimal
  import opened Sorting

  datatype IdVersion = IdVersion(id: nat, version: Option<nat>) {
    /** The ranges of the stored types. */
    predicate InRange() { id <= MAX_UINT64 && (version.Some? ==> version.value <= MAX_UINT32) }
  }

  /** An id without a version comes after the same id with any version. */
  predicate Less(a: IdVersion, b: IdVersion) {
    a.id < b.id
    || (a.id == b.id && a.version.Some? && (b.version.None? || a.version.value < b.version.value))
  }

  predicate LessOrEqual(a: IdVersion, b: IdVersion) { Less(a, b) || a == b }

  predicate Greater(a: IdVersion, b: IdVersion) { !LessOrEqual(a, b) }

  predicate GreaterOrEqual(a: IdVersion, b: IdVersion) { !Less(a, b) }

  /** A strict total order: exactly one of less, equal and greater, and transitive. */
  lemma {:induction false} StrictTotalOrder(a: IdVersion, b: IdVersion, c: IdVersion)
    ensures !Less(a, a) && (Less(a, b) && Less(b, c) ==> Less(a, c))
    ensures a != b ==> Less(a, b) != Less(b, a)
    ensures Greater(a, b) <==> Less(b, a)
    ensures GreaterOrEqual(a, b) <==> LessOrEqual(b, a)
  {
    if a.id == b.id && a.version.None? && b.version.None? {
      assert a == b;
    }
  }

  lemma {:induction false} OrderForSorting()
    ensures TotalPreorder(LessOrEqual)
  {
    forall a: IdVersion, b: IdVersion
      ensures LessOrEqual(a, b) || LessOrEqual(b, a)
    {
      StrictTotalOrder(a, b, a);
    }
    forall a: IdVersion, b: IdVersion, c: IdVersion | LessOrEqual(a, b) && LessOrEqual(b, c)
      ensures LessOrEqual(a, c)
    {
      StrictTotalOrder(a, b, c);
    }
  }

  lemma {:induction false} OrderSeparates(s: seq<IdVersion>)
    ensures Separates(LessOrEqual, s)
  {
    forall i, j | 0 <= i < |s| && 0 <= j < |s| && LessOrEqual(s[i], s[j]) && LessOrEqual(s[j], s[i])
      ensures s[i] == s[j]
    {
      StrictTotalOrder(s[i], s[j], s[i]);
    }
  }

  /** The order is that of numbers: the id first, and no version counted as one above every version. */
  lemma {:induction false} OrderIsNumeric(a: IdVersion, b: IdVersion)
    requires a.InRange() && b.InRange()
    ensures Less(a, b) <==>
      a.id * 0x2_0000_0000 + (if a.version.Some? then a.version.value else 0x1_0000_0000)
      < b.id * 0x2_0000_0000 + (if b.version.Some? then b.version.value else 0x1_0000_0000)
  {
  }

  // ---------- split ----------

  /** Pieces between delimiters, of which there is always one. */
  function Pieces(s: string, d: char): (r: seq<string>)
    ensures r != []
  {
    if s == "" then [""]
    else
      var rest := Pieces(s[1..], d);
      if s[0] == d then [""] + rest else [[s[0]] + rest[0]] + rest[1..]
  }

  /** `views::split` of an empty string has no pieces at all. */
  function Split(s: string, d: char): seq<string> { if s == "" then [] else Pieces(s, d) }

  lemma {:induction false} PiecesOfOne(p: string, d: char)
    requires d !in p
    ensures Pieces(p, d) == [p]
    decreases |p|
  {
    if p != "" {
      PiecesOfOne(p[1..], d);
      assert [p[0]] + p[1..] == p;
    }
  }

  lemma {:induction false} PiecesOfMore(p: string, d: char, rest: string)
    requires d !in p
    ensures Pieces(p + [d] + rest, d) == [p] + Pieces(rest, d)
    decreases |p|
  {
    if p == "" {
      assert (p + [d] + rest)[1..] == rest;
    } else {
      PiecesOfMore(p[1..], d, rest);
      assert (p + [d] + rest)[1..] == p[1..] + [d] + rest;
      assert [p[0]] + p[1..] == p;
      assert ([p[1..]] + Pieces(rest, d))[1..] == Pieces(rest, d);
    }
  }

  // ---------- One id ----------

  /** Ruby's `to_i`: zero when the text is not a number of the type. */
  function ParseRubyNumber(s: string, hi: nat): nat {
    match FromChars(s, 0, hi)
    case Number(v) => v
    case _ => 0
  }

  function ParseSingleId(s: string): IdVersion {
    var parts := Split(s, 'v');
    if |parts| == 1 then IdVersion(ParseRubyNumber(parts[0], MAX_UINT64), None)
    else if |parts| == 2 then
      IdVersion(ParseRubyNumber(parts[0], MAX_UINT64), Some(ParseRubyNumber(parts[1], MAX_UINT32)))
    else IdVersion(0, None)
  }

  /**
   For every text, by its leading digits: their value if there are any and it fits the type, otherwise 0. Signs are not
   read, and what follows the digits is ignored.
   */
  lemma {:induction false} RubyNumberExactly(digits: string, rest: string, hi: nat)
    requires AllDigits(digits) && (rest != "" ==> !IsDigit(rest[0]))
    ensures ParseRubyNumber(digits + rest, hi) == if digits != "" && Value(digits) <= hi then Value(digits) else 0
  {
    NumeralIsRead(false, digits, rest, 0, hi);
    assert "" + digits + rest == digits + rest;
  }

  /** For every text, by its letters `v`: without one an id, with one an id and a version, with more neither. */
  lemma {:induction false} SingleIdExactly(id: string, version: string, rest: string)
    requires 'v' !in id && 'v' !in version
    ensures id != "" ==> ParseSingleId(id) == IdVersion(ParseRubyNumber(id, MAX_UINT64), None)
    ensures ParseSingleId(id + "v" + version) ==
      IdVersion(ParseRubyNumber(id, MAX_UINT64), Some(ParseRubyNumber(version, MAX_UINT32)))
    ensures ParseSingleId(id + "v" + version + "v" + rest) == IdVersion(0, None)
  {
    PiecesOfOne(id, 'v');
    PiecesOfMore(id, 'v', version);
    PiecesOfOne(version, 'v');
    assert id + "v" + version == id + ['v'] + version;
    PiecesOfMore(version, 'v', rest);
    PiecesOfMore(id, 'v', version + ['v'] + rest);
    assert id + "v" + version + "v" + rest == id + ['v'] + (version + ['v'] + rest);
  }

  function PrintId(i: IdVersion): string {
    if i.version.Some? then Print(i.id) + "v" + Print(i.version.value) else Print(i.id)
  }

  lemma {:induction false} DigitsOnly(s: string, d: char)
    requires AllDigits(s) && !IsDigit(d)
    ensures d !in s
  {
  }

  lemma {:induction false} PrintedNumberIsRead(n: nat, hi: nat)
    requires n <= hi
    ensures ParseRubyNumber(Print(n), hi) == n
  {
    PrintedIsRead(n, "", 0, hi);
    assert Print(n) + "" == Print(n);
  }

  lemma {:induction false} SingleIdRoundTrip(i: IdVersion)
    requires i.InRange()
    ensures ParseSingleId(PrintId(i)) == i && PrintId(i) != "" && ',' !in PrintId(i)
  {
    var id := Print(i.id);
    DigitsOnly(id, 'v');
    DigitsOnly(id, ',');
    PrintedNumberIsRead(i.id, MAX_UINT64);
    if i.version.Some? {
      var version := Print(i.version.value);
      DigitsOnly(version, 'v');
      DigitsOnly(version, ',');
      PiecesOfMore(id, 'v', version);
      PiecesOfOne(version, 'v');
      PrintedNumberIsRead(i.version.value, MAX_UINT32);
      assert id + ['v'] + version == PrintId(i);
    } else {
      PiecesOfOne(id, 'v');
    }
  }

  // ---------- Lists ----------

  function ParsePieces(pieces: seq<string>): seq<IdVersion> {
    if pieces == [] then []
    else (if pieces[0] == "" then [] else [ParseSingleId(pieces[0])]) + ParsePieces(pieces[1..])
  }

  /** The ids of a comma-separated text, in the order of the text; empty pieces are skipped. */
  function Requested(str: string): seq<IdVersion> { ParsePieces(Split(str, ',')) }

  lemma {:induction false} ParsePiecesSnoc(pieces: seq<string>, p: string)
    ensures ParsePieces(pieces + [p]) == ParsePieces(pieces) + (if p == "" then [] else [ParseSingleId(p)])
    decreases |pieces|
  {
    if pieces == [] {
      assert ([] + [p])[1..] == [];
    } else {
      assert (pieces + [p])[1..] == pieces[1..] + [p];
      ParsePiecesSnoc(pieces[1..], p);
      var first := if pieces[0] == "" then [] else [ParseSingleId(pieces[0])];
      var last := if p == "" then [] else [ParseSingleId(p)];
      assert first + (ParsePieces(pieces[1..]) + last) == first + ParsePieces(pieces[1..]) + last;
    }
  }

  lemma {:induction false} OnePiece(piece: string)
    ensures ParsePieces([piece]) == if piece == "" then [] else [ParseSingleId(piece)]
  {
    assert [piece][1..] == [];
    assert ParsePieces([]) == [];
  }

  /** For every text, by its commas: each piece that is not empty requests one id, in the order of the text. */
  lemma {:induction false} RequestedExactly(piece: string, rest: string)
    requires ',' !in piece
    ensures Requested(piece) == if piece == "" then [] else [ParseSingleId(piece)]
    ensures Requested(piece + "," + rest) == Requested(piece) + Requested(rest)
  {
    PiecesOfOne(piece, ',');
    PiecesOfMore(piece, ',', rest);
    assert piece + "," + rest == piece + [','] + rest;
    OnePiece(piece);
    assert ([piece] + Pieces(rest, ','))[1..] == Pieces(rest, ',');
    OnePiece("");
  }

  /** The answer is sorted, free of duplicates, and holds what the text requests. */
  ghost predicate IsIdList(str: string, ids: seq<IdVersion>) {
    Sorted(LessOrEqual, ids) && NoDuplicates(ids) && forall i :: i in ids <==> i in Requested(str)
  }

  method ParseIdList(str: string) returns (myids: seq<IdVersion>)
    ensures IsIdList(str, myids)
  {
    myids := [];
    if str == "" {
      return;
    }
    var idStrings := Split(str, ',');
    for k := 0 to |idStrings|
      invariant myids == ParsePieces(idStrings[..k])
    {
      assert idStrings[..k + 1] == idStrings[..k] + [idStrings[k]];
      ParsePiecesSnoc(idStrings[..k], idStrings[k]);
      if idStrings[k] != "" {
        myids := myids + [ParseSingleId(idStrings[k])];
      }
    }
    assert idStrings[..|idStrings|] == idStrings;
    OrderForSorting();
    var sorted := Sort(LessOrEqual, myids);
    OrderSeparates(sorted);
    forall i
      ensures i in sorted <==> i in myids
    {
      assert i in multiset(sorted) <==> i in multiset(myids);
    }
    myids := Unique(LessOrEqual, sorted);
  }

  function JoinIds(ids: seq<IdVersion>): string {
    if ids == [] then "" else if |ids| == 1 then PrintId(ids[0]) else PrintId(ids[0]) + "," + JoinIds(ids[1..])
  }

  lemma {:induction false} ParsePiecesCons(i: IdVersion, rest: seq<string>)
    requires i.InRange()
    ensures ParsePieces([PrintId(i)] + rest) == [i] + ParsePieces(rest)
  {
    SingleIdRoundTrip(i);
    assert ([PrintId(i)] + rest)[1..] == rest;
  }

  lemma {:induction false} PiecesOfJoined(ids: seq<IdVersion>)
    requires ids != [] && forall k :: 0 <= k < |ids| ==> ids[k].InRange()
    ensures JoinIds(ids) != "" && ParsePieces(Pieces(JoinIds(ids), ',')) == ids
    decreases |ids|
  {
    var p := PrintId(ids[0]);
    SingleIdRoundTrip(ids[0]);
    if |ids| == 1 {
      PiecesOfOne(p, ',');
      ParsePiecesCons(ids[0], []);
      assert [p] + [] == [p];
      assert ids == [ids[0]] + [];
    } else {
      PiecesOfJoined(ids[1..]);
      PiecesOfMore(p, ',', JoinIds(ids[1..]));
      ParsePiecesCons(ids[0], Pieces(JoinIds(ids[1..]), ','));
      assert ids == [ids[0]] + ids[1..];
    }
  }

  /** Round trip: parsing the printed form of a sorted list without duplicates can only return that list. */
  lemma {:induction false} PrintedListIsReadBack(ids: seq<IdVersion>, answer: seq<IdVersion>)
    requires Sorted(LessOrEqual, ids) && NoDuplicates(ids) && forall k :: 0 <= k < |ids| ==> ids[k].InRange()
    requires IsIdList(JoinIds(ids), answer)
    ensures answer == ids
  {
    assert Requested(JoinIds(ids)) == ids by {
      if ids != [] {
        PiecesOfJoined(ids);
      }
    }
    SameElements(answer, ids);
    OrderSeparates(answer);
    SortedIsUnique(LessOrEqual, answer, ids);
  }
}
