/** The osmChange download of a changeset: elements collected, sorted in place, and written as actions. */
module OsmChangeSort {
  import opened Common
  import opened OsmObjects
  import opened Sorting

  /** A version of an object with the contents that are written out; timestamps are ISO 8601 text. */
  datatype Version = Version(typ: ObjectType, id: nat, version: nat, timestamp: string, visible: bool,
    contents: Element)

  datatype Ordering = LT | EQ | GT

  function CompareNat(a: nat, b: nat): Ordering { if a < b then LT else if a == b then EQ else GT }

  /** Lexicographic comparison of text by code unit. */
  function CompareText(a: string, b: string): Ordering {
    if a == "" then if b == "" then EQ else LT
    else if b == "" then GT
    else if a[0] != b[0] then CompareNat(a[0] as int, b[0] as int)
    else CompareText(a[1..], b[1..])
  }

  function TypeRank(t: ObjectType): nat { match t case Node => 0 case Way => 1 case Relation => 2 }

  function Then(o: Ordering, next: Ordering): Ordering { if o.EQ? then next else o }

  /** Timestamp, then version, then type, then id. */
  function Compare(a: Version, b: Version): Ordering {
    Then(CompareText(a.timestamp, b.timestamp),
         Then(CompareNat(a.version, b.version),
              Then(CompareNat(TypeRank(a.typ), TypeRank(b.typ)), CompareNat(a.id, b.id))))
  }

  predicate AtMost(a: Version, b: Version) { !Compare(a, b).GT? }

  function Reverse(o: Ordering): Ordering { match o case LT => GT case EQ => EQ case GT => LT }

  lemma {:induction false} TextOrder(a: string, b: string)
    ensures CompareText(b, a) == Reverse(CompareText(a, b))
    ensures CompareText(a, b).EQ? <==> a == b
    decreases |a|
  {
    if a != "" && b != "" && a[0] == b[0] {
      TextOrder(a[1..], b[1..]);
      assert a == [a[0]] + a[1..] && b == [b[0]] + b[1..];
    }
  }

  lemma {:induction false} TextTransitive(a: string, b: string, c: string)
    requires !CompareText(a, b).GT? && !CompareText(b, c).GT?
    ensures !CompareText(a, c).GT?
    ensures CompareText(a, c).EQ? ==> CompareText(a, b).EQ? && CompareText(b, c).EQ?
    decreases |a|
  {
    if a != "" && b != "" && c != "" && a[0] == b[0] == c[0] {
      TextTransitive(a[1..], b[1..], c[1..]);
    }
  }

  /** Dictionary order: the texts agree up to a place where the first one ends or has the smaller character. */
  ghost predicate TextBefore(a: string, b: string) { exists n: nat :: SmallerFrom(a, b, n) }

  predicate SmallerFrom(a: string, b: string, n: nat) {
    n <= |a| && n < |b| && a[..n] == b[..n] && (n == |a| || a[n] < b[n])
  }

  lemma {:induction false} SmallerFromNext(a: string, b: string, n: nat)
    requires a != "" && b != "" && a[0] == b[0]
    ensures SmallerFrom(a, b, n + 1) <==> SmallerFrom(a[1..], b[1..], n)
  {
    if n < |a| && n + 1 < |b| {
      assert a[..n + 1] == [a[0]] + a[1..][..n] && b[..n + 1] == [b[0]] + b[1..][..n];
    }
  }

  lemma {:induction false} TextBeforeStep(a: string, b: string)
    requires a != "" && b != "" && a[0] == b[0]
    ensures TextBefore(a, b) <==> TextBefore(a[1..], b[1..])
  {
    if TextBefore(a, b) {
      var n: nat :| SmallerFrom(a, b, n);
      SmallerFromNext(a, b, n - 1);
    }
    if TextBefore(a[1..], b[1..]) {
      var n: nat :| SmallerFrom(a[1..], b[1..], n);
      SmallerFromNext(a, b, n);
    }
  }

  lemma {:induction false} TextOrderExactly(a: string, b: string)
    ensures CompareText(a, b).LT? <==> TextBefore(a, b)
    decreases |a|
  {
    if a != "" && b != "" && a[0] == b[0] {
      TextBeforeStep(a, b);
      TextOrderExactly(a[1..], b[1..]);
    } else if b != "" && (a == "" || a[0] < b[0]) {
      assert SmallerFrom(a, b, 0);
    }
  }

  /** Earlier text of the timestamp, then lower version, then nodes before ways before relations, then lower id. */
  lemma {:induction false} AtMostExactly(a: Version, b: Version)
    ensures AtMost(a, b) <==>
      || TextBefore(a.timestamp, b.timestamp)
      || (&& a.timestamp == b.timestamp
          && (|| a.version < b.version
              || (&& a.version == b.version
                  && (|| (a.typ.Node? && !b.typ.Node?)
                      || (a.typ.Way? && b.typ.Relation?)
                      || (a.typ == b.typ && a.id <= b.id)))))
  {
    TextOrderExactly(a.timestamp, b.timestamp);
    TextOrder(a.timestamp, b.timestamp);
  }

  lemma {:induction false} Order(a: Version, b: Version, c: Version)
    ensures AtMost(a, b) || AtMost(b, a)
    ensures AtMost(a, b) && AtMost(b, c) ==> AtMost(a, c)
    ensures AtMost(a, b) && AtMost(b, a) ==>
      a.timestamp == b.timestamp && a.version == b.version && a.typ == b.typ && a.id == b.id
  {
    TextOrder(a.timestamp, b.timestamp);
    if AtMost(a, b) && AtMost(b, c) {
      TextTransitive(a.timestamp, b.timestamp, c.timestamp);
    }
  }

  lemma {:induction false} OrderForSorting()
    ensures TotalPreorder(AtMost)
  {
    forall a: Version, b: Version
      ensures AtMost(a, b) || AtMost(b, a)
    {
      Order(a, b, a);
    }
    forall a: Version, b: Version, c: Version | AtMost(a, b) && AtMost(b, c)
      ensures AtMost(a, c)
    {
      Order(a, b, c);
    }
  }

  /** No version of an object is selected twice. */
  predicate DistinctVersions(s: seq<Version>) {
    forall i, j :: 0 <= i < |s| && 0 <= j < |s| && s[i].typ == s[j].typ && s[i].id == s[j].id
      && s[i].version == s[j].version
      ==> s[i] == s[j]
  }

  // ---------- Actions ----------

  datatype ActionType = CreateAction | ModifyAction | DeleteAction

  datatype Out = StartAction(action: ActionType) | Write(element: Version) | EndAction(action: ActionType)

  function ActionOf(e: Version): ActionType {
    if e.version == 1 then CreateAction else if e.visible then ModifyAction else DeleteAction
  }

  function Actions(s: seq<Version>): seq<Out> {
    if s == [] then []
    else
      var e := s[|s| - 1];
      Actions(s[..|s| - 1]) + [StartAction(ActionOf(e)), Write(e), EndAction(ActionOf(e))]
  }

  /** Element `e` opened, written and closed as one action. */
  predicate WrittenAs(out: seq<Out>, at: nat, action: ActionType, e: Version) {
    at + 2 < |out| && out[at] == StartAction(action) && out[at + 1] == Write(e) && out[at + 2] == EndAction(action)
  }

  /** Three events for each element: first versions create, visible later versions modify, hidden ones delete. */
  predicate WrittenInOrder(out: seq<Out>, s: seq<Version>) {
    && |out| == 3 * |s|
    && (forall k: nat :: k < |s| && s[k].version == 1 ==> WrittenAs(out, 3 * k, CreateAction, s[k]))
    && (forall k: nat :: k < |s| && s[k].version != 1 && s[k].visible ==> WrittenAs(out, 3 * k, ModifyAction, s[k]))
    && (forall k: nat :: k < |s| && s[k].version != 1 && !s[k].visible ==> WrittenAs(out, 3 * k, DeleteAction, s[k]))
  }

  lemma {:induction false} ActionAt(s: seq<Version>, k: nat)
    requires k < |s|
    ensures |Actions(s)| == 3 * |s| && WrittenAs(Actions(s), 3 * k, ActionOf(s[k]), s[k])
    decreases |s|
  {
    if |s| == 1 {
      assert Actions(s[..|s| - 1]) == [];
    } else {
      ActionAt(s[..|s| - 1], if k < |s| - 1 then k else 0);
    }
  }

  lemma {:induction false} ActionsAreWritten(s: seq<Version>)
    ensures WrittenInOrder(Actions(s), s)
  {
    if s == [] {
      assert Actions(s) == [];
    } else {
      ActionAt(s, 0);
    }
    forall k: nat | k < |s|
      ensures WrittenAs(Actions(s), 3 * k, ActionOf(s[k]), s[k])
    {
      ActionAt(s, k);
    }
  }

  /** The elements written, in order. */
  function Written(out: seq<Out>): seq<Version> {
    if out == [] then [] else (if out[0].Write? then [out[0].element] else []) + Written(out[1..])
  }

  class SortingFormatter {
    var elements: seq<Version>

    constructor ()
      ensures elements == []
    {
      elements := [];
    }

    method WriteElement(e: Version)
      modifies this
      ensures elements == old(elements) + [e]
    {
      elements := elements + [e];
    }

    method Write() returns (out: seq<Out>)
      modifies this
      ensures Sorted(AtMost, elements) && multiset(elements) == multiset(old(elements))
      ensures out == Actions(elements) && WrittenInOrder(out, elements)
    {
      OrderForSorting();
      elements := Sort(AtMost, elements);
      out := [];
      for i := 0 to |elements|
        invariant out == Actions(elements[..i])
        invariant Sorted(AtMost, elements) && multiset(elements) == multiset(old(elements))
      {
        var e := elements[i];
        assert elements[..i + 1][..i] == elements[..i];
        if e.version == 1 {
          out := out + [StartAction(CreateAction), Out.Write(e), EndAction(CreateAction)];
        } else if e.visible {
          out := out + [StartAction(ModifyAction), Out.Write(e), EndAction(ModifyAction)];
        } else {
          out := out + [StartAction(DeleteAction), Out.Write(e), EndAction(DeleteAction)];
        }
      }
      assert elements[..|elements|] == elements;
      ActionsAreWritten(elements);
    }
  }

  // ---------- What the output says ----------

  lemma {:induction false} WrittenConcat(a: seq<Out>, b: seq<Out>)
    ensures Written(a + b) == Written(a) + Written(b)
    decreases |a|
  {
    if a == [] {
      assert a + b == b;
    } else {
      assert (a + b)[1..] == a[1..] + b && (a + b)[0] == a[0];
      WrittenConcat(a[1..], b);
      var first := if a[0].Write? then [a[0].element] else [];
      assert first + (Written(a[1..]) + Written(b)) == first + Written(a[1..]) + Written(b);
    }
  }

  lemma {:induction false} OneAction(a: ActionType, e: Version)
    ensures Written([StartAction(a), Write(e), EndAction(a)]) == [e]
  {
    var last := [StartAction(a), Write(e), EndAction(a)];
    assert last[1..] == [Write(e), EndAction(a)];
    assert last[1..][1..] == [EndAction(a)];
    assert Written([EndAction(a)]) == [] by {
      assert [EndAction(a)][1..] == [];
    }
    assert Written(last[1..]) == [e] + Written(last[1..][1..]);
  }

  /** Every element is written once, in the order of the list. */
  lemma {:induction false} ActionsWriteAll(s: seq<Version>)
    ensures Written(Actions(s)) == s
    decreases |s|
  {
    if s != [] {
      var e := s[|s| - 1];
      ActionsWriteAll(s[..|s| - 1]);
      WrittenConcat(Actions(s[..|s| - 1]), [StartAction(ActionOf(e)), Write(e), EndAction(ActionOf(e))]);
      OneAction(ActionOf(e), e);
    }
  }

  /**
   Whatever the sort does with equal elements: for versions that are distinct by type, id and version, two outputs of
   the same selection, collected in any order, are equal.
   */
  lemma {:induction false} OutputIsDetermined(collected1: seq<Version>, collected2: seq<Version>, s1: seq<Version>,
                                              s2: seq<Version>)
    requires multiset(collected1) == multiset(collected2) && DistinctVersions(collected1)
    requires Sorted(AtMost, s1) && multiset(s1) == multiset(collected1)
    requires Sorted(AtMost, s2) && multiset(s2) == multiset(collected2)
    ensures Actions(s1) == Actions(s2) && multiset(Written(Actions(s1))) == multiset(collected1)
  {
    forall i, j | 0 <= i < |s1| && 0 <= j < |s1| && AtMost(s1[i], s1[j]) && AtMost(s1[j], s1[i])
      ensures s1[i] == s1[j]
    {
      Order(s1[i], s1[j], s1[i]);
      assert s1[i] in multiset(collected1) && s1[j] in multiset(collected1);
    }
    SortedIsUnique(AtMost, s1, s2);
    ActionsWriteAll(s1);
  }

  /** Timestamps of an object do not decrease from a version to a later one. */
  predicate TimestampsFollowVersions(s: seq<Version>) {
    forall i, j :: 0 <= i < |s| && 0 <= j < |s| && s[i].typ == s[j].typ && s[i].id == s[j].id
      && s[i].version < s[j].version
      ==> !CompareText(s[i].timestamp, s[j].timestamp).GT?
  }

  predicate VersionsIncrease(s: seq<Version>) {
    forall i, j :: 0 <= i < j < |s| && s[i].typ == s[j].typ && s[i].id == s[j].id ==> s[i].version <= s[j].version
  }

  /** Each object's versions come out in increasing order exactly when its timestamps follow its versions. */
  lemma {:induction false} OutputFollowsVersionsExactly(collected: seq<Version>, s: seq<Version>)
    requires Sorted(AtMost, s) && multiset(s) == multiset(collected)
    ensures VersionsIncrease(s) <==> TimestampsFollowVersions(collected)
  {
    if TimestampsFollowVersions(collected) {
      forall i, j | 0 <= i < j < |s| && s[i].typ == s[j].typ && s[i].id == s[j].id
        ensures s[i].version <= s[j].version
      {
        assert AtMost(s[i], s[j]);
        assert s[i] in multiset(collected) && s[j] in multiset(collected);
        TextOrder(s[i].timestamp, s[j].timestamp);
      }
    }
    if VersionsIncrease(s) {
      forall i, j | 0 <= i < |collected| && 0 <= j < |collected| && collected[i].typ == collected[j].typ
                    && collected[i].id == collected[j].id && collected[i].version < collected[j].version
        ensures !CompareText(collected[i].timestamp, collected[j].timestamp).GT?
      {
        assert collected[i] in multiset(s) && collected[j] in multiset(s);
        var k :| 0 <= k < |s| && s[k] == collected[i];
        var l :| 0 <= l < |s| && s[l] == collected[j];
        assert k < l;
        assert AtMost(s[k], s[l]);
      }
    }
  }

  lemma {:induction false} TimestampsDiffer(later: string, earlier: string)
    requires later == "2020-01-02T00:00:00Z" && earlier == "2020-01-01T00:00:00Z"
    ensures CompareText(later, earlier).GT?
  {
    var a, b := later[9..], earlier[9..];
    assert a[0] == '2' && b[0] == '1';
    assert later == later[..9] + a && earlier == later[..9] + b;
    CommonPrefix(later[..9], a, b);
  }

  /** The later version with the earlier timestamp is written first. */
  lemma {:induction false} EarlierTimestampComesFirst(e: Element, later: string, earlier: string, out: seq<Version>)
    requires later == "2020-01-02T00:00:00Z" && earlier == "2020-01-01T00:00:00Z"
    requires Sorted(AtMost, out)
    requires multiset(out) == multiset([Version(Node, 1, 1, later, true, e), Version(Node, 1, 2, earlier, true, e)])
    ensures !VersionsIncrease(out)
  {
    var collected := [Version(Node, 1, 1, later, true, e), Version(Node, 1, 2, earlier, true, e)];
    TimestampsDiffer(later, earlier);
    assert collected[0].version < collected[1].version && !TimestampsFollowVersions(collected);
    OutputFollowsVersionsExactly(collected, out);
  }

  lemma {:induction false} CommonPrefix(p: string, a: string, b: string)
    ensures CompareText(p + a, p + b) == CompareText(a, b)
    decreases |p|
  {
    if p == "" {
      assert p + a == a && p + b == b;
    } else {
      CommonPrefix(p[1..], a, b);
      assert (p + a)[1..] == p[1..] + a && (p + b)[1..] == p[1..] + b;
    }
  }
}
