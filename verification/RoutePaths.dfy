/** Which handler the default table calls for a request, on the text of the path and of the method. */
module RoutePaths {
  import opened Common
  import opened Decimal
  import opened Router
  import opened Routes

  /** The method of a request is named by its text, and by no other. */
  lemma {:induction false} MethodTexts(s: string)
    ensures ParseMethod(s) == Some(GET) <==> s == "GET"
    ensures ParseMethod(s) == Some(POST) <==> s == "POST"
    ensures ParseMethod(s) == Some(PUT) <==> s == "PUT"
    ensures ParseMethod(s) == Some(HEAD) <==> s == "HEAD"
    ensures ParseMethod(s) == Some(OPTIONS) <==> s == "OPTIONS"
  {
    assert |"GET"| == |"PUT"| == 3 && "GET"[0] == 'G' && "PUT"[0] == 'P';
    assert |"POST"| == |"HEAD"| == 4 && "POST"[0] == 'P' && "HEAD"[0] == 'H';
    assert |"OPTIONS"| == 7;
  }

  /** For this request no handler's constructor throws. */
  predicate NothingRefused(p: seq<string>, refuses: Refusals) {
    NoneRefuses(GET_RULES, p, refuses) && NoneRefuses(POST_RULES, p, refuses) && NoneRefuses(PUT_RULES, p, refuses)
  }

  predicate Reaches(p: seq<string>, m: Method, refuses: Refusals, handler: Handler, ids: seq<nat>) {
    NothingRefused(p, refuses) ==>
      var a := Dispatch(GET_RULES, POST_RULES, PUT_RULES, p, Some(m), refuses);
      a.Route? && a.rule.handler == handler && a.ids == ids
  }

  lemma {:induction false} PassedIsNoRoute(rules: seq<Rule>, p: seq<string>, allowed: bool, refuses: Refusals)
    requires !allowed && NoneRefuses(rules, p, refuses)
    ensures Decide(Applicable(rules, p, allowed), p, refuses) == NoRoute
  {
    GroupPassed(rules, p, allowed, refuses);
    var c := Applicable(rules, p, allowed);
    var k := DecidedByFirst(c, p, refuses);
  }

  lemma {:induction false} NoMatchIsNoRoute(rules: seq<Rule>, p: seq<string>, allowed: bool, refuses: Refusals)
    requires !Matching(rules, p)
    ensures Decide(Applicable(rules, p, allowed), p, refuses) == NoRoute
  {
    NoneApplies(rules, p, allowed);
  }

  /** The path printed from a rule of a group matches that rule of the group and is decided upon by it. */
  lemma {:induction false} RuleDecides(rules: seq<Rule>, i: nat, ids: seq<nat>, p: seq<string>, refuses: Refusals)
    requires i < |rules| && |ids| == IdCount(rules[i].pattern) && IdsInRange(ids)
    requires p == PathOf(rules[i].pattern, ids) && Unambiguous(rules, p)
    ensures Applies(rules[i], p)
    ensures NoneRefuses(rules, p, refuses) ==> Decide(Applicable(rules, p, true), p, refuses) == Route(rules[i], ids)
  {
    PrintedPathMatches(rules[i].pattern, ids);
    SoleApplicable(rules, i, p, true);
    if NoneRefuses(rules, p, refuses) {
      DecideSingle(Candidate(rules[i], true), p, refuses);
    }
  }

  lemma {:induction false} GetReaches(i: nat, ids: seq<nat>, p: seq<string>, m: Method, refuses: Refusals)
    requires i < |GET_RULES| && |ids| == IdCount(GET_RULES[i].pattern) && IdsInRange(ids)
    requires p == PathOf(GET_RULES[i].pattern, ids) && (m == GET || m == HEAD || m == OPTIONS)
    ensures Reaches(p, m, refuses, GET_RULES[i].handler, ids)
  {
    GetUnambiguous(p);
    RuleDecides(GET_RULES, i, ids, p, refuses);
    DecideGroups(GET_RULES, POST_RULES, PUT_RULES, p, m, refuses);
  }

  /** A PUT passes the rules of the other groups; OPTIONS does where none of GET applies. */
  lemma {:induction false} PutReaches(i: nat, ids: seq<nat>, p: seq<string>, m: Method, refuses: Refusals)
    requires i < |PUT_RULES| && |ids| == IdCount(PUT_RULES[i].pattern) && IdsInRange(ids)
    requires p == PathOf(PUT_RULES[i].pattern, ids) && (m == PUT || (m == OPTIONS && i < 2))
    ensures Reaches(p, m, refuses, PUT_RULES[i].handler, ids)
  {
    PutUnambiguous(p);
    RuleDecides(PUT_RULES, i, ids, p, refuses);
    if NothingRefused(p, refuses) {
      DecideGroups(GET_RULES, POST_RULES, PUT_RULES, p, m, refuses);
      if m == PUT {
        PassedIsNoRoute(GET_RULES, p, false, refuses);
        PassedIsNoRoute(POST_RULES, p, false, refuses);
      } else {
        PutAlone(i, p);
        NoMatchIsNoRoute(GET_RULES, p, true, refuses);
        NoMatchIsNoRoute(POST_RULES, p, true, refuses);
      }
    }
  }

  lemma {:induction false} PutAlone(i: nat, p: seq<string>)
    requires i < 2 && Applies(PUT_RULES[i], p)
    ensures !Matching(GET_RULES, p) && !Matching(POST_RULES, p)
  {
    if i == 0 {
      CloseIsAlone(p);
    } else {
      CreateIsAlone(p);
    }
    if Matching(POST_RULES, p) {
      UploadIsAlone(p);
      assert Matching(PUT_RULES, p);
    }
  }

  lemma {:induction false} PostReaches(ids: seq<nat>, p: seq<string>, m: Method, refuses: Refusals)
    requires |ids| == IdCount(POST_RULES[0].pattern) && IdsInRange(ids)
    requires p == PathOf(POST_RULES[0].pattern, ids) && (m == POST || m == OPTIONS)
    ensures Reaches(p, m, refuses, ChangesetUpload, ids)
  {
    RuleDecides(POST_RULES, 0, ids, p, refuses);
    UploadIsAlone(p);
    NoMatchIsNoRoute(GET_RULES, p, IsGet(m), refuses);
    DecideGroups(GET_RULES, POST_RULES, PUT_RULES, p, m, refuses);
  }

  // ---------- The paths, as text ----------

  lemma {:induction false} PathOfOne(a: string)
    ensures IdCount([Literal(a)]) == 0 && PathOf([Literal(a)], []) == [a]
  {
    assert [Literal(a)][1..] == [];
  }

  lemma {:induction false} PathOfTwo(a: string, n: nat)
    ensures IdCount([Literal(a), OsmId]) == 1 && PathOf([Literal(a), OsmId], [n]) == [a, Print(n)]
  {
    assert [Literal(a), OsmId][1..] == [OsmId] && [OsmId][1..] == [] && [n][1..] == [];
    assert PathOf([OsmId], [n]) == [Print(n)];
  }

  lemma {:induction false} PathOfLiterals(a: string, b: string)
    ensures IdCount([Literal(a), Literal(b)]) == 0 && PathOf([Literal(a), Literal(b)], []) == [a, b]
  {
    assert [Literal(a), Literal(b)][1..] == [Literal(b)];
    PathOfOne(b);
  }

  lemma {:induction false} PathOfThree(a: string, n: nat, b: string)
    ensures IdCount([Literal(a), OsmId, Literal(b)]) == 1
    ensures PathOf([Literal(a), OsmId, Literal(b)], [n]) == [a, Print(n), b]
  {
    var pattern := [Literal(a), OsmId, Literal(b)];
    assert pattern[1..] == [OsmId, Literal(b)] && pattern[1..][1..] == [Literal(b)] && [n][1..] == [];
    PathOfOne(b);
    assert PathOf(pattern[1..], [n]) == [Print(n), b];
  }

  lemma {:induction false} PathOfVersion(a: string, n: nat, v: nat)
    ensures IdCount([Literal(a), OsmId, OsmId]) == 2
    ensures PathOf([Literal(a), OsmId, OsmId], [n, v]) == [a, Print(n), Print(v)]
  {
    var pattern := [Literal(a), OsmId, OsmId];
    assert pattern[1..] == [OsmId, OsmId] && pattern[1..][1..] == [OsmId] && [OsmId][1..] == [];
    assert [n, v][1..] == [v] && [v][1..] == [];
    assert PathOf([OsmId], [v]) == [Print(v)];
    assert PathOf(pattern[1..], [n, v]) == [Print(n), Print(v)];
  }

  predicate Reads(m: Method) { m == GET || m == HEAD || m == OPTIONS }

  predicate IsId(n: nat) { 1 <= n <= MAX_UINT64 }

  lemma {:induction false} ListReaches(i: nat, p: seq<string>, m: Method, refuses: Refusals)
    requires Reads(m) && i < |GET_RULES| && |p| == 1 && GET_RULES[i].pattern == [Literal(p[0])]
    ensures Reaches(p, m, refuses, GET_RULES[i].handler, [])
  {
    PathOfOne(p[0]);
    assert p == [p[0]];
    GetReaches(i, [], p, m, refuses);
  }

  lemma {:induction false} ListPaths(p: seq<string>, m: Method, refuses: Refusals)
    requires Reads(m) && |p| == 1
    ensures p[0] == "map" ==> Reaches(p, m, refuses, Map, [])
    ensures p[0] == "nodes" ==> Reaches(p, m, refuses, Nodes, [])
    ensures p[0] == "ways" ==> Reaches(p, m, refuses, Ways, [])
    ensures p[0] == "relations" ==> Reaches(p, m, refuses, Relations, [])
  {
    if p[0] == "map" {
      ListReaches(0, p, m, refuses);
    }
    if p[0] == "nodes" {
      ListReaches(6, p, m, refuses);
    }
    if p[0] == "ways" {
      ListReaches(12, p, m, refuses);
    }
    if p[0] == "relations" {
      ListReaches(18, p, m, refuses);
    }
  }

  lemma {:induction false} CurrentReaches(i: nat, kind: string, n: nat, m: Method, refuses: Refusals)
    requires Reads(m) && IsId(n) && i < |GET_RULES| && GET_RULES[i].pattern == [Literal(kind), OsmId]
    ensures Reaches([kind, Print(n)], m, refuses, GET_RULES[i].handler, [n])
  {
    PathOfTwo(kind, n);
    GetReaches(i, [n], [kind, Print(n)], m, refuses);
  }

  lemma {:induction false} VersionReaches(i: nat, kind: string, n: nat, v: nat, m: Method, refuses: Refusals)
    requires Reads(m) && IsId(n) && IsId(v)
    requires i < |GET_RULES| && GET_RULES[i].pattern == [Literal(kind), OsmId, OsmId]
    ensures Reaches([kind, Print(n), Print(v)], m, refuses, GET_RULES[i].handler, [n, v])
  {
    PathOfVersion(kind, n, v);
    GetReaches(i, [n, v], [kind, Print(n), Print(v)], m, refuses);
  }

  lemma {:induction false} SubPathReaches(i: nat, kind: string, n: nat, part: string, m: Method, refuses: Refusals)
    requires Reads(m) && IsId(n)
    requires i < |GET_RULES| && GET_RULES[i].pattern == [Literal(kind), OsmId, Literal(part)]
    ensures Reaches([kind, Print(n), part], m, refuses, GET_RULES[i].handler, [n])
  {
    PathOfThree(kind, n, part);
    GetReaches(i, [n], [kind, Print(n), part], m, refuses);
  }

  lemma {:induction false} NodePaths(n: nat, v: nat, m: Method, refuses: Refusals)
    requires Reads(m) && IsId(n) && IsId(v)
    ensures Reaches(["node", Print(n)], m, refuses, NodeCurrent, [n])
    ensures Reaches(["node", Print(n), Print(v)], m, refuses, NodeVersion, [n, v])
    ensures Reaches(["node", Print(n), "history"], m, refuses, NodeHistory, [n])
    ensures Reaches(["node", Print(n), "ways"], m, refuses, NodeWays, [n])
    ensures Reaches(["node", Print(n), "relations"], m, refuses, NodeRelations, [n])
  {
    CurrentReaches(5, "node", n, m, refuses);
    VersionReaches(4, "node", n, v, m, refuses);
    SubPathReaches(3, "node", n, "history", m, refuses);
    SubPathReaches(1, "node", n, "ways", m, refuses);
    SubPathReaches(2, "node", n, "relations", m, refuses);
  }

  lemma {:induction false} WayPaths(n: nat, v: nat, m: Method, refuses: Refusals)
    requires Reads(m) && IsId(n) && IsId(v)
    ensures Reaches(["way", Print(n)], m, refuses, WayCurrent, [n])
    ensures Reaches(["way", Print(n), Print(v)], m, refuses, WayVersion, [n, v])
    ensures Reaches(["way", Print(n), "history"], m, refuses, WayHistory, [n])
    ensures Reaches(["way", Print(n), "full"], m, refuses, WayFull, [n])
    ensures Reaches(["way", Print(n), "relations"], m, refuses, WayRelations, [n])
  {
    CurrentReaches(11, "way", n, m, refuses);
    VersionReaches(10, "way", n, v, m, refuses);
    SubPathReaches(9, "way", n, "history", m, refuses);
    SubPathReaches(7, "way", n, "full", m, refuses);
    SubPathReaches(8, "way", n, "relations", m, refuses);
  }

  lemma {:induction false} RelationPaths(n: nat, v: nat, m: Method, refuses: Refusals)
    requires Reads(m) && IsId(n) && IsId(v)
    ensures Reaches(["relation", Print(n)], m, refuses, RelationCurrent, [n])
    ensures Reaches(["relation", Print(n), Print(v)], m, refuses, RelationVersion, [n, v])
    ensures Reaches(["relation", Print(n), "history"], m, refuses, RelationHistory, [n])
    ensures Reaches(["relation", Print(n), "full"], m, refuses, RelationFull, [n])
    ensures Reaches(["relation", Print(n), "relations"], m, refuses, RelationRelations, [n])
  {
    CurrentReaches(17, "relation", n, m, refuses);
    VersionReaches(16, "relation", n, v, m, refuses);
    SubPathReaches(15, "relation", n, "history", m, refuses);
    SubPathReaches(13, "relation", n, "full", m, refuses);
    SubPathReaches(14, "relation", n, "relations", m, refuses);
  }

  lemma {:induction false} ChangesetPaths(n: nat, m: Method, refuses: Refusals)
    requires IsId(n)
    ensures Reads(m) ==> Reaches(["changeset", Print(n)], m, refuses, ChangesetCurrent, [n])
    ensures Reads(m) ==> Reaches(["changeset", Print(n), "download"], m, refuses, ChangesetDownload, [n])
    ensures m == POST || m == OPTIONS ==> Reaches(["changeset", Print(n), "upload"], m, refuses, ChangesetUpload, [n])
    ensures m == PUT || m == OPTIONS ==> Reaches(["changeset", Print(n), "close"], m, refuses, ChangesetClose, [n])
    ensures m == PUT || m == OPTIONS ==> Reaches(["changeset", "create"], m, refuses, ChangesetCreate, [])
    ensures m == PUT ==> Reaches(["changeset", Print(n)], m, refuses, ChangesetUpdate, [n])
  {
    PathOfTwo("changeset", n);
    PathOfThree("changeset", n, "download");
    PathOfThree("changeset", n, "upload");
    PathOfThree("changeset", n, "close");
    PathOfLiterals("changeset", "create");
    if Reads(m) {
      GetReaches(20, [n], ["changeset", Print(n)], m, refuses);
      GetReaches(19, [n], ["changeset", Print(n), "download"], m, refuses);
    }
    if m == POST || m == OPTIONS {
      PostReaches([n], ["changeset", Print(n), "upload"], m, refuses);
    }
    if m == PUT || m == OPTIONS {
      PutReaches(0, [n], ["changeset", Print(n), "close"], m, refuses);
      PutReaches(1, [], ["changeset", "create"], m, refuses);
    }
    if m == PUT {
      PutReaches(2, [n], ["changeset", Print(n)], m, refuses);
    }
  }
}
