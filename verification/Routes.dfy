/** Rules by method group, dispatch with the 405 answer (section 6.5.5 of RFC 7231), and the default route table. */
module Routes {
  import opened Common
  import opened Decimal
  import opened Router

  datatype Method = GET | POST | PUT | HEAD | OPTIONS

  function ParseMethod(s: string): Option<Method> {
    if s == "GET" then Some(GET)
    else if s == "POST" then Some(POST)
    else if s == "PUT" then Some(PUT)
    else if s == "HEAD" then Some(HEAD)
    else if s == "OPTIONS" then Some(OPTIONS)
    else None
  }

  datatype Handler =
    | Map
    | NodeWays | NodeRelations | NodeHistory | NodeVersion | NodeCurrent | Nodes
    | WayFull | WayRelations | WayHistory | WayVersion | WayCurrent | Ways
    | RelationFull | RelationRelations | RelationHistory | RelationVersion | RelationCurrent | Relations
    | ChangesetDownload | ChangesetUpload | ChangesetClose | ChangesetCreate | ChangesetUpdate | ChangesetCurrent

  /** The methods that a handler allows by itself; the request is tested against them once it is routed. */
  function Own(h: Handler): set<Method> {
    match h
    case ChangesetUpload => {POST, OPTIONS}
    case ChangesetClose => {PUT, OPTIONS}
    case ChangesetCreate => {PUT, OPTIONS}
    case ChangesetUpdate => {PUT, OPTIONS}
    case _ => {GET, HEAD, OPTIONS}
  }

  datatype Rule = Rule(handler: Handler, pattern: seq<Component>)

  /** `root / a / b / …` */
  function Build(pattern: seq<Component>): Matcher {
    if pattern == [] then Begin else And(Build(pattern[..|pattern| - 1]), Leaf(pattern[|pattern| - 1]))
  }

  lemma {:induction false} BuildFlattens(pattern: seq<Component>)
    ensures Flatten(Build(pattern)) == pattern
    decreases |pattern|
  {
    if pattern != [] {
      BuildFlattens(pattern[..|pattern| - 1]);
      assert pattern == pattern[..|pattern| - 1] + [pattern[|pattern| - 1]];
    }
  }

  datatype Answer =
    | NoRoute
    | Route(rule: Rule, ids: seq<nat>)
    | Refused(error: HttpError)
    | MethodNotAllowed(allowed: set<Method>)

  /** Which handlers' constructors throw for the request at hand, and what: they validate the query parameters. */
  type Refusals = Handler -> Option<HttpError>

  predicate Applies(rule: Rule, p: seq<string>) { FlatMatch(rule.pattern, p).Some? }

  predicate Matching(rules: seq<Rule>, p: seq<string>) { exists i :: 0 <= i < |rules| && Applies(rules[i], p) }

  /** A rule that applies to the path, and whether its group serves the method of the request. */
  datatype Candidate = Candidate(rule: Rule, allowed: bool)

  /** The rules of a list that apply, in order. */
  function Applicable(rules: seq<Rule>, p: seq<string>, allowed: bool): seq<Candidate> {
    if rules == [] then []
    else (if Applies(rules[0], p) then [Candidate(rules[0], allowed)] else []) + Applicable(rules[1..], p, allowed)
  }

  function IdsFor(rule: Rule, p: seq<string>): seq<nat> {
    var ids := FlatMatch(rule.pattern, p);
    if ids.Some? then ids.value else []
  }

  /** Each candidate's handler is constructed before the method is looked at, so it may refuse in either case. */
  function Decide(candidates: seq<Candidate>, p: seq<string>, refuses: Refusals): Answer {
    if candidates == [] then NoRoute
    else
      var c := candidates[0];
      if refuses(c.rule.handler).Some? then Refused(refuses(c.rule.handler).value)
      else if c.allowed then Route(c.rule, IdsFor(c.rule, p))
      else Decide(candidates[1..], p, refuses)
  }

  /** The methods that the loops over the three lists answer. */
  predicate IsGet(m: Method) { m == GET || m == HEAD || m == OPTIONS }

  predicate IsPost(m: Method) { m == POST || m == OPTIONS }

  predicate IsPut(m: Method) { m == PUT || m == OPTIONS }

  const GET_GROUP: set<Method> := {GET, HEAD}
  const POST_GROUP: set<Method> := {POST}
  const PUT_GROUP: set<Method> := {PUT}

  class RouteTable {
    var rulesGet: seq<Rule>
    var rulesPost: seq<Rule>
    var rulesPut: seq<Rule>

    constructor ()
      ensures rulesGet == [] && rulesPost == [] && rulesPut == []
    {
      rulesGet, rulesPost, rulesPut := [], [], [];
    }

    method AddGet(rule: Rule)
      modifies `rulesGet
      ensures rulesGet == old(rulesGet) + [rule]
    {
      rulesGet := rulesGet + [rule];
    }

    method AddPost(rule: Rule)
      modifies `rulesPost
      ensures rulesPost == old(rulesPost) + [rule]
    {
      rulesPost := rulesPost + [rule];
    }

    method AddPut(rule: Rule)
      modifies `rulesPut
      ensures rulesPut == old(rulesPut) + [rule]
    {
      rulesPut := rulesPut + [rule];
    }

    static method InvokeRule(rule: Rule, p: seq<string>) returns (sequence: Option<seq<nat>>)
      ensures sequence == FlatMatch(rule.pattern, p)
    {
      BuildFlattens(rule.pattern);
      InvokeIsFlat(Build(rule.pattern), p);
      sequence := InvokeIf(Build(rule.pattern), p);
    }

    /**
     One loop of the matcher: construct the handler of each matching rule; answer with it if the method is allowed, else
     note the group's methods and go on.
     */
    static method TryGroup(rules: seq<Rule>, p: seq<string>, allowed: bool, group: set<Method>, refuses: Refusals)
      returns (r: Answer, methods: set<Method>)
      ensures r == Decide(Applicable(rules, p, allowed), p, refuses)
      ensures r.NoRoute? ==> methods == if Matching(rules, p) then group else {}
    {
      methods := {};
      var i := 0;
      while i < |rules|
        invariant 0 <= i <= |rules|
        invariant Decide(Applicable(rules, p, allowed), p, refuses)
          == Decide(Applicable(rules[i..], p, allowed), p, refuses)
        invariant methods == if Matching(rules[..i], p) then group else {}
      {
        MatchingUpTo(rules, i, p);
        DecideRest(rules, i, p, allowed, refuses);
        var sequence := InvokeRule(rules[i], p);
        if sequence.Some? {
          if refuses(rules[i].handler).Some? {
            return Refused(refuses(rules[i].handler).value), methods;
          }
          if allowed {
            return Route(rules[i], sequence.value), methods;
          }
          methods := methods + group;
        }
        i := i + 1;
      }
      assert rules[..|rules|] == rules;
      r := NoRoute;
    }

    method Match(p: seq<string>, requestMethod: string, refuses: Refusals) returns (r: Answer)
      ensures r == Dispatch(rulesGet, rulesPost, rulesPut, p, ParseMethod(requestMethod), refuses)
    {
      var allowedMethods := {OPTIONS};
      var maybeMethod := ParseMethod(requestMethod);
      if maybeMethod.None? {
        return NoRoute;
      }
      var m := maybeMethod.value;
      DecideGroups(rulesGet, rulesPost, rulesPut, p, m, refuses);
      var more;
      r, more := TryGroup(rulesGet, p, IsGet(m), {GET, HEAD}, refuses);
      if !r.NoRoute? {
        return;
      }
      allowedMethods := allowedMethods + more;
      r, more := TryGroup(rulesPost, p, IsPost(m), {POST}, refuses);
      if !r.NoRoute? {
        return;
      }
      allowedMethods := allowedMethods + more;
      r, more := TryGroup(rulesPut, p, IsPut(m), {PUT}, refuses);
      if !r.NoRoute? {
        return;
      }
      allowedMethods := allowedMethods + more;
      if allowedMethods != {OPTIONS} {
        return MethodNotAllowed(allowedMethods);
      }
      return NoRoute;
    }
  }

  lemma {:induction false} MatchingUpTo(rules: seq<Rule>, i: nat, p: seq<string>)
    requires i < |rules|
    ensures Matching(rules[..i + 1], p) <==> Matching(rules[..i], p) || Applies(rules[i], p)
  {
    assert rules[..i + 1] == rules[..i] + [rules[i]];
    MatchingSnoc(rules[..i], rules[i], p);
  }

  /** One turn of the loop. */
  lemma {:induction false} DecideRest(rules: seq<Rule>, i: nat, p: seq<string>, allowed: bool, refuses: Refusals)
    requires i < |rules|
    ensures Decide(Applicable(rules[i..], p, allowed), p, refuses) ==
      if !Applies(rules[i], p) then Decide(Applicable(rules[i + 1..], p, allowed), p, refuses)
      else if refuses(rules[i].handler).Some? then Refused(refuses(rules[i].handler).value)
      else if allowed then Route(rules[i], IdsFor(rules[i], p))
      else Decide(Applicable(rules[i + 1..], p, allowed), p, refuses)
  {
    assert rules[i..][1..] == rules[i + 1..];
    var rest := Applicable(rules[i + 1..], p, allowed);
    if Applies(rules[i], p) {
      assert ([Candidate(rules[i], allowed)] + rest)[1..] == rest;
    } else {
      assert [] + rest == rest;
    }
  }

  lemma {:induction false} MatchingSnoc(rules: seq<Rule>, rule: Rule, p: seq<string>)
    ensures Matching(rules + [rule], p) <==> Matching(rules, p) || Applies(rule, p)
  {
    var more := rules + [rule];
    assert more[|rules|] == rule;
    forall i | 0 <= i < |rules|
      ensures more[i] == rules[i]
    {
    }
  }

  // ---------- Dispatch ----------

  function Contribution(rules: seq<Rule>, p: seq<string>, group: set<Method>): set<Method> {
    if Matching(rules, p) then group else {}
  }

  /** Every method for which the path has a rule, and OPTIONS. */
  function AllowedFor(get: seq<Rule>, post: seq<Rule>, put: seq<Rule>, p: seq<string>): set<Method> {
    {OPTIONS} + Contribution(get, p, GET_GROUP) + Contribution(post, p, POST_GROUP) + Contribution(put, p, PUT_GROUP)
  }

  /** The candidates of all three groups, in the order of the loops. */
  function Candidates(get: seq<Rule>, post: seq<Rule>, put: seq<Rule>, p: seq<string>, m: Method): seq<Candidate> {
    Applicable(get, p, IsGet(m)) + Applicable(post, p, IsPost(m)) + Applicable(put, p, IsPut(m))
  }

  function Dispatch(get: seq<Rule>, post: seq<Rule>, put: seq<Rule>, p: seq<string>, m: Option<Method>,
                    refuses: Refusals): Answer
  {
    if m.None? then NoRoute
    else
      var decided := Decide(Candidates(get, post, put, p, m.value), p, refuses);
      if !decided.NoRoute? then decided
      else if AllowedFor(get, post, put, p) != {OPTIONS} then MethodNotAllowed(AllowedFor(get, post, put, p))
      else NoRoute
  }

  lemma {:induction false} DecideConcat(a: seq<Candidate>, b: seq<Candidate>, p: seq<string>, refuses: Refusals)
    ensures Decide(a + b, p, refuses) ==
      if Decide(a, p, refuses).NoRoute? then Decide(b, p, refuses) else Decide(a, p, refuses)
    decreases |a|
  {
    if a == [] {
      assert a + b == b;
    } else {
      assert (a + b)[1..] == a[1..] + b;
      DecideConcat(a[1..], b, p, refuses);
    }
  }

  lemma {:induction false} DecideGroups(get: seq<Rule>, post: seq<Rule>, put: seq<Rule>, p: seq<string>, m: Method,
                                        refuses: Refusals)
    ensures Decide(Candidates(get, post, put, p, m), p, refuses) ==
      (var g := Decide(Applicable(get, p, IsGet(m)), p, refuses);
       var o := Decide(Applicable(post, p, IsPost(m)), p, refuses);
       if !g.NoRoute? then g else if !o.NoRoute? then o else Decide(Applicable(put, p, IsPut(m)), p, refuses))
  {
    var g, o := Applicable(get, p, IsGet(m)), Applicable(post, p, IsPost(m));
    DecideConcat(g + o, Applicable(put, p, IsPut(m)), p, refuses);
    DecideConcat(g, o, p, refuses);
  }

  /** The loops go past a candidate when its handler is constructed and its group does not serve the method. */
  predicate Passed(c: Candidate, refuses: Refusals) { refuses(c.rule.handler).None? && !c.allowed }

  predicate AllPassed(candidates: seq<Candidate>, refuses: Refusals) {
    forall i :: 0 <= i < |candidates| ==> Passed(candidates[i], refuses)
  }

  /** The answer is that of the first candidate that is not passed, and none exactly when all are. */
  lemma {:induction false} DecidedByFirst(candidates: seq<Candidate>, p: seq<string>, refuses: Refusals)
    returns (k: nat)
    ensures k <= |candidates| && AllPassed(candidates[..k], refuses)
    ensures k == |candidates| <==> Decide(candidates, p, refuses).NoRoute?
    ensures k < |candidates| ==>
      !Passed(candidates[k], refuses) && Decide(candidates, p, refuses) == Decide([candidates[k]], p, refuses)
    decreases |candidates|
  {
    if candidates == [] || !Passed(candidates[0], refuses) {
      k := 0;
    } else {
      var rest := DecidedByFirst(candidates[1..], p, refuses);
      k := rest + 1;
      assert candidates[..k] == [candidates[0]] + candidates[1..][..rest];
    }
  }

  predicate Served(get: seq<Rule>, post: seq<Rule>, put: seq<Rule>, p: seq<string>) {
    Matching(get, p) || Matching(post, p) || Matching(put, p)
  }

  /** No rule that applies has a handler that refuses the request. */
  predicate NoneRefuses(rules: seq<Rule>, p: seq<string>, refuses: Refusals) {
    forall i :: 0 <= i < |rules| && Applies(rules[i], p) ==> refuses(rules[i].handler).None?
  }

  lemma {:induction false} ApplicableMembers(rules: seq<Rule>, p: seq<string>, allowed: bool)
    ensures forall c :: c in Applicable(rules, p, allowed) <==>
      c.allowed == allowed && c.rule in rules && Applies(c.rule, p)
    decreases |rules|
  {
    if rules != [] {
      ApplicableMembers(rules[1..], p, allowed);
      assert rules == [rules[0]] + rules[1..];
    }
  }

  /** The candidates of a group are passed exactly when none applies, or the method is not served and none refuses. */
  lemma {:induction false} GroupPassed(rules: seq<Rule>, p: seq<string>, allowed: bool, refuses: Refusals)
    ensures AllPassed(Applicable(rules, p, allowed), refuses) <==>
      !Matching(rules, p) || (!allowed && NoneRefuses(rules, p, refuses))
  {
    var c := Applicable(rules, p, allowed);
    ApplicableMembers(rules, p, allowed);
    if AllPassed(c, refuses) {
      forall i | 0 <= i < |rules| && Applies(rules[i], p)
        ensures !allowed && refuses(rules[i].handler).None?
      {
        assert Candidate(rules[i], allowed) in c;
      }
    }
    if !Matching(rules, p) || (!allowed && NoneRefuses(rules, p, refuses)) {
      forall k | 0 <= k < |c|
        ensures Passed(c[k], refuses)
      {
        assert c[k] in c;
        var i :| 0 <= i < |rules| && rules[i] == c[k].rule;
        assert Applies(rules[i], p);
      }
    }
  }

  lemma {:induction false} PassedConcat(a: seq<Candidate>, b: seq<Candidate>, refuses: Refusals)
    ensures AllPassed(a + b, refuses) <==> AllPassed(a, refuses) && AllPassed(b, refuses)
  {
    if AllPassed(a + b, refuses) {
      assert forall i :: 0 <= i < |a| ==> a[i] == (a + b)[i];
      assert forall i :: 0 <= i < |b| ==> b[i] == (a + b)[|a| + i];
    }
  }

  /**
   405 exactly: the path is served, but not for this method, and none of its handlers refuses the request; the methods
   announced are then OPTIONS and those of the matching groups.
   */
  lemma {:induction false} MethodNotAllowedExactly(get: seq<Rule>, post: seq<Rule>, put: seq<Rule>, p: seq<string>,
                                                   m: Method, refuses: Refusals)
    ensures var a := Dispatch(get, post, put, p, Some(m), refuses);
      && (a.MethodNotAllowed? <==>
            && Served(get, post, put, p) && m !in AllowedFor(get, post, put, p)
            && NoneRefuses(get, p, refuses) && NoneRefuses(post, p, refuses) && NoneRefuses(put, p, refuses))
      && (a.MethodNotAllowed? ==> a.allowed == AllowedFor(get, post, put, p))
      && (a.NoRoute? <==> !Served(get, post, put, p))
  {
    var g, o, u := Applicable(get, p, IsGet(m)), Applicable(post, p, IsPost(m)), Applicable(put, p, IsPut(m));
    GroupPassed(get, p, IsGet(m), refuses);
    GroupPassed(post, p, IsPost(m), refuses);
    GroupPassed(put, p, IsPut(m), refuses);
    PassedConcat(g, o, refuses);
    PassedConcat(g + o, u, refuses);
    var k := DecidedByFirst(g + o + u, p, refuses);
    assert k == |g + o + u| ==> (g + o + u)[..k] == g + o + u;
    assert k < |g + o + u| ==> !AllPassed(g + o + u, refuses);
    AllowedMethods(get, post, put, p);
  }

  lemma {:induction false} AllowedMethods(get: seq<Rule>, post: seq<Rule>, put: seq<Rule>, p: seq<string>)
    ensures OPTIONS in AllowedFor(get, post, put, p)
    ensures GET in AllowedFor(get, post, put, p) <==> Matching(get, p)
    ensures HEAD in AllowedFor(get, post, put, p) <==> Matching(get, p)
    ensures POST in AllowedFor(get, post, put, p) <==> Matching(post, p)
    ensures PUT in AllowedFor(get, post, put, p) <==> Matching(put, p)
    ensures AllowedFor(get, post, put, p) != {OPTIONS} <==> Served(get, post, put, p)
  {
    var a := AllowedFor(get, post, put, p);
    assert Matching(get, p) ==> GET in a;
    assert Matching(post, p) ==> POST in a;
    assert Matching(put, p) ==> PUT in a;
  }

  /** The rule belongs to a group that answers the method; every group answers OPTIONS. */
  predicate Serves(rules: seq<Rule>, group: set<Method>, rule: Rule, m: Method) {
    rule in rules && m in group + {OPTIONS}
  }

  /** The handlers of a group allow by themselves what the group answers. */
  predicate OwnFits(rules: seq<Rule>, group: set<Method>) {
    forall i :: 0 <= i < |rules| ==> Own(rules[i].handler) == group + {OPTIONS}
  }

  predicate TableFits(get: seq<Rule>, post: seq<Rule>, put: seq<Rule>) {
    OwnFits(get, GET_GROUP) && OwnFits(post, POST_GROUP) && OwnFits(put, PUT_GROUP)
  }

  /**
   What the other answers mean: a handler that is returned was constructed, matches the path with its ids, and belongs
   to a group that answers the method, so that it allows the method by itself where the table fits; a refusal is that
   of the first candidate that is not passed.
   */
  lemma {:induction false} AnswerMeaning(get: seq<Rule>, post: seq<Rule>, put: seq<Rule>, p: seq<string>, m: Method,
                                         refuses: Refusals)
    returns (k: nat)
    ensures var a := Dispatch(get, post, put, p, Some(m), refuses);
      a.Route? || a.Refused? <==> k < |Candidates(get, post, put, p, m)|
    ensures k < |Candidates(get, post, put, p, m)| ==>
      var a := Dispatch(get, post, put, p, Some(m), refuses); var c := Candidates(get, post, put, p, m)[k];
      && AllPassed(Candidates(get, post, put, p, m)[..k], refuses)
      && (a.Refused? <==> refuses(c.rule.handler).Some?)
      && (a.Refused? ==> refuses(c.rule.handler) == Some(a.error))
      && (a.Route? ==>
            && a.rule == c.rule && refuses(a.rule.handler).None? && FlatMatch(a.rule.pattern, p) == Some(a.ids)
            && (|| Serves(get, GET_GROUP, a.rule, m)
                || Serves(post, POST_GROUP, a.rule, m)
                || Serves(put, PUT_GROUP, a.rule, m))
            && (TableFits(get, post, put) ==> m in Own(a.rule.handler)))
  {
    var c := Candidates(get, post, put, p, m);
    k := DecidedByFirst(c, p, refuses);
    if k < |c| {
      assert [c[k]][1..] == [];
      ApplicableMembers(get, p, IsGet(m));
      ApplicableMembers(post, p, IsPost(m));
      ApplicableMembers(put, p, IsPut(m));
      assert c[k] in c;
    }
  }

  // ---------- What an OPTIONS answer announces ----------

  lemma {:induction false} ApplicableEmpty(rules: seq<Rule>, p: seq<string>, allowed: bool)
    ensures Applicable(rules, p, allowed) == [] <==> !Matching(rules, p)
  {
    var c := Applicable(rules, p, allowed);
    ApplicableMembers(rules, p, allowed);
    if Matching(rules, p) {
      var i :| 0 <= i < |rules| && Applies(rules[i], p);
      assert Candidate(rules[i], allowed) in c;
    }
    if c != [] {
      assert c[0] in c;
      var i :| 0 <= i < |rules| && rules[i] == c[0].rule;
    }
  }

  /** OPTIONS is decided by the first candidate of all, which is of the first group that matches. */
  lemma {:induction false} OptionsGroup(get: seq<Rule>, post: seq<Rule>, put: seq<Rule>, p: seq<string>,
                                        refuses: Refusals)
    requires TableFits(get, post, put) && Dispatch(get, post, put, p, Some(OPTIONS), refuses).Route?
    ensures Own(Dispatch(get, post, put, p, Some(OPTIONS), refuses).rule.handler) ==
      {OPTIONS} + (if Matching(get, p) then GET_GROUP else if Matching(post, p) then POST_GROUP else PUT_GROUP)
  {
    var g, o, u := Applicable(get, p, true), Applicable(post, p, true), Applicable(put, p, true);
    ApplicableEmpty(get, p, true);
    ApplicableEmpty(post, p, true);
    ApplicableEmpty(put, p, true);
    ApplicableMembers(get, p, true);
    ApplicableMembers(post, p, true);
    ApplicableMembers(put, p, true);
    var c := g + o + u;
    assert c == Candidates(get, post, put, p, OPTIONS) && c != [] && c[0] in c;
    assert c[0] == if g != [] then g[0] else if o != [] then o[0] else u[0];
  }

  /** One group of rules matches the path, and no other. */
  predicate OneGroup(get: seq<Rule>, post: seq<Rule>, put: seq<Rule>, p: seq<string>) {
    || (Matching(get, p) && !Matching(post, p) && !Matching(put, p))
    || (!Matching(get, p) && Matching(post, p) && !Matching(put, p))
    || (!Matching(get, p) && !Matching(post, p) && Matching(put, p))
  }

  /**
   The handler that answers OPTIONS announces its own methods. These are all the methods that the path serves, as a 405
   on the same path announces them, exactly when only one group of rules matches the path.
   */
  lemma {:induction false} OptionsAnnouncesExactly(get: seq<Rule>, post: seq<Rule>, put: seq<Rule>, p: seq<string>,
                                                   refuses: Refusals)
    requires TableFits(get, post, put) && Dispatch(get, post, put, p, Some(OPTIONS), refuses).Route?
    ensures var own := Own(Dispatch(get, post, put, p, Some(OPTIONS), refuses).rule.handler);
      && own <= AllowedFor(get, post, put, p)
      && (own == AllowedFor(get, post, put, p) <==> OneGroup(get, post, put, p))
  {
    OptionsGroup(get, post, put, p, refuses);
    AllowedMethods(get, post, put, p);
    MethodNotAllowedExactly(get, post, put, p, OPTIONS, refuses);
  }

  // ---------- Order of rules ----------

  predicate Unambiguous(rules: seq<Rule>, p: seq<string>) {
    forall i, j :: 0 <= i < j < |rules| ==> !(Applies(rules[i], p) && Applies(rules[j], p))
  }

  lemma {:induction false} CountCons<T>(s: seq<T>, e: T)
    requires s != []
    ensures multiset(s)[e] == multiset(s[1..])[e] + if s[0] == e then 1 else 0
  {
    assert s == [s[0]] + s[1..];
  }

  lemma {:induction false} ApplicableCount(rules: seq<Rule>, p: seq<string>, allowed: bool, c: Candidate)
    ensures multiset(Applicable(rules, p, allowed))[c] ==
      if c.allowed == allowed && Applies(c.rule, p) then multiset(rules)[c.rule] else 0
    decreases |rules|
  {
    if rules != [] {
      ApplicableCount(rules[1..], p, allowed, c);
      CountCons(rules, c.rule);
      if Applies(rules[0], p) {
        var rest := Applicable(rules[1..], p, allowed);
        var all := [Candidate(rules[0], allowed)] + rest;
        CountCons(all, c);
        assert all[1..] == rest;
      } else {
        assert [] + Applicable(rules[1..], p, allowed) == Applicable(rules[1..], p, allowed);
      }
    }
  }

  lemma {:induction false} AtMostOneApplies(rules: seq<Rule>, p: seq<string>, allowed: bool)
    requires Unambiguous(rules, p)
    ensures |Applicable(rules, p, allowed)| <= 1
    decreases |rules|
  {
    if rules != [] {
      assert forall i :: 0 <= i < |rules[1..]| ==> rules[1..][i] == rules[i + 1];
      if Applies(rules[0], p) {
        NoneApplies(rules[1..], p, allowed);
      } else {
        AtMostOneApplies(rules[1..], p, allowed);
      }
    }
  }

  lemma {:induction false} NoneApplies(rules: seq<Rule>, p: seq<string>, allowed: bool)
    requires !Matching(rules, p)
    ensures Applicable(rules, p, allowed) == []
    decreases |rules|
  {
    if rules != [] {
      assert forall i :: 0 <= i < |rules[1..]| ==> rules[1..][i] == rules[i + 1];
      NoneApplies(rules[1..], p, allowed);
    }
  }

  lemma {:induction false} ApplicablePermutes(rules: seq<Rule>, permuted: seq<Rule>, p: seq<string>, allowed: bool)
    requires multiset(rules) == multiset(permuted)
    ensures multiset(Applicable(rules, p, allowed)) == multiset(Applicable(permuted, p, allowed))
  {
    forall c: Candidate
      ensures multiset(Applicable(rules, p, allowed))[c] == multiset(Applicable(permuted, p, allowed))[c]
    {
      ApplicableCount(rules, p, allowed, c);
      ApplicableCount(permuted, p, allowed, c);
    }
  }

  lemma {:induction false} ShortPermutation(a: seq<Candidate>, b: seq<Candidate>)
    requires multiset(a) == multiset(b) && |a| <= 1
    ensures a == b
  {
    assert |multiset(a)| == |a| && |multiset(b)| == |b|;
    if |a| == 1 {
      assert b[0] in multiset(a);
    }
  }

  /** When no path matches two rules, their order does not matter. */
  lemma {:induction false} OrderIrrelevant(rules: seq<Rule>, permuted: seq<Rule>, p: seq<string>, allowed: bool)
    requires Unambiguous(rules, p) && multiset(rules) == multiset(permuted)
    ensures Applicable(permuted, p, allowed) == Applicable(rules, p, allowed)
    ensures Matching(permuted, p) <==> Matching(rules, p)
  {
    AtMostOneApplies(rules, p, allowed);
    ApplicablePermutes(rules, permuted, p, allowed);
    ShortPermutation(Applicable(rules, p, allowed), Applicable(permuted, p, allowed));
    MatchingPermutes(rules, permuted, p);
    MatchingPermutes(permuted, rules, p);
  }

  lemma {:induction false} MatchingPermutes(rules: seq<Rule>, permuted: seq<Rule>, p: seq<string>)
    requires multiset(rules) == multiset(permuted)
    ensures Matching(rules, p) ==> Matching(permuted, p)
  {
    if Matching(rules, p) {
      var i :| 0 <= i < |rules| && Applies(rules[i], p);
      assert rules[i] in multiset(permuted);
      var j :| 0 <= j < |permuted| && permuted[j] == rules[i];
    }
  }

  // ---------- The default table ----------

  const GET_RULES: seq<Rule> := [
    Rule(Map, [Literal("map")]),
    Rule(NodeWays, [Literal("node"), OsmId, Literal("ways")]),
    Rule(NodeRelations, [Literal("node"), OsmId, Literal("relations")]),
    Rule(NodeHistory, [Literal("node"), OsmId, Literal("history")]),
    Rule(NodeVersion, [Literal("node"), OsmId, OsmId]),
    Rule(NodeCurrent, [Literal("node"), OsmId]),
    Rule(Nodes, [Literal("nodes")]),
    Rule(WayFull, [Literal("way"), OsmId, Literal("full")]),
    Rule(WayRelations, [Literal("way"), OsmId, Literal("relations")]),
    Rule(WayHistory, [Literal("way"), OsmId, Literal("history")]),
    Rule(WayVersion, [Literal("way"), OsmId, OsmId]),
    Rule(WayCurrent, [Literal("way"), OsmId]),
    Rule(Ways, [Literal("ways")]),
    Rule(RelationFull, [Literal("relation"), OsmId, Literal("full")]),
    Rule(RelationRelations, [Literal("relation"), OsmId, Literal("relations")]),
    Rule(RelationHistory, [Literal("relation"), OsmId, Literal("history")]),
    Rule(RelationVersion, [Literal("relation"), OsmId, OsmId]),
    Rule(RelationCurrent, [Literal("relation"), OsmId]),
    Rule(Relations, [Literal("relations")]),
    Rule(ChangesetDownload, [Literal("changeset"), OsmId, Literal("download")]),
    Rule(ChangesetCurrent, [Literal("changeset"), OsmId])
  ]

  const POST_RULES: seq<Rule> := [Rule(ChangesetUpload, [Literal("changeset"), OsmId, Literal("upload")])]

  const PUT_RULES: seq<Rule> := [
    Rule(ChangesetClose, [Literal("changeset"), OsmId, Literal("close")]),
    Rule(ChangesetCreate, [Literal("changeset"), Literal("create")]),
    Rule(ChangesetUpdate, [Literal("changeset"), OsmId])
  ]

  /** The position of the GET rule that a path can match, read off lengths and first characters. */
  function LocateGet(p: seq<string>): int {
    if |p| == 1 then
      if |p[0]| == 3 then 0 else if |p[0]| == 5 then 6 else if |p[0]| == 4 then 12 else 18
    else if |p| == 2 then
      if |p[0]| == 4 then 5 else if |p[0]| == 3 then 11 else if |p[0]| == 8 then 17 else 20
    else if |p| == 3 && p[2] != "" then
      if |p[0]| == 4 then 1 + LocateThird(p[2])
      else if |p[0]| == 3 then 7 + LocateThird(p[2])
      else if |p[0]| == 8 then 13 + LocateThird(p[2])
      else 19
    else -1
  }

  /** `full` and `ways` are 0, `relations` 1, `history` 2, an id 3. */
  function LocateThird(s: string): int
    requires s != ""
  {
    if IsDigit(s[0]) then 3 else if |s| == 4 then 0 else if |s| == 9 then 1 else 2
  }

  lemma {:induction false} IdBeginsWithDigit(s: string)
    requires ParseOsmId(s).Some?
    ensures s != "" && IsDigit(s[0])
  {
  }

  lemma {:induction false} FitsOne(a: Component, p: seq<string>)
    requires FlatMatch([a], p).Some?
    ensures |p| == 1 && ComponentFits(a, p[0])
  {
    FlatMatchFits([a], p);
    assert [a][0] == a;
  }

  lemma {:induction false} FitsTwo(a: Component, b: Component, p: seq<string>)
    requires FlatMatch([a, b], p).Some?
    ensures |p| == 2 && ComponentFits(a, p[0]) && ComponentFits(b, p[1])
  {
    FlatMatchFits([a, b], p);
    assert [a, b][0] == a && [a, b][1] == b;
  }

  lemma {:induction false} FitsThree(a: Component, b: Component, c: Component, p: seq<string>)
    requires FlatMatch([a, b, c], p).Some?
    ensures |p| == 3 && ComponentFits(a, p[0]) && ComponentFits(c, p[2])
    ensures p[2] != "" || c == Literal("")
    ensures c.OsmId? ==> IsDigit(p[2][0])
  {
    FlatMatchFits([a, b, c], p);
    assert [a, b, c][0] == a && [a, b, c][2] == c;
    if c.OsmId? {
      IdBeginsWithDigit(p[2]);
    }
  }

  lemma {:induction false} LocateNode(p: seq<string>)
    ensures forall i :: 1 <= i < 6 && Applies(GET_RULES[i], p) ==> LocateGet(p) == i
  {
    forall i | 1 <= i < 6 && Applies(GET_RULES[i], p)
      ensures LocateGet(p) == i
    {
      if i == 5 {
        FitsTwo(Literal("node"), OsmId, p);
      } else {
        FitsThree(Literal("node"), OsmId, GET_RULES[i].pattern[2], p);
      }
    }
  }

  lemma {:induction false} LocateWay(p: seq<string>)
    ensures forall i :: 7 <= i < 12 && Applies(GET_RULES[i], p) ==> LocateGet(p) == i
  {
    forall i | 7 <= i < 12 && Applies(GET_RULES[i], p)
      ensures LocateGet(p) == i
    {
      if i == 11 {
        FitsTwo(Literal("way"), OsmId, p);
      } else {
        FitsThree(Literal("way"), OsmId, GET_RULES[i].pattern[2], p);
      }
    }
  }

  lemma {:induction false} LocateRelation(p: seq<string>)
    ensures forall i :: 13 <= i < 18 && Applies(GET_RULES[i], p) ==> LocateGet(p) == i
  {
    forall i | 13 <= i < 18 && Applies(GET_RULES[i], p)
      ensures LocateGet(p) == i
    {
      if i == 17 {
        FitsTwo(Literal("relation"), OsmId, p);
      } else {
        FitsThree(Literal("relation"), OsmId, GET_RULES[i].pattern[2], p);
      }
    }
  }

  lemma {:induction false} LocateSingle(p: seq<string>, text: string)
    requires FlatMatch([Literal(text)], p).Some?
    ensures |p| == 1 && p[0] == text
  {
    FitsOne(Literal(text), p);
  }

  lemma {:induction false} LocateSingles(p: seq<string>)
    ensures Applies(GET_RULES[0], p) ==> LocateGet(p) == 0
    ensures Applies(GET_RULES[6], p) ==> LocateGet(p) == 6
    ensures Applies(GET_RULES[12], p) ==> LocateGet(p) == 12
    ensures Applies(GET_RULES[18], p) ==> LocateGet(p) == 18
  {
    if Applies(GET_RULES[0], p) {
      LocateSingle(p, "map");
    }
    if Applies(GET_RULES[6], p) {
      LocateSingle(p, "nodes");
    }
    if Applies(GET_RULES[12], p) {
      LocateSingle(p, "ways");
    }
    if Applies(GET_RULES[18], p) {
      LocateSingle(p, "relations");
    }
  }

  lemma {:induction false} LocateChangeset(p: seq<string>)
    ensures Applies(GET_RULES[19], p) ==> LocateGet(p) == 19
    ensures Applies(GET_RULES[20], p) ==> LocateGet(p) == 20
  {
    if Applies(GET_RULES[19], p) {
      FitsThree(Literal("changeset"), OsmId, Literal("download"), p);
    }
    if Applies(GET_RULES[20], p) {
      FitsTwo(Literal("changeset"), OsmId, p);
    }
  }

  lemma {:induction false} GetLocated(p: seq<string>, i: nat)
    requires i < |GET_RULES| && Applies(GET_RULES[i], p)
    ensures LocateGet(p) == i
  {
    LocateNode(p);
    LocateWay(p);
    LocateRelation(p);
    LocateSingles(p);
    LocateChangeset(p);
  }

  lemma {:induction false} GetUnambiguous(p: seq<string>)
    ensures Unambiguous(GET_RULES, p)
  {
    forall i | 0 <= i < |GET_RULES| && Applies(GET_RULES[i], p)
      ensures LocateGet(p) == i
    {
      GetLocated(p, i);
    }
  }

  lemma {:induction false} PutUnambiguous(p: seq<string>)
    ensures Unambiguous(PUT_RULES, p)
  {
    if Applies(PUT_RULES[0], p) {
      FitsThree(Literal("changeset"), OsmId, Literal("close"), p);
    }
    if Applies(PUT_RULES[1], p) {
      FitsTwo(Literal("changeset"), Literal("create"), p);
      assert !IsDigit("create"[0]);
    }
    if Applies(PUT_RULES[2], p) {
      FitsTwo(Literal("changeset"), OsmId, p);
      IdBeginsWithDigit(p[1]);
    }
  }

  /** In the default table no path matches two rules of one group, so rules may be listed in any order. */
  lemma {:induction false} DefaultTableUnambiguous(p: seq<string>, get: seq<Rule>, post: seq<Rule>, put: seq<Rule>,
                                                   m: Option<Method>, refuses: Refusals)
    ensures Unambiguous(GET_RULES, p) && Unambiguous(POST_RULES, p) && Unambiguous(PUT_RULES, p)
    ensures multiset(get) == multiset(GET_RULES) && multiset(post) == multiset(POST_RULES)
      && multiset(put) == multiset(PUT_RULES)
      ==> Dispatch(get, post, put, p, m, refuses) == Dispatch(GET_RULES, POST_RULES, PUT_RULES, p, m, refuses)
  {
    GetUnambiguous(p);
    PutUnambiguous(p);
    if multiset(get) == multiset(GET_RULES) && multiset(post) == multiset(POST_RULES)
      && multiset(put) == multiset(PUT_RULES) {
      SameDispatch(GET_RULES, POST_RULES, PUT_RULES, get, post, put, p, m, refuses);
    }
  }

  lemma {:induction false} SameDispatch(get: seq<Rule>, post: seq<Rule>, put: seq<Rule>, get2: seq<Rule>,
                                        post2: seq<Rule>, put2: seq<Rule>, p: seq<string>, m: Option<Method>,
                                        refuses: Refusals)
    requires multiset(get) == multiset(get2) && multiset(post) == multiset(post2) && multiset(put) == multiset(put2)
    requires Unambiguous(get, p) && Unambiguous(post, p) && Unambiguous(put, p)
    ensures Dispatch(get2, post2, put2, p, m, refuses) == Dispatch(get, post, put, p, m, refuses)
  {
    if m.Some? {
      SameCandidates(get, post, put, get2, post2, put2, p, m.value);
      assert AllowedFor(get2, post2, put2, p) == AllowedFor(get, post, put, p) by {
        OrderIrrelevant(get, get2, p, true);
        OrderIrrelevant(post, post2, p, true);
        OrderIrrelevant(put, put2, p, true);
      }
    }
  }

  lemma {:induction false} SameCandidates(get: seq<Rule>, post: seq<Rule>, put: seq<Rule>, get2: seq<Rule>,
                                          post2: seq<Rule>, put2: seq<Rule>, p: seq<string>, m: Method)
    requires multiset(get) == multiset(get2) && multiset(post) == multiset(post2) && multiset(put) == multiset(put2)
    requires Unambiguous(get, p) && Unambiguous(post, p) && Unambiguous(put, p)
    ensures Candidates(get2, post2, put2, p, m) == Candidates(get, post, put, p, m)
  {
    OrderIrrelevant(get, get2, p, IsGet(m));
    OrderIrrelevant(post, post2, p, IsPost(m));
    OrderIrrelevant(put, put2, p, IsPut(m));
  }

  // ---------- A refusal before the method is looked at ----------

  lemma {:induction false} DecideSingle(c: Candidate, p: seq<string>, refuses: Refusals)
    ensures refuses(c.rule.handler).Some? ==> Decide([c], p, refuses) == Refused(refuses(c.rule.handler).value)
    ensures Passed(c, refuses) ==> Decide([c], p, refuses) == NoRoute
    ensures refuses(c.rule.handler).None? && c.allowed ==> Decide([c], p, refuses) == Route(c.rule, IdsFor(c.rule, p))
  {
    assert [c][1..] == [];
  }

  /** Where one GET rule applies and no other rule does, it alone is decided upon. */
  lemma {:induction false} SoleCandidate(get: seq<Rule>, post: seq<Rule>, put: seq<Rule>, i: nat, p: seq<string>,
                                         m: Method)
    requires Unambiguous(get, p) && i < |get| && Applies(get[i], p) && !Matching(post, p) && !Matching(put, p)
    ensures Candidates(get, post, put, p, m) == [Candidate(get[i], IsGet(m))]
  {
    var allowed := IsGet(m);
    NoneApplies(post, p, IsPost(m));
    NoneApplies(put, p, IsPut(m));
    AtMostOneApplies(get, p, allowed);
    ApplicableMembers(get, p, allowed);
    assert Candidate(get[i], allowed) in Applicable(get, p, allowed);
  }

  lemma {:induction false} SoleGetRule(get: seq<Rule>, post: seq<Rule>, put: seq<Rule>, i: nat, p: seq<string>,
                                       m: Method, refuses: Refusals)
    requires Unambiguous(get, p) && i < |get| && Applies(get[i], p) && !Matching(post, p) && !Matching(put, p)
    ensures var a := Dispatch(get, post, put, p, Some(m), refuses); var refusal := refuses(get[i].handler);
      && (refusal.Some? ==> a == Refused(refusal.value))
      && (refusal.None? && !IsGet(m) ==> a == MethodNotAllowed({OPTIONS, GET, HEAD}))
  {
    SoleCandidate(get, post, put, i, p, m);
    DecideSingle(Candidate(get[i], IsGet(m)), p, refuses);
    AllowedMethods(get, post, put, p);
    assert AllowedFor(get, post, put, p) == {OPTIONS, GET, HEAD} by {
      assert Matching(get, p);
    }
  }

  /**
   A POST to `map` is answered 405 when the map handler accepts the parameters, but with the handler's own error, 400,
   when it refuses them, as it does without a bounding box; so is OPTIONS.
   */
  lemma {:induction false} PostToMap(p: seq<string>, m: Method, refuses: Refusals)
    requires |p| == 1 && p[0] == "map" && (m == POST || m == OPTIONS)
    ensures refuses(Map).Some? ==>
      Dispatch(GET_RULES, POST_RULES, PUT_RULES, p, Some(m), refuses) == Refused(refuses(Map).value)
    ensures refuses(Map).None? && m == POST ==>
      Dispatch(GET_RULES, POST_RULES, PUT_RULES, p, Some(m), refuses) == MethodNotAllowed({OPTIONS, GET, HEAD})
  {
    MapApplies(p);
    OthersDoNotApply(p);
    GetUnambiguous(p);
    SoleGetRule(GET_RULES, POST_RULES, PUT_RULES, 0, p, m, refuses);
  }

  lemma {:induction false} MapApplies(p: seq<string>)
    requires |p| == 1 && p[0] == "map"
    ensures Applies(GET_RULES[0], p)
  {
    FlatMatchFits([Literal("map")], p);
  }

  lemma {:induction false} OthersDoNotApply(p: seq<string>)
    requires |p| == 1
    ensures !Matching(POST_RULES, p) && !Matching(PUT_RULES, p)
  {
    forall i | 0 <= i < |POST_RULES|
      ensures !Applies(POST_RULES[i], p)
    {
      FlatMatchFits(POST_RULES[i].pattern, p);
    }
    forall i | 0 <= i < |PUT_RULES|
      ensures !Applies(PUT_RULES[i], p)
    {
      FlatMatchFits(PUT_RULES[i].pattern, p);
    }
  }

  // ---------- Methods of the default table ----------

  lemma {:induction false} GetHandlerFits(i: nat)
    requires i < |GET_RULES|
    ensures Own(GET_RULES[i].handler) == GET_GROUP + {OPTIONS}
  {
    assert {GET, HEAD, OPTIONS} == GET_GROUP + {OPTIONS};
  }

  lemma {:induction false} PutHandlerFits(i: nat)
    requires i < |PUT_RULES|
    ensures Own(PUT_RULES[i].handler) == PUT_GROUP + {OPTIONS}
  {
  }

  lemma {:induction false} DefaultTableFits()
    ensures TableFits(GET_RULES, POST_RULES, PUT_RULES)
  {
    forall i | 0 <= i < |GET_RULES|
      ensures Own(GET_RULES[i].handler) == GET_GROUP + {OPTIONS}
    {
      GetHandlerFits(i);
    }
    forall i | 0 <= i < |PUT_RULES|
      ensures Own(PUT_RULES[i].handler) == PUT_GROUP + {OPTIONS}
    {
      PutHandlerFits(i);
    }
  }

  /** A handler that the default table returns allows the method, so the test after routing never answers 405. */
  lemma {:induction false} ReturnedHandlerAllows(p: seq<string>, m: Method, refuses: Refusals)
    ensures var a := Dispatch(GET_RULES, POST_RULES, PUT_RULES, p, Some(m), refuses);
      a.Route? ==> m in Own(a.rule.handler)
  {
    DefaultTableFits();
    var k := AnswerMeaning(GET_RULES, POST_RULES, PUT_RULES, p, m, refuses);
  }

  /** `changeset/<id>` is served by GET and by PUT. */
  const CHANGESET_PATTERN: seq<Component> := [Literal("changeset"), OsmId]

  lemma {:induction false} NoGet(p: seq<string>)
    requires LocateGet(p) < 0 || !Applies(GET_RULES[LocateGet(p)], p)
    ensures !Matching(GET_RULES, p)
  {
    if Matching(GET_RULES, p) {
      var i :| 0 <= i < |GET_RULES| && Applies(GET_RULES[i], p);
      GetLocated(p, i);
    }
  }

  lemma {:induction false} UploadIsAlone(p: seq<string>)
    requires Applies(POST_RULES[0], p)
    ensures !Matching(GET_RULES, p) && !Matching(PUT_RULES, p)
  {
    FitsThree(Literal("changeset"), OsmId, Literal("upload"), p);
    if Applies(GET_RULES[19], p) {
      FitsThree(Literal("changeset"), OsmId, Literal("download"), p);
    }
    NoGet(p);
    if Applies(PUT_RULES[0], p) {
      FitsThree(Literal("changeset"), OsmId, Literal("close"), p);
    }
    if Applies(PUT_RULES[1], p) {
      FitsTwo(Literal("changeset"), Literal("create"), p);
    }
    if Applies(PUT_RULES[2], p) {
      FitsTwo(Literal("changeset"), OsmId, p);
    }
  }

  lemma {:induction false} CloseIsAlone(p: seq<string>)
    requires Applies(PUT_RULES[0], p)
    ensures !Matching(GET_RULES, p)
  {
    FitsThree(Literal("changeset"), OsmId, Literal("close"), p);
    if Applies(GET_RULES[19], p) {
      FitsThree(Literal("changeset"), OsmId, Literal("download"), p);
    }
    NoGet(p);
  }

  lemma {:induction false} CreateIsAlone(p: seq<string>)
    requires Applies(PUT_RULES[1], p)
    ensures !Matching(GET_RULES, p)
  {
    FitsTwo(Literal("changeset"), Literal("create"), p);
    if Applies(GET_RULES[20], p) {
      FitsTwo(Literal("changeset"), OsmId, p);
      CreateIsNoId();
    }
    NoGet(p);
  }

  lemma {:induction false} CreateIsNoId()
    ensures ParseOsmId("create").None?
  {
    if ParseOsmId("create").Some? {
      IdBeginsWithDigit("create");
    }
  }

  /** It is the only path of the default table that two groups serve. */
  lemma {:induction false} OneGroupExactly(p: seq<string>)
    requires Served(GET_RULES, POST_RULES, PUT_RULES, p)
    ensures OneGroup(GET_RULES, POST_RULES, PUT_RULES, p) <==> FlatMatch(CHANGESET_PATTERN, p).None?
  {
    assert GET_RULES[20].pattern == PUT_RULES[2].pattern == CHANGESET_PATTERN;
    if FlatMatch(CHANGESET_PATTERN, p).Some? {
      assert Applies(GET_RULES[20], p) && Applies(PUT_RULES[2], p);
    } else if Matching(POST_RULES, p) {
      UploadIsAlone(p);
    } else if Matching(PUT_RULES, p) {
      if Applies(PUT_RULES[0], p) {
        CloseIsAlone(p);
      } else {
        CreateIsAlone(p);
      }
    }
  }

  /**
   So an OPTIONS answer of the default table announces every method that the path serves if and only if the path is not
   `changeset/<id>`.
   */
  lemma {:induction false} DefaultOptionsAnnounceExactly(p: seq<string>, refuses: Refusals)
    requires Dispatch(GET_RULES, POST_RULES, PUT_RULES, p, Some(OPTIONS), refuses).Route?
    ensures var own := Own(Dispatch(GET_RULES, POST_RULES, PUT_RULES, p, Some(OPTIONS), refuses).rule.handler);
      own == AllowedFor(GET_RULES, POST_RULES, PUT_RULES, p) <==> FlatMatch(CHANGESET_PATTERN, p).None?
  {
    DefaultTableFits();
    OptionsAnnouncesExactly(GET_RULES, POST_RULES, PUT_RULES, p, refuses);
    MethodNotAllowedExactly(GET_RULES, POST_RULES, PUT_RULES, p, OPTIONS, refuses);
    OneGroupExactly(p);
  }

  lemma {:induction false} ChangesetRulesOnly(p: seq<string>)
    requires FlatMatch(CHANGESET_PATTERN, p).Some?
    ensures Applies(GET_RULES[20], p) && Applies(PUT_RULES[2], p) && !Matching(POST_RULES, p)
  {
    assert GET_RULES[20].pattern == PUT_RULES[2].pattern == CHANGESET_PATTERN;
    if Matching(POST_RULES, p) {
      UploadIsAlone(p);
    }
  }

  /**
   On `changeset/<id>` OPTIONS announces GET, HEAD and OPTIONS, PUT is served all the same, and the 405 for a POST
   announces it.
   */
  lemma {:induction false} ChangesetOptionsOmitPut(p: seq<string>, refuses: Refusals)
    requires FlatMatch(CHANGESET_PATTERN, p).Some?
    requires refuses(ChangesetCurrent).None? && refuses(ChangesetUpdate).None?
    ensures var options := Dispatch(GET_RULES, POST_RULES, PUT_RULES, p, Some(OPTIONS), refuses);
      options.Route? && Own(options.rule.handler) == {GET, HEAD, OPTIONS}
    ensures Dispatch(GET_RULES, POST_RULES, PUT_RULES, p, Some(POST), refuses)
            == MethodNotAllowed({OPTIONS, GET, HEAD, PUT})
    ensures var put := Dispatch(GET_RULES, POST_RULES, PUT_RULES, p, Some(PUT), refuses);
      put.Route? && put.rule.handler == ChangesetUpdate
  {
    ChangesetRulesOnly(p);
    GetUnambiguous(p);
    PutUnambiguous(p);
    ChangesetCandidates(p, OPTIONS);
    ChangesetCandidates(p, POST);
    ChangesetCandidates(p, PUT);
    AllowedMethods(GET_RULES, POST_RULES, PUT_RULES, p);
    assert AllowedFor(GET_RULES, POST_RULES, PUT_RULES, p) == {OPTIONS, GET, HEAD, PUT};
    DecideTwo(Candidate(GET_RULES[20], true), Candidate(PUT_RULES[2], true), p, refuses);
    DecideTwo(Candidate(GET_RULES[20], false), Candidate(PUT_RULES[2], false), p, refuses);
    DecideTwo(Candidate(GET_RULES[20], false), Candidate(PUT_RULES[2], true), p, refuses);
  }

  lemma {:induction false} ChangesetCandidates(p: seq<string>, m: Method)
    requires Applies(GET_RULES[20], p) && Applies(PUT_RULES[2], p) && !Matching(POST_RULES, p)
    requires Unambiguous(GET_RULES, p) && Unambiguous(PUT_RULES, p)
    ensures Candidates(GET_RULES, POST_RULES, PUT_RULES, p, m)
            == [Candidate(GET_RULES[20], IsGet(m)), Candidate(PUT_RULES[2], IsPut(m))]
  {
    SoleApplicable(GET_RULES, 20, p, IsGet(m));
    SoleApplicable(PUT_RULES, 2, p, IsPut(m));
    NoneApplies(POST_RULES, p, IsPost(m));
  }

  lemma {:induction false} SoleApplicable(rules: seq<Rule>, i: nat, p: seq<string>, allowed: bool)
    requires i < |rules| && Applies(rules[i], p) && Unambiguous(rules, p)
    ensures Applicable(rules, p, allowed) == [Candidate(rules[i], allowed)]
  {
    AtMostOneApplies(rules, p, allowed);
    ApplicableMembers(rules, p, allowed);
    assert Candidate(rules[i], allowed) in Applicable(rules, p, allowed);
  }

  lemma {:induction false} DecideTwo(a: Candidate, b: Candidate, p: seq<string>, refuses: Refusals)
    requires refuses(a.rule.handler).None? && refuses(b.rule.handler).None?
    ensures Decide([a, b], p, refuses) ==
      if a.allowed then Route(a.rule, IdsFor(a.rule, p))
      else if b.allowed then Route(b.rule, IdsFor(b.rule, p))
      else NoRoute
  {
    assert [a, b][1..] == [b];
    DecideSingle(b, p, refuses);
  }
}
