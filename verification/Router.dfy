/** Path matching expressions, the rules of the router by method group, and the default route table. */
module Router {
  import opened Common
  import opened Decimal

  // ---------- Matching expressions ----------

  datatype Component = Literal(text: string) | OsmId

  /** The expression tree that `root / "node" / osm_id` builds; nested in any way. */
  datatype Matcher = Begin | Leaf(component: Component) | And(lhs: Matcher, rhs: Matcher)

  /** A path component that is an id: digits only, positive, and within 64 bits. */
  function ParseOsmId(bit: string): Option<nat> {
    if !AllDigits(bit) then None
    else
      match FromChars(bit, 0, MAX_UINT64)
      case Number(x) => if x > 0 then Some(x) else None
      case _ => None
  }

  /** The position in the path components, shared by all parts of one expression. */
  class PartIterator {
    const parts: seq<string>
    var pos: nat

    constructor (parts: seq<string>)
      ensures this.parts == parts && pos == 0
    {
      this.parts := parts;
      pos := 0;
    }
  }

  /** Result of matching from a position: the ids found and the position after them. */
  datatype Matched = Matched(ids: seq<nat>, pos: nat) | NoMatch

  function MatchFrom(m: Matcher, parts: seq<string>, pos: nat): (r: Matched)
    requires pos <= |parts|
    ensures r.Matched? ==> pos <= r.pos <= |parts|
  {
    match m
    case Begin => Matched([], pos)
    case Leaf(Literal(text)) => if pos < |parts| && parts[pos] == text then Matched([], pos + 1) else NoMatch
    case Leaf(OsmId) =>
      if pos < |parts| && ParseOsmId(parts[pos]).Some? then Matched([ParseOsmId(parts[pos]).value], pos + 1)
      else NoMatch
    case And(l, r) =>
      var left := MatchFrom(l, parts, pos);
      if left.NoMatch? then NoMatch
      else
        var right := MatchFrom(r, parts, left.pos);
        if right.NoMatch? then NoMatch else Matched(left.ids + right.ids, right.pos)
  }

  /** A literal moves the iterator on even when it does not match. */
  method MatchString(text: string, begin: PartIterator) returns (error: bool)
    requires begin.pos <= |begin.parts|
    modifies begin`pos
    ensures error <==> !(old(begin.pos) < |begin.parts| && begin.parts[old(begin.pos)] == text)
    ensures begin.pos == Min(old(begin.pos) + 1, |begin.parts|)
  {
    var matches := false;
    if begin.pos != |begin.parts| {
      matches := begin.parts[begin.pos] == text;
      begin.pos := begin.pos + 1;
    }
    return !matches;
  }

  /** An id moves it on only when it matches. */
  method MatchOsmId(begin: PartIterator) returns (id: nat, error: bool)
    requires begin.pos <= |begin.parts|
    modifies begin`pos
    ensures error <==> !(old(begin.pos) < |begin.parts| && ParseOsmId(begin.parts[old(begin.pos)]).Some?)
    ensures !error ==> ParseOsmId(begin.parts[old(begin.pos)]) == Some(id)
    ensures !error ==> var bit := begin.parts[old(begin.pos)];
                       bit != "" && AllDigits(bit) && 0 < id == Value(bit) <= MAX_UINT64
    ensures begin.pos == if error then old(begin.pos) else old(begin.pos) + 1
  {
    if begin.pos != |begin.parts| {
      var bit := begin.parts[begin.pos];
      if !AllDigits(bit) {
        return 0, true;
      }
      var x := FromChars(bit, 0, MAX_UINT64);
      if x.Number? && x.value > 0 {
        ParseOsmIdExactly(bit, x.value);
        begin.pos := begin.pos + 1;
        return x.value, false;
      }
    }
    return 0, true;
  }

  method Match(m: Matcher, begin: PartIterator) returns (ids: seq<nat>, error: bool)
    requires begin.pos <= |begin.parts|
    modifies begin`pos
    ensures begin.pos <= |begin.parts|
    ensures match MatchFrom(m, begin.parts, old(begin.pos))
      case NoMatch => error
      case Matched(found, after) => !error && ids == found && begin.pos == after
    decreases m
  {
    match m {
      case Begin =>
        return [], false;
      case Leaf(Literal(text)) =>
        error := MatchString(text, begin);
        return [], error;
      case Leaf(OsmId) =>
        var id;
        id, error := MatchOsmId(begin);
        return if error then [] else [id], error;
      case And(l, r) =>
        var lval, lerror := Match(l, begin);
        if lerror {
          return [], true;
        }
        var rval, rerror := Match(r, begin);
        if rerror {
          return [], true;
        }
        return lval + rval, false;
    }
  }

  // ---------- Ids ----------

  /** A component is an id exactly when it is digits only and denotes a positive 64-bit number, which is the id. */
  lemma {:induction false} ParseOsmIdExactly(bit: string, n: nat)
    ensures ParseOsmId(bit) == Some(n) <==> bit != "" && AllDigits(bit) && 0 < n == Value(bit) <= MAX_UINT64
  {
    if AllDigits(bit) {
      NumeralIsRead(false, bit, "", 0, MAX_UINT64);
      assert "" + bit + "" == bit;
    }
  }

  lemma {:induction false} PrintedOsmId(n: nat)
    requires 1 <= n <= MAX_UINT64
    ensures ParseOsmId(Print(n)) == Some(n)
  {
    ValueOfPrint(n);
    ParseOsmIdExactly(Print(n), n);
  }

  // ---------- The flat pattern ----------

  function Flatten(m: Matcher): seq<Component> {
    match m
    case Begin => []
    case Leaf(c) => [c]
    case And(l, r) => Flatten(l) + Flatten(r)
  }

  predicate ComponentFits(c: Component, part: string) {
    match c
    case Literal(text) => part == text
    case OsmId => ParseOsmId(part).Some?
  }

  predicate Fits(pattern: seq<Component>, parts: seq<string>) {
    |pattern| == |parts| && forall i :: 0 <= i < |pattern| ==> ComponentFits(pattern[i], parts[i])
  }

  /** Component by component, with the ids in order. */
  function FlatMatch(pattern: seq<Component>, parts: seq<string>): Option<seq<nat>>
    decreases |pattern|
  {
    if pattern == [] then if parts == [] then Some([]) else None
    else if parts == [] || !ComponentFits(pattern[0], parts[0]) then None
    else Joined(Some(if pattern[0].OsmId? then [ParseOsmId(parts[0]).value] else []),
      FlatMatch(pattern[1..], parts[1..]))
  }

  function Joined(x: Option<seq<nat>>, y: Option<seq<nat>>): Option<seq<nat>> {
    if x.None? || y.None? then None else Some(x.value + y.value)
  }

  lemma {:induction false} FlatMatchFits(pattern: seq<Component>, parts: seq<string>)
    ensures FlatMatch(pattern, parts).Some? <==> Fits(pattern, parts)
    decreases |pattern|
  {
    if pattern != [] && parts != [] {
      FlatMatchFits(pattern[1..], parts[1..]);
      if Fits(pattern[1..], parts[1..]) && ComponentFits(pattern[0], parts[0]) {
        forall i | 0 <= i < |pattern|
          ensures ComponentFits(pattern[i], parts[i])
        {
          assert i > 0 ==> pattern[i] == pattern[1..][i - 1] && parts[i] == parts[1..][i - 1];
        }
      }
    }
  }

  lemma {:induction false} FlatConcat(p: seq<Component>, q: seq<Component>, a: seq<string>, b: seq<string>)
    requires |p| == |a|
    ensures FlatMatch(p + q, a + b) == Joined(FlatMatch(p, a), FlatMatch(q, b))
    decreases |p|
  {
    if p == [] {
      assert p + q == q && a + b == b;
      assert FlatMatch(q, b).Some? ==> [] + FlatMatch(q, b).value == FlatMatch(q, b).value;
    } else {
      FlatConcat(p[1..], q, a[1..], b);
      assert (p + q)[1..] == p[1..] + q && (a + b)[1..] == a[1..] + b;
      var id: seq<nat> := if p[0].OsmId? && ComponentFits(p[0], a[0]) then [ParseOsmId(a[0]).value] else [];
      JoinedAssociates(Some(id), FlatMatch(p[1..], a[1..]), FlatMatch(q, b));
    }
  }

  lemma {:induction false} JoinedAssociates(x: Option<seq<nat>>, y: Option<seq<nat>>, z: Option<seq<nat>>)
    ensures Joined(Joined(x, y), z) == Joined(x, Joined(y, z))
  {
    if x.Some? && y.Some? && z.Some? {
      assert x.value + y.value + z.value == x.value + (y.value + z.value);
    }
  }

  /** The flat pattern, matched against the components from `pos` on that it has the length for. */
  function FlatFrom(pattern: seq<Component>, parts: seq<string>, pos: nat): Matched
    requires pos <= |parts|
  {
    var end := pos + |pattern|;
    if end > |parts| then NoMatch
    else
      var r := FlatMatch(pattern, parts[pos..end]);
      if r.None? then NoMatch else Matched(r.value, end)
  }

  /** However the expression is nested, it matches from a position exactly what its flat pattern does. */
  lemma {:induction false} NestedIsFlat(m: Matcher, parts: seq<string>, pos: nat)
    requires pos <= |parts|
    ensures MatchFrom(m, parts, pos) == FlatFrom(Flatten(m), parts, pos)
    decreases m
  {
    match m
    case Begin =>
      assert parts[pos..pos] == [];
    case Leaf(c) =>
      LeafIsFlat(c, parts, pos);
    case And(l, r) =>
      NestedIsFlat(l, parts, pos);
      var left := MatchFrom(l, parts, pos);
      if left.Matched? {
        NestedIsFlat(r, parts, left.pos);
      }
      AndIsFlat(Flatten(l), Flatten(r), parts, pos);
  }

  lemma {:induction false} LeafIsFlat(c: Component, parts: seq<string>, pos: nat)
    requires pos <= |parts|
    ensures MatchFrom(Leaf(c), parts, pos) == FlatFrom([c], parts, pos)
  {
    if pos < |parts| {
      assert parts[pos..pos + 1] == [parts[pos]];
      assert FlatMatch([c][1..], [parts[pos]][1..]) == Some([]);
      assert c.OsmId? && ComponentFits(c, parts[pos]) ==>
        [ParseOsmId(parts[pos]).value] + [] == [ParseOsmId(parts[pos]).value];
    }
  }

  lemma {:induction false} AndIsFlat(p: seq<Component>, q: seq<Component>, parts: seq<string>, pos: nat)
    requires pos <= |parts|
    ensures FlatFrom(p + q, parts, pos) ==
      (var left := FlatFrom(p, parts, pos);
       if left.NoMatch? then NoMatch
       else
         var right := FlatFrom(q, parts, left.pos);
         if right.NoMatch? then NoMatch else Matched(left.ids + right.ids, right.pos))
  {
    var mid, end := pos + |p|, pos + |p| + |q|;
    if end <= |parts| {
      assert parts[pos..end] == parts[pos..mid] + parts[mid..end];
      FlatConcat(p, q, parts[pos..mid], parts[mid..end]);
    }
  }

  /** A rule applies to the whole path or not at all. */
  function Invoke(m: Matcher, parts: seq<string>): Option<seq<nat>> {
    var r := MatchFrom(m, parts, 0);
    if r.Matched? && r.pos == |parts| then Some(r.ids) else None
  }

  /** A path is accepted exactly when it has the flat pattern's length and fits it; the ids come in order. */
  lemma {:induction false} InvokeIsFlat(m: Matcher, parts: seq<string>)
    ensures Invoke(m, parts) == FlatMatch(Flatten(m), parts)
    ensures Invoke(m, parts).Some? <==> Fits(Flatten(m), parts)
  {
    NestedIsFlat(m, parts, 0);
    FlatMatchFits(Flatten(m), parts);
    if |Flatten(m)| == |parts| {
      assert parts[0..|parts|] == parts;
    }
  }

  method InvokeIf(m: Matcher, parts: seq<string>) returns (r: Option<seq<nat>>)
    ensures r == Invoke(m, parts)
  {
    var begin := new PartIterator(parts);
    var sequence, error := Match(m, begin);
    if error {
      return None;
    }
    if begin.pos != |parts| {
      return None;
    }
    return Some(sequence);
  }

  // ---------- Printed paths ----------

  /** How many ids a pattern takes. */
  function IdCount(pattern: seq<Component>): nat {
    if pattern == [] then 0 else (if pattern[0].OsmId? then 1 else 0) + IdCount(pattern[1..])
  }

  /** The path of a pattern with ids in its places. */
  function PathOf(pattern: seq<Component>, ids: seq<nat>): seq<string>
    requires |ids| == IdCount(pattern)
  {
    if pattern == [] then []
    else
      match pattern[0]
      case Literal(text) => [text] + PathOf(pattern[1..], ids)
      case OsmId => [Print(ids[0])] + PathOf(pattern[1..], ids[1..])
  }

  predicate IdsInRange(ids: seq<nat>) { forall i :: 0 <= i < |ids| ==> 1 <= ids[i] <= MAX_UINT64 }

  /** One more component in front of a pattern and of the path that it accepts. */
  lemma {:induction false} FlatMatchLiteral(text: string, pattern: seq<Component>, parts: seq<string>, ids: seq<nat>)
    requires FlatMatch(pattern, parts) == Some(ids)
    ensures FlatMatch([Literal(text)] + pattern, [text] + parts) == Some(ids)
  {
    assert ([Literal(text)] + pattern)[1..] == pattern && ([text] + parts)[1..] == parts;
    assert [] + ids == ids;
  }

  lemma {:induction false} FlatMatchId(n: nat, pattern: seq<Component>, parts: seq<string>, ids: seq<nat>)
    requires FlatMatch(pattern, parts) == Some(ids) && 1 <= n <= MAX_UINT64
    ensures FlatMatch([OsmId] + pattern, [Print(n)] + parts) == Some([n] + ids)
  {
    PrintedOsmId(n);
    assert ([OsmId] + pattern)[1..] == pattern && ([Print(n)] + parts)[1..] == parts;
  }

  /** The path printed from a pattern and ids is accepted with exactly those ids. */
  lemma {:induction false} PrintedPathMatches(pattern: seq<Component>, ids: seq<nat>)
    requires |ids| == IdCount(pattern) && IdsInRange(ids)
    ensures FlatMatch(pattern, PathOf(pattern, ids)) == Some(ids)
    decreases |pattern|
  {
    if pattern != [] {
      var rest := pattern[1..];
      assert pattern == [pattern[0]] + rest;
      match pattern[0]
      case Literal(text) =>
        PrintedPathMatches(rest, ids);
        FlatMatchLiteral(text, rest, PathOf(rest, ids), ids);
      case OsmId =>
        PrintedPathMatches(rest, ids[1..]);
        FlatMatchId(ids[0], rest, PathOf(rest, ids[1..]), ids[1..]);
        assert ids == [ids[0]] + ids[1..];
    }
  }

  /** So is it by the rule itself, however its expression is nested. */
  lemma {:induction false} PrintedPathIsInvoked(m: Matcher, ids: seq<nat>)
    requires |ids| == IdCount(Flatten(m)) && IdsInRange(ids)
    ensures Invoke(m, PathOf(Flatten(m), ids)) == Some(ids)
  {
    PrintedPathMatches(Flatten(m), ids);
    InvokeIsFlat(m, PathOf(Flatten(m), ids));
  }
}
