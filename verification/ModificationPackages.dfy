/**
 Repeated modifications of one object in one upload: the updaters spread them over packages, check and update each
 package as a whole, and must have the effect of applying the modifications one by one in document order.
 */
module ModificationPackages {
  import opened Common

  /** A modification by the id of an existing object and the version it was made from. */
  datatype Modification = Modification(id: nat, version: nat)

  /** The modifications of one object, in order. */
  function OfId(ms: seq<Modification>, id: nat): (r: seq<Modification>)
    ensures |r| <= |ms|
  {
    if ms == [] then []
    else
      var last := ms[|ms| - 1];
      OfId(ms[..|ms| - 1], id) + if last.id == id then [last] else []
  }

  function Count(ms: seq<Modification>, id: nat): nat { |OfId(ms, id)| }

  /** Append to a package, which may be the next new one. */
  function PutIn(packages: seq<seq<Modification>>, p: nat, m: Modification): seq<seq<Modification>>
    requires p <= |packages|
  {
    if p == |packages| then packages + [[m]] else packages[p := packages[p] + [m]]
  }

  /** Each modification goes to the package numbered by how often its object was modified before. */
  function Packages(ms: seq<Modification>): (r: seq<seq<Modification>>)
    ensures forall id :: Count(ms, id) <= |r|
  {
    if ms == [] then []
    else
      var front, last := ms[..|ms| - 1], ms[|ms| - 1];
      assert forall id :: Count(ms, id) == Count(front, id) + if last.id == id then 1 else 0;
      PutIn(Packages(front), Count(front, last.id), last)
  }

  lemma {:induction false} CountStep(ms: seq<Modification>, i: nat)
    requires i < |ms|
    ensures Packages(ms[..i + 1]) == PutIn(Packages(ms[..i]), Count(ms[..i], ms[i].id), ms[i])
    ensures forall id :: Count(ms[..i + 1], id) == Count(ms[..i], id) + if ms[i].id == id then 1 else 0
  {
    assert ms[..i + 1][..i] == ms[..i];
  }

  /** A new package is made empty before it is filled. */
  lemma {:induction false} PutInNew(packages: seq<seq<Modification>>, m: Modification)
    ensures (packages + [[]])[|packages|] == []
    ensures (packages + [[]])[|packages| := [] + [m]] == PutIn(packages, |packages|, m)
  {
    assert [] + [m] == [m];
  }

  method BuildPackages(ms: seq<Modification>) returns (result: seq<seq<Modification>>)
    ensures result == Packages(ms)
  {
    result := [];
    var idToPackage: map<nat, nat> := map[];
    for i := 0 to |ms|
      invariant result == Packages(ms[..i])
      invariant forall id :: id in idToPackage <==> Count(ms[..i], id) > 0
      invariant forall id :: id in idToPackage ==> idToPackage[id] + 1 == Count(ms[..i], id)
    {
      var m := ms[i];
      CountStep(ms, i);
      if m.id !in idToPackage {
        idToPackage := idToPackage[m.id := 0];
      } else {
        idToPackage := idToPackage[m.id := idToPackage[m.id] + 1];
      }
      var p := idToPackage[m.id];
      assert p == Count(ms[..i], m.id);
      PutInNew(result, m);
      if p + 1 > |result| {
        result := result + [[]];
      }
      result := result[p := result[p] + [m]];
    }
    assert ms[..|ms|] == ms;
  }

  // ---------- What the packages hold ----------

  lemma {:induction false} OfIdAppended(ms: seq<Modification>, m: Modification, id: nat)
    ensures OfId(ms + [m], id) == OfId(ms, id) + if m.id == id then [m] else []
  {
    assert (ms + [m])[..|ms|] == ms;
  }

  /** The content of a package after one more modification. */
  lemma {:induction false} PackageSnoc(ms: seq<Modification>, p: nat)
    requires ms != [] && p < |Packages(ms)|
    ensures var front, last := ms[..|ms| - 1], ms[|ms| - 1];
      var before := if p < |Packages(front)| then Packages(front)[p] else [];
      Packages(ms)[p] == if p == Count(front, last.id) then before + [last] else before
  {
    var last := ms[|ms| - 1];
    assert [] + [last] == [last];
  }

  lemma {:induction false} OfIdSnoc(ms: seq<Modification>, id: nat)
    requires ms != []
    ensures var front, last := ms[..|ms| - 1], ms[|ms| - 1];
      OfId(ms, id) == if last.id == id then OfId(front, id) + [last] else OfId(front, id)
  {
  }

  /** Package `p` holds exactly the modification number `p` of each object that is modified more than `p` times. */
  lemma {:induction false} PackageHolds(ms: seq<Modification>, p: nat, id: nat)
    requires p < |Packages(ms)|
    ensures OfId(Packages(ms)[p], id) == if p < Count(ms, id) then [OfId(ms, id)[p]] else []
    decreases |ms|
  {
    var front, last := ms[..|ms| - 1], ms[|ms| - 1];
    var before := if p < |Packages(front)| then Packages(front)[p] else [];
    assert OfId(before, id) == if p < Count(front, id) then [OfId(front, id)[p]] else [] by {
      if p < |Packages(front)| {
        PackageHolds(front, p, id);
      } else {
        assert Count(front, id) <= p;
      }
    }
    PackageSnoc(ms, p);
    OfIdSnoc(ms, id);
    OfIdAppended(before, last, id);
  }

  function Concat(packages: seq<seq<Modification>>): seq<Modification> {
    if packages == [] then [] else Concat(packages[..|packages| - 1]) + packages[|packages| - 1]
  }

  lemma {:induction false} OfIdConcat(a: seq<Modification>, b: seq<Modification>, id: nat)
    ensures OfId(a + b, id) == OfId(a, id) + OfId(b, id)
    decreases |b|
  {
    if b == [] {
      assert a + b == a;
    } else {
      assert (a + b)[..|a + b| - 1] == a + b[..|b| - 1];
      OfIdConcat(a, b[..|b| - 1], id);
    }
  }

  lemma {:induction false} FirstPackages(ms: seq<Modification>, p: nat, id: nat)
    requires p <= |Packages(ms)|
    ensures OfId(Concat(Packages(ms)[..p]), id) == OfId(ms, id)[..Min(p, Count(ms, id))]
    decreases p
  {
    if p > 0 {
      var before := Packages(ms)[..p - 1];
      assert Packages(ms)[..p][..p - 1] == before;
      FirstPackages(ms, p - 1, id);
      PackageHolds(ms, p - 1, id);
      OfIdConcat(Concat(before), Packages(ms)[p - 1], id);
      TakeOneMore(OfId(ms, id), p - 1);
    }
  }

  lemma {:induction false} TakeOneMore<T>(s: seq<T>, p: nat)
    ensures s[..Min(p + 1, |s|)] == s[..Min(p, |s|)] + if p < |s| then [s[p]] else []
  {
  }

  /** One package after the other, every object meets its own modifications in document order, none lost or repeated. */
  lemma {:induction false} PackagesKeepOrder(ms: seq<Modification>, id: nat)
    ensures OfId(Concat(Packages(ms)), id) == OfId(ms, id)
  {
    assert Packages(ms)[..|Packages(ms)|] == Packages(ms);
    FirstPackages(ms, |Packages(ms)|, id);
  }

  /** There are no more packages than some object has modifications. */
  lemma {:induction false} PackagesNeeded(ms: seq<Modification>) returns (id: nat)
    requires ms != []
    ensures |Packages(ms)| == Count(ms, id)
    decreases |ms|
  {
    var front, last := ms[..|ms| - 1], ms[|ms| - 1];
    id := last.id;
    if Count(front, last.id) < |Packages(front)| {
      id := PackagesNeeded(front);
    }
  }

  // ---------- One by one ----------

  /** Apply modifications one at a time: each must name the object's current version, and raises it. */
  function OneByOne(versions: map<nat, nat>, ms: seq<Modification>): Option<map<nat, nat>> {
    if ms == [] then Some(versions)
    else
      var before := OneByOne(versions, ms[..|ms| - 1]);
      var m := ms[|ms| - 1];
      if before.Some? && m.id in before.value && before.value[m.id] == m.version then
        Some(before.value[m.id := m.version + 1])
      else None
  }

  /** Every object's version is raised by the number of its modifications. */
  ghost predicate Raised(versions: map<nat, nat>, ms: seq<Modification>, after: map<nat, nat>) {
    after.Keys == versions.Keys && forall id :: id in versions ==> after[id] == versions[id] + Count(ms, id)
  }

  predicate Known(versions: map<nat, nat>, ms: seq<Modification>) { forall m :: m in ms ==> m.id in versions }

  /** For every object, the modifications name its current version and the ones that follow, without a gap. */
  predicate InOrder(versions: map<nat, nat>, ms: seq<Modification>) {
    Known(versions, ms) &&
    forall id, p :: id in versions && 0 <= p < Count(ms, id) ==> OfId(ms, id)[p].version == versions[id] + p
  }

  lemma {:induction false} OfIdMembers(ms: seq<Modification>, id: nat)
    ensures forall m :: m in OfId(ms, id) <==> m in ms && m.id == id
    decreases |ms|
  {
    if ms != [] {
      OfIdMembers(ms[..|ms| - 1], id);
      assert ms == ms[..|ms| - 1] + [ms[|ms| - 1]];
    }
  }

  lemma {:induction false} InOrderSnoc(versions: map<nat, nat>, front: seq<Modification>, last: Modification)
    ensures InOrder(versions, front + [last]) <==>
      InOrder(versions, front) && last.id in versions && last.version == versions[last.id] + Count(front, last.id)
  {
    var ms := front + [last];
    forall id
      ensures OfId(ms, id) == OfId(front, id) + if last.id == id then [last] else []
    {
      OfIdAppended(front, last, id);
    }
    assert last in ms;
    if InOrder(versions, ms) {
      assert OfId(ms, last.id)[Count(front, last.id)] == last;
      forall id, p | id in versions && 0 <= p < Count(front, id)
        ensures OfId(front, id)[p].version == versions[id] + p
      {
        assert OfId(ms, id)[p] == OfId(front, id)[p];
      }
    }
  }

  lemma {:induction false} RaisedSnoc(versions: map<nat, nat>, front: seq<Modification>, last: Modification,
                                      after: map<nat, nat>)
    requires Raised(versions, front, after) && last.id in versions
    ensures Raised(versions, front + [last], after[last.id := after[last.id] + 1])
  {
    forall id | id in versions
      ensures Count(front + [last], id) == Count(front, id) + if last.id == id then 1 else 0
    {
      OfIdAppended(front, last, id);
    }
  }

  /** One by one they succeed exactly when they are in order. */
  lemma {:induction false} OneByOneExactly(versions: map<nat, nat>, ms: seq<Modification>)
    ensures OneByOne(versions, ms).Some? <==> InOrder(versions, ms)
    ensures InOrder(versions, ms) ==> Raised(versions, ms, OneByOne(versions, ms).value)
    decreases |ms|
  {
    if ms != [] {
      var front, last := ms[..|ms| - 1], ms[|ms| - 1];
      assert ms == front + [last];
      OneByOneExactly(versions, front);
      InOrderSnoc(versions, front, last);
      if InOrder(versions, ms) {
        RaisedSnoc(versions, front, last, OneByOne(versions, front).value);
      }
    }
  }

  // ---------- Package by package ----------

  /** No modification of a package names another version than the current one. */
  predicate Matches(versions: map<nat, nat>, package: seq<Modification>) {
    forall m :: m in package && m.id in versions ==> versions[m.id] == m.version
  }

  /** The rows that one update statement changes: each at most once. */
  function UpdatedIds(versions: map<nat, nat>, package: seq<Modification>): set<nat> {
    set m | m in package && m.id in versions && versions[m.id] == m.version :: m.id
  }

  function Updated(versions: map<nat, nat>, package: seq<Modification>): map<nat, nat> {
    var ids := UpdatedIds(versions, package);
    map id | id in versions :: if id in ids then versions[id] + 1 else versions[id]
  }

  /** The versions after `p` packages. */
  ghost predicate RaisedUpTo(versions: map<nat, nat>, ms: seq<Modification>, p: nat, after: map<nat, nat>) {
    after.Keys == versions.Keys && forall id :: id in versions ==> after[id] == versions[id] + Min(p, Count(ms, id))
  }

  /** The first `p` modifications of every object are in order. */
  predicate InOrderUpTo(versions: map<nat, nat>, ms: seq<Modification>, p: nat) {
    forall id, q :: id in versions && 0 <= q < Min(p, Count(ms, id)) ==> OfId(ms, id)[q].version == versions[id] + q
  }

  lemma {:induction false} PackageMember(ms: seq<Modification>, p: nat, m: Modification)
    requires p < |Packages(ms)|
    ensures m in Packages(ms)[p] <==> p < Count(ms, m.id) && m == OfId(ms, m.id)[p]
  {
    OfIdMembers(Packages(ms)[p], m.id);
    PackageHolds(ms, p, m.id);
  }

  /** The version check of a package passes exactly when one more modification of every object is in order. */
  lemma {:induction false} PackageMatches(versions: map<nat, nat>, ms: seq<Modification>, p: nat, after: map<nat, nat>)
    requires p < |Packages(ms)| && RaisedUpTo(versions, ms, p, after) && InOrderUpTo(versions, ms, p)
    ensures Matches(after, Packages(ms)[p]) <==> InOrderUpTo(versions, ms, p + 1)
  {
    var package := Packages(ms)[p];
    if Matches(after, package) {
      forall id, q | id in versions && 0 <= q < Min(p + 1, Count(ms, id))
        ensures OfId(ms, id)[q].version == versions[id] + q
      {
        if q == p {
          OfIdMembers(ms, id);
          PackageMember(ms, p, OfId(ms, id)[p]);
        }
      }
    }
    if InOrderUpTo(versions, ms, p + 1) {
      forall m | m in package && m.id in after
        ensures after[m.id] == m.version
      {
        PackageMember(ms, p, m);
      }
    }
  }

  ghost predicate Distinct(package: seq<Modification>) { forall id :: Count(package, id) <= 1 }

  lemma {:induction false} DistinctSnoc(front: seq<Modification>, last: Modification)
    ensures Distinct(front + [last]) <==> Distinct(front) && OfId(front, last.id) == []
  {
    forall id
      ensures OfId(front + [last], id) == OfId(front, id) + if last.id == id then [last] else []
    {
      OfIdAppended(front, last, id);
    }
    if Distinct(front + [last]) {
      assert Count(front + [last], last.id) <= 1;
      forall id
        ensures Count(front, id) <= 1
      {
        assert Count(front + [last], id) <= 1;
      }
    }
    if Distinct(front) && OfId(front, last.id) == [] {
      forall id
        ensures Count(front + [last], id) <= 1
      {
        assert Count(front, id) <= 1;
      }
    }
  }

  /**
   Where every version matches, one statement changes a row for each modification exactly if no object occurs twice:
   this is what packages are for.
   */
  lemma {:induction false} UpdatedAllExactly(versions: map<nat, nat>, package: seq<Modification>)
    requires forall m :: m in package ==> m.id in versions && versions[m.id] == m.version
    ensures |UpdatedIds(versions, package)| <= |package|
    ensures |UpdatedIds(versions, package)| == |package| <==> Distinct(package)
    decreases |package|
  {
    if package != [] {
      var front, last := package[..|package| - 1], package[|package| - 1];
      assert package == front + [last];
      DistinctSnoc(front, last);
      UpdatedAllExactly(versions, front);
      OfIdMembers(front, last.id);
      assert UpdatedIds(versions, package) == UpdatedIds(versions, front) + {last.id};
      if OfId(front, last.id) != [] {
        assert OfId(front, last.id)[0] in front;
      }
    }
  }

  lemma {:induction false} PackageUpdates(versions: map<nat, nat>, ms: seq<Modification>, p: nat, after: map<nat, nat>)
    requires p < |Packages(ms)| && RaisedUpTo(versions, ms, p, after) && Known(versions, ms)
    requires Matches(after, Packages(ms)[p])
    ensures |UpdatedIds(after, Packages(ms)[p])| == |Packages(ms)[p]|
    ensures RaisedUpTo(versions, ms, p + 1, Updated(after, Packages(ms)[p]))
  {
    var package := Packages(ms)[p];
    forall m | m in package
      ensures m.id in versions
    {
      PackageMember(ms, p, m);
      OfIdMembers(ms, m.id);
    }
    forall id
      ensures Count(package, id) <= 1 && (id in UpdatedIds(after, package) <==> p < Count(ms, id))
    {
      PackageHolds(ms, p, id);
      OfIdMembers(package, id);
      if p < Count(ms, id) {
        assert OfId(package, id)[0] in package;
      }
    }
    UpdatedAllExactly(after, package);
  }

  lemma {:induction false} RaisedIsUnique(versions: map<nat, nat>, ms: seq<Modification>, a: map<nat, nat>,
                                          b: map<nat, nat>)
    requires Raised(versions, ms, a) && Raised(versions, ms, b)
    ensures a == b
  {
  }

  /** The rows of the objects of one type, as the transaction sees them. */
  class CurrentObjects {
    var versions: map<nat, nat>

    constructor (versions: map<nat, nat>)
      ensures this.versions == versions
    {
      this.versions := versions;
    }

    method LockCurrent(ms: seq<Modification>) returns (r: Outcome)
      ensures r == if Known(versions, ms) then Pass else Fail(NotFound)
    {
      r := if forall m :: m in ms ==> m.id in versions then Pass else Fail(NotFound);
    }

    method CheckCurrentVersions(package: seq<Modification>) returns (r: Outcome)
      ensures r == if Matches(versions, package) then Pass else Fail(Conflict)
    {
      r := if exists m :: m in package && m.id in versions && versions[m.id] != m.version then Fail(Conflict) else Pass;
    }

    /** One statement for the whole package; it is an error if it does not change as many rows. */
    method UpdateCurrent(package: seq<Modification>) returns (r: Outcome)
      modifies this
      ensures versions == Updated(old(versions), package)
      ensures r == if |UpdatedIds(old(versions), package)| == |package| then Pass else Fail(ServerError)
    {
      var updated := UpdatedIds(versions, package);
      versions := Updated(versions, package);
      r := if |updated| != |package| then Fail(ServerError) else Pass;
    }

    /**
     A buffer of modifications: unknown objects first, then versions. It passes exactly when the modifications one by
     one would, with the same rows, and never with the error of the update statement.
     */
    method ProcessModify(ms: seq<Modification>) returns (r: Outcome)
      modifies this
      ensures r == if !Known(old(versions), ms) then Fail(NotFound)
                   else if InOrder(old(versions), ms) then Pass else Fail(Conflict)
      ensures r.Pass? <==> OneByOne(old(versions), ms).Some?
      ensures r.Pass? ==> OneByOne(old(versions), ms) == Some(versions)
    {
      ghost var start := versions;
      OneByOneExactly(start, ms);
      r := LockCurrent(ms);
      if r.Fail? { return; }
      var packages := BuildPackages(ms);
      for p := 0 to |packages|
        invariant r.Pass?
        invariant RaisedUpTo(start, ms, p, versions) && InOrderUpTo(start, ms, p)
      {
        PackageMatches(start, ms, p, versions);
        r := CheckCurrentVersions(packages[p]);
        if r.Fail? {
          NotInOrder(start, ms, p + 1);
          return;
        }
        PackageUpdates(start, ms, p, versions);
        r := UpdateCurrent(packages[p]);
      }
      AllInOrder(start, ms, versions);
      RaisedIsUnique(start, ms, versions, OneByOne(start, ms).value);
    }
  }

  lemma {:induction false} NotInOrder(versions: map<nat, nat>, ms: seq<Modification>, p: nat)
    requires !InOrderUpTo(versions, ms, p)
    ensures !InOrder(versions, ms)
  {
  }

  lemma {:induction false} AllInOrder(versions: map<nat, nat>, ms: seq<Modification>, after: map<nat, nat>)
    requires Known(versions, ms) && InOrderUpTo(versions, ms, |Packages(ms)|)
    requires RaisedUpTo(versions, ms, |Packages(ms)|, after)
    ensures InOrder(versions, ms) && Raised(versions, ms, after)
  {
    assert forall id :: Min(|Packages(ms)|, Count(ms, id)) == Count(ms, id);
  }
}
