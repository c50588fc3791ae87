/** Calls that read: the map call as a closure over the database, and the multi-fetch with its 404 answer. */
module ReadCalls {
  import opened Common
  import opened IdVersions
  import opened Sorting
  import opened Selections
  import opened QuadTileIndex

  // ---------- Map call ----------

  /** Ids of the nodes that the box query returns, with the tile condition and without. */
  function BoxNodes(scale: real, b: Bounds, rows: set<Row>): set<nat>
    requires b.Valid()
  {
    set r | r in rows && TileMatch(scale, b, r) :: r.id
  }

  function PlainBoxNodes(scale: real, b: Bounds, rows: set<Row>): set<nat> {
    set r | r in rows && PlainMatch(scale, b, r) :: r.id
  }

  datatype Found = Found(nodes: set<nat>, ways: set<nat>, relations: set<nat>)

  /** Ways touching the initial nodes, their nodes, relations directly containing any of these, and their parents. */
  function MapClosure(t: Tables, initial: set<nat>): Found {
    var ways := WaysOfNodes(t, initial);
    var nodes := initial + NodesOfWays(t, ways);
    var direct := ParentsOf(t, WayMember, ways) + ParentsOf(t, NodeMember, nodes);
    Found(nodes, ways, direct + ParentsOf(t, RelationMember, direct))
  }

  /**
   The call fails exactly when more nodes match than are allowed. Otherwise the row limit of the query never cut
   anything off, and the selection is the closure of exactly the matching nodes.
   */
  method MapResponder(sel: ReadonlySelection, scale: real, b: Bounds, rows: set<Row>, maxNodes: nat)
    returns (o: Outcome)
    requires b.Valid()
    requires sel.selNodes == {} && sel.selWays == {} && sel.selRelations == {}
    modifies sel`selNodes, sel`selWays, sel`selRelations
    ensures o == if |BoxNodes(scale, b, rows)| > maxNodes then Fail(BadRequest) else Pass
    ensures o.Pass? ==>
      Found(sel.selNodes, sel.selWays, sel.selRelations) == MapClosure(sel.tables, BoxNodes(scale, b, rows))
  {
    var matching := BoxNodes(scale, b, rows);
    var numNodes := sel.SelectNodesFromBbox(matching, maxNodes);
    if numNodes > maxNodes {
      return Fail(BadRequest);
    }
    if numNodes > 0 {
      AddConnected(sel);
    } else {
      EmptyClosure(sel.tables, matching);
    }
    return Pass;
  }

  /** The five selects that follow the initial one. */
  method AddConnected(sel: ReadonlySelection)
    requires sel.selWays == {} && sel.selRelations == {}
    modifies sel`selNodes, sel`selWays, sel`selRelations
    ensures Found(sel.selNodes, sel.selWays, sel.selRelations) == MapClosure(sel.tables, old(sel.selNodes))
  {
    ghost var initial := sel.selNodes;
    sel.SelectWaysFromNodes();
    assert sel.selWays == WaysOfNodes(sel.tables, initial);
    sel.SelectNodesFromWayNodes();
    sel.SelectRelationsFromWays();
    sel.SelectRelationsFromNodes();
    sel.SelectRelationsFromRelations(false);
  }

  lemma {:induction false} EmptyClosure(t: Tables, initial: set<nat>)
    requires |initial| == 0
    ensures initial == {} && MapClosure(t, initial) == Found({}, {}, {})
  {
  }

  /** What a map answer must contain: all nodes of its ways, all direct parents, and the parents of those. */
  ghost predicate Answers(t: Tables, initial: set<nat>, f: Found, direct: set<nat>) {
    && initial <= f.nodes
    && (forall w, n :: (w, n) in t.wayNodes && n in initial ==> w in f.ways)
    && (forall w, n :: (w, n) in t.wayNodes && w in f.ways ==> n in f.nodes)
    && (forall r, m :: MemberRow(r, WayMember, m) in t.members && m in f.ways ==> r in direct)
    && (forall r, m :: MemberRow(r, NodeMember, m) in t.members && m in f.nodes ==> r in direct)
    && direct <= f.relations
    && (forall r, m :: MemberRow(r, RelationMember, m) in t.members && m in direct ==> r in f.relations)
  }

  function DirectParents(t: Tables, initial: set<nat>): set<nat> {
    var f := MapClosure(t, initial);
    ParentsOf(t, WayMember, f.ways) + ParentsOf(t, NodeMember, f.nodes)
  }

  /** The closure answers the call, in particular with no way missing a node, and it is the least answer. */
  lemma {:induction false} ClosureAnswers(t: Tables, initial: set<nat>)
    ensures Answers(t, initial, MapClosure(t, initial), DirectParents(t, initial))
  {
  }

  lemma {:induction false} ClosureIsLeast(t: Tables, initial: set<nat>, f: Found, direct: set<nat>)
    requires Answers(t, initial, f, direct)
    ensures var least := MapClosure(t, initial);
      least.nodes <= f.nodes && least.ways <= f.ways && least.relations <= f.relations
  {
    var least := MapClosure(t, initial);
    assert least.ways <= f.ways;
    assert least.nodes <= f.nodes;
    assert DirectParents(t, initial) <= direct;
  }

  /**
   On a box of the 1/scale grid, with consistent tiles, the index plays no part in the answer of the map call.
   */
  lemma {:induction false} MapIgnoresIndex(scale: real, g: Grid, rows: set<Row>)
    requires scale > 0.0 && GridBounds(scale, g).Valid()
    requires forall r :: r in rows && r.visible ==> RowInWorld(scale, r) && TileConsistent(scale, r)
    ensures BoxNodes(scale, GridBounds(scale, g), rows) == PlainBoxNodes(scale, GridBounds(scale, g), rows)
  {
    var b := GridBounds(scale, g);
    forall r | r in rows && PlainMatch(scale, b, r)
      ensures TileMatch(scale, b, r)
    {
      ConsistentAgrees(scale, r);
    }
  }

  // ---------- A relation with its members ----------

  /** The relation, its direct members, and the nodes of its member ways. */
  function FullRelation(t: Tables, id: nat): Found {
    var ways := MembersOf(t, WayMember, {id});
    Found(MembersOf(t, NodeMember, {id}) + NodesOfWays(t, ways), ways, {id} + MembersOf(t, RelationMember, {id}))
  }

  /**
   A relation that does not exist is answered 404, a deleted one 410; otherwise the selection is the full relation.
   Members of relation members are not followed.
   */
  method RelationFullResponder(sel: ReadonlySelection, id: nat) returns (o: Outcome)
    requires sel.selNodes == {} && sel.selWays == {} && sel.selRelations == {}
    modifies sel`selNodes, sel`selWays, sel`selRelations
    ensures o ==
      if id !in sel.tables.currentRelations then Fail(NotFound)
      else if !sel.tables.currentRelations[id] then Fail(Gone)
      else Pass
    ensures o.Pass? ==> Found(sel.selNodes, sel.selWays, sel.selRelations) == FullRelation(sel.tables, id)
  {
    var count := sel.SelectRelations([id]);
    assert CurrentRelations(sel.tables, [id]) == if id in sel.tables.currentRelations then {id} else {};
    if count == 0 {
      return Fail(NotFound);
    }
    if !sel.tables.currentRelations[id] {
      return Fail(Gone);
    }
    AddMembers(sel, id);
    return Pass;
  }

  /** The four selects that follow. */
  method AddMembers(sel: ReadonlySelection, ghost id: nat)
    requires sel.selNodes == {} && sel.selWays == {} && sel.selRelations == {id}
    modifies sel`selNodes, sel`selWays, sel`selRelations
    ensures Found(sel.selNodes, sel.selWays, sel.selRelations) == FullRelation(sel.tables, id)
  {
    sel.SelectNodesFromRelations();
    sel.SelectWaysFromRelations();
    assert sel.selWays == MembersOf(sel.tables, WayMember, {id});
    sel.SelectNodesFromWayNodes();
    sel.SelectRelationsMembersOfRelations();
  }

  /** What such an answer must contain: the relation, all its members, and all nodes of all its ways. */
  ghost predicate AnswersFull(t: Tables, id: nat, f: Found) {
    && id in f.relations
    && (forall m :: MemberRow(id, NodeMember, m) in t.members ==> m in f.nodes)
    && (forall m :: MemberRow(id, WayMember, m) in t.members ==> m in f.ways)
    && (forall m :: MemberRow(id, RelationMember, m) in t.members ==> m in f.relations)
    && (forall w, n :: (w, n) in t.wayNodes && w in f.ways ==> n in f.nodes)
  }

  /** The full relation is the least such answer, so it leaves out nothing needed and adds nothing else. */
  lemma {:induction false} FullRelationIsLeast(t: Tables, id: nat, f: Found)
    ensures AnswersFull(t, id, FullRelation(t, id))
    ensures AnswersFull(t, id, f) ==>
      var least := FullRelation(t, id);
      least.nodes <= f.nodes && least.ways <= f.ways && least.relations <= f.relations
  {
    var least := FullRelation(t, id);
    forall m | MemberRow(id, NodeMember, m) in t.members
      ensures m in least.nodes
    {
      assert MemberRow(id, NodeMember, m).relation in {id};
    }
    if AnswersFull(t, id, f) {
      assert least.ways <= f.ways;
    }
  }

  // ---------- Multi-fetch ----------

  function CurrentIds(ids: seq<IdVersion>): seq<nat> {
    if ids == [] then []
    else
      var i := ids[|ids| - 1];
      CurrentIds(ids[..|ids| - 1]) + if i.version.None? then [i.id] else []
  }

  function HistoricIds(ids: seq<IdVersion>): seq<Edition> {
    if ids == [] then []
    else
      var i := ids[|ids| - 1];
      HistoricIds(ids[..|ids| - 1]) + if i.version.Some? then [(i.id, i.version.value)] else []
  }

  /** The object or edition exists and is not hidden by redaction. */
  predicate Available(t: Tables, redactionsVisible: bool, i: IdVersion) {
    match i.version
    case None => i.id in t.currentVersion
    case Some(v) => (i.id, v) in t.history && (!t.history[(i.id, v)] || redactionsVisible)
  }

  lemma {:induction false} SplitMembers(ids: seq<IdVersion>)
    ensures forall n: nat :: n in CurrentIds(ids) <==> IdVersion(n, None) in ids
    ensures forall n: nat, v: nat :: (n, v) in HistoricIds(ids) <==> IdVersion(n, Some(v)) in ids
    ensures |CurrentIds(ids)| + |HistoricIds(ids)| == |ids|
    decreases |ids|
  {
    if ids != [] {
      SplitMembers(ids[..|ids| - 1]);
      assert ids == ids[..|ids| - 1] + [ids[|ids| - 1]];
    }
  }

  lemma {:induction false} SplitNoDuplicates(ids: seq<IdVersion>)
    requires NoDuplicates(ids)
    ensures NoDuplicates(CurrentIds(ids)) && NoDuplicates(HistoricIds(ids))
    decreases |ids|
  {
    if ids != [] {
      var before := ids[..|ids| - 1];
      var i := ids[|ids| - 1];
      SplitNoDuplicates(before);
      SplitMembers(before);
      assert i !in before;
      if i.version.None? {
        assert i == IdVersion(i.id, None);
      } else {
        assert i == IdVersion(i.id, Some(i.version.value));
      }
    }
  }

  /** A selection out of a list without repetitions is complete exactly when it is as long as the list. */
  lemma {:induction false} SelectionCount<T(!new)>(selected: set<T>, asked: seq<T>)
    requires NoDuplicates(asked) && forall e :: e in selected ==> e in asked
    ensures |selected| <= |asked|
    ensures |selected| == |asked| <==> forall e :: e in asked ==> e in selected
  {
    var all := set e | e in asked;
    RowsCount(asked, all);
    SmallerSubset(selected, all);
    if forall e :: e in asked ==> e in selected {
      assert selected == all;
    }
  }

  predicate AllAvailable(t: Tables, redactionsVisible: bool, ids: seq<IdVersion>) {
    forall k :: 0 <= k < |ids| ==> Available(t, redactionsVisible, ids[k])
  }

  predicate AllCurrent(t: Tables, ids: seq<nat>) { forall n :: n in ids ==> n in CurrentNodes(t, ids) }

  predicate AllHistoric(t: Tables, redactionsVisible: bool, eds: seq<Edition>) {
    forall e :: e in eds ==> e in HistoricNodes(t, redactionsVisible, eds)
  }

  /** Counting decides: all are found exactly when as many rows were selected as ids were asked for. */
  lemma {:induction false} CountDecides(t: Tables, redactionsVisible: bool, ids: seq<IdVersion>)
    requires NoDuplicates(ids)
    ensures |CurrentNodes(t, CurrentIds(ids))| + |HistoricNodes(t, redactionsVisible, HistoricIds(ids))| == |ids|
            <==> AllAvailable(t, redactionsVisible, ids)
  {
    SplitMembers(ids);
    SplitNoDuplicates(ids);
    SelectionCount(CurrentNodes(t, CurrentIds(ids)), CurrentIds(ids));
    SelectionCount(HistoricNodes(t, redactionsVisible, HistoricIds(ids)), HistoricIds(ids));
    if AllAvailable(t, redactionsVisible, ids) {
      AllSelected(t, redactionsVisible, ids);
    }
    if AllCurrent(t, CurrentIds(ids)) && AllHistoric(t, redactionsVisible, HistoricIds(ids)) {
      SelectedAvailable(t, redactionsVisible, ids);
    }
  }

  lemma {:induction false} SelectedAvailable(t: Tables, redactionsVisible: bool, ids: seq<IdVersion>)
    requires AllCurrent(t, CurrentIds(ids)) && AllHistoric(t, redactionsVisible, HistoricIds(ids))
    ensures AllAvailable(t, redactionsVisible, ids)
  {
    forall k | 0 <= k < |ids|
      ensures Available(t, redactionsVisible, ids[k])
    {
      AskedFor(ids, k);
    }
  }

  lemma {:induction false} AskedFor(ids: seq<IdVersion>, k: nat)
    requires k < |ids|
    ensures ids[k].version.None? ==> ids[k].id in CurrentIds(ids)
    ensures ids[k].version.Some? ==> (ids[k].id, ids[k].version.value) in HistoricIds(ids)
  {
    SplitMembers(ids);
    if ids[k].version.None? {
      assert ids[k] == IdVersion(ids[k].id, None);
    } else {
      assert ids[k] == IdVersion(ids[k].id, Some(ids[k].version.value));
    }
  }

  lemma {:induction false} AllSelected(t: Tables, redactionsVisible: bool, ids: seq<IdVersion>)
    requires AllAvailable(t, redactionsVisible, ids)
    ensures AllCurrent(t, CurrentIds(ids)) && AllHistoric(t, redactionsVisible, HistoricIds(ids))
  {
    SplitMembers(ids);
    forall n | n in CurrentIds(ids)
      ensures n in CurrentNodes(t, CurrentIds(ids))
    {
      assert IdVersion(n, None) in ids;
    }
    forall e | e in HistoricIds(ids)
      ensures e in HistoricNodes(t, redactionsVisible, HistoricIds(ids))
    {
      assert IdVersion(e.0, Some(e.1)) in ids;
    }
  }

  /** 404 exactly when some requested id or edition is missing or hidden. */
  method NodesResponder(sel: ReadonlySelection, ids: seq<IdVersion>) returns (o: Outcome)
    requires NoDuplicates(ids) && sel.selNodes == {} && sel.selHistoricNodes == {}
    modifies sel`selNodes, sel`selHistoricNodes
    ensures o.Pass? <==> AllAvailable(sel.tables, sel.redactionsVisible, ids)
    ensures o.Fail? ==> o.error == NotFound
    ensures sel.selNodes == CurrentNodes(sel.tables, CurrentIds(ids))
    ensures sel.selHistoricNodes == HistoricNodes(sel.tables, sel.redactionsVisible, HistoricIds(ids))
  {
    var currentIds, historicIds := [], [];
    for k := 0 to |ids|
      invariant currentIds == CurrentIds(ids[..k]) && historicIds == HistoricIds(ids[..k])
    {
      assert ids[..k + 1][..k] == ids[..k];
      if ids[k].version.Some? {
        historicIds := historicIds + [(ids[k].id, ids[k].version.value)];
      } else {
        currentIds := currentIds + [ids[k].id];
      }
    }
    assert ids[..|ids|] == ids;
    CountDecides(sel.tables, sel.redactionsVisible, ids);
    var numSelected := sel.SelectNodes(currentIds);
    if historicIds != [] {
      var n := sel.SelectHistoricalNodes(historicIds);
      numSelected := numSelected + n;
    } else {
      assert HistoricNodes(sel.tables, sel.redactionsVisible, historicIds) == {};
    }
    if numSelected != |ids| {
      return Fail(NotFound);
    }
    return Pass;
  }
}
