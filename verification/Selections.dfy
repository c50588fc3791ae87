/**
 The selection behind read calls: sets of ids filled by queries over the database. Each query is the set its WHERE
 clause describes; the order of its rows is left open.
 */
module Selections {
  import opened Common
  import opened IdVersions
  import opened Sorting

  type Edition = (nat, nat)

  datatype MemberKind = NodeMember | WayMember | RelationMember

  datatype MemberRow = MemberRow(relation: nat, kind: MemberKind, member: nat)

  /** The tables that the queries read. */
  datatype Tables = Tables(
    currentVersion: map<nat, nat>,      // current_nodes: id to version
    history: map<Edition, bool>,        // nodes: (id, version) to whether it is redacted
    currentRelations: map<nat, bool>,   // current_relations: id to whether it is visible
    wayNodes: set<(nat, nat)>,          // current_way_nodes: (way, node)
    members: set<MemberRow>)            // current_relation_members

  // ---------- Queries ----------

  /** Some ordering of a query's rows. */
  method Rows<T(==)>(answer: set<T>) returns (rows: seq<T>)
    ensures forall e :: e in rows <==> e in answer
    ensures NoDuplicates(rows)
  {
    rows := [];
    var left := answer;
    while left != {}
      invariant left <= answer
      invariant forall e :: e in rows <==> e in answer && e !in left
      invariant NoDuplicates(rows)
      decreases left
    {
      var e :| e in left;
      rows := rows + [e];
      left := left - {e};
    }
  }

  function WaysOfNodes(t: Tables, nodes: set<nat>): set<nat> { set r | r in t.wayNodes && r.1 in nodes :: r.0 }

  function NodesOfWays(t: Tables, ways: set<nat>): set<nat> { set r | r in t.wayNodes && r.0 in ways :: r.1 }

  function ParentsOf(t: Tables, kind: MemberKind, ids: set<nat>): set<nat> {
    set r | r in t.members && r.kind == kind && r.member in ids :: r.relation
  }

  function MembersOf(t: Tables, kind: MemberKind, relations: set<nat>): set<nat> {
    set r | r in t.members && r.kind == kind && r.relation in relations :: r.member
  }

  function CurrentNodes(t: Tables, ids: seq<nat>): set<nat> { set i | i in t.currentVersion && i in ids }

  function CurrentRelations(t: Tables, ids: seq<nat>): set<nat> { set i | i in t.currentRelations && i in ids }

  function HistoricNodes(t: Tables, redactionsVisible: bool, eds: seq<Edition>): set<Edition> {
    set e | e in t.history && e in eds && (!t.history[e] || redactionsVisible)
  }

  // ---------- The selection ----------

  class ReadonlySelection {
    const tables: Tables
    const redactionsVisible: bool
    var selNodes: set<nat>
    var selWays: set<nat>
    var selRelations: set<nat>
    var selHistoricNodes: set<Edition>

    constructor (tables: Tables, redactionsVisible: bool)
      ensures this.tables == tables && this.redactionsVisible == redactionsVisible
      ensures selNodes == {} && selWays == {} && selRelations == {} && selHistoricNodes == {}
    {
      this.tables, this.redactionsVisible := tables, redactionsVisible;
      selNodes, selWays, selRelations, selHistoricNodes := {}, {}, {}, {};
    }

    /** Insert the ids of a result and count how many were new. */
    static method InsertResults<T(==)>(rows: seq<T>, elems: set<T>) returns (now: set<T>, inserted: nat)
      ensures forall e :: e in now <==> e in elems || e in rows
      ensures elems <= now && inserted == |now| - |elems|
    {
      now := elems;
      for i := 0 to |rows|
        invariant elems <= now && forall e :: e in now <==> e in elems || e in rows[..i]
      {
        assert rows[..i + 1] == rows[..i] + [rows[i]];
        now := now + {rows[i]};
      }
      assert rows[..|rows|] == rows;
      SmallerSubset(elems, now);
      inserted := |now| - |elems|;
    }

    method InsertIds(answer: set<nat>, elems: set<nat>) returns (now: set<nat>, inserted: nat)
      ensures now == elems + answer && inserted == |now| - |elems|
    {
      var rows := Rows(answer);
      now, inserted := InsertResults(rows, elems);
    }

    method SelectNodes(ids: seq<nat>) returns (count: nat)
      modifies `selNodes
      ensures selNodes == old(selNodes) + CurrentNodes(tables, ids)
      ensures count == |selNodes| - |old(selNodes)|
    {
      if ids == [] {
        assert CurrentNodes(tables, ids) == {};
        return 0;
      }
      selNodes, count := InsertIds(CurrentNodes(tables, ids), selNodes);
    }

    method SelectHistoricalNodes(eds: seq<Edition>) returns (count: nat)
      modifies `selHistoricNodes
      ensures selHistoricNodes == old(selHistoricNodes) + HistoricNodes(tables, redactionsVisible, eds)
      ensures count == |selHistoricNodes| - |old(selHistoricNodes)|
    {
      if eds == [] {
        assert HistoricNodes(tables, redactionsVisible, eds) == {};
        return 0;
      }
      var rows := Rows(HistoricNodes(tables, redactionsVisible, eds));
      selHistoricNodes, count := InsertResults(rows, selHistoricNodes);
    }

    method SelectRelations(ids: seq<nat>) returns (count: nat)
      modifies `selRelations
      ensures selRelations == old(selRelations) + CurrentRelations(tables, ids)
      ensures count == |selRelations| - |old(selRelations)|
    {
      if ids == [] {
        assert CurrentRelations(tables, ids) == {};
        return 0;
      }
      selRelations, count := InsertIds(CurrentRelations(tables, ids), selRelations);
    }

    /** Nodes in a box: the query stops after one row more than the caller accepts, whichever rows come first. */
    method SelectNodesFromBbox(matching: set<nat>, maxNodes: nat) returns (count: nat)
      modifies `selNodes
      ensures old(selNodes) <= selNodes <= old(selNodes) + matching
      ensures count == |selNodes| - |old(selNodes)|
      ensures |matching| <= maxNodes ==> selNodes == old(selNodes) + matching
      ensures old(selNodes) == {} ==> |selNodes| == Min(|matching|, maxNodes + 1)
    {
      var rows := Rows(matching);
      RowsCount(rows, matching);
      var limited := if |rows| > maxNodes + 1 then rows[..maxNodes + 1] else rows;
      assert forall e :: e in limited ==> e in rows;
      var before := selNodes;
      selNodes, count := InsertResults(limited, selNodes);
      if before == {} {
        RowsCount(limited, selNodes);
      }
    }

    method SelectWaysFromNodes()
      modifies `selWays
      ensures selWays == old(selWays) + WaysOfNodes(tables, selNodes)
    {
      if selNodes != {} {
        var n;
        selWays, n := InsertIds(WaysOfNodes(tables, selNodes), selWays);
      }
    }

    method SelectNodesFromWayNodes()
      modifies `selNodes
      ensures selNodes == old(selNodes) + NodesOfWays(tables, selWays)
    {
      if selWays != {} {
        var n;
        selNodes, n := InsertIds(NodesOfWays(tables, selWays), selNodes);
      }
    }

    method SelectRelationsFromWays()
      modifies `selRelations
      ensures selRelations == old(selRelations) + ParentsOf(tables, WayMember, selWays)
    {
      if selWays != {} {
        var n;
        selRelations, n := InsertIds(ParentsOf(tables, WayMember, selWays), selRelations);
      }
    }

    method SelectRelationsFromNodes()
      modifies `selRelations
      ensures selRelations == old(selRelations) + ParentsOf(tables, NodeMember, selNodes)
    {
      if selNodes != {} {
        var n;
        selRelations, n := InsertIds(ParentsOf(tables, NodeMember, selNodes), selRelations);
      }
    }

    /** Parents of the selected relations, added to them or in their place. */
    method SelectRelationsFromRelations(dropRelations: bool)
      modifies `selRelations
      ensures selRelations ==
        (if dropRelations then {} else old(selRelations)) + ParentsOf(tables, RelationMember, old(selRelations))
    {
      if selRelations != {} {
        var sel := {};
        if dropRelations {
          selRelations, sel := sel, selRelations;
        } else {
          sel := selRelations;
        }
        var n;
        selRelations, n := InsertIds(ParentsOf(tables, RelationMember, sel), selRelations);
      }
    }

    method SelectNodesFromRelations()
      modifies `selNodes
      ensures selNodes == old(selNodes) + MembersOf(tables, NodeMember, selRelations)
    {
      if selRelations != {} {
        var n;
        selNodes, n := InsertIds(MembersOf(tables, NodeMember, selRelations), selNodes);
      }
    }

    method SelectWaysFromRelations()
      modifies `selWays
      ensures selWays == old(selWays) + MembersOf(tables, WayMember, selRelations)
    {
      if selRelations != {} {
        var n;
        selWays, n := InsertIds(MembersOf(tables, WayMember, selRelations), selWays);
      }
    }

    method SelectRelationsMembersOfRelations()
      modifies `selRelations
      ensures selRelations == old(selRelations) + MembersOf(tables, RelationMember, old(selRelations))
    {
      if selRelations != {} {
        var n;
        selRelations, n := InsertIds(MembersOf(tables, RelationMember, selRelations), selRelations);
      }
    }

    /** The node editions that the selection stands for: current nodes count as their current version. */
    ghost function Editions(): set<Edition>
      reads `selNodes, `selHistoricNodes
    {
      selHistoricNodes + set i | i in selNodes && i in tables.currentVersion :: (i, tables.currentVersion[i])
    }

    /**
     Before nodes are written, a mixed selection is turned into a historic one. It stands for the same editions, and
     afterwards one query returns them all.
     */
    method MergeNodes()
      modifies `selNodes, `selHistoricNodes
      ensures Editions() == old(Editions())
      ensures selNodes == {} || selHistoricNodes == {}
      ensures old(selNodes == {} || selHistoricNodes == {}) ==>
        selNodes == old(selNodes) && selHistoricNodes == old(selHistoricNodes)
    {
      if selNodes != {} && selHistoricNodes != {} {
        var answer := set i | i in tables.currentVersion && i in selNodes :: (i, tables.currentVersion[i]);
        var rows := Rows(answer);
        var n;
        selHistoricNodes, n := InsertResults(rows, selHistoricNodes);
        selNodes := {};
      }
    }
  }

  lemma {:induction false} SmallerSubset<T>(a: set<T>, b: set<T>)
    requires a <= b
    ensures |a| <= |b| && (|a| == |b| ==> a == b)
    decreases |a|
  {
    if a != {} {
      var e :| e in a;
      SmallerSubset(a - {e}, b - {e});
      if |a| == |b| {
        assert a == a - {e} + {e} && b == b - {e} + {e};
      }
    } else if b != {} {
      var e :| e in b;
      assert |b| > 0;
    }
  }

  /** As many rows as elements when no row repeats. */
  lemma {:induction false} RowsCount<T>(rows: seq<T>, s: set<T>)
    requires NoDuplicates(rows) && forall e :: e in rows <==> e in s
    ensures |rows| == |s|
    decreases |rows|
  {
    if rows != [] {
      var rest := rows[1..];
      forall e
        ensures e in rest <==> e in s - {rows[0]}
      {
        assert rows == [rows[0]] + rest;
      }
      RowsCount(rest, s - {rows[0]});
    } else {
      assert s == {};
    }
  }
}
