/**
 Tracking of an upload: the ids that the updaters report, and the diffResult that is assembled from them in the
 order of the osmChange document. The specification is a first-match scan of the tracking lists; the method builds
 lookup maps, as the code does.
 */
module OsmChangeTracking {
  import opened Common
  import opened OsmObjects

  datatype IdMapping = IdMapping(oldId: int, newId: nat, newVersion: nat)

  datatype DiffRow = DiffRow(op: Operation, typ: ObjectType, oldId: int, newId: nat, newVersion: nat,
    deletionSkipped: bool)

  /** The first entry with the given old id. */
  function FirstById(ids: seq<IdMapping>, id: int): (r: Option<IdMapping>)
    ensures r.Some? ==> r.value in ids && r.value.oldId == id
    ensures r.None? ==> forall m :: m in ids ==> m.oldId != id
  {
    if ids == [] then None
    else
      var earlier := FirstById(ids[..|ids| - 1], id);
      assert ids == ids[..|ids| - 1] + [ids[|ids| - 1]];
      if earlier.Some? then earlier
      else if ids[|ids| - 1].oldId == id then Some(ids[|ids| - 1]) else None
  }

  /** The first entry with the given old id and new version. */
  function FirstByVersion(ids: seq<IdMapping>, id: int, version: nat): (r: Option<IdMapping>)
    ensures r.Some? ==> r.value in ids && r.value.oldId == id && r.value.newVersion == version
    ensures r.None? ==> forall m :: m in ids ==> !(m.oldId == id && m.newVersion == version)
  {
    if ids == [] then None
    else
      var earlier := FirstByVersion(ids[..|ids| - 1], id, version);
      assert ids == ids[..|ids| - 1] + [ids[|ids| - 1]];
      if earlier.Some? then earlier
      else if ids[|ids| - 1].oldId == id && ids[|ids| - 1].newVersion == version then Some(ids[|ids| - 1]) else None
  }

  /** What has been reported for one object type. */
  datatype Reports = Reports(created: seq<IdMapping>, modified: seq<IdMapping>, deleted: seq<int>,
    skipped: seq<IdMapping>)

  /** The answer for one item, by linear scans of the lists of its type; `None` where the code throws. */
  function RowIn(lists: Reports, item: Item): Option<DiffRow> {
    match item.op
    case Create =>
      var id := FirstById(lists.created, item.id);
      if id.None? then None
      else Some(DiffRow(Create, item.typ, id.value.oldId, id.value.newId, id.value.newVersion, false))
    case Modify =>
      var id := FirstByVersion(lists.modified, item.id, ToUint32(item.version + 1));
      if id.None? then None
      else Some(DiffRow(Modify, item.typ, id.value.oldId, id.value.newId, id.value.newVersion, false))
    case Delete =>
      var skipped := FirstById(lists.skipped, item.id);
      if item.ifUnused && skipped.Some? then
        Some(DiffRow(Delete, item.typ, skipped.value.oldId, skipped.value.newId, skipped.value.newVersion, true))
      else if item.id in lists.deleted then Some(DiffRow(Delete, item.typ, item.id, 0, 0, false))
      else None
    case Undefined => None
  }

  /** A row answers its own item: operation, type and old id, the next version, and skips only for if-unused deletes. */
  lemma {:induction false} RowAnswersItem(lists: Reports, item: Item)
    requires RowIn(lists, item).Some?
    ensures var row := RowIn(lists, item).value;
            && row.op == item.op && row.typ == item.typ && row.oldId == item.id
            && (item.op.Modify? && item.version < 0xFFFF_FFFF ==> row.newVersion == item.version + 1)
            && (row.deletionSkipped <==>
                  item.op.Delete? && item.ifUnused && exists m :: m in lists.skipped && m.oldId == item.id)
  {
  }

  class OSMChangeTracking {
    var createdNodeIds: seq<IdMapping>
    var createdWayIds: seq<IdMapping>
    var createdRelationIds: seq<IdMapping>
    var modifiedNodeIds: seq<IdMapping>
    var modifiedWayIds: seq<IdMapping>
    var modifiedRelationIds: seq<IdMapping>
    var deletedNodeIds: seq<int>
    var deletedWayIds: seq<int>
    var deletedRelationIds: seq<int>
    var skipDeletedNodeIds: seq<IdMapping>
    var skipDeletedWayIds: seq<IdMapping>
    var skipDeletedRelationIds: seq<IdMapping>
    var origSequence: seq<Item>

    constructor ()
      ensures origSequence == [] && forall typ :: ListsOf(typ) == Reports([], [], [], [])
    {
      createdNodeIds, createdWayIds, createdRelationIds := [], [], [];
      modifiedNodeIds, modifiedWayIds, modifiedRelationIds := [], [], [];
      deletedNodeIds, deletedWayIds, deletedRelationIds := [], [], [];
      skipDeletedNodeIds, skipDeletedWayIds, skipDeletedRelationIds := [], [], [];
      origSequence := [];
    }

    function CreatedIds(typ: ObjectType): seq<IdMapping>
      reads this`createdNodeIds, this`createdWayIds, this`createdRelationIds
    {
      match typ case Node => createdNodeIds case Way => createdWayIds case Relation => createdRelationIds
    }

    function ModifiedIds(typ: ObjectType): seq<IdMapping>
      reads this`modifiedNodeIds, this`modifiedWayIds, this`modifiedRelationIds
    {
      match typ case Node => modifiedNodeIds case Way => modifiedWayIds case Relation => modifiedRelationIds
    }

    function SkippedIds(typ: ObjectType): seq<IdMapping>
      reads this`skipDeletedNodeIds, this`skipDeletedWayIds, this`skipDeletedRelationIds
    {
      match typ case Node => skipDeletedNodeIds case Way => skipDeletedWayIds case Relation => skipDeletedRelationIds
    }

    function DeletedIds(typ: ObjectType): seq<int>
      reads this`deletedNodeIds, this`deletedWayIds, this`deletedRelationIds
    {
      match typ case Node => deletedNodeIds case Way => deletedWayIds case Relation => deletedRelationIds
    }

    /** The lists of one object type. */
    function ListsOf(typ: ObjectType): Reports
      reads this`createdNodeIds, this`createdWayIds, this`createdRelationIds
      reads this`modifiedNodeIds, this`modifiedWayIds, this`modifiedRelationIds
      reads this`deletedNodeIds, this`deletedWayIds, this`deletedRelationIds
      reads this`skipDeletedNodeIds, this`skipDeletedWayIds, this`skipDeletedRelationIds
    {
      Reports(CreatedIds(typ), ModifiedIds(typ), DeletedIds(typ), SkippedIds(typ))
    }

    method ReportCreated(typ: ObjectType, m: IdMapping)
      modifies this`createdNodeIds, this`createdWayIds, this`createdRelationIds
      ensures CreatedIds(typ) == old(CreatedIds(typ)) + [m]
      ensures forall t :: t != typ ==> CreatedIds(t) == old(CreatedIds(t))
    {
      match typ {
        case Node => createdNodeIds := createdNodeIds + [m];
        case Way => createdWayIds := createdWayIds + [m];
        case Relation => createdRelationIds := createdRelationIds + [m];
      }
    }

    method ReportModified(typ: ObjectType, m: IdMapping)
      modifies this`modifiedNodeIds, this`modifiedWayIds, this`modifiedRelationIds
      ensures ModifiedIds(typ) == old(ModifiedIds(typ)) + [m]
      ensures forall t :: t != typ ==> ModifiedIds(t) == old(ModifiedIds(t))
    {
      match typ {
        case Node => modifiedNodeIds := modifiedNodeIds + [m];
        case Way => modifiedWayIds := modifiedWayIds + [m];
        case Relation => modifiedRelationIds := modifiedRelationIds + [m];
      }
    }

    method ReportDeleted(typ: ObjectType, id: int)
      modifies this`deletedNodeIds, this`deletedWayIds, this`deletedRelationIds
      ensures DeletedIds(typ) == old(DeletedIds(typ)) + [id]
      ensures forall t :: t != typ ==> DeletedIds(t) == old(DeletedIds(t))
    {
      match typ {
        case Node => deletedNodeIds := deletedNodeIds + [id];
        case Way => deletedWayIds := deletedWayIds + [id];
        case Relation => deletedRelationIds := deletedRelationIds + [id];
      }
    }

    method ReportSkipped(typ: ObjectType, m: IdMapping)
      modifies this`skipDeletedNodeIds, this`skipDeletedWayIds, this`skipDeletedRelationIds
      ensures SkippedIds(typ) == old(SkippedIds(typ)) + [m]
      ensures forall t :: t != typ ==> SkippedIds(t) == old(SkippedIds(t))
    {
      match typ {
        case Node => skipDeletedNodeIds := skipDeletedNodeIds + [m];
        case Way => skipDeletedWayIds := skipDeletedWayIds + [m];
        case Relation => skipDeletedRelationIds := skipDeletedRelationIds + [m];
      }
    }

    method TrackOriginal(item: Item)
      modifies this`origSequence
      ensures origSequence == old(origSequence) + [item]
    {
      origSequence := origSequence + [item];
    }

    /** The lookup that the loop makes for one item, in maps built from the tracking lists. */
    method LookUp(item: Item, mapCreateIds: map<(ObjectType, int), IdMapping>,
                  mapModifyIds: map<(ObjectType, int, nat), IdMapping>,
                  mapSkipDeleteIds: map<(ObjectType, int), IdMapping>, setDeleteIds: set<(ObjectType, int)>)
      returns (row: Option<DiffRow>)
      requires IndexesIds(mapCreateIds, createdNodeIds, createdWayIds, createdRelationIds)
      requires IndexesVersions(mapModifyIds, modifiedNodeIds, modifiedWayIds, modifiedRelationIds)
      requires IndexesIds(mapSkipDeleteIds, skipDeletedNodeIds, skipDeletedWayIds, skipDeletedRelationIds)
      requires forall k :: k in setDeleteIds <==> k.1 in DeletedIds(k.0)
      ensures row == RowIn(ListsOf(item.typ), item)
    {
      match item.op {
        case Create =>
          if (item.typ, item.id) !in mapCreateIds {
            return None;
          }
          var id := mapCreateIds[(item.typ, item.id)];
          row := Some(DiffRow(item.op, item.typ, id.oldId, id.newId, id.newVersion, false));
        case Modify =>
          var key := (item.typ, item.id, ToUint32(item.version + 1));
          if key !in mapModifyIds {
            return None;
          }
          var id := mapModifyIds[key];
          row := Some(DiffRow(item.op, item.typ, id.oldId, id.newId, id.newVersion, false));
        case Delete =>
          if item.ifUnused && (item.typ, item.id) in mapSkipDeleteIds {
            var id := mapSkipDeleteIds[(item.typ, item.id)];
            row := Some(DiffRow(item.op, item.typ, id.oldId, id.newId, id.newVersion, true));
          } else {
            if (item.typ, item.id) !in setDeleteIds {
              return None;
            }
            row := Some(DiffRow(item.op, item.typ, item.id, 0, 0, false));
          }
        case Undefined =>
          row := None;
      }
    }

    method AssembleDiffresult() returns (result: Option<seq<DiffRow>>)
      ensures result.Some? <==>
        forall i :: 0 <= i < |origSequence| ==> RowIn(ListsOf(origSequence[i].typ), origSequence[i]).Some?
      ensures result.Some? ==>
                && |result.value| == |origSequence|
                && forall i :: 0 <= i < |origSequence| ==>
                  Some(result.value[i]) == RowIn(ListsOf(origSequence[i].typ), origSequence[i])
    {
      var mapCreateIds := Index(createdNodeIds, createdWayIds, createdRelationIds);
      var mapModifyIds := IndexVersions(modifiedNodeIds, modifiedWayIds, modifiedRelationIds);
      var mapSkipDeleteIds := Index(skipDeletedNodeIds, skipDeletedWayIds, skipDeletedRelationIds);
      var setDeleteIds := InsertIds({}, Node, deletedNodeIds);
      setDeleteIds := InsertIds(setDeleteIds, Way, deletedWayIds);
      setDeleteIds := InsertIds(setDeleteIds, Relation, deletedRelationIds);

      var rows := [];
      for n := 0 to |origSequence|
        invariant |rows| == n
        invariant forall i :: 0 <= i < n ==> Some(rows[i]) == RowIn(ListsOf(origSequence[i].typ), origSequence[i])
      {
        var row := LookUp(origSequence[n], mapCreateIds, mapModifyIds, mapSkipDeleteIds, setDeleteIds);
        if row.None? {
          return None;
        }
        rows := rows + [row.value];
      }
      result := Some(rows);
    }
  }

  method InsertIds(s: set<(ObjectType, int)>, typ: ObjectType, ids: seq<int>) returns (r: set<(ObjectType, int)>)
    ensures forall k :: k in r <==> k in s || (k.0 == typ && k.1 in ids)
  {
    r := s;
    for i := 0 to |ids|
      invariant forall k :: k in r <==> k in s || (k.0 == typ && k.1 in ids[..i])
    {
      r := r + {(typ, ids[i])};
    }
    assert ids[..|ids|] == ids;
  }

  /** The map holds, for every type, the first mapping of each old id in that type's list. */
  ghost predicate IndexesIds(m: map<(ObjectType, int), IdMapping>, nodes: seq<IdMapping>, ways: seq<IdMapping>,
                             relations: seq<IdMapping>)
  {
    forall typ: ObjectType, id ::
      var ids := match typ case Node => nodes case Way => ways case Relation => relations;
      FirstById(ids, id) == if (typ, id) in m then Some(m[(typ, id)]) else None
  }

  ghost predicate IndexesVersions(m: map<(ObjectType, int, nat), IdMapping>, nodes: seq<IdMapping>,
                                  ways: seq<IdMapping>, relations: seq<IdMapping>)
  {
    forall typ: ObjectType, id, version: nat ::
      var ids := match typ case Node => nodes case Way => ways case Relation => relations;
      FirstByVersion(ids, id, version) == if (typ, id, version) in m then Some(m[(typ, id, version)]) else None
  }

  method Index(nodes: seq<IdMapping>, ways: seq<IdMapping>, relations: seq<IdMapping>)
    returns (m: map<(ObjectType, int), IdMapping>)
    ensures IndexesIds(m, nodes, ways, relations)
  {
    m := InsertAll(map[], Node, nodes);
    m := InsertAll(m, Way, ways);
    m := InsertAll(m, Relation, relations);
  }

  method IndexVersions(nodes: seq<IdMapping>, ways: seq<IdMapping>, relations: seq<IdMapping>)
    returns (m: map<(ObjectType, int, nat), IdMapping>)
    ensures IndexesVersions(m, nodes, ways, relations)
  {
    m := InsertAllVersions(map[], Node, nodes);
    m := InsertAllVersions(m, Way, ways);
    m := InsertAllVersions(m, Relation, relations);
  }

  /** Insert every mapping under its type and old id; an existing key is kept, as `std::map::insert` does. */
  method InsertAll(m: map<(ObjectType, int), IdMapping>, typ: ObjectType, ids: seq<IdMapping>)
    returns (r: map<(ObjectType, int), IdMapping>)
    ensures forall k :: k in r <==> k in m || (k.0 == typ && FirstById(ids, k.1).Some?)
    ensures forall k :: k in r ==> r[k] == if k in m then m[k] else FirstById(ids, k.1).value
  {
    r := m;
    for i := 0 to |ids|
      invariant forall k :: k in r <==> k in m || (k.0 == typ && FirstById(ids[..i], k.1).Some?)
      invariant forall k :: k in r ==> r[k] == if k in m then m[k] else FirstById(ids[..i], k.1).value
    {
      assert ids[..i + 1][..i] == ids[..i];
      var key := (typ, ids[i].oldId);
      if key !in r {
        r := r[key := ids[i]];
      }
    }
    assert ids[..|ids|] == ids;
  }

  method InsertAllVersions(m: map<(ObjectType, int, nat), IdMapping>, typ: ObjectType, ids: seq<IdMapping>)
    returns (r: map<(ObjectType, int, nat), IdMapping>)
    ensures forall k :: k in r <==> k in m || (k.0 == typ && FirstByVersion(ids, k.1, k.2).Some?)
    ensures forall k :: k in r ==> r[k] == if k in m then m[k] else FirstByVersion(ids, k.1, k.2).value
  {
    r := m;
    for i := 0 to |ids|
      invariant forall k :: k in r <==> k in m || (k.0 == typ && FirstByVersion(ids[..i], k.1, k.2).Some?)
      invariant forall k :: k in r ==> r[k] == if k in m then m[k] else FirstByVersion(ids[..i], k.1, k.2).value
    {
      assert ids[..i + 1][..i] == ids[..i];
      var key := (typ, ids[i].oldId, ids[i].newVersion);
      if key !in r {
        r := r[key := ids[i]];
      }
    }
    assert ids[..|ids|] == ids;
  }
}
