/**
 The osmChange handler: it buffers the document's operations in the node, way and relation updaters and executes the
 buffers of the current state on every state change.
 */
module OsmChangeHandler {
  import opened Common
  import opened OsmObjects
  import opened OsmChangeTracking
  import opened OsmChangeRegroup
  import ChangesetRules

  /** The database side of an upload: the operations in the order in which they were executed. */
  class Database {
    var executed: seq<Edit>

    constructor ()
      ensures executed == []
    {
      executed := [];
    }
  }

  /**
   What the database answers for an object: its id, its current version, whether an if-unused delete is skipped, and
   what it raises for a batch, given what was executed before it.
   */
  datatype Server = Server(
    newId: Element -> nat,
    currentVersion: Element -> nat,
    inUse: Element -> bool,
    refuses: (seq<Edit>, seq<Edit>) -> Option<HttpError>)

  /** How executing an edit extends the reports of its type. */
  function Reported(r: Reports, server: Server, e: Edit): Reports {
    match e.item.op
    case Create => r.(created := r.created + [IdMapping(e.item.id, server.newId(e.element), 1)])
    case Modify =>
      r.(modified := r.modified + [IdMapping(e.item.id, server.newId(e.element), ToUint32(e.item.version + 1))])
    case Delete =>
      if e.item.ifUnused && server.inUse(e.element) then
        r.(skipped := r.skipped + [IdMapping(e.item.id, server.newId(e.element), server.currentVersion(e.element))])
      else r.(deleted := r.deleted + [e.item.id])
    case Undefined => r
  }

  /** The reports of one object type after a list of executed edits. */
  function ReportsFor(server: Server, executed: seq<Edit>, typ: ObjectType): Reports {
    if executed == [] then Reports([], [], [], [])
    else
      var before := ReportsFor(server, executed[..|executed| - 1], typ);
      var e := executed[|executed| - 1];
      if e.item.typ == typ then Reported(before, server, e) else before
  }

  function StatsIn(r: Reports): ChangesetRules.ElementStats {
    ChangesetRules.ElementStats(|r.created|, |r.modified|, |r.deleted|)
  }

  /** The statistics of an upload after a list of executed edits. */
  function StatsFor(server: Server, executed: seq<Edit>): ChangesetRules.UploadStats {
    ChangesetRules.UploadStats(StatsIn(ReportsFor(server, executed, Node)), StatsIn(ReportsFor(server, executed, Way)),
                               StatsIn(ReportsFor(server, executed, Relation)))
  }

  predicate IsSkipped(server: Server, e: Edit) { e.item.op.Delete? && e.item.ifUnused && server.inUse(e.element) }

  /** How many edits are deletes that the database skips. */
  function SkippedCount(server: Server, edits: seq<Edit>): nat {
    if edits == [] then 0
    else SkippedCount(server, edits[..|edits| - 1]) + if IsSkipped(server, edits[|edits| - 1]) then 1 else 0
  }

  /** The tracking lists are exactly the reports of what has been executed. */
  ghost predicate AllReported(tracking: OSMChangeTracking, db: Database, server: Server)
    reads tracking`createdNodeIds, tracking`createdWayIds, tracking`createdRelationIds
    reads tracking`modifiedNodeIds, tracking`modifiedWayIds, tracking`modifiedRelationIds
    reads tracking`deletedNodeIds, tracking`deletedWayIds, tracking`deletedRelationIds
    reads tracking`skipDeletedNodeIds, tracking`skipDeletedWayIds, tracking`skipDeletedRelationIds
    reads db
  {
    forall typ :: tracking.ListsOf(typ) == ReportsFor(server, db.executed, typ)
  }

  lemma {:induction false} ReportsAppended(server: Server, executed: seq<Edit>, e: Edit, typ: ObjectType)
    ensures ReportsFor(server, executed + [e], typ) ==
      if e.item.typ == typ then Reported(ReportsFor(server, executed, typ), server, e)
      else ReportsFor(server, executed, typ)
  {
    assert (executed + [e])[..|executed|] == executed;
  }

  // ---------- Batches ----------

  /** The placeholder ids of the creations of a type among some edits. */
  function PlaceholderIds(edits: seq<Edit>, typ: ObjectType): set<int> {
    if edits == [] then {}
    else
      var last := edits[|edits| - 1];
      PlaceholderIds(edits[..|edits| - 1], typ)
      + if last.item.op.Create? && last.item.typ == typ then {last.item.id} else {}
  }

  function IdsOf(edits: seq<Edit>): set<int> {
    if edits == [] then {} else IdsOf(edits[..|edits| - 1]) + {edits[|edits| - 1].item.id}
  }

  /** No id occurs twice, or among those seen before. */
  predicate FreshIds(seen: set<int>, edits: seq<Edit>) {
    && (forall i :: 0 <= i < |edits| ==> edits[i].item.id !in seen)
    && (forall i, j :: 0 <= i < j < |edits| ==> edits[i].item.id != edits[j].item.id)
  }

  /** What the database makes of a batch; an empty one it does not see. */
  function DatabaseOutcome(server: Server, executed: seq<Edit>, batch: seq<Edit>): Outcome {
    if batch == [] || server.refuses(executed, batch).None? then Pass else Fail(server.refuses(executed, batch).value)
  }

  /** Draining one buffer: the placeholders of creations must be new in the upload, and the database must agree. */
  function BatchOutcome(server: Server, executed: seq<Edit>, batch: seq<Edit>): Outcome {
    if batch != [] && batch[0].item.op.Create? && !FreshIds(PlaceholderIds(executed, batch[0].item.typ), batch) then
      Fail(BadRequest)
    else DatabaseOutcome(server, executed, batch)
  }

  /** Draining several buffers one after the other, up to the first failure. */
  function BatchesOutcome(server: Server, executed: seq<Edit>, batches: seq<seq<Edit>>): Outcome
    decreases |batches|
  {
    if batches == [] then Pass
    else if BatchOutcome(server, executed, batches[0]).Fail? then BatchOutcome(server, executed, batches[0])
    else BatchesOutcome(server, executed + batches[0], batches[1..])
  }

  function RunOutcome(server: Server, executed: seq<Edit>, run: seq<Edit>): Outcome {
    BatchesOutcome(server, executed, RunBatches(run))
  }

  /** Entering a state drains the buffers of the state that is left. */
  function EnterOutcome(server: Server, m: Machine, state: HandlerState): Outcome {
    if m.state == state then Pass else RunOutcome(server, m.executed, m.run)
  }

  ghost predicate Only(edits: seq<Edit>, op: Operation, typ: ObjectType) {
    forall e :: e in edits ==> e.item.op == op && e.item.typ == typ
  }

  datatype Buffers = Buffers(created: seq<Edit>, modified: seq<Edit>, deleted: seq<Edit>)

  /** What the updater of a type buffers while the handler collects the run in the state. */
  function BuffersFor(typ: ObjectType, state: HandlerState, run: seq<Edit>): Buffers {
    Buffers(if state == CreateState(typ) then run else [],
            if state == ModifyAny then OfType(run, typ) else [],
            if state == DeleteState(typ) then run else [])
  }

  /** The buffers of the three updaters. */
  function AllBuffers(state: HandlerState, run: seq<Edit>): (Buffers, Buffers, Buffers) {
    (BuffersFor(Node, state, run), BuffersFor(Way, state, run), BuffersFor(Relation, state, run))
  }

  /** One more edit in the buffer of its operation. */
  function Grown(b: Buffers, e: Edit): Buffers {
    match e.item.op
    case Create => b.(created := b.created + [e])
    case Modify => b.(modified := b.modified + [e])
    case Delete => b.(deleted := b.deleted + [e])
    case Undefined => b
  }

  /** Node, way or relation updater: three buffers, each drained in order by its process method. */
  class ElementUpdater {
    const typ: ObjectType
    const tracking: OSMChangeTracking
    const db: Database
    const server: Server
    var created: seq<Edit>
    var modified: seq<Edit>
    var deleted: seq<Edit>
    /** The placeholder ids of all creations that were processed. */
    var createPlaceholderIds: set<int>

    constructor (typ: ObjectType, tracking: OSMChangeTracking, db: Database, server: Server)
      ensures this.typ == typ && this.tracking == tracking && this.db == db && this.server == server
      ensures created == modified == deleted == [] && createPlaceholderIds == {}
    {
      this.typ, this.tracking, this.db, this.server := typ, tracking, db, server;
      created, modified, deleted := [], [], [];
      createPlaceholderIds := {};
    }

    ghost function Contents(): Buffers
      reads this
    {
      Buffers(created, modified, deleted)
    }

    /** The ids seen are those of all executed creations of this type. */
    ghost predicate Remembers()
      reads this`createPlaceholderIds, db
    {
      createPlaceholderIds == PlaceholderIds(db.executed, typ)
    }

    /** Buffer a creation; the version in the tracking entry is always 1. */
    method AddElement(id: int, element: Element) returns (r: Outcome)
      modifies this`created, tracking`origSequence
      ensures r == if id >= 0 then Fail(BadRequest) else Pass
      ensures r.Pass? ==> var e := EditFor(Create, typ, id, 0, false, element);
                          created == old(created) + [e]
                            && tracking.origSequence == old(tracking.origSequence) + [e.item]
    {
      if id >= 0 {
        return Fail(BadRequest);
      }
      var item := Item(Create, typ, id, 1, false);
      created := created + [Edit(item, element)];
      tracking.TrackOriginal(item);
      r := Pass;
    }

    method ModifyElement(id: int, version: nat, element: Element)
      modifies this`modified, tracking`origSequence
      ensures var e := EditFor(Modify, typ, id, version, false, element);
              modified == old(modified) + [e] && tracking.origSequence == old(tracking.origSequence) + [e.item]
    {
      var item := Item(Modify, typ, id, version, false);
      modified := modified + [Edit(item, element)];
      tracking.TrackOriginal(item);
    }

    method DeleteElement(id: int, version: nat, ifUnused: bool, element: Element)
      modifies this`deleted, tracking`origSequence
      ensures var e := EditFor(Delete, typ, id, version, ifUnused, element);
              deleted == old(deleted) + [e] && tracking.origSequence == old(tracking.origSequence) + [e.item]
    {
      var item := Item(Delete, typ, id, version, ifUnused);
      deleted := deleted + [Edit(item, element)];
      tracking.TrackOriginal(item);
    }

    /** Dispatch on the operation. */
    method Put(c: Change) returns (r: Outcome)
      requires c.element.typ == typ
      modifies this`created, this`modified, this`deleted, tracking`origSequence
      ensures r == if BadPlaceholder(c) then Fail(BadRequest) else Pass
      ensures r.Pass? ==> Contents() == Grown(old(Contents()), EditOf(c))
      ensures r.Pass? ==> tracking.origSequence == old(tracking.origSequence) + [EditOf(c).item]
    {
      r := Pass;
      match c.op {
        case Create => r := AddElement(c.element.id.value, c.element);
        case Modify => ModifyElement(c.element.id.value, c.element.version.value, c.element);
        case Delete => DeleteElement(c.element.id.value, c.element.version.value, c.ifUnused, c.element);
      }
    }

    /** Append what the database answered for an edit to the list it belongs to. */
    method Report(e: Edit)
      requires e.item.typ == typ && !e.item.op.Undefined?
      modifies tracking
      ensures tracking.ListsOf(typ) == Reported(old(tracking.ListsOf(typ)), server, e)
      ensures forall t :: t != typ ==> tracking.ListsOf(t) == old(tracking.ListsOf(t))
      ensures tracking.origSequence == old(tracking.origSequence)
    {
      match e.item.op {
        case Create =>
          tracking.ReportCreated(typ, IdMapping(e.item.id, server.newId(e.element), 1));
        case Modify =>
          tracking.ReportModified(typ, IdMapping(e.item.id, server.newId(e.element), ToUint32(e.item.version + 1)));
        case Delete =>
          if e.item.ifUnused && server.inUse(e.element) {
            var row := IdMapping(e.item.id, server.newId(e.element), server.currentVersion(e.element));
            tracking.ReportSkipped(typ, row);
          } else {
            tracking.ReportDeleted(typ, e.item.id);
          }
      }
    }

    /** One row of the database's answer: the edit is executed and reported. */
    method Execute(e: Edit)
      requires e.item.typ == typ && !e.item.op.Undefined? && AllReported(tracking, db, server)
      modifies db, tracking
      ensures db.executed == old(db.executed) + [e] && AllReported(tracking, db, server)
      ensures tracking.origSequence == old(tracking.origSequence)
    {
      Report(e);
      forall t: ObjectType {
        ReportsAppended(server, db.executed, e, t);
      }
      db.executed := db.executed + [e];
    }

    /** Creations of one placeholder id twice are refused, also over several batches. */
    method CheckUniquePlaceholderIds(edits: seq<Edit>) returns (r: Outcome)
      modifies this`createPlaceholderIds
      ensures r == if FreshIds(old(createPlaceholderIds), edits) then Pass else Fail(BadRequest)
      ensures r.Pass? ==> createPlaceholderIds == old(createPlaceholderIds) + IdsOf(edits)
    {
      for i := 0 to |edits|
        invariant FreshIds(old(createPlaceholderIds), edits[..i])
        invariant createPlaceholderIds == old(createPlaceholderIds) + IdsOf(edits[..i])
      {
        IdsOfMembers(edits[..i]);
        assert edits[..i + 1][..i] == edits[..i];
        if edits[i].item.id in createPlaceholderIds {
          SeenTwice(old(createPlaceholderIds), edits, i);
          return Fail(BadRequest);
        }
        createPlaceholderIds := createPlaceholderIds + {edits[i].item.id};
      }
      assert edits[..|edits|] == edits;
      r := Pass;
    }

    method ProcessNew() returns (r: Outcome)
      requires Only(created, Create, typ) && AllReported(tracking, db, server) && Remembers()
      modifies this`created, this`createPlaceholderIds, db, tracking
      ensures r == BatchOutcome(server, old(db.executed), old(created))
      ensures r.Pass? ==> created == [] && db.executed == old(db.executed) + old(created)
      ensures r.Pass? ==> tracking.origSequence == old(tracking.origSequence) && AllReported(tracking, db, server)
      ensures r.Pass? ==> Remembers()
    {
      PlaceholdersAfter(db.executed, created, Create, typ);
      r := CheckUniquePlaceholderIds(created);
      if r.Fail? { return; }
      r := Drain(created);
      if r.Fail? { return; }
      created := [];
    }

    method ProcessModify() returns (r: Outcome)
      requires Only(modified, Modify, typ) && AllReported(tracking, db, server)
      modifies this`modified, db, tracking
      ensures r == BatchOutcome(server, old(db.executed), old(modified))
      ensures r.Pass? ==> modified == [] && db.executed == old(db.executed) + old(modified)
      ensures r.Pass? ==> tracking.origSequence == old(tracking.origSequence) && AllReported(tracking, db, server)
    {
      r := Drain(modified);
      if r.Fail? { return; }
      modified := [];
    }

    method ProcessDelete() returns (r: Outcome)
      requires Only(deleted, Delete, typ) && AllReported(tracking, db, server)
      modifies this`deleted, db, tracking
      ensures r == BatchOutcome(server, old(db.executed), old(deleted))
      ensures r.Pass? ==> deleted == [] && db.executed == old(db.executed) + old(deleted)
      ensures r.Pass? ==> tracking.origSequence == old(tracking.origSequence) && AllReported(tracking, db, server)
    {
      r := Drain(deleted);
      if r.Fail? { return; }
      deleted := [];
    }

    /** The database refuses a batch as a whole, or it is executed in order. */
    method Drain(batch: seq<Edit>) returns (r: Outcome)
      requires AllReported(tracking, db, server)
      requires forall e :: e in batch ==> e.item.typ == typ && !e.item.op.Undefined?
      modifies db, tracking
      ensures r == DatabaseOutcome(server, old(db.executed), batch)
      ensures r.Pass? ==> db.executed == old(db.executed) + batch && AllReported(tracking, db, server)
      ensures r.Pass? ==> tracking.origSequence == old(tracking.origSequence)
    {
      if batch != [] {
        var refusal := server.refuses(db.executed, batch);
        if refusal.Some? {
          return Fail(refusal.value);
        }
      }
      ExecuteAll(batch);
      r := Pass;
    }

    /** The sizes of the tracking lists of this type. */
    method GetStats() returns (s: ChangesetRules.ElementStats)
      ensures s == StatsIn(tracking.ListsOf(typ))
    {
      var created, modified, deleted := tracking.CreatedIds(typ), tracking.ModifiedIds(typ), tracking.DeletedIds(typ);
      s := ChangesetRules.ElementStats(|created|, |modified|, |deleted|);
    }

    /** Drain a buffer in order. */
    method ExecuteAll(edits: seq<Edit>)
      requires AllReported(tracking, db, server)
      requires forall e :: e in edits ==> e.item.typ == typ && !e.item.op.Undefined?
      modifies db, tracking
      ensures db.executed == old(db.executed) + edits && AllReported(tracking, db, server)
      ensures tracking.origSequence == old(tracking.origSequence)
    {
      for i := 0 to |edits|
        invariant db.executed == old(db.executed) + edits[..i]
        invariant tracking.origSequence == old(tracking.origSequence) && AllReported(tracking, db, server)
      {
        assert edits[..i + 1] == edits[..i] + [edits[i]];
        Execute(edits[i]);
      }
      assert edits[..|edits|] == edits;
    }
  }

  lemma {:induction false} IdsOfMembers(edits: seq<Edit>)
    ensures forall id :: id in IdsOf(edits) <==> exists i :: 0 <= i < |edits| && edits[i].item.id == id
  {
    if edits != [] {
      IdsOfMembers(edits[..|edits| - 1]);
    }
  }

  lemma {:induction false} SeenTwice(seen: set<int>, edits: seq<Edit>, i: nat)
    requires i < |edits| && edits[i].item.id in seen + IdsOf(edits[..i])
    ensures !FreshIds(seen, edits)
  {
    IdsOfMembers(edits[..i]);
  }

  /** Only creations of a type add to its placeholder ids. */
  lemma {:induction false} PlaceholdersAfter(executed: seq<Edit>, batch: seq<Edit>, op: Operation, typ: ObjectType)
    requires Only(batch, op, typ)
    ensures forall t :: PlaceholderIds(executed + batch, t)
                        == if op.Create? && t == typ then PlaceholderIds(executed, t) + IdsOf(batch)
                           else PlaceholderIds(executed, t)
    decreases |batch|
  {
    if batch == [] {
      assert executed + batch == executed;
    } else {
      var front := batch[..|batch| - 1];
      assert (executed + batch)[..|executed + batch| - 1] == executed + front;
      PlaceholdersAfter(executed, front, op, typ);
    }
  }

  function Items(edits: seq<Edit>): seq<Item> {
    if edits == [] then [] else Items(edits[..|edits| - 1]) + [edits[|edits| - 1].item]
  }

  lemma {:induction false} ItemsPointwise(edits: seq<Edit>)
    ensures |Items(edits)| == |edits|
    ensures forall i :: 0 <= i < |edits| ==> Items(edits)[i] == edits[i].item
  {
    if edits != [] {
      ItemsPointwise(edits[..|edits| - 1]);
    }
  }

  /** The buffered form of an operation: creations get version 1, and only deletes keep the if-unused flag. */
  function EditFor(op: Operation, typ: ObjectType, id: int, version: nat, ifUnused: bool, element: Element): Edit {
    Edit(Item(op, typ, id, if op.Create? then 1 else version, ifUnused && op.Delete?), element)
  }

  function EditOf(c: Change): Edit {
    EditFor(c.op, c.element.typ, c.element.id.value, c.element.version.value, c.ifUnused, c.element)
  }

  /** The buffers of the updater of a type after an operation was put into the one it belongs to. */
  function PutInto(typ: ObjectType, b: Buffers, c: Change): Buffers {
    if c.element.typ == typ then Grown(b, EditOf(c)) else b
  }

  function PutIntoAll(b: (Buffers, Buffers, Buffers), c: Change): (Buffers, Buffers, Buffers) {
    (PutInto(Node, b.0, c), PutInto(Way, b.1, c), PutInto(Relation, b.2, c))
  }

  predicate Foreign(changeset: int, c: Change) { c.element.changeset.value != changeset }

  predicate BadPlaceholder(c: Change) { c.op.Create? && c.element.id.value >= 0 }

  /** One operation: the changeset check, the buffers that a change of state drains, and the placeholder check. */
  function ProcessOutcome(server: Server, changeset: int, m: Machine, c: Change): Outcome {
    if Foreign(changeset, c) then Fail(Conflict)
    else
      var entered := EnterOutcome(server, m, StateOf(EditOf(c).item));
      if entered.Fail? then entered else if BadPlaceholder(c) then Fail(BadRequest) else Pass
  }

  class OSMChangeHandler {
    const nodeUpdater: ElementUpdater
    const wayUpdater: ElementUpdater
    const relationUpdater: ElementUpdater
    const tracking: OSMChangeTracking
    const db: Database
    const changeset: int
    var currentState: HandlerState
    /** The operations that are accepted but not executed. */
    ghost var run: seq<Edit>

    ghost function AsMachine(): Machine
      reads this, db
    {
      Machine(currentState, run, db.executed)
    }

    ghost predicate Linked() {
      && nodeUpdater.typ == Node && wayUpdater.typ == Way && relationUpdater.typ == Relation
      && nodeUpdater.tracking == wayUpdater.tracking == relationUpdater.tracking == tracking
      && nodeUpdater.db == wayUpdater.db == relationUpdater.db == db
      && nodeUpdater.server == wayUpdater.server == relationUpdater.server
    }

    ghost function Contents(): (Buffers, Buffers, Buffers)
      reads nodeUpdater, wayUpdater, relationUpdater
    {
      (nodeUpdater.Contents(), wayUpdater.Contents(), relationUpdater.Contents())
    }

    /** Only the buffers of the current state hold anything, and they hold exactly the current run. */
    ghost predicate Buffered(state: HandlerState, run: seq<Edit>)
      reads nodeUpdater, wayUpdater, relationUpdater
    {
      Contents() == AllBuffers(state, run)
    }

    ghost predicate Empty()
      reads nodeUpdater, wayUpdater, relationUpdater
    {
      Contents() == (Buffers([], [], []), Buffers([], [], []), Buffers([], [], []))
    }

    ghost function SeenIds(): (set<int>, set<int>, set<int>)
      reads nodeUpdater, wayUpdater, relationUpdater
    {
      (nodeUpdater.createPlaceholderIds, wayUpdater.createPlaceholderIds, relationUpdater.createPlaceholderIds)
    }

    /** What the updaters keep with the database: reports and placeholder ids. */
    ghost predicate Tracked()
      reads nodeUpdater, wayUpdater, relationUpdater, tracking, db
    {
      && AllReported(tracking, db, nodeUpdater.server)
      && SeenIds() == (PlaceholderIds(db.executed, Node), PlaceholderIds(db.executed, Way),
                       PlaceholderIds(db.executed, Relation))
    }

    ghost predicate Collecting()
      reads this, nodeUpdater, wayUpdater, relationUpdater, tracking, db
    {
      && Tracked() && Buffered(currentState, run)
      && OfState(run, currentState) && (currentState.Initial? ==> run == [])
    }

    ghost predicate Valid()
      reads this, nodeUpdater, wayUpdater, relationUpdater, tracking, db
    {
      Linked() && Collecting()
    }

    constructor (nodeUpdater: ElementUpdater, wayUpdater: ElementUpdater, relationUpdater: ElementUpdater,
                 tracking: OSMChangeTracking, db: Database, changeset: int)
      requires nodeUpdater.typ == Node && wayUpdater.typ == Way && relationUpdater.typ == Relation
      requires nodeUpdater.tracking == wayUpdater.tracking == relationUpdater.tracking == tracking
      requires nodeUpdater.db == wayUpdater.db == relationUpdater.db == db
      requires nodeUpdater.server == wayUpdater.server == relationUpdater.server
      requires forall u :: u in {nodeUpdater, wayUpdater, relationUpdater} ==>
                 u.created == u.modified == u.deleted == [] && u.createPlaceholderIds == {}
      requires tracking.origSequence == [] && db.executed == []
      requires forall typ :: tracking.ListsOf(typ) == Reports([], [], [], [])
      ensures Valid() && AsMachine() == AdvanceAll([])
      ensures this.nodeUpdater == nodeUpdater && this.wayUpdater == wayUpdater
        && this.relationUpdater == relationUpdater
      ensures this.tracking == tracking && this.db == db && this.changeset == changeset
    {
      this.nodeUpdater, this.wayUpdater, this.relationUpdater := nodeUpdater, wayUpdater, relationUpdater;
      this.tracking, this.db, this.changeset := tracking, db, changeset;
      currentState := Initial;
      run := [];
    }

    /** Drain the three modify buffers: nodes, then ways, then relations. */
    method ProcessModifications() returns (r: Outcome)
      requires Linked() && Tracked()
      requires Only(nodeUpdater.modified, Modify, Node)
      requires Only(wayUpdater.modified, Modify, Way)
      requires Only(relationUpdater.modified, Modify, Relation)
      modifies nodeUpdater`modified, wayUpdater`modified, relationUpdater`modified, db, tracking
      ensures r == BatchesOutcome(nodeUpdater.server, old(db.executed),
                                  [old(nodeUpdater.modified), old(wayUpdater.modified), old(relationUpdater.modified)])
      ensures r.Pass? ==> nodeUpdater.modified == wayUpdater.modified == relationUpdater.modified == [] && Tracked()
      ensures r.Pass? ==> tracking.origSequence == old(tracking.origSequence)
      ensures r.Pass? ==> db.executed == old(db.executed) + (old(nodeUpdater.modified) + old(wayUpdater.modified)
                                                             + old(relationUpdater.modified))
    {
      ghost var start, n, w, u := db.executed, nodeUpdater.modified, wayUpdater.modified, relationUpdater.modified;
      ThreeBatches(nodeUpdater.server, start, n, w, u);
      PlaceholdersAfter(start, n, Modify, Node);
      PlaceholdersAfter(start + n, w, Modify, Way);
      PlaceholdersAfter(start + n + w, u, Modify, Relation);
      r := nodeUpdater.ProcessModify();
      if r.Fail? { return; }
      r := wayUpdater.ProcessModify();
      if r.Fail? { return; }
      r := relationUpdater.ProcessModify();
      Associates(start, n, w, u);
    }

    method ProcessModifyRun(ghost run: seq<Edit>) returns (r: Outcome)
      requires Linked() && Tracked() && Buffered(ModifyAny, run) && OfState(run, ModifyAny)
      modifies nodeUpdater, wayUpdater, relationUpdater, db, tracking
      ensures r == RunOutcome(nodeUpdater.server, old(db.executed), run)
      ensures r.Pass? ==> Empty() && Tracked() && tracking.origSequence == old(tracking.origSequence)
      ensures r.Pass? ==>
        db.executed == old(db.executed) + (OfType(run, Node) + OfType(run, Way) + OfType(run, Relation))
    {
      ModifyShape(run);
      RunOutcomeShape(nodeUpdater.server, db.executed, run, ModifyAny);
      r := ProcessModifications();
    }

    method ProcessCreations(state: HandlerState, ghost run: seq<Edit>) returns (r: Outcome)
      requires state.CreateNode? || state.CreateWay? || state.CreateRelation?
      requires Linked() && Tracked() && Buffered(state, run) && OfState(run, state)
      modifies nodeUpdater, wayUpdater, relationUpdater, db, tracking
      ensures r == BatchOutcome(nodeUpdater.server, old(db.executed), run)
      ensures r.Pass? ==> Empty() && Tracked() && tracking.origSequence == old(tracking.origSequence)
      ensures r.Pass? ==> db.executed == old(db.executed) + run
    {
      RunShape(run, state);
      match state {
        case CreateNode =>
          PlaceholdersAfter(db.executed, run, Create, Node);
          r := nodeUpdater.ProcessNew();
        case CreateWay =>
          PlaceholdersAfter(db.executed, run, Create, Way);
          r := wayUpdater.ProcessNew();
        case CreateRelation =>
          PlaceholdersAfter(db.executed, run, Create, Relation);
          r := relationUpdater.ProcessNew();
      }
    }

    method ProcessDeletions(state: HandlerState, ghost run: seq<Edit>) returns (r: Outcome)
      requires state.DeleteNode? || state.DeleteWay? || state.DeleteRelation?
      requires Linked() && Tracked() && Buffered(state, run) && OfState(run, state)
      modifies nodeUpdater, wayUpdater, relationUpdater, db, tracking
      ensures r == BatchOutcome(nodeUpdater.server, old(db.executed), run)
      ensures r.Pass? ==> Empty() && Tracked() && tracking.origSequence == old(tracking.origSequence)
      ensures r.Pass? ==> db.executed == old(db.executed) + run
    {
      RunShape(run, state);
      match state {
        case DeleteNode =>
          PlaceholdersAfter(db.executed, run, Delete, Node);
          r := nodeUpdater.ProcessDelete();
        case DeleteWay =>
          PlaceholdersAfter(db.executed, run, Delete, Way);
          r := wayUpdater.ProcessDelete();
        case DeleteRelation =>
          PlaceholdersAfter(db.executed, run, Delete, Relation);
          r := relationUpdater.ProcessDelete();
      }
    }

    /** Execute the buffers of the current state. */
    method Flush(ghost run: seq<Edit>) returns (r: Outcome)
      requires Linked() && Tracked() && Buffered(currentState, run) && OfState(run, currentState)
      requires currentState.Initial? ==> run == []
      modifies nodeUpdater, wayUpdater, relationUpdater, db, tracking
      ensures r == RunOutcome(nodeUpdater.server, old(db.executed), run)
      ensures r.Pass? ==> Empty() && Tracked() && tracking.origSequence == old(tracking.origSequence)
      ensures r.Pass? ==> db.executed == old(db.executed) + GroupRun(run)
    {
      GroupShape(run, currentState);
      RunOutcomeShape(nodeUpdater.server, db.executed, run, currentState);
      r := Pass;
      match currentState {
        case Initial =>
        case CreateNode => r := ProcessCreations(currentState, run);
        case CreateWay => r := ProcessCreations(currentState, run);
        case CreateRelation => r := ProcessCreations(currentState, run);
        case ModifyAny => r := ProcessModifyRun(run);
        case DeleteNode => r := ProcessDeletions(currentState, run);
        case DeleteWay => r := ProcessDeletions(currentState, run);
        case DeleteRelation => r := ProcessDeletions(currentState, run);
        case Finished =>
      }
    }

    /** On a change of state, execute the buffers of the state that is left. */
    method HandleNewState(newState: HandlerState) returns (r: Outcome)
      requires Linked() && Collecting()
      modifies this`currentState, this`run, nodeUpdater, wayUpdater, relationUpdater, db, tracking
      ensures r == EnterOutcome(nodeUpdater.server, old(AsMachine()), newState)
      ensures r.Pass? ==> Collecting() && AsMachine() == Enter(old(AsMachine()), newState)
      ensures r.Pass? ==> tracking.origSequence == old(tracking.origSequence)
    {
      if newState == currentState {
        return Pass;
      }
      r := Leave(newState);
    }

    method Leave(newState: HandlerState) returns (r: Outcome)
      requires Linked() && Collecting() && newState != currentState
      modifies this`currentState, this`run, nodeUpdater, wayUpdater, relationUpdater, db, tracking
      ensures r == RunOutcome(nodeUpdater.server, old(db.executed), old(run))
      ensures r.Pass? ==> Collecting() && AsMachine() == Enter(old(AsMachine()), newState)
      ensures r.Pass? ==> tracking.origSequence == old(tracking.origSequence)
    {
      r := Flush(run);
      if r.Pass? {
        StartRun(newState);
      }
    }

    method StartRun(newState: HandlerState)
      requires Linked() && Tracked() && Empty()
      modifies this`currentState, this`run
      ensures Collecting() && currentState == newState && run == []
    {
      EmptyBuffers(newState);
      run := [];
      currentState := newState;
    }

    /** Put one operation into the buffer of its kind. */
    method Buffer(c: Change, ghost e: Edit) returns (r: Outcome)
      requires e == EditOf(c) && currentState == StateOf(e.item)
      requires Linked() && Tracked() && Buffered(currentState, run)
      modifies nodeUpdater, wayUpdater, relationUpdater, tracking`origSequence
      ensures Tracked()
      ensures r == if BadPlaceholder(c) then Fail(BadRequest) else Pass
      ensures r.Pass? ==> Buffered(currentState, run + [e])
      ensures r.Pass? ==> tracking.origSequence == old(tracking.origSequence) + [e.item]
    {
      BuffersPut(run, c, currentState);
      r := PutByType(c);
    }

    method PutByType(c: Change) returns (r: Outcome)
      requires Linked()
      modifies nodeUpdater, wayUpdater, relationUpdater, tracking`origSequence
      ensures SeenIds() == old(SeenIds())
      ensures r == if BadPlaceholder(c) then Fail(BadRequest) else Pass
      ensures r.Pass? ==> tracking.origSequence == old(tracking.origSequence) + [EditOf(c).item]
      ensures r.Pass? ==> Contents() == PutIntoAll(old(Contents()), c)
    {
      match c.element.typ {
        case Node => r := nodeUpdater.Put(c);
        case Way => r := wayUpdater.Put(c);
        case Relation => r := relationUpdater.Put(c);
      }
    }

    /** One callback of the parser: `process_node`, `process_way` or `process_relation` by the element's type. */
    method Process(c: Change) returns (r: Outcome)
      requires Valid()
      modifies this, nodeUpdater, wayUpdater, relationUpdater, db, tracking
      ensures r == ProcessOutcome(nodeUpdater.server, changeset, old(AsMachine()), c)
      ensures r.Pass? ==> Valid() && AsMachine() == Advance(old(AsMachine()), EditOf(c))
      ensures r.Pass? ==> tracking.origSequence == old(tracking.origSequence) + [EditOf(c).item]
    {
      if c.element.changeset.value != changeset {
        return Fail(Conflict);
      }
      var e := EditOf(c);
      r := HandleNewState(StateOf(e.item));
      if r.Fail? { return; }
      r := Collect(c, e);
    }

    /** Buffer one operation of the current state. */
    method Collect(c: Change, ghost e: Edit) returns (r: Outcome)
      requires Linked() && Collecting() && e == EditOf(c) && currentState == StateOf(e.item)
      modifies this`run, nodeUpdater, wayUpdater, relationUpdater, tracking`origSequence
      ensures r == if BadPlaceholder(c) then Fail(BadRequest) else Pass
      ensures r.Pass? ==>
        Collecting() && run == old(run) + [e] && tracking.origSequence == old(tracking.origSequence) + [e.item]
    {
      RunGrows(run, e, currentState);
      r := Buffer(c, e);
      run := run + [e];
    }

    /** The handler has accepted exactly the given operations. */
    ghost predicate Handled(doc: seq<Edit>)
      reads this, nodeUpdater, wayUpdater, relationUpdater, tracking, db
    {
      Valid() && AsMachine() == AdvanceAll(doc) && tracking.origSequence == Items(doc)
    }

    /** The document is executed. */
    ghost predicate Ended(doc: seq<Edit>)
      reads this, nodeUpdater, wayUpdater, relationUpdater, tracking, db
    {
      Valid() && db.executed == Regroup(doc) && tracking.origSequence == Items(doc)
    }

    method ProcessNext(c: Change, ghost doc: seq<Edit>) returns (r: Outcome)
      requires Handled(doc)
      modifies this, nodeUpdater, wayUpdater, relationUpdater, db, tracking
      ensures r == ProcessOutcome(nodeUpdater.server, changeset, AdvanceAll(doc), c)
      ensures r.Pass? ==> Handled(doc + [EditOf(c)])
    {
      AppendedItem(doc, EditOf(c));
      r := Process(c);
    }

    method GetStats() returns (s: ChangesetRules.UploadStats)
      requires Valid()
      ensures s == StatsFor(nodeUpdater.server, db.executed)
    {
      var node := nodeUpdater.GetStats();
      var way := wayUpdater.GetStats();
      var relation := relationUpdater.GetStats();
      s := ChangesetRules.UploadStats(node, way, relation);
    }

    /** The end of the document executes whatever is still buffered. */
    method EndDocument() returns (r: Outcome)
      requires Valid()
      modifies this, nodeUpdater, wayUpdater, relationUpdater, db, tracking
      ensures r == EnterOutcome(nodeUpdater.server, old(AsMachine()), Finished)
      ensures r.Pass? ==> Valid() && AsMachine() == Enter(old(AsMachine()), Finished)
      ensures r.Pass? ==> tracking.origSequence == old(tracking.origSequence)
    {
      r := HandleNewState(Finished);
    }
  }

  lemma {:induction false} RunGrows(run: seq<Edit>, e: Edit, state: HandlerState)
    requires OfState(run, state) && StateOf(e.item) == state
    ensures OfState(run + [e], state)
  {
  }

  lemma {:induction false} Associates(a: seq<Edit>, b: seq<Edit>, c: seq<Edit>, d: seq<Edit>)
    ensures a + b + c + d == a + (b + c + d)
  {
  }

  lemma {:induction false} ThreeBatches(server: Server, executed: seq<Edit>, a: seq<Edit>, b: seq<Edit>, c: seq<Edit>)
    ensures BatchesOutcome(server, executed, [a, b, c]) ==
      if BatchOutcome(server, executed, a).Fail? then BatchOutcome(server, executed, a)
      else if BatchOutcome(server, executed + a, b).Fail? then BatchOutcome(server, executed + a, b)
      else BatchOutcome(server, executed + a + b, c)
  {
    assert [a, b, c][1..] == [b, c];
    assert [b, c][1..] == [c];
    OneBatch(server, executed + a + b, c);
  }

  lemma {:induction false} OneBatch(server: Server, executed: seq<Edit>, batch: seq<Edit>)
    ensures BatchesOutcome(server, executed, [batch]) == BatchOutcome(server, executed, batch)
  {
    assert [batch][1..] == [];
  }

  lemma {:induction false} RunOutcomeShape(server: Server, executed: seq<Edit>, run: seq<Edit>, state: HandlerState)
    requires OfState(run, state)
    ensures RunOutcome(server, executed, run) ==
      if state.ModifyAny? then
        BatchesOutcome(server, executed, [OfType(run, Node), OfType(run, Way), OfType(run, Relation)])
      else BatchOutcome(server, executed, run)
    ensures run == [] ==> RunOutcome(server, executed, run) == Pass
  {
    OneBatch(server, executed, run);
    if run == [] {
      ThreeBatches(server, executed, [], [], []);
    } else {
      assert StateOf(run[0].item) == state;
    }
  }

  lemma {:induction false} EmptyBuffers(state: HandlerState)
    ensures AllBuffers(state, []) == (Buffers([], [], []), Buffers([], [], []), Buffers([], [], []))
  {
  }

  /** Appending an edit to the run of its state appends it to one buffer and leaves the others alone. */
  lemma {:induction false} BuffersGrow(run: seq<Edit>, e: Edit, typ: ObjectType)
    requires !e.item.op.Undefined?
    ensures BuffersFor(typ, StateOf(e.item), run + [e])
         == if typ == e.item.typ then Grown(BuffersFor(typ, StateOf(e.item), run), e)
            else BuffersFor(typ, StateOf(e.item), run)
  {
    assert (run + [e])[..|run|] == run;
  }

  lemma {:induction false} BuffersPut(run: seq<Edit>, c: Change, state: HandlerState)
    requires state == StateOf(EditOf(c).item)
    ensures AllBuffers(state, run + [EditOf(c)]) == PutIntoAll(AllBuffers(state, run), c)
  {
    BuffersGrow(run, EditOf(c), Node);
    BuffersGrow(run, EditOf(c), Way);
    BuffersGrow(run, EditOf(c), Relation);
  }

  lemma {:induction false} RunShape(run: seq<Edit>, state: HandlerState)
    requires OfState(run, state)
    ensures state.CreateNode? ==> Only(run, Create, Node)
    ensures state.CreateWay? ==> Only(run, Create, Way)
    ensures state.CreateRelation? ==> Only(run, Create, Relation)
    ensures state.DeleteNode? ==> Only(run, Delete, Node)
    ensures state.DeleteWay? ==> Only(run, Delete, Way)
    ensures state.DeleteRelation? ==> Only(run, Delete, Relation)
  {
  }

  lemma {:induction false} ModifyShape(run: seq<Edit>)
    requires OfState(run, ModifyAny)
    ensures Only(OfType(run, Node), Modify, Node)
    ensures Only(OfType(run, Way), Modify, Way)
    ensures Only(OfType(run, Relation), Modify, Relation)
  {
    OfTypeMembers(run, Node);
    OfTypeMembers(run, Way);
    OfTypeMembers(run, Relation);
  }

  // ---------- A whole document ----------

  function Edits(changes: seq<Change>): seq<Edit> {
    if changes == [] then [] else [EditOf(changes[0])] + Edits(changes[1..])
  }

  lemma {:induction false} AppendedItem(doc: seq<Edit>, e: Edit)
    ensures Items(doc + [e]) == Items(doc) + [e.item]
    ensures AdvanceAll(doc + [e]) == Advance(AdvanceAll(doc), e)
  {
    assert (doc + [e])[..|doc|] == doc;
  }

  /** The outcome of the rest of a document: that of the first operation that fails, and else that of its end. */
  function RestOutcome(server: Server, changeset: int, m: Machine, rest: seq<Change>): Outcome
    decreases |rest|
  {
    if rest == [] then EnterOutcome(server, m, Finished)
    else
      var r := ProcessOutcome(server, changeset, m, rest[0]);
      if r.Fail? then r else RestOutcome(server, changeset, Advance(m, EditOf(rest[0])), rest[1..])
  }

  function DocumentOutcome(server: Server, changeset: int, changes: seq<Change>): Outcome {
    RestOutcome(server, changeset, AdvanceAll([]), changes)
  }

  /** Run the callbacks of the rest of a document, and its end. */
  method ProcessRest(handler: OSMChangeHandler, ghost done: seq<Edit>, rest: seq<Change>) returns (r: Outcome)
    requires handler.Handled(done)
    modifies handler, handler.nodeUpdater, handler.wayUpdater, handler.relationUpdater, handler.db, handler.tracking
    ensures r == RestOutcome(handler.nodeUpdater.server, handler.changeset, AdvanceAll(done), rest)
    ensures r.Pass? ==> handler.Ended(done + Edits(rest))
    decreases |rest|
  {
    if rest == [] {
      assert done + Edits(rest) == done;
      EndExecutesRegrouped(done);
      r := handler.EndDocument();
      return;
    }
    ghost var next := done + [EditOf(rest[0])];
    EditsUnfold(done, rest);
    AppendedItem(done, EditOf(rest[0]));
    r := handler.ProcessNext(rest[0], done);
    if r.Pass? {
      r := ProcessRest(handler, next, rest[1..]);
    }
  }

  lemma {:induction false} EditsUnfold(done: seq<Edit>, rest: seq<Change>)
    requires rest != []
    ensures done + Edits(rest) == done + [EditOf(rest[0])] + Edits(rest[1..])
  {
  }

  /** The rows of a diffResult answer the operations of a document one by one. */
  predicate AnswersAll(rows: seq<DiffRow>, doc: seq<Edit>) {
    && |rows| == |doc|
    && forall i :: 0 <= i < |doc| ==>
         rows[i].op == doc[i].item.op && rows[i].typ == doc[i].item.typ && rows[i].oldId == doc[i].item.id
  }

  /** Each row is what the reports of the executed edits say about its operation. */
  predicate RowsFrom(rows: seq<DiffRow>, server: Server, executed: seq<Edit>, doc: seq<Edit>) {
    && |rows| == |doc|
    && forall i :: 0 <= i < |doc| ==>
         RowIn(ReportsFor(server, executed, doc[i].item.typ), doc[i].item) == Some(rows[i])
  }

  lemma {:induction false} EditsDefined(changes: seq<Change>)
    ensures |Edits(changes)| == |changes|
    ensures forall i :: 0 <= i < |Edits(changes)| ==> !Edits(changes)[i].item.op.Undefined?
    decreases |changes|
  {
    if changes != [] {
      EditsDefined(changes[1..]);
      assert Edits(changes)[1..] == Edits(changes[1..]);
    }
  }

  lemma {:induction false} FirstByIdAppended(ids: seq<IdMapping>, m: IdMapping, id: int)
    ensures FirstById(ids + [m], id) ==
      if FirstById(ids, id).Some? then FirstById(ids, id) else if m.oldId == id then Some(m) else None
  {
    assert (ids + [m])[..|ids|] == ids;
  }

  lemma {:induction false} FirstByVersionAppended(ids: seq<IdMapping>, m: IdMapping, id: int, version: nat)
    ensures FirstByVersion(ids + [m], id, version) ==
      if FirstByVersion(ids, id, version).Some? then FirstByVersion(ids, id, version)
      else if m.oldId == id && m.newVersion == version then Some(m) else None
  {
    assert (ids + [m])[..|ids|] == ids;
  }

  /**
   How one more report changes the answer for an item: only if there was none, and only by an edit of the same key.
   */
  lemma {:induction false} ReportedRow(r: Reports, server: Server, e: Edit, item: Item)
    requires !e.item.op.Undefined? && e.item.typ == item.typ && !item.op.Delete?
    ensures RowIn(Reported(r, server, e), item) ==
      if RowIn(r, item).Some? then RowIn(r, item)
      else if SameKey(e.item, item) then Some(OwnRow(server, e)) else None
  {
    match e.item.op
    case Create =>
      FirstByIdAppended(r.created, IdMapping(e.item.id, server.newId(e.element), 1), item.id);
    case Modify =>
      FirstByVersionAppended(r.modified, IdMapping(e.item.id, server.newId(e.element), ToUint32(e.item.version + 1)),
                             item.id, ToUint32(item.version + 1));
    case Delete =>
  }

  /** For deletes, the answer may come from either list. */
  lemma {:induction false} ReportedDelete(r: Reports, server: Server, e: Edit, item: Item)
    requires !e.item.op.Undefined? && e.item.typ == item.typ && item.op.Delete?
    ensures RowIn(r, item).Some? ==> RowIn(Reported(r, server, e), item).Some?
    ensures SameKey(e.item, item) && e.item.ifUnused == item.ifUnused ==> RowIn(Reported(r, server, e), item).Some?
    ensures !SameKey(e.item, item) ==> RowIn(Reported(r, server, e), item) == RowIn(r, item)
    ensures SameKey(e.item, item) && e.item.ifUnused == item.ifUnused && RowIn(r, item).None? ==>
      RowIn(Reported(r, server, e), item) == Some(OwnRow(server, e))
    ensures SameKey(e.item, item) && e.item.ifUnused == item.ifUnused && RowIn(r, item) == Some(OwnRow(server, e)) ==>
      RowIn(Reported(r, server, e), item) == Some(OwnRow(server, e))
  {
    if e.item.op.Delete? {
      var row := IdMapping(e.item.id, server.newId(e.element), server.currentVersion(e.element));
      FirstByIdAppended(r.skipped, row, item.id);
    }
  }

  lemma {:induction false} ExecutedIsAnswered(server: Server, executed: seq<Edit>, e: Edit)
    requires e in executed && !e.item.op.Undefined?
    ensures RowIn(ReportsFor(server, executed, e.item.typ), e.item).Some?
    decreases |executed|
  {
    var before, last := executed[..|executed| - 1], executed[|executed| - 1];
    assert executed == before + [last];
    if e in before {
      ExecutedIsAnswered(server, before, e);
    }
    if last.item.typ == e.item.typ && !last.item.op.Undefined? {
      if e.item.op.Delete? {
        ReportedDelete(ReportsFor(server, before, e.item.typ), server, last, e.item);
      } else {
        ReportedRow(ReportsFor(server, before, e.item.typ), server, last, e.item);
      }
    }
  }

  /** Once a document is executed and reported, every item of its original sequence has its answer. */
  lemma {:induction false} ItemAnswered(server: Server, doc: seq<Edit>, i: nat)
    requires i < |doc| && !doc[i].item.op.Undefined?
    ensures RowIn(ReportsFor(server, Regroup(doc), doc[i].item.typ), doc[i].item).Some?
  {
    RegroupPermutes(doc);
    assert doc[i] in multiset(doc);
    ExecutedIsAnswered(server, Regroup(doc), doc[i]);
  }

  /** Rows taken from the reports answer the operations of the document. */
  lemma {:induction false} RowsAnswer(server: Server, executed: seq<Edit>, rows: seq<DiffRow>, doc: seq<Edit>)
    requires RowsFrom(rows, server, executed, doc)
    ensures AnswersAll(rows, doc)
  {
    forall i | 0 <= i < |doc|
      ensures rows[i].op == doc[i].item.op && rows[i].typ == doc[i].item.typ && rows[i].oldId == doc[i].item.id
    {
      RowAnswersItem(ReportsFor(server, executed, doc[i].item.typ), doc[i].item);
    }
  }

  // ---------- The statistics of an upload ----------

  function ChangeCount(r: Reports): nat { |r.created| + |r.modified| + |r.deleted| }

  lemma {:induction false} ReportedTotal(r: Reports, server: Server, e: Edit)
    requires !e.item.op.Undefined?
    ensures ChangeCount(Reported(r, server, e)) == ChangeCount(r) + if IsSkipped(server, e) then 0 else 1
  {
  }

  lemma {:induction false} ChangesCountExecuted(server: Server, executed: seq<Edit>)
    requires forall i :: 0 <= i < |executed| ==> !executed[i].item.op.Undefined?
    ensures ChangeCount(ReportsFor(server, executed, Node)) + ChangeCount(ReportsFor(server, executed, Way))
            + ChangeCount(ReportsFor(server, executed, Relation)) + SkippedCount(server, executed) == |executed|
    decreases |executed|
  {
    if executed != [] {
      var front, last := executed[..|executed| - 1], executed[|executed| - 1];
      ChangesCountExecuted(server, front);
      ReportedTotal(ReportsFor(server, front, last.item.typ), server, last);
    }
  }

  /** The statistics count every executed edit that was not skipped. */
  lemma {:induction false} StatsCountExecuted(server: Server, executed: seq<Edit>)
    requires forall i :: 0 <= i < |executed| ==> !executed[i].item.op.Undefined?
    ensures StatsFor(server, executed).Total() + SkippedCount(server, executed) == |executed|
  {
    ChangesCountExecuted(server, executed);
    TotalOfReports(ReportsFor(server, executed, Node), ReportsFor(server, executed, Way),
      ReportsFor(server, executed, Relation));
  }

  lemma {:induction false} TotalOfReports(node: Reports, way: Reports, relation: Reports)
    ensures ChangesetRules.UploadStats(StatsIn(node), StatsIn(way), StatsIn(relation)).Total()
            == ChangeCount(node) + ChangeCount(way) + ChangeCount(relation)
  {
  }

  lemma {:induction false} SkippedByType(server: Server, edits: seq<Edit>)
    ensures SkippedCount(server, edits)
      == SkippedCount(server, OfType(edits, Node)) + SkippedCount(server, OfType(edits, Way))
                                           + SkippedCount(server, OfType(edits, Relation))
    decreases |edits|
  {
    if edits != [] {
      var front, last := edits[..|edits| - 1], edits[|edits| - 1];
      assert edits == front + [last];
      SkippedByType(server, front);
      OfTypeAppended(front, last, Node);
      OfTypeAppended(front, last, Way);
      OfTypeAppended(front, last, Relation);
      SkippedSnoc(server, OfType(front, last.item.typ), last);
    }
  }

  lemma {:induction false} SkippedSnoc(server: Server, edits: seq<Edit>, last: Edit)
    ensures SkippedCount(server, edits + [last])
      == SkippedCount(server, edits) + if IsSkipped(server, last) then 1 else 0
  {
    assert (edits + [last])[..|edits|] == edits;
  }

  /** An upload counts as many changes as its document has operations, less the deletes that are skipped. */
  lemma {:induction false} StatsCountDocument(server: Server, doc: seq<Edit>)
    requires forall i :: 0 <= i < |doc| ==> !doc[i].item.op.Undefined?
    ensures StatsFor(server, Regroup(doc)).Total() == |doc| - SkippedCount(server, doc)
  {
    RegroupPermutes(doc);
    RegroupLength(doc);
    forall i | 0 <= i < |Regroup(doc)|
      ensures !Regroup(doc)[i].item.op.Undefined?
    {
      assert Regroup(doc)[i] in multiset(doc);
    }
    StatsCountExecuted(server, Regroup(doc));
    SkippedByType(server, doc);
    SkippedByType(server, Regroup(doc));
    RegroupKeepsTypeOrder(doc, Node);
    RegroupKeepsTypeOrder(doc, Way);
    RegroupKeepsTypeOrder(doc, Relation);
  }

  // ---------- Whose answer a row is ----------

  /** No other executed edit could be mistaken for `e` by the lookup. */
  predicate Alone(executed: seq<Edit>, e: Edit) {
    forall i :: 0 <= i < |executed| && SameKey(executed[i].item, e.item) ==> executed[i] == e
  }

  predicate SameKey(a: Item, b: Item) {
    a.op == b.op && a.typ == b.typ && a.id == b.id
      && (a.op.Modify? ==> ToUint32(a.version + 1) == ToUint32(b.version + 1))
  }

  /** The row that the database's answers for `e` itself make. */
  function OwnRow(server: Server, e: Edit): DiffRow
    requires !e.item.op.Undefined?
  {
    match e.item.op
    case Create => DiffRow(Create, e.item.typ, e.item.id, server.newId(e.element), 1, false)
    case Modify => DiffRow(Modify, e.item.typ, e.item.id, server.newId(e.element), ToUint32(e.item.version + 1), false)
    case Delete =>
      if e.item.ifUnused && server.inUse(e.element) then
        DiffRow(Delete, e.item.typ, e.item.id, server.newId(e.element), server.currentVersion(e.element), true)
      else DiffRow(Delete, e.item.typ, e.item.id, 0, 0, false)
  }

  /** What the lookup sees of an edit that is alone: its own report once it is executed, and nothing before. */
  lemma {:induction false} OwnReport(server: Server, executed: seq<Edit>, e: Edit)
    requires Alone(executed, e) && !e.item.op.Undefined?
    ensures RowIn(ReportsFor(server, executed, e.item.typ), e.item) ==
      if e in executed then Some(OwnRow(server, e)) else None
    decreases |executed|
  {
    if executed != [] {
      var before, last := executed[..|executed| - 1], executed[|executed| - 1];
      assert executed == before + [last];
      OwnReport(server, before, e);
      if last.item.typ == e.item.typ && !last.item.op.Undefined? {
        if e.item.op.Delete? {
          ReportedDelete(ReportsFor(server, before, e.item.typ), server, last, e.item);
        } else {
          ReportedRow(ReportsFor(server, before, e.item.typ), server, last, e.item);
        }
      }
    }
  }

  /** In a document where an operation's key is its own, its row carries its own new id, version and skip flag. */
  lemma {:induction false} RowIsOwn(server: Server, doc: seq<Edit>, rows: seq<DiffRow>, i: nat)
    requires i < |doc| && Alone(doc, doc[i]) && !doc[i].item.op.Undefined?
    requires RowsFrom(rows, server, Regroup(doc), doc)
    ensures rows[i] == OwnRow(server, doc[i])
  {
    RegroupPermutes(doc);
    var executed := Regroup(doc);
    assert doc[i] in multiset(executed);
    forall k | 0 <= k < |executed| && SameKey(executed[k].item, doc[i].item)
      ensures executed[k] == doc[i]
    {
      assert executed[k] in multiset(doc);
    }
    OwnReport(server, executed, doc[i]);
  }
}
