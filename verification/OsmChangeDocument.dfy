/**
 A whole upload document: the changes that the parser hands over go in, the diffResult and the statistics come out. What
 comes out is stated on the changes themselves.
 */
module OsmChangeDocument {
  import opened Common
  import opened OsmObjects
  import opened OsmChangeTracking
  import opened OsmChangeRegroup
  import opened OsmChangeHandler
  import opened OsmChangeOutcome
  import ChangesetRules

  // ---------- The document as it is buffered ----------

  /**
   The edits are the changes: operation, type, id and contents, the version of creations 1, the flag on deletes only.
   */
  predicate IsDocument(doc: seq<Edit>, changes: seq<Change>) {
    && |doc| == |changes|
    && forall i :: 0 <= i < |doc| ==>
         var c := changes[i]; var item := doc[i].item;
         && doc[i].element == c.element
         && item.op == c.op && item.typ == c.element.typ && item.id == c.element.id.value
         && item.version == (if c.op.Create? then 1 else c.element.version.value)
         && item.ifUnused == (c.op.Delete? && c.ifUnused)
  }

  lemma {:induction false} EditsAreChanges(changes: seq<Change>)
    ensures IsDocument(Edits(changes), changes)
    decreases |changes|
  {
    if changes != [] {
      EditsAreChanges(changes[1..]);
      assert Edits(changes)[1..] == Edits(changes[1..]);
    }
  }

  // ---------- Rows ----------

  /** Two operations of the same kind on the same object; modifications also on the same version. */
  predicate SameTarget(a: Change, b: Change) {
    && a.op == b.op && a.element.typ == b.element.typ && a.element.id == b.element.id
    && (a.op.Modify? ==> ToUint32(a.element.version.value + 1) == ToUint32(b.element.version.value + 1))
  }

  /** No other operation of the document has the target of operation `i`. */
  predicate Unrivalled(changes: seq<Change>, i: nat)
    requires i < |changes|
  {
    forall k :: 0 <= k < |changes| && k != i ==> !SameTarget(changes[k], changes[i])
  }

  /**
   A row for an operation: its kind, type and id as sent; version 1 for a creation, the next one for a modification;
   only if-unused deletes are ever skipped.
   */
  predicate RowNames(row: DiffRow, c: Change) {
    && row.op == c.op && row.typ == c.element.typ && row.oldId == c.element.id.value
    && (c.op.Create? ==> row.newVersion == 1)
    && (c.op.Modify? ==> row.newVersion == ToUint32(c.element.version.value + 1))
    && (row.deletionSkipped ==> c.op.Delete? && c.ifUnused)
  }

  /**
   A row with the database's answer for its own object: the new id of a creation or modification, id and current
   version of a delete that is skipped because the object is in use, and nothing for one that is carried out.
   */
  predicate RowAnswers(row: DiffRow, server: Server, c: Change) {
    && (!c.op.Delete? ==> row.newId == server.newId(c.element))
    && (c.op.Delete? ==> (row.deletionSkipped <==> c.ifUnused && server.inUse(c.element)))
    && (row.deletionSkipped ==>
          row.newId == server.newId(c.element) && row.newVersion == server.currentVersion(c.element))
    && (c.op.Delete? && !row.deletionSkipped ==> row.newId == 0 && row.newVersion == 0)
  }

  /** One row for each operation in document order; creations and operations without a rival get their own answer. */
  predicate Answered(rows: seq<DiffRow>, server: Server, changes: seq<Change>) {
    && |rows| == |changes|
    && forall i :: 0 <= i < |changes| ==>
         && RowNames(rows[i], changes[i])
         && (changes[i].op.Create? || Unrivalled(changes, i) ==> RowAnswers(rows[i], server, changes[i]))
  }

  lemma {:induction false} CreatedVersion(server: Server, executed: seq<Edit>, item: Item)
    requires item.op.Create? && RowIn(ReportsFor(server, executed, item.typ), item).Some?
    ensures RowIn(ReportsFor(server, executed, item.typ), item).value.newVersion == 1
  {
    CreatedVersions(server, executed, item.typ);
  }

  lemma {:induction false} CreatedVersions(server: Server, executed: seq<Edit>, typ: ObjectType)
    ensures forall m :: m in ReportsFor(server, executed, typ).created ==> m.newVersion == 1
    decreases |executed|
  {
    if executed != [] {
      CreatedVersions(server, executed[..|executed| - 1], typ);
    }
  }

  lemma {:induction false} RowNamesChange(server: Server, executed: seq<Edit>, item: Item, c: Change, row: DiffRow)
    requires IsDocument([Edit(item, c.element)], [c])
    requires RowIn(ReportsFor(server, executed, item.typ), item) == Some(row)
    ensures RowNames(row, c)
  {
    assert [Edit(item, c.element)][0].item == item && [c][0] == c;
    RowAnswersItem(ReportsFor(server, executed, item.typ), item);
    if c.op.Create? {
      CreatedVersion(server, executed, item);
    }
  }

  /** The only operation on its target stands alone among the edits. */
  lemma {:induction false} UnrivalledAlone(changes: seq<Change>, doc: seq<Edit>, i: nat)
    requires IsDocument(doc, changes) && i < |changes| && Unrivalled(changes, i)
    ensures Alone(doc, doc[i])
  {
    forall k | 0 <= k < |doc| && SameKey(doc[k].item, doc[i].item)
      ensures doc[k] == doc[i]
    {
      assert SameTarget(changes[k], changes[i]);
    }
  }

  lemma {:induction false} AloneRowAnswers(server: Server, doc: seq<Edit>, changes: seq<Change>, rows: seq<DiffRow>,
                                           i: nat)
    requires IsDocument(doc, changes) && i < |changes| && Alone(doc, doc[i])
    requires RowsFrom(rows, server, Regroup(doc), doc)
    ensures RowAnswers(rows[i], server, changes[i])
  {
    assert !doc[i].item.op.Undefined?;
    RowIsOwn(server, doc, rows, i);
  }

  lemma {:induction false} CreationAlone(server: Server, changeset: int, changes: seq<Change>, i: nat)
    requires DocumentOutcome(server, changeset, changes).Pass?
    requires i < |changes| && |Edits(changes)| == |changes| && Edits(changes)[i].item.op.Create?
    ensures Alone(Edits(changes), Edits(changes)[i])
  {
    var doc := Edits(changes);
    forall k | 0 <= k < |doc| && SameKey(doc[k].item, doc[i].item)
      ensures doc[k] == doc[i]
    {
      if k < i {
        PlaceholdersUnique(server, changeset, changes, k, i);
      } else if i < k {
        PlaceholdersUnique(server, changeset, changes, i, k);
      }
    }
  }

  lemma {:induction false} RowsAnswerChanges(server: Server, changeset: int, changes: seq<Change>, rows: seq<DiffRow>)
    requires DocumentOutcome(server, changeset, changes).Pass?
    requires RowsFrom(rows, server, Regroup(Edits(changes)), Edits(changes))
    ensures Answered(rows, server, changes)
  {
    var doc := Edits(changes);
    EditsAreChanges(changes);
    forall i | 0 <= i < |changes|
      ensures RowNames(rows[i], changes[i])
      ensures changes[i].op.Create? || Unrivalled(changes, i) ==> RowAnswers(rows[i], server, changes[i])
    {
      RowNamesChange(server, Regroup(doc), doc[i].item, changes[i], rows[i]);
      if changes[i].op.Create? {
        CreationAlone(server, changeset, changes, i);
        AloneRowAnswers(server, doc, changes, rows, i);
      } else if Unrivalled(changes, i) {
        UnrivalledAlone(changes, doc, i);
        AloneRowAnswers(server, doc, changes, rows, i);
      }
    }
  }

  // ---------- Statistics ----------

  /** How many operations of a kind on a type the document has. */
  function CountOf(changes: seq<Change>, op: Operation, typ: ObjectType): nat {
    if changes == [] then 0
    else
      var c := changes[|changes| - 1];
      CountOf(changes[..|changes| - 1], op, typ) + if c.op == op && c.element.typ == typ then 1 else 0
  }

  /** How many deletes of a type are in an if-unused block and of an object in use. */
  function SkippedOf(server: Server, changes: seq<Change>, typ: ObjectType): nat {
    if changes == [] then 0
    else
      var c := changes[|changes| - 1];
      SkippedOf(server, changes[..|changes| - 1], typ)
      + if c.op.Delete? && c.ifUnused && c.element.typ == typ && server.inUse(c.element) then 1 else 0
  }

  predicate CountsType(s: ChangesetRules.ElementStats, server: Server, changes: seq<Change>, typ: ObjectType) {
    && s.created == CountOf(changes, Create, typ)
    && s.modified == CountOf(changes, Modify, typ)
    && s.deleted + SkippedOf(server, changes, typ) == CountOf(changes, Delete, typ)
  }

  /** For each type, the creations, the modifications and the deletes that are not skipped. */
  predicate Counts(s: ChangesetRules.UploadStats, server: Server, changes: seq<Change>) {
    CountsType(s.node, server, changes, Node) && CountsType(s.way, server, changes, Way)
    && CountsType(s.relation, server, changes, Relation)
  }

  lemma {:induction false} ReportsCount(server: Server, doc: seq<Edit>, changes: seq<Change>, typ: ObjectType)
    requires IsDocument(doc, changes)
    ensures CountsType(StatsIn(ReportsFor(server, doc, typ)), server, changes, typ)
    decreases |doc|
  {
    if doc != [] {
      ReportsCount(server, doc[..|doc| - 1], changes[..|changes| - 1], typ);
    }
  }

  /** The reports of a type depend only on the edits of that type, in their order. */
  lemma {:induction false} ReportsByType(server: Server, edits: seq<Edit>, typ: ObjectType)
    ensures ReportsFor(server, OfType(edits, typ), typ) == ReportsFor(server, edits, typ)
    decreases |edits|
  {
    if edits != [] {
      var front, last := edits[..|edits| - 1], edits[|edits| - 1];
      ReportsByType(server, front, typ);
      if last.item.typ == typ {
        ReportsAppended(server, OfType(front, typ), last, typ);
        assert OfType(edits, typ) == OfType(front, typ) + [last];
      } else {
        assert OfType(edits, typ) == OfType(front, typ);
      }
    }
  }

  lemma {:induction false} StatsOfType(server: Server, doc: seq<Edit>, changes: seq<Change>, typ: ObjectType)
    requires IsDocument(doc, changes)
    ensures CountsType(StatsIn(ReportsFor(server, Regroup(doc), typ)), server, changes, typ)
  {
    ReportsByType(server, Regroup(doc), typ);
    RegroupKeepsTypeOrder(doc, typ);
    ReportsByType(server, doc, typ);
    ReportsCount(server, doc, changes, typ);
  }

  /** Regrouping changes no count. */
  lemma {:induction false} StatsOfDocument(server: Server, doc: seq<Edit>, changes: seq<Change>)
    requires IsDocument(doc, changes)
    ensures Counts(StatsFor(server, Regroup(doc)), server, changes)
  {
    StatsOfType(server, doc, changes, Node);
    StatsOfType(server, doc, changes, Way);
    StatsOfType(server, doc, changes, Relation);
  }

  // ---------- Handling a document ----------

  /** A handler with its three updaters over one tracking object and one database. */
  method NewHandler(changeset: int, server: Server) returns (handler: OSMChangeHandler)
    ensures handler.Handled([]) && handler.changeset == changeset && handler.nodeUpdater.server == server
    ensures fresh(handler) && fresh(handler.nodeUpdater) && fresh(handler.wayUpdater) && fresh(handler.relationUpdater)
    ensures fresh(handler.db) && fresh(handler.tracking)
  {
    var tracking := new OSMChangeTracking();
    var db := new Database();
    var nodeUpdater := new ElementUpdater(Node, tracking, db, server);
    var wayUpdater := new ElementUpdater(Way, tracking, db, server);
    var relationUpdater := new ElementUpdater(Relation, tracking, db, server);
    handler := new OSMChangeHandler(nodeUpdater, wayUpdater, relationUpdater, tracking, db, changeset);
  }

  /** Assemble the answer. */
  method Finish(handler: OSMChangeHandler, ghost doc: seq<Edit>)
    returns (executed: seq<Edit>, diff: Option<seq<DiffRow>>, stats: ChangesetRules.UploadStats)
    requires handler.Ended(doc) && forall i :: 0 <= i < |doc| ==> !doc[i].item.op.Undefined?
    ensures executed == Regroup(doc)
    ensures diff.Some? && RowsFrom(diff.value, handler.nodeUpdater.server, executed, doc) && AnswersAll(diff.value, doc)
    ensures stats == StatsFor(handler.nodeUpdater.server, executed)
  {
    executed := handler.db.executed;
    diff := Assemble(handler.tracking, handler.nodeUpdater.server, doc);
    stats := handler.GetStats();
  }

  method Assemble(tracking: OSMChangeTracking, ghost server: Server, ghost doc: seq<Edit>)
    returns (diff: Option<seq<DiffRow>>)
    requires tracking.origSequence == Items(doc) && forall i :: 0 <= i < |doc| ==> !doc[i].item.op.Undefined?
    requires forall typ :: tracking.ListsOf(typ) == ReportsFor(server, Regroup(doc), typ)
    ensures diff.Some? && RowsFrom(diff.value, server, Regroup(doc), doc) && AnswersAll(diff.value, doc)
  {
    forall i: nat | i < |doc|
      ensures RowIn(ReportsFor(server, Regroup(doc), doc[i].item.typ), doc[i].item).Some?
    {
      ItemAnswered(server, doc, i);
    }
    ItemsPointwise(doc);
    diff := tracking.AssembleDiffresult();
    RowsAnswer(server, Regroup(doc), diff.value, doc);
  }

  /**
   The outcome is that of the first check that fails. When none does, the regrouped document is executed, its
   operations are answered in document order, and the statistics count them by kind and type.
   */
  method HandleDocument(changeset: int, changes: seq<Change>, server: Server)
    returns (r: Outcome, executed: seq<Edit>, diff: Option<seq<DiffRow>>, stats: ChangesetRules.UploadStats)
    ensures r == DocumentOutcome(server, changeset, changes)
    ensures r.Pass? ==> executed == Regroup(Edits(changes)) && IsDocument(Edits(changes), changes)
    ensures r.Pass? ==> diff.Some? && RowsFrom(diff.value, server, executed, Edits(changes))
    ensures r.Pass? ==> Answered(diff.value, server, changes)
    ensures r.Pass? ==> stats == StatsFor(server, executed) && Counts(stats, server, changes)
  {
    executed, diff, stats := [], None, ChangesetRules.NO_STATS;
    var handler := NewHandler(changeset, server);
    r := ProcessRest(handler, [], changes);
    if r.Fail? {
      return;
    }
    ghost var doc := Edits(changes);
    assert [] + doc == doc;
    EditsDefined(changes);
    EditsAreChanges(changes);
    executed, diff, stats := Finish(handler, doc);
    RowsAnswerChanges(server, changeset, changes, diff.value);
    StatsOfDocument(server, doc, changes);
  }
}
