/**
 The outcome of a whole osmChange document. Refusals come from single operations and from the batches that changes of
 state drain; this says, without the handler's states, which of them a document ends with, and what acceptance implies.
 */
module OsmChangeOutcome {
  import opened Common
  import opened OsmObjects
  import opened OsmChangeTracking
  import opened OsmChangeRegroup
  import opened OsmChangeHandler

  // ---------- The batches of a document ----------

  function Concat(batches: seq<seq<Edit>>): seq<Edit> {
    if batches == [] then [] else batches[0] + Concat(batches[1..])
  }

  /** The batches in which a whole document is executed. */
  function Batches(doc: seq<Edit>): seq<seq<Edit>> {
    if doc == [] then [] else Batches(doc[..LastRun(doc)]) + RunBatches(doc[LastRun(doc)..])
  }

  /** The batches that are drained once the document has been read: all but those of its last run. */
  function Drained(doc: seq<Edit>): seq<seq<Edit>> {
    if doc == [] then [] else Batches(doc[..LastRun(doc)])
  }

  lemma {:induction false} ConcatAppend(a: seq<seq<Edit>>, b: seq<seq<Edit>>)
    ensures Concat(a + b) == Concat(a) + Concat(b)
    decreases |a|
  {
    if a == [] {
      assert a + b == b;
    } else {
      assert (a + b)[1..] == a[1..] + b;
      ConcatAppend(a[1..], b);
    }
  }

  lemma {:induction false} ConcatRun(run: seq<Edit>)
    ensures Concat(RunBatches(run)) == GroupRun(run)
  {
    assert Concat([run]) == run by {
      assert [run][1..] == [];
    }
    ConcatThree(OfType(run, Node), OfType(run, Way), OfType(run, Relation));
  }

  lemma {:induction false} ConcatThree(a: seq<Edit>, b: seq<Edit>, c: seq<Edit>)
    ensures Concat([a, b, c]) == a + b + c
  {
    assert [a, b, c][1..] == [b, c] && [b, c][1..] == [c] && [c][1..] == [];
    assert Concat([c]) == c;
    assert Concat([b, c]) == b + c;
  }

  /** Together the batches are the regrouped document. */
  lemma {:induction false} BatchesRegroup(doc: seq<Edit>)
    ensures Concat(Batches(doc)) == Regroup(doc)
    decreases |doc|
  {
    if doc != [] {
      var front, run := doc[..LastRun(doc)], doc[LastRun(doc)..];
      BatchesRegroup(front);
      ConcatAppend(Batches(front), RunBatches(run));
      ConcatRun(run);
    }
  }

  /** How one more operation changes what is drained: nothing within a run, else everything before it. */
  lemma {:induction false} DrainedStep(front: seq<Edit>, last: Edit)
    ensures Drained(front + [last]) ==
      if front != [] && StateOf(front[|front| - 1].item) == StateOf(last.item) then Drained(front) else Batches(front)
  {
    LastRunStep(front, last);
    SplitAppended(front, last, LastRun(front + [last]));
  }

  lemma {:induction false} DrainedInBatches(doc: seq<Edit>)
    ensures Drained(doc) <= Batches(doc)
  {
  }

  lemma {:induction false} DrainedGrows(front: seq<Edit>, last: Edit)
    ensures Drained(front) <= Drained(front + [last])
  {
    DrainedStep(front, last);
    DrainedInBatches(front);
  }

  lemma {:induction false} PrefixTransitive<T>(a: seq<T>, b: seq<T>, c: seq<T>)
    requires a <= b && b <= c
    ensures a <= c
  {
  }

  lemma {:induction false} DrainedMonotone(doc: seq<Edit>, more: seq<Edit>)
    ensures Drained(doc) <= Drained(doc + more)
    decreases |more|
  {
    if more == [] {
      assert doc + more == doc;
    } else {
      var before, last := doc + more[..|more| - 1], more[|more| - 1];
      assert doc + more == before + [last];
      DrainedMonotone(doc, more[..|more| - 1]);
      DrainedGrows(before, last);
      PrefixTransitive(Drained(doc), Drained(before), Drained(before + [last]));
    }
  }

  lemma {:induction false} DrainedInAll(doc: seq<Edit>, more: seq<Edit>)
    ensures Drained(doc) <= Batches(doc + more)
  {
    DrainedMonotone(doc, more);
    DrainedInBatches(doc + more);
    PrefixTransitive(Drained(doc), Drained(doc + more), Batches(doc + more));
  }

  // ---------- Outcomes ----------

  /** Batches are drained one after the other. */
  lemma {:induction false} OutcomeAppend(server: Server, executed: seq<Edit>, a: seq<seq<Edit>>, b: seq<seq<Edit>>)
    ensures BatchesOutcome(server, executed, a + b) ==
      if BatchesOutcome(server, executed, a).Fail? then BatchesOutcome(server, executed, a)
      else BatchesOutcome(server, executed + Concat(a), b)
    decreases |a|
  {
    if a == [] {
      assert a + b == b && executed + Concat(a) == executed;
    } else {
      assert (a + b)[1..] == a[1..] + b;
      OutcomeAppend(server, executed + a[0], a[1..], b);
      assert executed + a[0] + Concat(a[1..]) == executed + Concat(a);
    }
  }

  /** Each batch passes after those before it. */
  ghost predicate EachPasses(server: Server, executed: seq<Edit>, batches: seq<seq<Edit>>) {
    forall i :: 0 <= i < |batches| ==> BatchOutcome(server, executed + Concat(batches[..i]), batches[i]).Pass?
  }

  /** All batches pass exactly when each does. */
  lemma {:induction false} AllBatchesPass(server: Server, executed: seq<Edit>, batches: seq<seq<Edit>>)
    ensures BatchesOutcome(server, executed, batches).Pass? <==> EachPasses(server, executed, batches)
    decreases |batches|
  {
    if batches != [] {
      var rest := batches[1..];
      AllBatchesPass(server, executed + batches[0], rest);
      assert batches[..0] == [] && executed + Concat([]) == executed;
      forall i | 0 <= i < |rest|
        ensures executed + Concat(batches[..i + 1]) == executed + batches[0] + Concat(rest[..i])
        ensures rest[i] == batches[i + 1]
      {
        assert batches[..i + 1][1..] == rest[..i];
      }
      if BatchesOutcome(server, executed, batches).Pass? {
        forall i | 0 <= i < |batches|
          ensures BatchOutcome(server, executed + Concat(batches[..i]), batches[i]).Pass?
        {
          assert i > 0 ==> batches[i] == rest[i - 1];
        }
      }
      if EachPasses(server, executed, batches) {
        assert BatchOutcome(server, executed, batches[0]).Pass?;
        forall i | 0 <= i < |rest|
          ensures BatchOutcome(server, executed + batches[0] + Concat(rest[..i]), rest[i]).Pass?
        {
          assert BatchOutcome(server, executed + Concat(batches[..i + 1]), batches[i + 1]).Pass?;
        }
      }
    }
  }

  /**
   When what was drained has passed, entering a state adds the outcome of the last run, unless it is that run's state.
   */
  lemma {:induction false} EnterAfter(server: Server, doc: seq<Edit>, state: HandlerState)
    requires BatchesOutcome(server, [], Drained(doc)).Pass? && !state.Initial?
    ensures EnterOutcome(server, AdvanceAll(doc), state) ==
      if doc != [] && state == StateOf(doc[|doc| - 1].item) then Pass else BatchesOutcome(server, [], Batches(doc))
  {
    if doc == [] {
      RunOutcomeShape(server, [], [], Initial);
    } else {
      MachineSplitsDocument(doc);
      BatchesRegroup(doc[..LastRun(doc)]);
      OutcomeAppend(server, [], Drained(doc), RunBatches(doc[LastRun(doc)..]));
      assert [] + Concat(Drained(doc)) == AdvanceAll(doc).executed;
    }
  }

  /** An operation that the handler refuses by itself, whatever the database says. */
  predicate Refused(changeset: int, c: Change) { Foreign(changeset, c) || BadPlaceholder(c) }

  function RefusalOf(changeset: int, c: Change): Outcome {
    if Foreign(changeset, c) then Fail(Conflict) else if BadPlaceholder(c) then Fail(BadRequest) else Pass
  }

  /** The position of the first refused operation, or the length. */
  function FirstRefused(changeset: int, changes: seq<Change>): (k: nat)
    ensures k <= |changes|
    ensures forall i :: 0 <= i < k ==> !Refused(changeset, changes[i])
    ensures k < |changes| ==> Refused(changeset, changes[k])
  {
    if changes == [] || Refused(changeset, changes[0]) then 0 else 1 + FirstRefused(changeset, changes[1..])
  }

  /**
   The batches that are drained before the first refusal: an operation of another changeset is refused before its own
   change of state, one with a bad placeholder after it. Without a refusal all batches are.
   */
  function DueFrom(done: seq<Edit>, changeset: int, rest: seq<Change>): seq<seq<Edit>> {
    var k := FirstRefused(changeset, rest);
    if k == |rest| then Batches(done + Edits(rest))
    else if Foreign(changeset, rest[k]) then Drained(done + Edits(rest[..k]))
    else Drained(done + Edits(rest[..k + 1]))
  }

  /** The first batch that fails decides; then the first refusal. */
  function Verdict(server: Server, changeset: int, changes: seq<Change>, due: seq<seq<Edit>>): Outcome {
    var k := FirstRefused(changeset, changes);
    if BatchesOutcome(server, [], due).Fail? then BatchesOutcome(server, [], due)
    else if k < |changes| then RefusalOf(changeset, changes[k])
    else Pass
  }

  lemma {:induction false} EditsOfOne(c: Change)
    ensures Edits([c]) == [EditOf(c)]
  {
    assert [c][1..] == [];
  }

  /** What is due for the rest of a document is due for the rest after its first operation. */
  lemma {:induction false} DueStep(done: seq<Edit>, changeset: int, rest: seq<Change>)
    requires rest != [] && !Refused(changeset, rest[0])
    ensures DueFrom(done, changeset, rest) == DueFrom(done + [EditOf(rest[0])], changeset, rest[1..])
  {
    var k := FirstRefused(changeset, rest);
    EditsUnfold(done, rest);
    EditsUnfold(done, rest[..k]);
    assert rest[..k][1..] == rest[1..][..k - 1];
    if k < |rest| {
      EditsUnfold(done, rest[..k + 1]);
      assert rest[..k + 1][1..] == rest[1..][..k];
    }
  }

  /** Everything that is drained now is drained before any later refusal. */
  lemma {:induction false} DueContains(done: seq<Edit>, changeset: int, rest: seq<Change>)
    ensures Drained(done) <= DueFrom(done, changeset, rest)
  {
    var k := FirstRefused(changeset, rest);
    if k == |rest| {
      DrainedInAll(done, Edits(rest));
    } else if Foreign(changeset, rest[k]) {
      DrainedMonotone(done, Edits(rest[..k]));
    } else {
      DrainedMonotone(done, Edits(rest[..k + 1]));
    }
  }

  lemma {:induction false} FailureStays(server: Server, a: seq<seq<Edit>>, b: seq<seq<Edit>>)
    requires a <= b && BatchesOutcome(server, [], a).Fail?
    ensures BatchesOutcome(server, [], b) == BatchesOutcome(server, [], a)
  {
    assert b == a + b[|a|..];
    OutcomeAppend(server, [], a, b[|a|..]);
  }

  /** The change of state before an operation has the outcome of what is drained after it. */
  lemma {:induction false} EnterIsDrained(server: Server, done: seq<Edit>, e: Edit)
    requires BatchesOutcome(server, [], Drained(done)).Pass? && !e.item.op.Undefined?
    ensures EnterOutcome(server, AdvanceAll(done), StateOf(e.item)) == BatchesOutcome(server, [], Drained(done + [e]))
  {
    EnterAfter(server, done, StateOf(e.item));
    DrainedStep(done, e);
  }

  lemma {:induction false} RestOutcomeExactly(server: Server, changeset: int, done: seq<Edit>, rest: seq<Change>)
    requires BatchesOutcome(server, [], Drained(done)).Pass?
    ensures RestOutcome(server, changeset, AdvanceAll(done), rest) ==
      Verdict(server, changeset, rest, DueFrom(done, changeset, rest))
    decreases |rest|
  {
    if rest == [] {
      assert done + Edits(rest) == done;
      EnterAfter(server, done, Finished);
    } else {
      var next := done + [EditOf(rest[0])];
      AppendedItem(done, EditOf(rest[0]));
      EnterIsDrained(server, done, EditOf(rest[0]));
      if Refused(changeset, rest[0]) {
        FirstIsRefused(server, changeset, done, rest);
      } else {
        DueStep(done, changeset, rest);
        if BatchesOutcome(server, [], Drained(next)).Fail? {
          DueContains(next, changeset, rest[1..]);
          FailureStays(server, Drained(next), DueFrom(next, changeset, rest[1..]));
        } else {
          RestOutcomeExactly(server, changeset, next, rest[1..]);
        }
      }
    }
  }

  lemma {:induction false} FirstIsRefused(server: Server, changeset: int, done: seq<Edit>, rest: seq<Change>)
    requires rest != [] && Refused(changeset, rest[0])
    requires BatchesOutcome(server, [], Drained(done)).Pass?
    ensures RestOutcome(server, changeset, AdvanceAll(done), rest) ==
      Verdict(server, changeset, rest, DueFrom(done, changeset, rest))
  {
    assert rest[..0] == [] && done + Edits([]) == done;
    assert rest[..1] == [rest[0]];
    EditsOfOne(rest[0]);
    EnterIsDrained(server, done, EditOf(rest[0]));
  }

  /**
   The outcome of a document, without the handler's states: the first failing batch among those drained before the first
   refused operation decides, then that operation's refusal, and without either the document is accepted.
   */
  lemma {:induction false} DocumentOutcomeExactly(server: Server, changeset: int, changes: seq<Change>)
    ensures DocumentOutcome(server, changeset, changes) ==
      Verdict(server, changeset, changes, DueFrom([], changeset, changes))
  {
    RestOutcomeExactly(server, changeset, [], changes);
  }

  /** A document is accepted exactly when no operation is refused and every batch passes after those before it. */
  lemma {:induction false} AcceptedExactly(server: Server, changeset: int, changes: seq<Change>)
    ensures DocumentOutcome(server, changeset, changes).Pass? <==>
      && (forall i :: 0 <= i < |changes| ==> !Refused(changeset, changes[i]))
      && EachPasses(server, [], Batches(Edits(changes)))
  {
    DocumentOutcomeExactly(server, changeset, changes);
    AllBatchesPass(server, [], Batches(Edits(changes)));
    assert [] + Edits(changes) == Edits(changes);
    var k := FirstRefused(changeset, changes);
    if k < |changes| {
      assert Verdict(server, changeset, changes, DueFrom([], changeset, changes)).Fail?;
    }
  }

  // ---------- Placeholders ----------

  /** No two creations of the type have the same placeholder id. */
  predicate UniqueOf(edits: seq<Edit>, typ: ObjectType) {
    edits == [] ||
    var front, last := edits[..|edits| - 1], edits[|edits| - 1];
    && UniqueOf(front, typ)
    && (last.item.op.Create? && last.item.typ == typ ==> last.item.id !in PlaceholderIds(front, typ))
  }

  /** A batch is of one operation and one type. */
  ghost predicate Homogeneous(batch: seq<Edit>) { batch != [] ==> Only(batch, batch[0].item.op, batch[0].item.typ) }

  lemma {:induction false} FreshFront(seen: set<int>, batch: seq<Edit>)
    requires batch != [] && FreshIds(seen, batch)
    ensures FreshIds(seen, batch[..|batch| - 1])
    ensures batch[|batch| - 1].item.id !in seen + IdsOf(batch[..|batch| - 1])
  {
    IdsOfMembers(batch[..|batch| - 1]);
  }

  /** Creations with fresh ids keep the ids unique. */
  lemma {:induction false} CreationsKeepUnique(executed: seq<Edit>, batch: seq<Edit>, typ: ObjectType)
    requires UniqueOf(executed, typ) && Only(batch, Create, typ) && FreshIds(PlaceholderIds(executed, typ), batch)
    ensures UniqueOf(executed + batch, typ)
    decreases |batch|
  {
    if batch == [] {
      assert executed + batch == executed;
    } else {
      var front := batch[..|batch| - 1];
      assert (executed + batch)[..|executed + batch| - 1] == executed + front;
      FreshFront(PlaceholderIds(executed, typ), batch);
      CreationsKeepUnique(executed, front, typ);
      PlaceholdersAfter(executed, front, Create, typ);
    }
  }

  /** Everything else does not touch them. */
  lemma {:induction false} OthersKeepUnique(executed: seq<Edit>, batch: seq<Edit>, typ: ObjectType)
    requires UniqueOf(executed, typ)
    requires forall e :: e in batch ==> !(e.item.op.Create? && e.item.typ == typ)
    ensures UniqueOf(executed + batch, typ)
    decreases |batch|
  {
    if batch == [] {
      assert executed + batch == executed;
    } else {
      var front := batch[..|batch| - 1];
      assert (executed + batch)[..|executed + batch| - 1] == executed + front;
      OthersKeepUnique(executed, front, typ);
    }
  }

  lemma {:induction false} BatchKeepsUnique(server: Server, executed: seq<Edit>, batch: seq<Edit>, typ: ObjectType)
    requires UniqueOf(executed, typ) && Homogeneous(batch) && BatchOutcome(server, executed, batch).Pass?
    ensures UniqueOf(executed + batch, typ)
  {
    if batch != [] && batch[0].item.op.Create? && batch[0].item.typ == typ {
      CreationsKeepUnique(executed, batch, typ);
    } else {
      OthersKeepUnique(executed, batch, typ);
    }
  }

  lemma {:induction false} ConcatStep(executed: seq<Edit>, batches: seq<seq<Edit>>)
    requires batches != []
    ensures executed + batches[0] + Concat(batches[1..]) == executed + Concat(batches)
  {
  }

  ghost predicate AllHomogeneous(batches: seq<seq<Edit>>) {
    forall i :: 0 <= i < |batches| ==> Homogeneous(batches[i])
  }

  lemma {:induction false} BatchesKeepUnique(server: Server, executed: seq<Edit>, batches: seq<seq<Edit>>,
                                             typ: ObjectType)
    requires UniqueOf(executed, typ) && BatchesOutcome(server, executed, batches).Pass? && AllHomogeneous(batches)
    ensures UniqueOf(executed + Concat(batches), typ)
    decreases |batches|
  {
    if batches == [] {
      assert executed + Concat(batches) == executed;
    } else {
      assert Homogeneous(batches[0]);
      assert AllHomogeneous(batches[1..]);
      BatchKeepsUnique(server, executed, batches[0], typ);
      BatchesKeepUnique(server, executed + batches[0], batches[1..], typ);
      ConcatStep(executed, batches);
    }
  }

  lemma {:induction false} RunHomogeneous(run: seq<Edit>, state: HandlerState)
    requires OfState(run, state) && !state.Initial?
    ensures AllHomogeneous(RunBatches(run))
  {
    if state.ModifyAny? {
      ModifyShape(run);
    } else {
      RunShape(run, state);
      assert run != [] ==> StateOf(run[0].item) == state;
    }
  }

  lemma {:induction false} DocumentHomogeneous(doc: seq<Edit>)
    requires forall i :: 0 <= i < |doc| ==> !doc[i].item.op.Undefined?
    ensures AllHomogeneous(Batches(doc))
    decreases |doc|
  {
    if doc != [] {
      LastRunMaximal(doc);
      RunHomogeneous(doc[LastRun(doc)..], StateOf(doc[|doc| - 1].item));
      DocumentHomogeneous(doc[..LastRun(doc)]);
    }
  }

  /** Uniqueness is a matter of the edits of the type and their order. */
  lemma {:induction false} UniqueByType(edits: seq<Edit>, typ: ObjectType)
    ensures UniqueOf(OfType(edits, typ), typ) <==> UniqueOf(edits, typ)
    ensures PlaceholderIds(OfType(edits, typ), typ) == PlaceholderIds(edits, typ)
    decreases |edits|
  {
    if edits != [] {
      var front, last := edits[..|edits| - 1], edits[|edits| - 1];
      UniqueByType(front, typ);
      if last.item.typ == typ {
        assert OfType(edits, typ)[..|OfType(edits, typ)| - 1] == OfType(front, typ);
      } else {
        assert OfType(edits, typ) == OfType(front, typ);
      }
    }
  }

  lemma {:induction false} PlaceholderMember(edits: seq<Edit>, i: nat)
    requires i < |edits| && edits[i].item.op.Create?
    ensures edits[i].item.id in PlaceholderIds(edits, edits[i].item.typ)
    decreases |edits|
  {
    if i < |edits| - 1 {
      PlaceholderMember(edits[..|edits| - 1], i);
    }
  }

  lemma {:induction false} UniqueDiffer(edits: seq<Edit>, i: nat, j: nat)
    requires i < j < |edits| && edits[i].item.op.Create? && edits[j].item.op.Create?
    requires edits[i].item.typ == edits[j].item.typ && UniqueOf(edits, edits[j].item.typ)
    ensures edits[i].item.id != edits[j].item.id
    decreases |edits|
  {
    if j < |edits| - 1 {
      UniqueDiffer(edits[..|edits| - 1], i, j);
    } else {
      PlaceholderMember(edits[..|edits| - 1], i);
    }
  }

  /**
   In an accepted document no two creations of one type have the same placeholder, however far apart they are and
   whatever is executed between them.
   */
  lemma {:induction false} PlaceholdersUnique(server: Server, changeset: int, changes: seq<Change>, i: nat, j: nat)
    requires DocumentOutcome(server, changeset, changes).Pass?
    requires i < j < |Edits(changes)|
    requires Edits(changes)[i].item.op.Create? && Edits(changes)[j].item.op.Create?
    requires Edits(changes)[i].item.typ == Edits(changes)[j].item.typ
    ensures Edits(changes)[i].item.id != Edits(changes)[j].item.id
  {
    var doc := Edits(changes);
    var typ := doc[j].item.typ;
    EditsDefined(changes);
    DocumentOutcomeExactly(server, changeset, changes);
    assert [] + doc == doc;
    DocumentHomogeneous(doc);
    BatchesKeepUnique(server, [], Batches(doc), typ);
    BatchesRegroup(doc);
    assert [] + Regroup(doc) == Regroup(doc);
    UniqueByType(Regroup(doc), typ);
    RegroupKeepsTypeOrder(doc, typ);
    UniqueByType(doc, typ);
    UniqueDiffer(doc, i, j);
  }

  // ---------- Acceptance without handler and batches of creations ----------

  lemma {:induction false} PlaceholderSource(edits: seq<Edit>, typ: ObjectType, id: int) returns (i: nat)
    requires id in PlaceholderIds(edits, typ)
    ensures i < |edits| && edits[i].item.op.Create? && edits[i].item.typ == typ && edits[i].item.id == id
    decreases |edits|
  {
    var last := edits[|edits| - 1];
    if last.item.op.Create? && last.item.typ == typ && last.item.id == id {
      i := |edits| - 1;
    } else {
      i := PlaceholderSource(edits[..|edits| - 1], typ, id);
    }
  }

  /** No two creations of one type have the same id. */
  ghost predicate PlaceholdersDiffer(edits: seq<Edit>) {
    forall i, j :: 0 <= i < j < |edits| && edits[i].item.op.Create? && edits[j].item.op.Create?
      && edits[i].item.typ == edits[j].item.typ
      ==> edits[i].item.id != edits[j].item.id
  }

  lemma {:induction false} DifferUnique(edits: seq<Edit>, typ: ObjectType)
    requires PlaceholdersDiffer(edits)
    ensures UniqueOf(edits, typ)
    decreases |edits|
  {
    if edits != [] {
      var front, last := edits[..|edits| - 1], edits[|edits| - 1];
      DifferUnique(front, typ);
      if last.item.op.Create? && last.item.typ == typ && last.item.id in PlaceholderIds(front, typ) {
        var i := PlaceholderSource(front, typ, last.item.id);
        assert false;
      }
    }
  }

  lemma {:induction false} UniquePrefix(a: seq<Edit>, b: seq<Edit>, typ: ObjectType)
    requires UniqueOf(a + b, typ)
    ensures UniqueOf(a, typ)
    decreases |b|
  {
    if b == [] {
      assert a + b == a;
    } else {
      assert (a + b)[..|a + b| - 1] == a + b[..|b| - 1];
      UniquePrefix(a, b[..|b| - 1], typ);
    }
  }

  /** Creations that keep the ids unique have fresh ids. */
  lemma {:induction false} UniqueFresh(executed: seq<Edit>, batch: seq<Edit>, typ: ObjectType)
    requires UniqueOf(executed + batch, typ) && Only(batch, Create, typ)
    ensures FreshIds(PlaceholderIds(executed, typ), batch)
    decreases |batch|
  {
    if batch != [] {
      var front, last := batch[..|batch| - 1], batch[|batch| - 1];
      assert (executed + batch)[..|executed + batch| - 1] == executed + front;
      UniqueFresh(executed, front, typ);
      PlaceholdersAfter(executed, front, Create, typ);
      IdsOfMembers(front);
      assert last.item.id !in PlaceholderIds(executed, typ) + IdsOf(front);
    }
  }

  lemma {:induction false} ConcatSplit(batches: seq<seq<Edit>>, i: nat)
    requires i < |batches|
    ensures Concat(batches) == Concat(batches[..i]) + batches[i] + Concat(batches[i + 1..])
  {
    assert batches == batches[..i] + batches[i..] && batches[i..][1..] == batches[i + 1..];
    ConcatAppend(batches[..i], batches[i..]);
    assert Concat(batches[i..]) == batches[i] + Concat(batches[i + 1..]);
  }

  /** The database takes each batch that is not empty, after those before it. */
  ghost predicate DatabaseTakes(server: Server, batches: seq<seq<Edit>>) {
    forall i :: 0 <= i < |batches| && batches[i] != [] ==> server.refuses(Concat(batches[..i]), batches[i]).None?
  }

  lemma {:induction false} UniqueBatchPasses(server: Server, batches: seq<seq<Edit>>, i: nat)
    requires i < |batches| && AllHomogeneous(batches)
    requires forall typ :: UniqueOf(Concat(batches), typ)
    ensures BatchOutcome(server, Concat(batches[..i]), batches[i]) ==
      DatabaseOutcome(server, Concat(batches[..i]), batches[i])
  {
    var before, batch := Concat(batches[..i]), batches[i];
    assert Homogeneous(batch);
    if batch != [] && batch[0].item.op.Create? {
      var typ := batch[0].item.typ;
      ConcatSplit(batches, i);
      UniquePrefix(before + batch, Concat(batches[i + 1..]), typ);
      UniqueFresh(before, batch, typ);
    }
  }

  lemma {:induction false} EachPassesExactly(server: Server, batches: seq<seq<Edit>>)
    requires AllHomogeneous(batches) && forall typ :: UniqueOf(Concat(batches), typ)
    ensures EachPasses(server, [], batches) <==> DatabaseTakes(server, batches)
  {
    forall i | 0 <= i < |batches|
      ensures BatchOutcome(server, [] + Concat(batches[..i]), batches[i]).Pass? <==>
        (batches[i] != [] ==> server.refuses(Concat(batches[..i]), batches[i]).None?)
    {
      assert [] + Concat(batches[..i]) == Concat(batches[..i]);
      UniqueBatchPasses(server, batches, i);
    }
  }

  lemma {:induction false} DocumentUnique(doc: seq<Edit>)
    requires PlaceholdersDiffer(doc)
    ensures forall typ :: UniqueOf(Concat(Batches(doc)), typ)
  {
    BatchesRegroup(doc);
    forall typ
      ensures UniqueOf(Concat(Batches(doc)), typ)
    {
      DifferUnique(doc, typ);
      UniqueByType(doc, typ);
      RegroupKeepsTypeOrder(doc, typ);
      UniqueByType(Regroup(doc), typ);
    }
  }

  lemma {:induction false} EditAt(changes: seq<Change>, i: nat)
    requires i < |changes|
    ensures |Edits(changes)| == |changes| && Edits(changes)[i] == EditOf(changes[i])
    decreases |changes|
  {
    EditsDefined(changes);
    if i > 0 {
      EditAt(changes[1..], i - 1);
    }
  }

  lemma {:induction false} ChangesDiffer(changes: seq<Change>)
    ensures PlaceholdersDiffer(Edits(changes)) <==>
      forall i, j :: 0 <= i < j < |changes| && changes[i].op.Create? && changes[j].op.Create?
        && changes[i].element.typ == changes[j].element.typ
        ==> changes[i].element.id.value != changes[j].element.id.value
  {
    EditsDefined(changes);
    forall i | 0 <= i < |changes|
      ensures Edits(changes)[i] == EditOf(changes[i])
    {
      EditAt(changes, i);
    }
    if PlaceholdersDiffer(Edits(changes)) {
      forall i, j | 0 <= i < j < |changes| && changes[i].op.Create? && changes[j].op.Create?
                    && changes[i].element.typ == changes[j].element.typ
        ensures changes[i].element.id.value != changes[j].element.id.value
      {
        assert Edits(changes)[i].item.id != Edits(changes)[j].item.id;
      }
    }
  }

  /**
   Acceptance on the changes alone: every one names the changeset, creations have negative ids that differ within their
   type, and the database takes each batch.
   */
  lemma {:induction false} AcceptedOnChanges(server: Server, changeset: int, changes: seq<Change>)
    ensures DocumentOutcome(server, changeset, changes).Pass? <==>
      && (forall i :: 0 <= i < |changes| ==> changes[i].element.changeset.value == changeset)
      && (forall i :: 0 <= i < |changes| && changes[i].op.Create? ==> changes[i].element.id.value < 0)
      && (forall i, j :: 0 <= i < j < |changes| && changes[i].op.Create? && changes[j].op.Create?
            && changes[i].element.typ == changes[j].element.typ
            ==> changes[i].element.id.value != changes[j].element.id.value)
      && DatabaseTakes(server, Batches(Edits(changes)))
  {
    var doc := Edits(changes);
    AcceptedExactly(server, changeset, changes);
    ChangesDiffer(changes);
    EditsDefined(changes);
    DocumentHomogeneous(doc);
    if DocumentOutcome(server, changeset, changes).Pass? {
      forall i, j | 0 <= i < j < |doc| && doc[i].item.op.Create? && doc[j].item.op.Create?
                    && doc[i].item.typ == doc[j].item.typ
        ensures doc[i].item.id != doc[j].item.id
      {
        PlaceholdersUnique(server, changeset, changes, i, j);
      }
    }
    if PlaceholdersDiffer(doc) {
      DocumentUnique(doc);
      EachPassesExactly(server, Batches(doc));
    }
  }

  /**
   Which error a document ends with, when every batch that was drained until then has passed: that of its first refused
   operation, a conflict when it names another changeset, and a bad request when it creates an object with an id that is
   no placeholder.
   */
  lemma {:induction false} FirstRefusalDecides(server: Server, changeset: int, changes: seq<Change>, k: nat)
    requires k < |changes| && (forall i :: 0 <= i < k ==> !Refused(changeset, changes[i]))
    requires BatchesOutcome(server, [], DueFrom([], changeset, changes)).Pass?
    ensures changes[k].element.changeset.value != changeset ==>
      DocumentOutcome(server, changeset, changes) == Fail(Conflict)
    ensures && changes[k].element.changeset.value == changeset && changes[k].op.Create?
            && changes[k].element.id.value >= 0 ==>
      DocumentOutcome(server, changeset, changes) == Fail(BadRequest)
  {
    DocumentOutcomeExactly(server, changeset, changes);
    assert Refused(changeset, changes[k]) ==> FirstRefused(changeset, changes) == k;
  }

  /** So every creation of an accepted document receives its own row: its own new id, with version 1. */
  lemma {:induction false} CreatedRowIsOwn(server: Server, changeset: int, changes: seq<Change>, rows: seq<DiffRow>,
                                           i: nat)
    requires DocumentOutcome(server, changeset, changes).Pass?
    requires RowsFrom(rows, server, Regroup(Edits(changes)), Edits(changes))
    requires i < |Edits(changes)| && Edits(changes)[i].item.op.Create?
    ensures var e := Edits(changes)[i];
      rows[i] == DiffRow(Create, e.item.typ, e.item.id, server.newId(e.element), 1, false)
  {
    var doc := Edits(changes);
    forall k | 0 <= k < |doc| && SameKey(doc[k].item, doc[i].item)
      ensures doc[k] == doc[i]
    {
      if k < i {
        PlaceholdersUnique(server, changeset, changes, k, i);
      } else if i < k {
        PlaceholdersUnique(server, changeset, changes, i, k);
      }
    }
    RowIsOwn(server, doc, rows, i);
  }
}
