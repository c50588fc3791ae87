/**
 The execution order of an osmChange document. `Regroup` says, independently of buffers and states, in which order the
 operations of a whole document are executed; `Machine` is the handler reduced to its state, its current run and
 what it has executed.
 */
module OsmChangeRegroup {
  import opened Common
  import opened OsmObjects

  datatype HandlerState =
    | Initial
    | CreateNode | CreateWay | CreateRelation
    | ModifyAny
    | DeleteRelation | DeleteWay | DeleteNode
    | Finished

  function CreateState(typ: ObjectType): HandlerState {
    match typ case Node => CreateNode case Way => CreateWay case Relation => CreateRelation
  }

  function DeleteState(typ: ObjectType): HandlerState {
    match typ case Node => DeleteNode case Way => DeleteWay case Relation => DeleteRelation
  }

  /** The handler state in which an operation is buffered. */
  function StateOf(item: Item): (state: HandlerState)
    ensures !state.Finished? && (state.Initial? <==> item.op.Undefined?)
  {
    match item.op
    case Create => CreateState(item.typ)
    case Modify => ModifyAny
    case Delete => DeleteState(item.typ)
    case Undefined => Initial
  }

  /** The edits of one object type, in order. */
  function OfType(edits: seq<Edit>, typ: ObjectType): seq<Edit> {
    if edits == [] then []
    else
      var last := edits[|edits| - 1];
      OfType(edits[..|edits| - 1], typ) + if last.item.typ == typ then [last] else []
  }

  /** How one maximal run of a state is executed: a modify run is split stably by object type. */
  function GroupRun(run: seq<Edit>): seq<Edit> {
    if run != [] && run[0].item.op.Modify? then OfType(run, Node) + OfType(run, Way) + OfType(run, Relation) else run
  }

  /** The buffers in which a run is executed, in the order in which they are drained. */
  function RunBatches(run: seq<Edit>): seq<seq<Edit>> {
    if run != [] && run[0].item.op.Modify? then [OfType(run, Node), OfType(run, Way), OfType(run, Relation)] else [run]
  }

  /** Start of the last maximal run of one handler state. */
  function LastRun(doc: seq<Edit>): (k: nat)
    requires doc != []
    ensures k < |doc|
  {
    if |doc| == 1 || StateOf(doc[|doc| - 2].item) != StateOf(doc[|doc| - 1].item) then |doc| - 1
    else LastRun(doc[..|doc| - 1])
  }

  /** All edits are buffered in the given state. */
  ghost predicate OfState(run: seq<Edit>, state: HandlerState) {
    forall i :: 0 <= i < |run| ==> StateOf(run[i].item) == state
  }

  /** The last run is maximal: one state throughout, and another state just before it. */
  lemma {:induction false} LastRunMaximal(doc: seq<Edit>)
    requires doc != []
    ensures OfState(doc[LastRun(doc)..], StateOf(doc[|doc| - 1].item))
    ensures LastRun(doc) > 0 ==> StateOf(doc[LastRun(doc) - 1].item) != StateOf(doc[|doc| - 1].item)
  {
    var front, last := doc[..|doc| - 1], doc[|doc| - 1];
    if front != [] && StateOf(front[|front| - 1].item) == StateOf(last.item) {
      LastRunMaximal(front);
      assert doc == front + [last] && LastRun(doc) == LastRun(front);
      SplitAppended(front, last, LastRun(front));
      assert doc[LastRun(doc)..] == front[LastRun(doc)..] + [last];
    } else {
      assert doc[LastRun(doc)..] == [last];
    }
  }

  /** The execution order of a whole document. */
  function Regroup(doc: seq<Edit>): seq<Edit> {
    if doc == [] then [] else Regroup(doc[..LastRun(doc)]) + GroupRun(doc[LastRun(doc)..])
  }

  lemma {:induction false} GroupShape(run: seq<Edit>, state: HandlerState)
    requires OfState(run, state)
    ensures state.Finished? ==> run == []
    ensures GroupRun(run) ==
      if state.ModifyAny? then OfType(run, Node) + OfType(run, Way) + OfType(run, Relation) else run
  {
    if run != [] {
      assert StateOf(run[0].item) == state;
    } else {
      assert GroupRun(run) == [];
    }
  }

  // ---------- What the regrouping keeps ----------

  lemma {:induction false} OfTypeConcat(a: seq<Edit>, b: seq<Edit>, typ: ObjectType)
    ensures OfType(a + b, typ) == OfType(a, typ) + OfType(b, typ)
  {
    if b == [] {
      assert a + b == a;
    } else {
      OfTypeConcat(a, b[..|b| - 1], typ);
      assert (a + b)[..|a + b| - 1] == a + b[..|b| - 1];
    }
  }

  lemma {:induction false} OfTypeMembers(edits: seq<Edit>, typ: ObjectType)
    ensures forall e :: e in OfType(edits, typ) <==> e in edits && e.item.typ == typ
    ensures forall i :: 0 <= i < |OfType(edits, typ)| ==> OfType(edits, typ)[i].item.typ == typ
  {
    if edits != [] {
      OfTypeMembers(edits[..|edits| - 1], typ);
      assert edits == edits[..|edits| - 1] + [edits[|edits| - 1]];
    }
  }

  lemma {:induction false} OfTypeOfType(edits: seq<Edit>, typ: ObjectType, other: ObjectType)
    ensures OfType(OfType(edits, typ), other) == if typ == other then OfType(edits, typ) else []
  {
    if edits != [] {
      var last := edits[|edits| - 1];
      OfTypeOfType(edits[..|edits| - 1], typ, other);
      OfTypeConcat(OfType(edits[..|edits| - 1], typ), if last.item.typ == typ then [last] else [], other);
      assert OfType([last], other) == if last.item.typ == other then [last] else [];
    }
  }

  lemma {:induction false} OfTypeCount(edits: seq<Edit>, typ: ObjectType, e: Edit)
    ensures multiset(OfType(edits, typ))[e] == if e.item.typ == typ then multiset(edits)[e] else 0
  {
    if edits != [] {
      var front, last := edits[..|edits| - 1], edits[|edits| - 1];
      OfTypeCount(front, typ, e);
      assert edits == front + [last];
    }
  }

  lemma {:induction false} OfTypePartition(edits: seq<Edit>)
    ensures multiset(OfType(edits, Node) + OfType(edits, Way) + OfType(edits, Relation)) == multiset(edits)
  {
    forall e: Edit
      ensures multiset(OfType(edits, Node) + OfType(edits, Way) + OfType(edits, Relation))[e] == multiset(edits)[e]
    {
      OfTypeCount(edits, Node, e);
      OfTypeCount(edits, Way, e);
      OfTypeCount(edits, Relation, e);
    }
  }

  lemma {:induction false} SplitKeepsType(run: seq<Edit>, typ: ObjectType)
    ensures OfType(OfType(run, Node) + OfType(run, Way) + OfType(run, Relation), typ) == OfType(run, typ)
  {
    var n, w, r := OfType(run, Node), OfType(run, Way), OfType(run, Relation);
    calc {
      OfType(n + w + r, typ);
      { OfTypeConcat(n + w, r, typ); }
      OfType(n + w, typ) + OfType(r, typ);
      { OfTypeConcat(n, w, typ); }
      OfType(n, typ) + OfType(w, typ) + OfType(r, typ);
      { OfTypeOfType(run, Node, typ); OfTypeOfType(run, Way, typ); OfTypeOfType(run, Relation, typ); }
      OfType(run, typ);
    }
  }

  lemma {:induction false} GroupRunKeeps(run: seq<Edit>, typ: ObjectType)
    ensures multiset(GroupRun(run)) == multiset(run)
    ensures OfType(GroupRun(run), typ) == OfType(run, typ)
  {
    OfTypePartition(run);
    SplitKeepsType(run, typ);
  }

  /** No operation is lost or duplicated. */
  lemma {:induction false} RegroupPermutes(doc: seq<Edit>)
    ensures multiset(Regroup(doc)) == multiset(doc)
  {
    if doc != [] {
      var front, run := doc[..LastRun(doc)], doc[LastRun(doc)..];
      calc {
        multiset(Regroup(doc));
        multiset(Regroup(front)) + multiset(GroupRun(run));
        { RegroupPermutes(front); GroupRunKeeps(run, Node); }
        multiset(front) + multiset(run);
        multiset(front + run);
        { assert doc == front + run; }
        multiset(doc);
      }
    }
  }

  /** The operations on each object type are executed in the document's order. */
  lemma {:induction false} RegroupKeepsTypeOrder(doc: seq<Edit>, typ: ObjectType)
    ensures OfType(Regroup(doc), typ) == OfType(doc, typ)
  {
    if doc != [] {
      var front, run := doc[..LastRun(doc)], doc[LastRun(doc)..];
      calc {
        OfType(Regroup(doc), typ);
        { OfTypeConcat(Regroup(front), GroupRun(run), typ); }
        OfType(Regroup(front), typ) + OfType(GroupRun(run), typ);
        { RegroupKeepsTypeOrder(front, typ); GroupRunKeeps(run, typ); }
        OfType(front, typ) + OfType(run, typ);
        { OfTypeConcat(front, run, typ); }
        OfType(front + run, typ);
        { assert doc == front + run; }
        OfType(doc, typ);
      }
    }
  }

  function Rank(typ: ObjectType): nat { match typ case Node => 0 case Way => 1 case Relation => 2 }

  /** Neighbouring modifications never go back in the order nodes, ways, relations. */
  ghost predicate ModifiesSorted(doc: seq<Edit>) {
    forall i, j :: (0 <= i < j < |doc| && j == i + 1 && doc[i].item.op.Modify? && doc[j].item.op.Modify?) ==>
      && (doc[i].item.typ.Way? ==> !doc[j].item.typ.Node?)
      && (doc[i].item.typ.Relation? ==> doc[j].item.typ.Relation?)
  }

  /** In a sorted run of modifies, nothing ranks above the last operation. */
  lemma {:induction false} LastRanksHighest(run: seq<Edit>)
    requires run != [] && OfState(run, ModifyAny) && ModifiesSorted(run)
    ensures forall i :: 0 <= i < |run| ==> Rank(run[i].item.typ) <= Rank(run[|run| - 1].item.typ)
  {
    if |run| > 1 {
      LastRanksHighest(run[..|run| - 1]);
    }
  }

  lemma {:induction false} NoneOfType(run: seq<Edit>, typ: ObjectType)
    requires forall i :: 0 <= i < |run| ==> run[i].item.typ != typ
    ensures OfType(run, typ) == []
  {
    if run != [] {
      NoneOfType(run[..|run| - 1], typ);
    }
  }

  /** Splitting a sorted run of modifies by type changes nothing. */
  lemma {:induction false} SortedRunUnchanged(run: seq<Edit>)
    requires OfState(run, ModifyAny) && ModifiesSorted(run)
    ensures OfType(run, Node) + OfType(run, Way) + OfType(run, Relation) == run
  {
    if run != [] {
      var front, last := run[..|run| - 1], run[|run| - 1];
      assert run == front + [last];
      assert OfState(front, ModifyAny);
      SortedRunUnchanged(front);
      LastRanksHighest(run);
      assert forall i :: 0 <= i < |front| ==> front[i] == run[i];
      var n, w, r := OfType(front, Node), OfType(front, Way), OfType(front, Relation);
      OfTypeAppended(front, last, Node);
      OfTypeAppended(front, last, Way);
      OfTypeAppended(front, last, Relation);
      if !last.item.typ.Relation? {
        NoneOfType(front, Relation);
      }
      if last.item.typ.Node? {
        NoneOfType(front, Way);
      }
      AppendToPart(n, w, r, last, last.item.typ);
    }
  }

  lemma {:induction false} OfTypeAppended(front: seq<Edit>, last: Edit, typ: ObjectType)
    ensures OfType(front + [last], typ) ==
      if last.item.typ == typ then OfType(front, typ) + [last] else OfType(front, typ)
  {
    assert (front + [last])[..|front|] == front;
  }

  lemma {:induction false} AppendToPart(n: seq<Edit>, w: seq<Edit>, r: seq<Edit>, e: Edit, typ: ObjectType)
    requires (!typ.Relation? ==> r == []) && (typ.Node? ==> w == [])
    ensures (if typ.Node? then n + [e] else n) + (if typ.Way? then w + [e] else w)
      + (if typ.Relation? then r + [e] else r)
         == n + w + r + [e]
  {
  }

  /** A run that splitting leaves unchanged was sorted. */
  lemma {:induction false} SplitRunSorted(run: seq<Edit>)
    ensures var split := OfType(run, Node) + OfType(run, Way) + OfType(run, Relation);
            forall i, j :: 0 <= i < j < |split| ==> Rank(split[i].item.typ) <= Rank(split[j].item.typ)
  {
    OfTypeMembers(run, Node);
    OfTypeMembers(run, Way);
    OfTypeMembers(run, Relation);
  }

  lemma {:induction false} RunUnchangedExactly(run: seq<Edit>, state: HandlerState)
    requires OfState(run, state)
    ensures GroupRun(run) == run <==> ModifiesSorted(run)
  {
    GroupShape(run, state);
    if state.ModifyAny? {
      SplitRunSorted(run);
      if ModifiesSorted(run) {
        SortedRunUnchanged(run);
      }
    }
  }

  lemma {:induction false} RegroupLength(doc: seq<Edit>)
    ensures |Regroup(doc)| == |doc|
  {
    RegroupPermutes(doc);
    assert |multiset(Regroup(doc))| == |multiset(doc)|;
  }

  /** A document is executed in its own order exactly when its modifications are sorted by type within every run. */
  lemma {:induction false} RegroupUnchangedExactly(doc: seq<Edit>)
    ensures Regroup(doc) == doc <==> ModifiesSorted(doc)
  {
    if doc != [] {
      var k := LastRun(doc);
      var front, run := doc[..k], doc[k..];
      assert doc == front + run;
      assert Regroup(front) == front <==> ModifiesSorted(front) by { RegroupUnchangedExactly(front); }
      assert GroupRun(run) == run <==> ModifiesSorted(run) by {
        LastRunMaximal(doc);
        RunUnchangedExactly(run, StateOf(doc[|doc| - 1].item));
      }
      assert ModifiesSorted(doc) <==> ModifiesSorted(front) && ModifiesSorted(run) by { SortedSplits(doc, k); }
      assert Regroup(front) + GroupRun(run) == front + run <==> Regroup(front) == front && GroupRun(run) == run by {
        RegroupLength(front);
        ConcatEqual(Regroup(front), GroupRun(run), front, run);
      }
    }
  }

  lemma {:induction false} ConcatEqual<T>(a: seq<T>, b: seq<T>, c: seq<T>, d: seq<T>)
    requires |a| == |c|
    ensures a + b == c + d <==> a == c && b == d
  {
    assert (a + b)[..|a|] == a && (a + b)[|a|..] == b;
    assert (c + d)[..|a|] == c && (c + d)[|a|..] == d;
  }

  /** Sortedness of a document is sortedness before and within its last run. */
  lemma {:induction false} SortedSplits(doc: seq<Edit>, k: nat)
    requires doc != [] && k == LastRun(doc)
    ensures ModifiesSorted(doc) <==> ModifiesSorted(doc[..k]) && ModifiesSorted(doc[k..])
  {
    LastRunMaximal(doc);
    assert doc[k] == doc[k..][0];
    if ModifiesSorted(doc[..k]) && ModifiesSorted(doc[k..]) {
      forall i, j | 0 <= i < j < |doc| && j == i + 1 && doc[i].item.op.Modify? && doc[j].item.op.Modify?
        ensures doc[i].item.typ.Way? ==> !doc[j].item.typ.Node?
        ensures doc[i].item.typ.Relation? ==> doc[j].item.typ.Relation?
      {
        if i >= k {
          assert doc[i] == doc[k..][i - k] && doc[j] == doc[k..][j - k];
        } else if j < k {
          assert doc[i] == doc[..k][i] && doc[j] == doc[..k][j];
        }
      }
    }
  }

  // ---------- The handler as a machine ----------

  /** What the handler remembers: its state, the run it is collecting, and what has been executed. */
  datatype Machine = Machine(state: HandlerState, run: seq<Edit>, executed: seq<Edit>)

  /** Entering a state: a change of state executes the run. */
  function Enter(m: Machine, state: HandlerState): Machine {
    if m.state == state then m else Machine(state, [], m.executed + GroupRun(m.run))
  }

  /** Accepting one more operation: either the run grows, or the run is executed and a new one starts. */
  function Advance(m: Machine, e: Edit): Machine {
    var entered := Enter(m, StateOf(e.item));
    entered.(run := entered.run + [e])
  }

  function AdvanceAll(doc: seq<Edit>): Machine {
    if doc == [] then Machine(Initial, [], []) else Advance(AdvanceAll(doc[..|doc| - 1]), doc[|doc| - 1])
  }

  /** How the last run changes when an operation is appended to a document. */
  lemma {:induction false} LastRunStep(front: seq<Edit>, last: Edit)
    ensures LastRun(front + [last])
         == if front != [] && StateOf(front[|front| - 1].item) == StateOf(last.item) then LastRun(front) else |front|
  {
    var doc := front + [last];
    assert doc[..|doc| - 1] == front;
    assert front != [] ==> doc[|doc| - 2] == front[|front| - 1];
  }

  lemma {:induction false} SplitAppended(front: seq<Edit>, last: Edit, k: nat)
    requires k <= |front|
    ensures (front + [last])[k..] == front[k..] + [last] && (front + [last])[..k] == front[..k]
  {
  }

  /** After any document, the machine has executed everything before the last run and holds exactly the last run. */
  lemma {:induction false} MachineSplitsDocument(doc: seq<Edit>)
    requires doc != []
    ensures var m := AdvanceAll(doc);
            && m.state == StateOf(doc[|doc| - 1].item)
            && m.run == doc[LastRun(doc)..]
            && m.executed == Regroup(doc[..LastRun(doc)])
  {
    var front, last := doc[..|doc| - 1], doc[|doc| - 1];
    assert doc == front + [last];
    LastRunStep(front, last);
    SplitAppended(front, last, LastRun(doc));
    if front != [] {
      MachineSplitsDocument(front);
      assert Regroup(front) == Regroup(front[..LastRun(front)]) + GroupRun(front[LastRun(front)..]);
    }
  }

  /** Executing the last run at the end of the document completes exactly the regrouped document. */
  lemma {:induction false} EndExecutesRegrouped(doc: seq<Edit>)
    ensures Enter(AdvanceAll(doc), Finished).executed == Regroup(doc)
  {
    if doc != [] {
      MachineSplitsDocument(doc);
    }
  }
}
