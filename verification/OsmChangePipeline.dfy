/**
 From the text of an upload to its execution: what the parser accepts, only a batch or a foreign changeset can refuse.
 */
module OsmChangePipeline {
  import opened Bbox
  import opened ChangesetHistory
  import opened ChangesetRules
  import opened Common
  import opened Decimal
  import opened OsmChangeHandler
  import opened OsmChangeOutcome
  import opened OsmChangeRegroup
  import opened OsmChangeXml
  import opened OsmChangeXmlMeaning
  import opened OsmElements
  import opened OsmObjects

  /** The objects among the callbacks. */
  function Objects(cfg: Config, callbacks: seq<Callback>): seq<Change>
    requires AllValid(cfg, callbacks)
  {
    if callbacks == [] then []
    else
      assert CallbackValid(cfg, callbacks[0]);
      Tail(cfg, callbacks);
      (if callbacks[0].Object? then [callbacks[0].change] else []) + Objects(cfg, callbacks[1..])
  }

  lemma {:induction false} Tail(cfg: Config, callbacks: seq<Callback>)
    requires AllValid(cfg, callbacks) && callbacks != []
    ensures AllValid(cfg, callbacks[1..])
  {
    forall i | 0 <= i < |callbacks[1..]|
      ensures CallbackValid(cfg, callbacks[1..][i])
    {
      assert callbacks[1..][i] == callbacks[i + 1];
    }
  }

  predicate AllOf(changeset: int, changes: seq<Change>) {
    forall i :: 0 <= i < |changes| ==> changes[i].element.changeset.value == changeset
  }

  lemma {:induction false} ValidObjectsPlaceholders(cfg: Config, callbacks: seq<Callback>)
    requires AllValid(cfg, callbacks)
    ensures forall c :: c in Objects(cfg, callbacks) ==> !BadPlaceholder(c)
    decreases |callbacks|
  {
    if callbacks != [] {
      Tail(cfg, callbacks);
      ValidObjectsPlaceholders(cfg, callbacks[1..]);
      assert CallbackValid(cfg, callbacks[0]);
    }
  }

  /** The batches that are drained before the first object of another changeset is refused, or all. */
  function DueBatches(changeset: int, changes: seq<Change>): seq<seq<Edit>> {
    if AllOf(changeset, changes) then Batches(Edits(changes))
    else Drained(Edits(changes[..FirstRefused(changeset, changes)]))
  }

  /**
   For every document that the parser accepts, the handler's own check of placeholder ids can no longer fail: handling
   it ends with the first failing batch among those that are due, else with a conflict exactly when some object does
   not name the changeset of the upload.
   */
  lemma {:induction false} AcceptedDocumentOutcome(cfg: Config, root: Xml, server: Server, changeset: int)
    requires DocumentMeaning(cfg, root).Ok?
    ensures AllValid(cfg, DocumentMeaning(cfg, root).value)
    ensures var changes := Objects(cfg, DocumentMeaning(cfg, root).value);
      var batches := BatchesOutcome(server, [], DueBatches(changeset, changes));
      DocumentOutcome(server, changeset, changes) ==
        if batches.Fail? then batches else if AllOf(changeset, changes) then Pass else Fail(Conflict)
  {
    AcceptedDocumentIsValid(cfg, root);
    var changes := Objects(cfg, DocumentMeaning(cfg, root).value);
    ValidObjectsPlaceholders(cfg, DocumentMeaning(cfg, root).value);
    DocumentOutcomeExactly(server, changeset, changes);
    var k := FirstRefused(changeset, changes);
    assert [] + Edits(changes) == Edits(changes) && [] + Edits(changes[..k]) == Edits(changes[..k]);
    if k < |changes| {
      assert changes[k] in changes;
    } else {
      assert AllOf(changeset, changes);
    }
  }

  // ---------- The size of a payload bounds the upload ----------

  /** Characters that any text of the element takes at least: its name in an empty-element tag, and its children. */
  function MinText(x: Xml): nat { |x.tag.name| + 3 + MinTextAll(x.children) }

  function MinTextAll(xs: seq<Xml>): nat { if xs == [] then 0 else MinText(xs[0]) + MinTextAll(xs[1..]) }

  function ObjectCount(callbacks: seq<Callback>): nat {
    if callbacks == [] then 0 else (if callbacks[0].Object? then 1 else 0) + ObjectCount(callbacks[1..])
  }

  lemma {:induction false} ObjectCountConcat(a: seq<Callback>, b: seq<Callback>)
    ensures ObjectCount(a + b) == ObjectCount(a) + ObjectCount(b)
    decreases |a|
  {
    if a == [] {
      assert a + b == b;
    } else {
      assert (a + b)[1..] == a[1..] + b;
      ObjectCountConcat(a[1..], b);
    }
  }

  lemma {:induction false} ObjectsTakeText(cfg: Config, op: Operation, ifUnused: bool, objects: seq<Xml>)
    requires ObjectsMeaning(cfg, op, ifUnused, objects).Ok?
    ensures 6 * ObjectCount(ObjectsMeaning(cfg, op, ifUnused, objects).value) <= MinTextAll(objects)
    decreases |objects|
  {
    if objects != [] {
      ObjectsTakeText(cfg, op, ifUnused, objects[1..]);
      var first := ObjectMeaning(cfg, op, ifUnused, objects[0]).value;
      var rest := ObjectsMeaning(cfg, op, ifUnused, objects[1..]).value;
      assert ([first] + rest)[1..] == rest;
      assert |objects[0].tag.name| >= 3;
    }
  }

  lemma {:induction false} BlocksTakeText(cfg: Config, blocks: seq<Xml>)
    requires BlocksMeaning(cfg, blocks).Ok?
    ensures 6 * ObjectCount(BlocksMeaning(cfg, blocks).value) <= MinTextAll(blocks)
    decreases |blocks|
  {
    if blocks != [] {
      var block := blocks[0];
      var op := OperationNamed(block.tag.name).value;
      ObjectsTakeText(cfg, op, op.Delete? && HasIfUnused(block.tag.attrs), block.children);
      BlocksTakeText(cfg, blocks[1..]);
      ObjectCountConcat(BlockMeaning(cfg, block).value, BlocksMeaning(cfg, blocks[1..]).value);
    }
  }

  lemma {:induction false} CountOfObjects(cfg: Config, callbacks: seq<Callback>)
    requires AllValid(cfg, callbacks)
    ensures |Objects(cfg, callbacks)| == ObjectCount(callbacks)
    decreases |callbacks|
  {
    if callbacks != [] {
      Tail(cfg, callbacks);
      CountOfObjects(cfg, callbacks[1..]);
    }
  }

  /**
   The upload of a document whose text is below 2^32 bytes, as every payload is, counts at most `MAX_UPLOAD_CHANGES`
   changes; `ChangesetProtocol.Conservation` is exact for such uploads.
   */
  lemma {:induction false} PayloadBoundsUpload(cfg: Config, root: Xml, server: Server, box: Box)
    requires DocumentMeaning(cfg, root).Ok? && MinText(root) < 0x1_0000_0000
    ensures AllValid(cfg, DocumentMeaning(cfg, root).value)
    ensures var doc := Edits(Objects(cfg, DocumentMeaning(cfg, root).value));
      var stats := StatsFor(server, Regroup(doc));
      stats.Total() == |doc| - SkippedCount(server, doc) && PayloadSized(Upload(stats, box))
  {
    AcceptedDocumentIsValid(cfg, root);
    var callbacks := DocumentMeaning(cfg, root).value;
    var inner := BlocksMeaning(cfg, root.children).value;
    BlocksTakeText(cfg, root.children);
    ObjectCountConcat([StartDocument] + inner, [EndDocument]);
    ObjectCountConcat([StartDocument], inner);
    assert ObjectCount([StartDocument]) == 0 && ObjectCount([EndDocument]) == 0 by {
      assert [StartDocument][1..] == [] && [EndDocument][1..] == [];
    }
    CountOfObjects(cfg, callbacks);
    var changes := Objects(cfg, callbacks);
    EditsDefined(changes);
    StatsCountDocument(server, Edits(changes));
  }

  // ---------- A version that is stored truncated ----------

  /** A document that modifies one node, giving its version as the decimal text of `n`. */
  function ModifyNode(n: nat): Xml {
    Xml(Tag("osmChange", []), [Xml(Tag("modify", []), [NodeElement(n)])])
  }

  function NodeElement(n: nat): Xml {
    Xml(Tag("node", [Attr("id", Print(1)), Attr("changeset", Print(1)), Attr("version", Print(n)),
                     Attr("lat", "0"), Attr("lon", "0")]), [])
  }

  /** What that node is parsed to. */
  function ReadNode(n: nat): Element {
    NewElement(Node).(id := Some(1), changeset := Some(1), version := Some(ToUint32(n)),
                      lat := Some(0.0), lon := Some(0.0))
  }

  lemma {:induction false} FoldCons<S>(cfg: Config, set0: (Config, S, Attr) -> Result<S>, s: S, a: Attr,
                                       rest: seq<Attr>)
    ensures FoldAttrs(cfg, set0, s, [a] + rest) ==
      if set0(cfg, s, a).Err? then Err(set0(cfg, s, a).error) else FoldAttrs(cfg, set0, set0(cfg, s, a).value, rest)
  {
    assert ([a] + rest)[1..] == rest;
  }

  lemma {:induction false} NumberIsRead(n: nat)
    requires n <= MAX_INT64
    ensures FromChars(Print(n), -MAX_INT64 - 1, MAX_INT64) == Number(n)
  {
    PrintedIsRead(n, "", -MAX_INT64 - 1, MAX_INT64);
    assert Print(n) + "" == Print(n);
  }

  lemma {:induction false} ObjectAttrsRead(cfg: Config, n: nat)
    requires n <= MAX_INT64
    ensures FoldAttrs(cfg, ObjectAttr, NewElement(Node), NodeElement(n).tag.attrs)
      == Ok(ReadNode(n).(lat := None, lon := None))
  {
    NumberIsRead(1);
    NumberIsRead(n);
    var lat, lon := Attr("lat", "0"), Attr("lon", "0");
    var e1 := NewElement(Node).(id := Some(1));
    var e2 := e1.(changeset := Some(1));
    var e3 := e2.(version := Some(ToUint32(n)));
    FoldCons(cfg, ObjectAttr, e3, lon, []);
    FoldCons(cfg, ObjectAttr, e3, lat, [lon]);
    FoldCons(cfg, ObjectAttr, e2, Attr("version", Print(n)), [lat, lon]);
    FoldCons(cfg, ObjectAttr, e1, Attr("changeset", Print(1)), [Attr("version", Print(n)), lat, lon]);
    FoldCons(cfg, ObjectAttr, NewElement(Node), Attr("id", Print(1)),
      [Attr("changeset", Print(1)), Attr("version", Print(n)), lat, lon]);
  }

  lemma {:induction false} NodeAttrsRead(cfg: Config, n: nat)
    requires cfg.parseReal("0") == Finite(0.0)
    ensures FoldAttrs(cfg, NodeAttr, ReadNode(n).(lat := None, lon := None), NodeElement(n).tag.attrs)
      == Ok(ReadNode(n))
  {
    var lat, lon := Attr("lat", "0"), Attr("lon", "0");
    var e := ReadNode(n).(lat := None, lon := None);
    FoldCons(cfg, NodeAttr, e.(lat := Some(0.0)), lon, []);
    FoldCons(cfg, NodeAttr, e, lat, [lon]);
    FoldCons(cfg, NodeAttr, e, Attr("version", Print(n)), [lat, lon]);
    FoldCons(cfg, NodeAttr, e, Attr("changeset", Print(1)), [Attr("version", Print(n)), lat, lon]);
    FoldCons(cfg, NodeAttr, e, Attr("id", Print(1)),
      [Attr("changeset", Print(1)), Attr("version", Print(n)), lat, lon]);
  }

  /**
   The document is accepted exactly when the truncated version is at least 1, and is then handed over with it, whatever
   the number in the text.
   */
  lemma {:induction false} VersionReadExactly(cfg: Config, n: nat)
    requires n <= MAX_INT64 && cfg.parseReal("0") == Finite(0.0)
    ensures DocumentMeaning(cfg, ModifyNode(n)) ==
      if ToUint32(n) >= 1 then Ok([StartDocument, Object(ParsedChange(Modify, ReadNode(n), false)), EndDocument])
      else Err(BadRequest)
  {
    ObjectAttrsRead(cfg, n);
    NodeAttrsRead(cfg, n);
    var node := NodeElement(n);
    var block := Xml(Tag("modify", []), [node]);
    assert ObjectMeaning(cfg, Modify, false, node) ==
      if ToUint32(n) >= 1 then Ok(Object(ParsedChange(Modify, ReadNode(n), false))) else Err(BadRequest);
    OneObject(cfg, Modify, false, node);
    OneBlock(cfg, block);
    assert [StartDocument] + [Object(ParsedChange(Modify, ReadNode(n), false))] + [EndDocument]
        == [StartDocument, Object(ParsedChange(Modify, ReadNode(n), false)), EndDocument];
  }

  lemma {:induction false} OneObject(cfg: Config, op: Operation, ifUnused: bool, o: Xml)
    ensures ObjectsMeaning(cfg, op, ifUnused, [o]) ==
      var m := ObjectMeaning(cfg, op, ifUnused, o); if m.Err? then Err(m.error) else Ok([m.value])
  {
    assert [o][1..] == [];
    assert ObjectsMeaning(cfg, op, ifUnused, []) == Ok([]);
    var m := ObjectMeaning(cfg, op, ifUnused, o);
    assert m.Ok? ==> [m.value] + [] == [m.value];
  }

  lemma {:induction false} OneBlock(cfg: Config, block: Xml)
    ensures BlocksMeaning(cfg, [block]) == BlockMeaning(cfg, block)
  {
    assert [block][1..] == [];
    assert BlocksMeaning(cfg, []) == Ok([]);
    var m := BlockMeaning(cfg, block);
    assert m.Ok? ==> m.value + [] == m.value;
  }

  /** A modification that claims version 4294967297 is handed over as one of version 1. */
  lemma {:induction false} LargeVersionReadAsOne(cfg: Config, n: nat)
    requires n == 4294967297 && cfg.parseReal("0") == Finite(0.0)
    ensures DocumentMeaning(cfg, ModifyNode(n))
      == Ok([StartDocument, Object(ParsedChange(Modify, ReadNode(n), false)), EndDocument])
    ensures ReadNode(n).version == Some(1)
  {
    assert ToUint32(n) == 1;
    VersionReadExactly(cfg, n);
  }
}
