/** What an osmChange document tree denotes, and the proof that the event-driven parser computes exactly that. */
module OsmChangeXmlMeaning {
  import opened Common
  import opened OsmChangeXml
  import opened OsmElements
  import opened OsmObjects

  datatype Xml = Xml(tag: Tag, children: seq<Xml>)

  /** The events that reading the tree produces. */
  function Events(x: Xml): seq<SaxEvent> { [Start(x.tag)] + AllEvents(x.children) + [End(x.tag.name)] }

  function AllEvents(xs: seq<Xml>): seq<SaxEvent> { if xs == [] then [] else Events(xs[0]) + AllEvents(xs[1..]) }

  // ---------- Meaning, by structure of the document ----------

  function PartsMeaning(cfg: Config, typ: ObjectType, e: Element, parts: seq<Xml>): Result<Element>
    decreases |parts|
  {
    if parts == [] then Ok(e)
    else
      var f :- AddPart(cfg, typ, e, parts[0].tag);
      if parts[0].children != [] then Err(BadRequest) else PartsMeaning(cfg, typ, f, parts[1..])
  }

  function ObjectMeaning(cfg: Config, op: Operation, ifUnused: bool, o: Xml): Result<Callback> {
    var typ :- TypeNamed(o.tag.name);
    var e :- OpenObject(cfg, typ, op, o.tag.attrs);
    var f :- PartsMeaning(cfg, typ, e, o.children);
    FinishObject(cfg, f, op, ifUnused)
  }

  function ObjectsMeaning(cfg: Config, op: Operation, ifUnused: bool, objects: seq<Xml>): Result<seq<Callback>> {
    if objects == [] then Ok([])
    else
      var first :- ObjectMeaning(cfg, op, ifUnused, objects[0]);
      var rest :- ObjectsMeaning(cfg, op, ifUnused, objects[1..]);
      Ok([first] + rest)
  }

  function BlockMeaning(cfg: Config, block: Xml): Result<seq<Callback>> {
    var op :- OperationNamed(block.tag.name);
    ObjectsMeaning(cfg, op, op.Delete? && HasIfUnused(block.tag.attrs), block.children)
  }

  function BlocksMeaning(cfg: Config, blocks: seq<Xml>): Result<seq<Callback>> {
    if blocks == [] then Ok([])
    else
      var first :- BlockMeaning(cfg, blocks[0]);
      var rest :- BlocksMeaning(cfg, blocks[1..]);
      Ok(first + rest)
  }

  function DocumentMeaning(cfg: Config, root: Xml): Result<seq<Callback>> {
    if root.tag.name != "osmChange" then Err(BadRequest)
    else
      var inner :- BlocksMeaning(cfg, root.children);
      Ok([StartDocument] + inner + [EndDocument])
  }

  // ---------- Runs over concatenated events ----------

  function Continue(cfg: Config, r: Result<State>, events: seq<SaxEvent>): Result<State>
    requires r.Ok? ==> r.value.context != []
  {
    if r.Err? then r else RunFrom(cfg, r.value, events)
  }

  lemma {:induction false} RunConcat(cfg: Config, st: State, a: seq<SaxEvent>, b: seq<SaxEvent>)
    requires st.context != []
    ensures RunFrom(cfg, st, a + b) == Continue(cfg, RunFrom(cfg, st, a), b)
    decreases |a|
  {
    if a == [] {
      assert a + b == b;
    } else {
      assert (a + b)[1..] == a[1..] + b;
      match a[0]
      case Start(tag) =>
        var r := StartStep(cfg, st, tag);
        if r.Ok? {
          RunConcat(cfg, r.value, a[1..], b);
        }
      case End(_) =>
        if |st.context| >= 2 {
          var r := EndStep(cfg, st);
          if r.Ok? {
            RunConcat(cfg, r.value, a[1..], b);
          }
        }
    }
  }

  function Close(cfg: Config, r: Result<State>): Result<State> {
    if r.Err? then r
    else if |r.value.context| < 2 then Err(ServerError)
    else EndStep(cfg, r.value)
  }

  /** A whole element: its start tag, its children, its end tag. */
  lemma {:induction false} RunElement(cfg: Config, st: State, x: Xml)
    requires st.context != []
    ensures var s := StartStep(cfg, st, x.tag);
      RunFrom(cfg, st, Events(x)) == if s.Err? then s else Close(cfg, RunFrom(cfg, s.value, AllEvents(x.children)))
  {
    var end := [End(x.tag.name)];
    assert Events(x)[1..] == AllEvents(x.children) + end;
    var s := StartStep(cfg, st, x.tag);
    if s.Ok? {
      RunConcat(cfg, s.value, AllEvents(x.children), end);
      var r := RunFrom(cfg, s.value, AllEvents(x.children));
      if r.Ok? {
        RunEnd(cfg, r.value, x.tag.name);
      }
    }
  }

  lemma {:induction false} RunEnd(cfg: Config, st: State, name: string)
    requires st.context != []
    ensures RunFrom(cfg, st, [End(name)]) == Close(cfg, Ok(st))
  {
    if |st.context| >= 2 {
      var next := EndStep(cfg, st);
      if next.Ok? {
        assert RunFrom(cfg, next.value, [End(name)][1..]) == next;
      }
    }
  }

  /** A start tag first: children of a part are refused whatever they are. */
  lemma {:induction false} RunTooDeep(cfg: Config, st: State, xs: seq<Xml>)
    requires st.context != [] && st.context[|st.context| - 1] == InObject && xs != []
    ensures RunFrom(cfg, st, AllEvents(xs)) == Err(BadRequest)
  {
    RunConcat(cfg, st, Events(xs[0]), AllEvents(xs[1..]));
    RunElement(cfg, st, xs[0]);
  }

  // ---------- The machine follows the meaning, level by level ----------

  predicate Inside(st: State, c: Context) { |st.context| >= 2 && st.context[|st.context| - 1] == c }

  lemma {:induction false} PushedThenPopped(context: seq<Context>, c: Context)
    ensures (context + [c])[..|context|] == context && (context + [c])[|context|] == c
  {
  }

  lemma {:induction false} PartsFollow(cfg: Config, typ: ObjectType, st: State, parts: seq<Xml>)
    requires Inside(st, ObjectContext(typ))
    ensures var m := PartsMeaning(cfg, typ, st.element, parts);
      RunFrom(cfg, st, AllEvents(parts)) == if m.Err? then Err(m.error) else Ok(st.(element := m.value))
    decreases |parts|
  {
    if parts != [] {
      RunConcat(cfg, st, Events(parts[0]), AllEvents(parts[1..]));
      PartFollows(cfg, typ, st, parts[0]);
      var f := AddPart(cfg, typ, st.element, parts[0].tag);
      if f.Ok? && parts[0].children == [] {
        PartsFollow(cfg, typ, st.(element := f.value), parts[1..]);
      }
    }
  }

  lemma {:induction false} OpenPart(cfg: Config, typ: ObjectType, st: State, tag: Tag)
    requires Inside(st, ObjectContext(typ))
    ensures var f := AddPart(cfg, typ, st.element, tag);
      StartStep(cfg, st, tag) ==
        if f.Err? then Err(f.error) else Ok(st.(context := st.context + [InObject], element := f.value))
  {
  }

  lemma {:induction false} ClosePart(cfg: Config, st: State, e: Element)
    requires st.context != []
    ensures Close(cfg, Ok(st.(context := st.context + [InObject], element := e))) == Ok(st.(element := e))
  {
    PushedThenPopped(st.context, InObject);
  }

  lemma {:induction false} PartFollows(cfg: Config, typ: ObjectType, st: State, part: Xml)
    requires Inside(st, ObjectContext(typ))
    ensures var f := AddPart(cfg, typ, st.element, part.tag);
      RunFrom(cfg, st, Events(part)) ==
        if f.Err? then Err(f.error)
        else if part.children != [] then Err(BadRequest)
        else Ok(st.(element := f.value))
  {
    RunElement(cfg, st, part);
    OpenPart(cfg, typ, st, part.tag);
    var f := AddPart(cfg, typ, st.element, part.tag);
    if f.Ok? {
      var s := st.(context := st.context + [InObject], element := f.value);
      if part.children == [] {
        ClosePart(cfg, st, f.value);
        assert RunFrom(cfg, s, AllEvents([])) == Ok(s);
      } else {
        RunTooDeep(cfg, s, part.children);
      }
    }
  }

  /** What `events` change: the machine is back where it was, having called back what the meaning says. */
  predicate Follows(cfg: Config, st: State, events: seq<SaxEvent>, m: Result<seq<Callback>>)
    requires st.context != []
  {
    Advanced(st, RunFrom(cfg, st, events), m)
  }

  predicate Advanced(st: State, r: Result<State>, m: Result<seq<Callback>>) {
    if m.Err? then r == Err(m.error)
    else r.Ok? && r.value == st.(element := r.value.element, out := st.out + m.value)
  }

  function Single(m: Result<Callback>): Result<seq<Callback>> { if m.Err? then Err(m.error) else Ok([m.value]) }

  lemma {:induction false} CloseObject(cfg: Config, st: State, typ: ObjectType, f: Element)
    requires st.context != []
    ensures var r := st.(context := st.context + [ObjectContext(typ)], element := f);
      var cb := FinishObject(cfg, f, st.op, st.ifUnused);
      Close(cfg, Ok(r)) ==
        if cb.Err? then Err(cb.error) else Ok(st.(element := NewElement(typ), out := st.out + [cb.value]))
  {
    PushedThenPopped(st.context, ObjectContext(typ));
  }

  lemma {:induction false} ObjectFollows(cfg: Config, st: State, o: Xml)
    requires Inside(st, InCreate) || Inside(st, InModify) || Inside(st, InDelete)
    ensures Follows(cfg, st, Events(o), Single(ObjectMeaning(cfg, st.op, st.ifUnused, o)))
  {
    RunElement(cfg, st, o);
    var s := StartStep(cfg, st, o.tag);
    if s.Ok? {
      var typ := TypeNamed(o.tag.name).value;
      PartsFollow(cfg, typ, s.value, o.children);
      var f := PartsMeaning(cfg, typ, s.value.element, o.children);
      if f.Ok? {
        CloseObject(cfg, st, typ, f.value);
      }
    }
  }

  function Both(m: Result<seq<Callback>>, m2: Result<seq<Callback>>): Result<seq<Callback>> {
    if m.Err? then m else if m2.Err? then m2 else Ok(m.value + m2.value)
  }

  /** Two stretches of events, one after the other. */
  lemma {:induction false} FollowBoth(cfg: Config, st: State, a: seq<SaxEvent>, b: seq<SaxEvent>,
                                      m: Result<seq<Callback>>, m2: Result<seq<Callback>>)
    requires st.context != [] && Follows(cfg, st, a, m)
    requires m.Ok? ==> Follows(cfg, RunFrom(cfg, st, a).value, b, m2)
    ensures Follows(cfg, st, a + b, Both(m, m2))
  {
    RunConcat(cfg, st, a, b);
    if m.Ok? && m2.Ok? {
      assert st.out + m.value + m2.value == st.out + (m.value + m2.value);
    }
  }

  lemma {:induction false} ObjectsMeaningNext(cfg: Config, op: Operation, ifUnused: bool, objects: seq<Xml>)
    requires objects != []
    ensures ObjectsMeaning(cfg, op, ifUnused, objects) ==
      Both(Single(ObjectMeaning(cfg, op, ifUnused, objects[0])), ObjectsMeaning(cfg, op, ifUnused, objects[1..]))
  {
  }

  lemma {:induction false} ObjectsFollow(cfg: Config, st: State, objects: seq<Xml>)
    requires Inside(st, InCreate) || Inside(st, InModify) || Inside(st, InDelete)
    ensures Follows(cfg, st, AllEvents(objects), ObjectsMeaning(cfg, st.op, st.ifUnused, objects))
    decreases |objects|
  {
    if objects != [] {
      var m := Single(ObjectMeaning(cfg, st.op, st.ifUnused, objects[0]));
      var m2 := ObjectsMeaning(cfg, st.op, st.ifUnused, objects[1..]);
      ObjectFollows(cfg, st, objects[0]);
      if m.Ok? {
        ObjectsFollow(cfg, RunFrom(cfg, st, Events(objects[0])).value, objects[1..]);
      }
      FollowBoth(cfg, st, Events(objects[0]), AllEvents(objects[1..]), m, m2);
      ObjectsMeaningNext(cfg, st.op, st.ifUnused, objects);
    }
  }

  lemma {:induction false} OpenBlock(cfg: Config, st: State, tag: Tag)
    requires Inside(st, Top) && !st.ifUnused
    ensures var op := OperationNamed(tag.name);
      StartStep(cfg, st, tag) ==
        if op.Err? then Err(op.error)
        else Ok(st.(context := st.context + [BlockContext(op.value)], op := op.value,
                    ifUnused := op.value.Delete? && HasIfUnused(tag.attrs)))
  {
    IfUnusedFound(cfg, false, tag.attrs);
  }

  lemma {:induction false} CloseBlock(cfg: Config, st: State, op: Operation, unused: bool, r: State)
    requires Inside(st, Top) && st.op.Undefined? && !st.ifUnused && !op.Undefined? && (unused ==> op.Delete?)
    requires r == st.(context := st.context + [BlockContext(op)], op := op, ifUnused := unused,
                      element := r.element, out := r.out)
    ensures Close(cfg, Ok(r)) == Ok(st.(element := r.element, out := r.out))
  {
    PushedThenPopped(st.context, BlockContext(op));
  }

  lemma {:induction false} BlockFollows(cfg: Config, st: State, block: Xml)
    requires Inside(st, Top) && st.op.Undefined? && !st.ifUnused
    ensures Follows(cfg, st, Events(block), BlockMeaning(cfg, block))
  {
    RunElement(cfg, st, block);
    OpenBlock(cfg, st, block.tag);
    var s := StartStep(cfg, st, block.tag);
    if s.Ok? {
      ObjectsFollow(cfg, s.value, block.children);
      var r := RunFrom(cfg, s.value, AllEvents(block.children));
      if r.Ok? {
        CloseBlock(cfg, st, s.value.op, s.value.ifUnused, r.value);
      }
    }
  }

  lemma {:induction false} BlocksFollow(cfg: Config, st: State, blocks: seq<Xml>)
    requires Inside(st, Top) && st.op.Undefined? && !st.ifUnused
    ensures Follows(cfg, st, AllEvents(blocks), BlocksMeaning(cfg, blocks))
    decreases |blocks|
  {
    if blocks != [] {
      var m, m2 := BlockMeaning(cfg, blocks[0]), BlocksMeaning(cfg, blocks[1..]);
      BlockFollows(cfg, st, blocks[0]);
      if m.Ok? {
        BlocksFollow(cfg, RunFrom(cfg, st, Events(blocks[0])).value, blocks[1..]);
      }
      FollowBoth(cfg, st, Events(blocks[0]), AllEvents(blocks[1..]), m, m2);
    }
  }

  /**
   For every document tree, the parser either fails with the error of the first thing that is wrong in document order,
   or ends with the stack it started with and has called back exactly what the document denotes.
   */
  lemma {:induction false} ParserComputesMeaning(cfg: Config, root: Xml)
    ensures Follows(cfg, INITIAL, Events(root), DocumentMeaning(cfg, root))
  {
    RunElement(cfg, INITIAL, root);
    OpenDocument(cfg, root.tag);
    if root.tag.name == "osmChange" {
      InsideDocument(cfg, root.children);
    }
  }

  const AFTER_START := State([Root, Top], Undefined, false, NewElement(Node), [StartDocument])

  lemma {:induction false} OpenDocument(cfg: Config, tag: Tag)
    ensures StartStep(cfg, INITIAL, tag) == if tag.name != "osmChange" then Err(BadRequest) else Ok(AFTER_START)
  {
    assert INITIAL.context + [Top] == AFTER_START.context;
    assert INITIAL.out + [StartDocument] == AFTER_START.out;
  }

  lemma {:induction false} InsideDocument(cfg: Config, blocks: seq<Xml>)
    ensures var m := BlocksMeaning(cfg, blocks);
      Advanced(INITIAL, Close(cfg, RunFrom(cfg, AFTER_START, AllEvents(blocks))),
               if m.Err? then m else Ok([StartDocument] + m.value + [EndDocument]))
  {
    BlocksFollow(cfg, AFTER_START, blocks);
    var r := RunFrom(cfg, AFTER_START, AllEvents(blocks));
    if r.Ok? {
      CloseDocument(cfg, r.value, BlocksMeaning(cfg, blocks).value);
    }
  }

  lemma {:induction false} CloseDocument(cfg: Config, r: State, inner: seq<Callback>)
    requires r == INITIAL.(context := [Root, Top], element := r.element, out := [StartDocument] + inner)
    ensures Advanced(INITIAL, Close(cfg, Ok(r)), Ok([StartDocument] + inner + [EndDocument]))
  {
    assert [Root, Top][..1] == [Root];
  }

  /** The events of a tree are well-nested. */
  lemma {:induction false} EventsNest(path: seq<Tag>, x: Xml, rest: seq<SaxEvent>)
    ensures OpenAfter(path, Events(x) + rest) == OpenAfter(path, rest)
    decreases x, 1
  {
    var inner := AllEvents(x.children);
    var end := [End(x.tag.name)] + rest;
    assert Events(x) + rest == [Start(x.tag)] + (inner + end);
    AllEventsNest(path + [x.tag], x.children, end);
    assert (path + [x.tag])[..|path|] == path;
    assert end[1..] == rest;
  }

  lemma {:induction false} AllEventsNest(path: seq<Tag>, xs: seq<Xml>, rest: seq<SaxEvent>)
    ensures OpenAfter(path, AllEvents(xs) + rest) == OpenAfter(path, rest)
    decreases xs, 0
  {
    if xs == [] {
      assert AllEvents(xs) + rest == rest;
    } else {
      assert AllEvents(xs) + rest == Events(xs[0]) + (AllEvents(xs[1..]) + rest);
      EventsNest(path, xs[0], AllEvents(xs[1..]) + rest);
      AllEventsNest(path, xs[1..], rest);
    }
  }

  /** So everything an accepted document hands over is valid for its operation. */
  lemma {:induction false} AcceptedDocumentIsValid(cfg: Config, root: Xml)
    requires DocumentMeaning(cfg, root).Ok?
    ensures AllValid(cfg, DocumentMeaning(cfg, root).value)
  {
    ParserComputesMeaning(cfg, root);
    EventsNest([], root, []);
    assert Events(root) + [] == Events(root);
    RunKeepsInv(cfg, INITIAL, [], Events(root));
    assert INITIAL.out + DocumentMeaning(cfg, root).value == DocumentMeaning(cfg, root).value;
  }
}
