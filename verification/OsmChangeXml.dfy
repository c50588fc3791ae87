/**
 The osmChange XML parser: SAX events drive a stack of contexts, fill the current object and call back with complete
 objects. What every run keeps is proved here; what it computes is proved in `OsmChangeXmlMeaning`.
 */
module OsmChangeXml {
  import opened Common
  import opened OsmElements
  import opened OsmObjects

  datatype Context = Root | Top | InCreate | InModify | InDelete | InNode | InWay | InRelation | InObject

  datatype Attr = Attr(name: string, value: string)

  datatype Tag = Tag(name: string, attrs: seq<Attr>)

  /** What the parser reports to its callback, in order. */
  datatype Callback = StartDocument | EndDocument | Object(change: ParsedChange)

  // ---------- Attributes ----------

  /** Apply a setter to the attributes in document order, up to the first failure. */
  function FoldAttrs<S>(cfg: Config, set0: (Config, S, Attr) -> Result<S>, s: S, attrs: seq<Attr>): Result<S> {
    if attrs == [] then Ok(s)
    else
      var t :- set0(cfg, s, attrs[0]);
      FoldAttrs(cfg, set0, t, attrs[1..])
  }

  method CheckAttributes<S>(cfg: Config, set0: (Config, S, Attr) -> Result<S>, s: S, attrs: seq<Attr>)
    returns (r: Result<S>)
    ensures r == FoldAttrs(cfg, set0, s, attrs)
  {
    r := Ok(s);
    var i := 0;
    while i < |attrs|
      invariant 0 <= i <= |attrs| && r.Ok?
      invariant FoldAttrs(cfg, set0, s, attrs) == FoldAttrs(cfg, set0, r.value, attrs[i..])
    {
      r := set0(cfg, r.value, attrs[i]);
      if r.Err? {
        return;
      }
      assert attrs[i..][1..] == attrs[i + 1..];
      i := i + 1;
    }
  }

  function ObjectAttr(cfg: Config, e: Element, a: Attr): Result<Element> {
    if a.name == "id" then SetId(e, a.value)
    else if a.name == "changeset" then SetChangeset(e, a.value)
    else if a.name == "version" then SetVersion(e, a.value)
    else Ok(e)
  }

  function NodeAttr(cfg: Config, e: Element, a: Attr): Result<Element> {
    if a.name == "lon" then SetLon(cfg, e, a.value)
    else if a.name == "lat" then SetLat(cfg, e, a.value)
    else Ok(e)
  }

  datatype KeyValue = KeyValue(k: Option<string>, v: Option<string>)

  function TagAttr(cfg: Config, kv: KeyValue, a: Attr): Result<KeyValue> {
    if a.name == "k" then Ok(kv.(k := Some(a.value)))
    else if a.name == "v" then Ok(kv.(v := Some(a.value)))
    else Ok(kv)
  }

  datatype WayRef = WayRef(way: Element, found: bool)

  function NdAttr(cfg: Config, w: WayRef, a: Attr): Result<WayRef> {
    if a.name != "ref" then Ok(w)
    else
      var way :- AddWayNode(w.way, a.value);
      Ok(WayRef(way, true))
  }

  function MemberAttr(cfg: Config, m: Member, a: Attr): Result<Member> {
    if a.name == "type" then SetMemberType(m, a.value)
    else if a.name == "ref" then SetMemberRef(m, a.value)
    else if a.name == "role" then SetMemberRole(cfg, m, a.value)
    else Ok(m)
  }

  function IfUnusedAttr(cfg: Config, found: bool, a: Attr): Result<bool> { Ok(found || a.name == "if-unused") }

  predicate HasIfUnused(attrs: seq<Attr>) { exists i :: 0 <= i < |attrs| && attrs[i].name == "if-unused" }

  lemma {:induction false} IfUnusedFound(cfg: Config, found: bool, attrs: seq<Attr>)
    ensures FoldAttrs(cfg, IfUnusedAttr, found, attrs) == Ok(found || HasIfUnused(attrs))
    decreases |attrs|
  {
    if attrs != [] {
      IfUnusedFound(cfg, found || attrs[0].name == "if-unused", attrs[1..]);
      if HasIfUnused(attrs) && attrs[0].name != "if-unused" {
        var i :| 0 <= i < |attrs| && attrs[i].name == "if-unused";
        assert attrs[1..][i - 1] == attrs[i];
      }
    }
  }

  // ---------- Objects and their parts ----------

  function InitObject(cfg: Config, typ: ObjectType, op: Operation, attrs: seq<Attr>): Result<Element> {
    var e :- FoldAttrs(cfg, ObjectAttr, NewElement(typ), attrs);
    if e.id.None? || e.changeset.None? then Err(BadRequest)
    else if op.Create? then Ok(e.(version := Some(0)))
    else if op.Undefined? then Ok(e)
    else if e.version.None? || e.version.value < 1 then Err(BadRequest)
    else Ok(e)
  }

  function OpenObject(cfg: Config, typ: ObjectType, op: Operation, attrs: seq<Attr>): Result<Element> {
    var e :- InitObject(cfg, typ, op, attrs);
    if typ.Node? then FoldAttrs(cfg, NodeAttr, e, attrs) else Ok(e)
  }

  function TagPart(cfg: Config, e: Element, attrs: seq<Attr>): Result<Element> {
    var kv :- FoldAttrs(cfg, TagAttr, KeyValue(None, None), attrs);
    if kv.k.None? || kv.v.None? then Err(BadRequest) else AddTag(cfg, e, kv.k.value, kv.v.value)
  }

  function NdPart(cfg: Config, e: Element, attrs: seq<Attr>): Result<Element> {
    var w :- FoldAttrs(cfg, NdAttr, WayRef(e, false), attrs);
    if w.found then Ok(w.way) else Err(BadRequest)
  }

  function MemberPart(cfg: Config, e: Element, attrs: seq<Attr>): Result<Element> {
    var m :- FoldAttrs(cfg, MemberAttr, Member(None, None, ""), attrs);
    AddMember(e, m)
  }

  /** An element inside an object of type `typ`; names without a meaning there are skipped. */
  function AddPart(cfg: Config, typ: ObjectType, e: Element, part: Tag): Result<Element> {
    if part.name == "tag" then TagPart(cfg, e, part.attrs)
    else if typ.Way? && part.name == "nd" then NdPart(cfg, e, part.attrs)
    else if typ.Relation? && part.name == "member" then MemberPart(cfg, e, part.attrs)
    else Ok(e)
  }

  function TypeNamed(name: string): Result<ObjectType> {
    if name == "node" then Ok(Node)
    else if name == "way" then Ok(Way)
    else if name == "relation" then Ok(Relation)
    else Err(BadRequest)
  }

  function OperationNamed(name: string): Result<Operation> {
    if name == "create" then Ok(Create)
    else if name == "modify" then Ok(Modify)
    else if name == "delete" then Ok(Delete)
    else Err(BadRequest)
  }

  function FinishObject(cfg: Config, e: Element, op: Operation, ifUnused: bool): Result<Callback> {
    var complete :- IsValid(cfg, e, op);
    if complete then Ok(Object(ParsedChange(op, e, ifUnused))) else Err(BadRequest)
  }

  // ---------- The machine ----------

  datatype State = State(context: seq<Context>, op: Operation, ifUnused: bool, element: Element, out: seq<Callback>)

  const INITIAL := State([Root], Undefined, false, NewElement(Node), [])

  function BlockContext(op: Operation): Context
    requires !op.Undefined?
  {
    match op case Create => InCreate case Modify => InModify case Delete => InDelete
  }

  function ObjectContext(typ: ObjectType): Context {
    match typ case Node => InNode case Way => InWay case Relation => InRelation
  }

  function TypeOf(c: Context): ObjectType
    requires c.InNode? || c.InWay? || c.InRelation?
  {
    match c case InNode => Node case InWay => Way case InRelation => Relation
  }

  function StartStep(cfg: Config, st: State, tag: Tag): Result<State>
    requires st.context != []
  {
    match st.context[|st.context| - 1]
    case Root =>
      if tag.name != "osmChange" then Err(BadRequest)
      else Ok(st.(context := st.context + [Top], out := st.out + [StartDocument]))
    case Top =>
      var op :- OperationNamed(tag.name);
      var unused :- if op.Delete? then FoldAttrs(cfg, IfUnusedAttr, false, tag.attrs) else Ok(st.ifUnused);
      Ok(st.(context := st.context + [BlockContext(op)], op := op, ifUnused := unused))
    case InCreate | InModify | InDelete =>
      var typ :- TypeNamed(tag.name);
      var e :- OpenObject(cfg, typ, st.op, tag.attrs);
      Ok(st.(context := st.context + [ObjectContext(typ)], element := e))
    case InObject => Err(BadRequest)
    case c =>
      var e :- AddPart(cfg, TypeOf(c), st.element, tag);
      Ok(st.(context := st.context + [InObject], element := e))
  }

  function EndStep(cfg: Config, st: State): Result<State>
    requires |st.context| >= 2
  {
    var outer := st.(context := st.context[..|st.context| - 1]);
    match st.context[|st.context| - 1]
    case Root => Err(ServerError)
    case Top => Ok(outer.(op := Undefined, out := st.out + [EndDocument]))
    case InCreate | InModify => Ok(outer.(op := Undefined))
    case InDelete => Ok(outer.(op := Undefined, ifUnused := false))
    case InObject => Ok(outer)
    case c =>
      var cb :- FinishObject(cfg, st.element, st.op, st.ifUnused);
      Ok(outer.(element := NewElement(TypeOf(c)), out := st.out + [cb]))
  }

  // ---------- The context stack mirrors the open elements ----------

  datatype SaxEvent = Start(tag: Tag) | End(name: string)

  /** The elements left open by well-nested events, outermost first; `None` when an end tag does not match. */
  function OpenAfter(path: seq<Tag>, events: seq<SaxEvent>): Option<seq<Tag>>
    decreases |events|
  {
    if events == [] then Some(path)
    else
      match events[0]
      case Start(tag) => OpenAfter(path + [tag], events[1..])
      case End(name) =>
        if path != [] && path[|path| - 1].name == name then OpenAfter(path[..|path| - 1], events[1..]) else None
  }

  function RunFrom(cfg: Config, st: State, events: seq<SaxEvent>): (r: Result<State>)
    requires st.context != []
    ensures r.Ok? ==> r.value.context != []
    decreases |events|
  {
    if events == [] then Ok(st)
    else
      match events[0]
      case Start(tag) =>
        var next :- StartStep(cfg, st, tag);
        RunFrom(cfg, next, events[1..])
      case End(_) =>
        if |st.context| < 2 then Err(ServerError)
        else
          var next :- EndStep(cfg, st);
          RunFrom(cfg, next, events[1..])
  }

  /** Which context an element may open at a given depth. */
  predicate Opens(c: Context, depth: nat, name: string) {
    match c
    case Root => false
    case Top => depth == 0 && name == "osmChange"
    case InCreate => depth == 1 && name == "create"
    case InModify => depth == 1 && name == "modify"
    case InDelete => depth == 1 && name == "delete"
    case InNode => depth == 2 && name == "node"
    case InWay => depth == 2 && name == "way"
    case InRelation => depth == 2 && name == "relation"
    case InObject => depth == 3
  }

  predicate Mirrors(context: seq<Context>, path: seq<Tag>) {
    && |context| == |path| + 1 <= 5
    && context[0] == Root
    && forall i :: 0 <= i < |path| ==> Opens(context[i + 1], i, path[i].name)
  }

  /** The operation and the flag are those of the enclosing block. */
  predicate BlockMirrored(st: State, path: seq<Tag>) {
    if |path| < 2 then st.op.Undefined? && !st.ifUnused
    else
      && OperationNamed(path[1].name) == Ok(st.op)
      && st.ifUnused == (path[1].name == "delete" && HasIfUnused(path[1].attrs))
  }

  /** The object being filled satisfies what the setters and the start tag have established. */
  predicate ObjectInProgress(cfg: Config, st: State) {
    |st.context| >= 4 ==>
      && FieldsSane(cfg, st.element)
      && st.element.typ == TypeAt(st.context)
      && VersionFor(st.op, st.element)
  }

  function TypeAt(context: seq<Context>): ObjectType
    requires |context| >= 4
  {
    if context[3].InWay? then Way else if context[3].InRelation? then Relation else Node
  }

  predicate CallbackValid(cfg: Config, cb: Callback) {
    cb.Object? ==>
      && ValidObject(cfg, cb.change.element, cb.change.op)
      && cb.change.Complete()
      && (cb.change.ifUnused ==> cb.change.op.Delete?)
  }

  predicate AllValid(cfg: Config, out: seq<Callback>) { forall i :: 0 <= i < |out| ==> CallbackValid(cfg, out[i]) }

  predicate ParserInv(cfg: Config, st: State, path: seq<Tag>) {
    Mirrors(st.context, path) && BlockMirrored(st, path) && ObjectInProgress(cfg, st) && AllValid(cfg, st.out)
  }

  // ---------- Every step keeps the invariant ----------

  lemma {:induction false} ObjectAttrsKeep(cfg: Config, e: Element, attrs: seq<Attr>)
    requires FieldsSane(cfg, e)
    ensures var r := FoldAttrs(cfg, ObjectAttr, e, attrs); r.Ok? ==> FieldsSane(cfg, r.value) && r.value.typ == e.typ
    decreases |attrs|
  {
    if attrs != [] {
      SettersKeepSane(cfg, e, attrs[0].value);
      var r := ObjectAttr(cfg, e, attrs[0]);
      if r.Ok? {
        ObjectAttrsKeep(cfg, r.value, attrs[1..]);
      }
    }
  }

  lemma {:induction false} NodeAttrsKeep(cfg: Config, e: Element, attrs: seq<Attr>)
    requires FieldsSane(cfg, e)
    ensures var r := FoldAttrs(cfg, NodeAttr, e, attrs);
      r.Ok? ==> FieldsSane(cfg, r.value) && r.value.typ == e.typ && r.value.version == e.version
    decreases |attrs|
  {
    if attrs != [] {
      SettersKeepSane(cfg, e, attrs[0].value);
      var r := NodeAttr(cfg, e, attrs[0]);
      if r.Ok? {
        NodeAttrsKeep(cfg, r.value, attrs[1..]);
      }
    }
  }

  lemma {:induction false} NdAttrsKeep(cfg: Config, w: WayRef, attrs: seq<Attr>)
    requires FieldsSane(cfg, w.way)
    ensures var r := FoldAttrs(cfg, NdAttr, w, attrs);
      r.Ok? ==> FieldsSane(cfg, r.value.way) && r.value.way.typ == w.way.typ && r.value.way.version == w.way.version
    decreases |attrs|
  {
    if attrs != [] {
      AddersKeepSane(cfg, w.way, attrs[0].value, Member(None, None, ""));
      var r := NdAttr(cfg, w, attrs[0]);
      if r.Ok? {
        NdAttrsKeep(cfg, r.value, attrs[1..]);
      }
    }
  }

  lemma {:induction false} MemberAttrsKeep(cfg: Config, m: Member, attrs: seq<Attr>)
    requires MemberRoleFits(cfg, m)
    ensures var r := FoldAttrs(cfg, MemberAttr, m, attrs); r.Ok? ==> MemberRoleFits(cfg, r.value)
    decreases |attrs|
  {
    if attrs != [] {
      var r := MemberAttr(cfg, m, attrs[0]);
      if r.Ok? {
        MemberAttrsKeep(cfg, r.value, attrs[1..]);
      }
    }
  }

  /** The version an object of this operation must have from its start tag on. */
  predicate VersionFor(op: Operation, e: Element) {
    e.version.Some? && (if op.Create? then e.version.value == 0 else e.version.value >= 1)
  }

  lemma {:induction false} OpenObjectKeeps(cfg: Config, typ: ObjectType, op: Operation, attrs: seq<Attr>)
    requires !op.Undefined?
    ensures var r := OpenObject(cfg, typ, op, attrs);
      r.Ok? ==> FieldsSane(cfg, r.value) && r.value.typ == typ && VersionFor(op, r.value)
  {
    ObjectAttrsKeep(cfg, NewElement(typ), attrs);
    var r := InitObject(cfg, typ, op, attrs);
    if r.Ok? && typ.Node? {
      NodeAttrsKeep(cfg, r.value, attrs);
    }
  }

  lemma {:induction false} AddPartKeeps(cfg: Config, typ: ObjectType, e: Element, part: Tag)
    requires FieldsSane(cfg, e)
    ensures var r := AddPart(cfg, typ, e, part);
      r.Ok? ==> FieldsSane(cfg, r.value) && r.value.typ == e.typ && r.value.version == e.version
  {
    if part.name == "tag" {
      var kv := FoldAttrs(cfg, TagAttr, KeyValue(None, None), part.attrs);
      if kv.Ok? && kv.value.k.Some? && kv.value.v.Some? {
        AddTagKeepsSane(cfg, e, kv.value.k.value, kv.value.v.value);
      }
    } else if typ.Way? && part.name == "nd" {
      NdAttrsKeep(cfg, WayRef(e, false), part.attrs);
    } else if typ.Relation? && part.name == "member" {
      MemberAttrsKeep(cfg, Member(None, None, ""), part.attrs);
      var m := FoldAttrs(cfg, MemberAttr, Member(None, None, ""), part.attrs);
      if m.Ok? {
        AddersKeepSane(cfg, e, "", m.value);
      }
    }
  }

  lemma {:induction false} StartBlockKeeps(cfg: Config, st: State, path: seq<Tag>, tag: Tag)
    requires ParserInv(cfg, st, path) && |path| < 2
    ensures var r := StartStep(cfg, st, tag); r.Ok? ==> ParserInv(cfg, r.value, path + [tag])
  {
    if |path| == 1 {
      assert Opens(st.context[0 + 1], 0, path[0].name);
      IfUnusedFound(cfg, false, tag.attrs);
    }
  }

  lemma {:induction false} StartObjectKeeps(cfg: Config, st: State, path: seq<Tag>, tag: Tag)
    requires ParserInv(cfg, st, path) && |path| == 2
    ensures var r := StartStep(cfg, st, tag); r.Ok? ==> ParserInv(cfg, r.value, path + [tag])
  {
    assert Opens(st.context[1 + 1], 1, path[1].name);
    var typ := TypeNamed(tag.name);
    if typ.Ok? {
      OpenObjectKeeps(cfg, typ.value, st.op, tag.attrs);
    }
  }

  lemma {:induction false} StartPartKeeps(cfg: Config, st: State, path: seq<Tag>, tag: Tag)
    requires ParserInv(cfg, st, path) && |path| > 2
    ensures var r := StartStep(cfg, st, tag); r.Ok? ==> ParserInv(cfg, r.value, path + [tag])
  {
    assert Opens(st.context[2 + 1], 2, path[2].name);
    if |path| == 3 {
      AddPartKeeps(cfg, TypeOf(st.context[3]), st.element, tag);
    } else {
      assert Opens(st.context[3 + 1], 3, path[3].name);
    }
  }

  lemma {:induction false} StartStepKeeps(cfg: Config, st: State, path: seq<Tag>, tag: Tag)
    requires ParserInv(cfg, st, path)
    ensures var r := StartStep(cfg, st, tag); r.Ok? ==> ParserInv(cfg, r.value, path + [tag])
  {
    if |path| < 2 {
      StartBlockKeeps(cfg, st, path, tag);
    } else if |path| == 2 {
      StartObjectKeeps(cfg, st, path, tag);
    } else {
      StartPartKeeps(cfg, st, path, tag);
    }
  }

  /** At an end tag that closes the innermost open element, the context is the one that element opened. */
  lemma {:induction false} EndTagExpected(st: State, path: seq<Tag>)
    requires Mirrors(st.context, path) && path != []
    ensures |st.context| >= 2
    ensures Opens(st.context[|st.context| - 1], |path| - 1, path[|path| - 1].name)
  {
    assert Opens(st.context[|path| - 1 + 1], |path| - 1, path[|path| - 1].name);
  }

  lemma {:induction false} EndObjectKeeps(cfg: Config, st: State, path: seq<Tag>)
    requires ParserInv(cfg, st, path) && |path| == 3
    ensures var r := EndStep(cfg, st); r.Ok? ==> ParserInv(cfg, r.value, path[..2])
  {
    EndTagExpected(st, path);
    IsValidExactly(cfg, st.element, st.op);
    var r := EndStep(cfg, st);
    if r.Ok? {
      assert AllValid(cfg, r.value.out);
    }
  }

  lemma {:induction false} EndStepKeeps(cfg: Config, st: State, path: seq<Tag>)
    requires ParserInv(cfg, st, path) && path != []
    ensures |st.context| >= 2
    ensures var r := EndStep(cfg, st); r.Ok? ==> ParserInv(cfg, r.value, path[..|path| - 1])
  {
    EndTagExpected(st, path);
    if |path| == 3 {
      EndObjectKeeps(cfg, st, path);
    }
  }

  /**
   Safety over every run on well-nested events that the parser accepts: the context stack mirrors the open elements,
   the operation and the flag are those of the enclosing block, and every object handed over is valid for its operation.
   */
  lemma {:induction false} RunKeepsInv(cfg: Config, st: State, path: seq<Tag>, events: seq<SaxEvent>)
    requires ParserInv(cfg, st, path) && OpenAfter(path, events).Some?
    ensures var r := RunFrom(cfg, st, events); r.Ok? ==> ParserInv(cfg, r.value, OpenAfter(path, events).value)
    decreases |events|
  {
    if events != [] {
      match events[0]
      case Start(tag) =>
        StartStepKeeps(cfg, st, path, tag);
        var r := StartStep(cfg, st, tag);
        if r.Ok? {
          RunKeepsInv(cfg, r.value, path + [tag], events[1..]);
        }
      case End(name) =>
        EndStepKeeps(cfg, st, path);
        var r := EndStep(cfg, st);
        if r.Ok? {
          RunKeepsInv(cfg, r.value, path[..|path| - 1], events[1..]);
        }
    }
  }

  // ---------- The parser object ----------

  class OSMChangeXMLParser {
    const cfg: Config
    var context: seq<Context>
    var operation: Operation
    var ifUnused: bool
    var element: Element
    var callbacks: seq<Callback>
    /** The elements that are open. */
    ghost var path: seq<Tag>

    ghost function Current(): State
      reads this
    {
      State(context, operation, ifUnused, element, callbacks)
    }

    ghost predicate Valid()
      reads this
    {
      ParserInv(cfg, Current(), path)
    }

    constructor (cfg: Config)
      ensures Valid() && path == [] && Current() == INITIAL && this.cfg == cfg
    {
      this.cfg := cfg;
      context, operation, ifUnused, element, callbacks := [Root], Undefined, false, NewElement(Node), [];
      path := [];
    }

    /** After a failure the parser is abandoned; what it has already called back stays. */
    method OnStartElement(name: string, attrs: seq<Attr>) returns (o: Outcome)
      requires Valid()
      modifies this
      ensures match StartStep(cfg, old(Current()), Tag(name, attrs))
        case Err(e) => o == Fail(e) && callbacks == old(callbacks)
        case Ok(next) => o.Pass? && Valid() && Current() == next && path == old(path) + [Tag(name, attrs)]
    {
      StartStepKeeps(cfg, Current(), path, Tag(name, attrs));
      o := SwitchOnStart(name, attrs);
      if o.Pass? {
        path := path + [Tag(name, attrs)];
      }
    }

    method SwitchOnStart(name: string, attrs: seq<Attr>) returns (o: Outcome)
      requires context != []
      modifies `context, `operation, `ifUnused, `element, `callbacks
      ensures match StartStep(cfg, old(Current()), Tag(name, attrs))
        case Err(e) => o == Fail(e) && callbacks == old(callbacks)
        case Ok(next) => o.Pass? && Current() == next
    {
      match context[|context| - 1] {
      case Root =>
        if name != "osmChange" {
          return Fail(BadRequest);
        }
        callbacks := callbacks + [StartDocument];
        context := context + [Top];
      case Top =>
        if name == "create" {
          context := context + [InCreate];
          operation := Create;
        } else if name == "modify" {
          context := context + [InModify];
          operation := Modify;
        } else if name == "delete" {
          ifUnused := false;
          IfUnusedFound(cfg, false, attrs);
          var found := CheckAttributes(cfg, IfUnusedAttr, false, attrs);
          ifUnused := found.value;
          context := context + [InDelete];
          operation := Delete;
        } else {
          return Fail(BadRequest);
        }
      case InCreate | InModify | InDelete =>
        var typ := TypeNamed(name);
        if typ.Err? {
          return Fail(typ.error);
        }
        var e := StartObject(typ.value, attrs);
        if e.Err? {
          return Fail(e.error);
        }
        element := e.value;
        context := context + [ObjectContext(typ.value)];
      case InObject =>
        return Fail(BadRequest);
      case c =>
        context := context + [InObject];
        var e := StartPart(TypeOf(c), name, attrs);
        if e.Err? {
          return Fail(e.error);
        }
        element := e.value;
      }
      o := Pass;
    }

    method StartObject(typ: ObjectType, attrs: seq<Attr>) returns (r: Result<Element>)
      ensures r == OpenObject(cfg, typ, operation, attrs)
    {
      var e := CheckAttributes(cfg, ObjectAttr, NewElement(typ), attrs);
      if e.Err? {
        return e;
      }
      if e.value.id.None? {
        return Err(BadRequest);
      }
      if e.value.changeset.None? {
        return Err(BadRequest);
      }
      if operation.Create? {
        e := Ok(e.value.(version := Some(0)));
      } else if operation.Delete? || operation.Modify? {
        if e.value.version.None? {
          return Err(BadRequest);
        }
        if e.value.version.value < 1 {
          return Err(BadRequest);
        }
      }
      if typ.Node? {
        e := CheckAttributes(cfg, NodeAttr, e.value, attrs);
      }
      r := e;
    }

    method StartPart(typ: ObjectType, name: string, attrs: seq<Attr>) returns (r: Result<Element>)
      ensures r == AddPart(cfg, typ, element, Tag(name, attrs))
    {
      if name == "tag" {
        var kv := CheckAttributes(cfg, TagAttr, KeyValue(None, None), attrs);
        if kv.Err? {
          return Err(kv.error);
        }
        if kv.value.k.None? || kv.value.v.None? {
          return Err(BadRequest);
        }
        r := AddTag(cfg, element, kv.value.k.value, kv.value.v.value);
      } else if typ.Way? && name == "nd" {
        var w := CheckAttributes(cfg, NdAttr, WayRef(element, false), attrs);
        if w.Err? {
          return Err(w.error);
        }
        r := if w.value.found then Ok(w.value.way) else Err(BadRequest);
      } else if typ.Relation? && name == "member" {
        var m := CheckAttributes(cfg, MemberAttr, Member(None, None, ""), attrs);
        if m.Err? {
          return Err(m.error);
        }
        r := AddMember(element, m.value);
      } else {
        r := Ok(element);
      }
    }

    /** The XML library delivers well-nested events. */
    method OnEndElement(name: string) returns (o: Outcome)
      requires Valid() && path != [] && path[|path| - 1].name == name
      modifies this
      ensures |old(Current()).context| >= 2
      ensures match EndStep(cfg, old(Current()))
        case Err(e) => o == Fail(e) && Current() == old(Current())
        case Ok(next) => o.Pass? && Valid() && Current() == next && path == old(path)[..|old(path)| - 1]
    {
      EndTagExpected(Current(), path);
      EndStepKeeps(cfg, Current(), path);
      o := SwitchOnEnd(name, |path| - 1);
      if o.Pass? {
        path := path[..|path| - 1];
      }
    }

    /** The assertions of the original on the name of the end tag are proved here. */
    method SwitchOnEnd(name: string, ghost depth: nat) returns (o: Outcome)
      requires |context| >= 2 && Opens(context[|context| - 1], depth, name)
      modifies `context, `operation, `ifUnused, `element, `callbacks
      ensures match EndStep(cfg, old(Current()))
        case Err(e) => o == Fail(e) && Current() == old(Current())
        case Ok(next) => o.Pass? && Current() == next
    {
      match context[|context| - 1] {
      case Root =>
        assert false;
      case Top =>
        assert name == "osmChange";
        context := context[..|context| - 1];
        operation := Undefined;
        callbacks := callbacks + [EndDocument];
      case InCreate =>
        assert name == "create";
        operation := Undefined;
        context := context[..|context| - 1];
      case InModify =>
        assert name == "modify";
        operation := Undefined;
        context := context[..|context| - 1];
      case InDelete =>
        assert name == "delete";
        operation := Undefined;
        context := context[..|context| - 1];
        ifUnused := false;
      case InObject =>
        context := context[..|context| - 1];
      case c =>
        assert name == (match c case InNode => "node" case InWay => "way" case _ => "relation");
        var complete := IsValid(cfg, element, operation);
        if complete.Err? {
          return Fail(complete.error);
        }
        if !complete.value {
          return Fail(BadRequest);
        }
        callbacks := callbacks + [Object(ParsedChange(operation, element, ifUnused))];
        element := NewElement(TypeOf(c));
        context := context[..|context| - 1];
      }
      o := Pass;
    }
  }
}
