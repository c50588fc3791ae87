/**
 Which objects a document holds, read off its text: every field of an object by the name of the attribute or part that
 gives it, and exactly which documents are accepted. The parser is proved to hand over these objects and no others.
 */
module OsmChangeXmlReading {
  import opened Common
  import opened Decimal
  import opened OsmChangeXml
  import opened OsmChangeXmlMeaning
  import opened OsmElements
  import opened OsmObjects

  // ---------- Attributes by name ----------

  /** The value of the last attribute of that name. */
  function LastValue(attrs: seq<Attr>, name: string): Option<string> {
    if attrs == [] then None
    else
      var later := LastValue(attrs[1..], name);
      if later.Some? then later else if attrs[0].name == name then Some(attrs[0].value) else None
  }

  lemma {:induction false} LastOfOne(a: Attr, name: string)
    ensures LastValue([a], name) == if a.name == name then Some(a.value) else None
  {
    assert [a][1..] == [];
    assert LastValue([], name) == None;
  }

  lemma {:induction false} LastOfMore(a: Attr, rest: seq<Attr>, name: string)
    ensures LastValue([a] + rest, name)
      == if LastValue(rest, name).Some? then LastValue(rest, name) else LastValue([a], name)
  {
    LastOfOne(a, name);
    assert ([a] + rest)[1..] == rest;
  }

  function Latest<T>(read: Option<T>, before: Option<T>): Option<T> { if read.Some? then read else before }

  /** The number in a text as a signed 64-bit integer. */
  function NumberIn(text: Option<string>): Option<int> {
    if text.None? then None
    else
      match FromChars(text.value, -0x8000_0000_0000_0000, 0x7FFF_FFFF_FFFF_FFFF)
      case Number(v) => Some(v)
      case _ => None
  }

  /** A version is kept in 32 bits. */
  function VersionIn(text: Option<string>): Option<nat> {
    var n := NumberIn(text);
    if n.Some? && n.value >= 0 then Some(n.value % 0x1_0000_0000) else None
  }

  function DegreesIn(cfg: Config, text: Option<string>): Option<real> {
    if text.None? then None
    else
      match cfg.parseReal(text.value)
      case Finite(v) => Some(v)
      case _ => None
  }

  predicate NonZero(text: string) { NumberIn(Some(text)).Some? && NumberIn(Some(text)).value != 0 }

  predicate Positive(text: string) { NumberIn(Some(text)).Some? && NumberIn(Some(text)).value > 0 }

  predicate NonNegative(text: string) { NumberIn(Some(text)).Some? && NumberIn(Some(text)).value >= 0 }

  predicate WithinDegrees(cfg: Config, text: string, limit: real) {
    DegreesIn(cfg, Some(text)).Some? && -limit <= DegreesIn(cfg, Some(text)).value <= limit
  }

  /** Every attribute that names an id, a changeset or a version holds one. */
  predicate NumbersFine(attrs: seq<Attr>) {
    attrs == [] ||
    (&& (attrs[0].name == "id" ==> NonZero(attrs[0].value))
     && (attrs[0].name == "changeset" ==> Positive(attrs[0].value))
     && (attrs[0].name == "version" ==> NonNegative(attrs[0].value))
     && NumbersFine(attrs[1..]))
  }

  predicate CoordinatesFine(cfg: Config, attrs: seq<Attr>) {
    attrs == [] ||
    (&& (attrs[0].name == "lat" ==> WithinDegrees(cfg, attrs[0].value, 90.0))
     && (attrs[0].name == "lon" ==> WithinDegrees(cfg, attrs[0].value, 180.0))
     && CoordinatesFine(cfg, attrs[1..]))
  }

  lemma {:induction false} NumbersFineCons(a: Attr, rest: seq<Attr>)
    ensures NumbersFine([a] + rest) <==> NumbersFine([a]) && NumbersFine(rest)
  {
    assert ([a] + rest)[1..] == rest && [a][1..] == [];
  }

  lemma {:induction false} CoordinatesFineCons(cfg: Config, a: Attr, rest: seq<Attr>)
    ensures CoordinatesFine(cfg, [a] + rest) <==> CoordinatesFine(cfg, [a]) && CoordinatesFine(cfg, rest)
  {
    assert ([a] + rest)[1..] == rest && [a][1..] == [];
  }

  /** Attributes read onto an object: the last id, changeset and version. */
  function WithNumbers(e: Element, attrs: seq<Attr>): Element {
    e.(id := Latest(NumberIn(LastValue(attrs, "id")), e.id),
       changeset := Latest(NumberIn(LastValue(attrs, "changeset")), e.changeset),
       version := Latest(VersionIn(LastValue(attrs, "version")), e.version))
  }

  function WithCoordinates(cfg: Config, e: Element, attrs: seq<Attr>): Element {
    e.(lat := Latest(DegreesIn(cfg, LastValue(attrs, "lat")), e.lat),
       lon := Latest(DegreesIn(cfg, LastValue(attrs, "lon")), e.lon))
  }

  /** Texts that are fine can be read, also the last of a name. */
  lemma {:induction false} LastIsFine(attrs: seq<Attr>)
    requires NumbersFine(attrs)
    ensures LastValue(attrs, "id").Some? ==> NonZero(LastValue(attrs, "id").value)
    ensures LastValue(attrs, "changeset").Some? ==> Positive(LastValue(attrs, "changeset").value)
    ensures LastValue(attrs, "version").Some? ==> NonNegative(LastValue(attrs, "version").value)
    decreases |attrs|
  {
    if attrs != [] {
      assert attrs == [attrs[0]] + attrs[1..];
      NumbersFineCons(attrs[0], attrs[1..]);
      LastIsFine(attrs[1..]);
      assert [attrs[0]][0] == attrs[0];
    }
  }

  lemma {:induction false} LastIsWithin(cfg: Config, attrs: seq<Attr>)
    requires CoordinatesFine(cfg, attrs)
    ensures LastValue(attrs, "lat").Some? ==> WithinDegrees(cfg, LastValue(attrs, "lat").value, 90.0)
    ensures LastValue(attrs, "lon").Some? ==> WithinDegrees(cfg, LastValue(attrs, "lon").value, 180.0)
    decreases |attrs|
  {
    if attrs != [] {
      assert attrs == [attrs[0]] + attrs[1..];
      CoordinatesFineCons(cfg, attrs[0], attrs[1..]);
      LastIsWithin(cfg, attrs[1..]);
      assert [attrs[0]][0] == attrs[0];
    }
  }

  lemma {:induction false} OneNumber(cfg: Config, e: Element, a: Attr)
    ensures ObjectAttr(cfg, e, a) == if NumbersFine([a]) then Ok(WithNumbers(e, [a])) else Err(BadRequest)
  {
    LastOfOne(a, "id");
    LastOfOne(a, "changeset");
    LastOfOne(a, "version");
    assert [a][0] == a;
  }

  lemma {:induction false} OneCoordinate(cfg: Config, e: Element, a: Attr)
    ensures NodeAttr(cfg, e, a) ==
      if CoordinatesFine(cfg, [a]) then Ok(WithCoordinates(cfg, e, [a])) else Err(BadRequest)
  {
    LastOfOne(a, "lat");
    LastOfOne(a, "lon");
    assert [a][0] == a;
  }

  lemma {:induction false} NumbersTwice(e: Element, a: Attr, rest: seq<Attr>)
    requires NumbersFine([a]) && NumbersFine(rest)
    ensures WithNumbers(WithNumbers(e, [a]), rest) == WithNumbers(e, [a] + rest)
  {
    LastIsFine(rest);
    LastOfMore(a, rest, "id");
    LastOfMore(a, rest, "changeset");
    LastOfMore(a, rest, "version");
  }

  lemma {:induction false} CoordinatesTwice(cfg: Config, e: Element, a: Attr, rest: seq<Attr>)
    requires CoordinatesFine(cfg, [a]) && CoordinatesFine(cfg, rest)
    ensures WithCoordinates(cfg, WithCoordinates(cfg, e, [a]), rest) == WithCoordinates(cfg, e, [a] + rest)
  {
    LastIsWithin(cfg, rest);
    LastOfMore(a, rest, "lat");
    LastOfMore(a, rest, "lon");
  }

  /** For every attribute list: which are refused, and what the others store, by name. */
  lemma {:induction false} NumbersRead(cfg: Config, e: Element, attrs: seq<Attr>)
    ensures FoldAttrs(cfg, ObjectAttr, e, attrs) ==
      if NumbersFine(attrs) then Ok(WithNumbers(e, attrs)) else Err(BadRequest)
    decreases |attrs|
  {
    if attrs != [] {
      var a, rest := attrs[0], attrs[1..];
      assert attrs == [a] + rest;
      OneNumber(cfg, e, a);
      NumbersFineCons(a, rest);
      if NumbersFine([a]) {
        NumbersRead(cfg, WithNumbers(e, [a]), rest);
        if NumbersFine(rest) {
          NumbersTwice(e, a, rest);
        }
      }
    }
  }

  lemma {:induction false} CoordinatesRead(cfg: Config, e: Element, attrs: seq<Attr>)
    ensures FoldAttrs(cfg, NodeAttr, e, attrs) ==
      if CoordinatesFine(cfg, attrs) then Ok(WithCoordinates(cfg, e, attrs)) else Err(BadRequest)
    decreases |attrs|
  {
    if attrs != [] {
      var a, rest := attrs[0], attrs[1..];
      assert attrs == [a] + rest;
      OneCoordinate(cfg, e, a);
      CoordinatesFineCons(cfg, a, rest);
      if CoordinatesFine(cfg, [a]) {
        CoordinatesRead(cfg, WithCoordinates(cfg, e, [a]), rest);
        if CoordinatesFine(cfg, rest) {
          CoordinatesTwice(cfg, e, a, rest);
        }
      }
    }
  }

  // ---------- The start tag of an object ----------

  /** The attributes that an object of the operation needs. */
  predicate Openable(cfg: Config, typ: ObjectType, op: Operation, attrs: seq<Attr>) {
    && NumbersFine(attrs) && LastValue(attrs, "id").Some? && LastValue(attrs, "changeset").Some?
    && (!op.Create? ==> VersionIn(LastValue(attrs, "version")).Some?
                        && VersionIn(LastValue(attrs, "version")).value >= 1)
    && (typ.Node? ==> CoordinatesFine(cfg, attrs))
  }

  /** The object that its start tag gives: ids and version by name, coordinates of nodes by name, nothing else yet. */
  function Opened(cfg: Config, typ: ObjectType, op: Operation, attrs: seq<Attr>): Element {
    Element(typ,
            NumberIn(LastValue(attrs, "changeset")),
            NumberIn(LastValue(attrs, "id")),
            if op.Create? then Some(0) else VersionIn(LastValue(attrs, "version")),
            map[],
            if typ.Node? then DegreesIn(cfg, LastValue(attrs, "lat")) else None,
            if typ.Node? then DegreesIn(cfg, LastValue(attrs, "lon")) else None,
            [],
            [])
  }

  lemma {:induction false} OpenObjectExactly(cfg: Config, typ: ObjectType, op: Operation, attrs: seq<Attr>)
    requires !op.Undefined?
    ensures OpenObject(cfg, typ, op, attrs) ==
      if Openable(cfg, typ, op, attrs) then Ok(Opened(cfg, typ, op, attrs)) else Err(BadRequest)
  {
    NumbersRead(cfg, NewElement(typ), attrs);
    if NumbersFine(attrs) {
      LastIsFine(attrs);
      var init := InitObject(cfg, typ, op, attrs);
      if init.Ok? && typ.Node? {
        CoordinatesRead(cfg, init.value, attrs);
      }
    }
  }

  // ---------- Parts ----------

  predicate TagFine(cfg: Config, attrs: seq<Attr>) {
    var k, v := LastValue(attrs, "k"), LastValue(attrs, "v");
    k.Some? && v.Some? && k.value != "" && TextFits(cfg, k.value) && TextFits(cfg, v.value)
  }

  lemma {:induction false} KeyValueRead(cfg: Config, kv: KeyValue, attrs: seq<Attr>)
    ensures FoldAttrs(cfg, TagAttr, kv, attrs)
      == Ok(KeyValue(Latest(LastValue(attrs, "k"), kv.k), Latest(LastValue(attrs, "v"), kv.v)))
    decreases |attrs|
  {
    if attrs != [] {
      KeyValueRead(cfg, TagAttr(cfg, kv, attrs[0]).value, attrs[1..]);
    }
  }

  /** A tag maps its `k` text to its `v` text; a key may come once. */
  lemma {:induction false} TagPartExactly(cfg: Config, e: Element, attrs: seq<Attr>)
    ensures TagPart(cfg, e, attrs) ==
      if TagFine(cfg, attrs) && LastValue(attrs, "k").value !in e.tags then
        Ok(e.(tags := e.tags[LastValue(attrs, "k").value := LastValue(attrs, "v").value]))
      else Err(BadRequest)
  {
    KeyValueRead(cfg, KeyValue(None, None), attrs);
  }

  predicate RefsFine(attrs: seq<Attr>) {
    attrs == [] || ((attrs[0].name == "ref" ==> NonZero(attrs[0].value)) && RefsFine(attrs[1..]))
  }

  /** The numbers of all `ref` attributes, in order. */
  function Refs(attrs: seq<Attr>): seq<int> {
    if attrs == [] then []
    else
      var ref := if attrs[0].name == "ref" then NumberIn(Some(attrs[0].value)) else None;
      (if ref.Some? then [ref.value] else []) + Refs(attrs[1..])
  }

  lemma {:induction false} RefsFineCons(a: Attr, rest: seq<Attr>)
    ensures RefsFine([a] + rest) <==> (a.name == "ref" ==> NonZero(a.value)) && RefsFine(rest)
  {
    assert ([a] + rest)[1..] == rest;
  }

  lemma {:induction false} OneRef(cfg: Config, w: WayRef, a: Attr)
    ensures NdAttr(cfg, w, a) ==
      if a.name == "ref" ==> NonZero(a.value) then
        Ok(WayRef(w.way.(nodes := w.way.nodes + Refs([a])), w.found || a.name == "ref"))
      else Err(BadRequest)
  {
    assert [a][1..] == [] && Refs([]) == [] && w.way.nodes + [] == w.way.nodes;
    if a.name == "ref" && NonZero(a.value) {
      var v := NumberIn(Some(a.value)).value;
      assert Refs([a]) == [v];
    }
  }

  lemma {:induction false} RefsCons(before: seq<int>, a: Attr, rest: seq<Attr>)
    ensures before + Refs([a] + rest) == before + Refs([a]) + Refs(rest)
  {
    assert ([a] + rest)[1..] == rest && [a][1..] == [] && Refs([]) == [];
  }

  lemma {:induction false} RefsRead(cfg: Config, w: WayRef, attrs: seq<Attr>)
    ensures FoldAttrs(cfg, NdAttr, w, attrs) ==
      if RefsFine(attrs) then
        Ok(WayRef(w.way.(nodes := w.way.nodes + Refs(attrs)), w.found || LastValue(attrs, "ref").Some?))
      else Err(BadRequest)
    decreases |attrs|
  {
    if attrs == [] {
      assert w.way.nodes + [] == w.way.nodes;
    } else {
      var a, rest := attrs[0], attrs[1..];
      assert attrs == [a] + rest;
      RefsFineCons(a, rest);
      var first := NdAttr(cfg, w, a);
      OneRef(cfg, w, a);
      RefsCons(w.way.nodes, a, rest);
      LastOfMore(a, rest, "ref");
      LastOfOne(a, "ref");
      if first.Ok? {
        RefsRead(cfg, first.value, rest);
      }
    }
  }

  predicate NdFine(attrs: seq<Attr>) { RefsFine(attrs) && LastValue(attrs, "ref").Some? }

  lemma {:induction false} NdPartExactly(cfg: Config, e: Element, attrs: seq<Attr>)
    ensures NdPart(cfg, e, attrs) ==
      if NdFine(attrs) then Ok(e.(nodes := e.nodes + Refs(attrs))) else Err(BadRequest)
  {
    RefsRead(cfg, WayRef(e, false), attrs);
  }

  /** The type that a text names, in upper or lower case. */
  function TypeIn(text: Option<string>): Option<ObjectType> {
    if text.None? then None
    else
      var t := text.value;
      if |t| == 4 && t[0] in "nN" && t[1] in "oO" && t[2] in "dD" && t[3] in "eE" then Some(Node)
      else if |t| == 3 && t[0] in "wW" && t[1] in "aA" && t[2] in "yY" then Some(Way)
      else if |t| == 8 && t[0] in "rR" && t[1] in "eE" && t[2] in "lL" && t[3] in "aA" && t[4] in "tT"
           && t[5] in "iI" && t[6] in "oO" && t[7] in "nN" then Some(Relation)
      else None
  }

  lemma {:induction false} TypeTexts(m: Member, text: string)
    ensures SetMemberType(m, text) ==
      if TypeIn(Some(text)).Some? then Ok(m.(typ := TypeIn(Some(text)))) else Err(BadRequest)
  {
    assert |"Node"| == 4 && |"Way"| == 3 && |"Relation"| == 8;
  }

  predicate MemberTextsFine(cfg: Config, attrs: seq<Attr>) {
    attrs == [] ||
    (&& (attrs[0].name == "type" ==> TypeIn(Some(attrs[0].value)).Some?)
     && (attrs[0].name == "ref" ==> NonZero(attrs[0].value))
     && (attrs[0].name == "role" ==> TextFits(cfg, attrs[0].value))
     && MemberTextsFine(cfg, attrs[1..]))
  }

  function TextOr(text: Option<string>, before: string): string { if text.Some? then text.value else before }

  function MemberWith(m: Member, attrs: seq<Attr>): Member {
    Member(Latest(TypeIn(LastValue(attrs, "type")), m.typ), Latest(NumberIn(LastValue(attrs, "ref")), m.ref),
           TextOr(LastValue(attrs, "role"), m.role))
  }

  lemma {:induction false} MemberTextsFineCons(cfg: Config, a: Attr, rest: seq<Attr>)
    ensures MemberTextsFine(cfg, [a] + rest) <==> MemberTextsFine(cfg, [a]) && MemberTextsFine(cfg, rest)
  {
    assert ([a] + rest)[1..] == rest && [a][1..] == [];
  }

  lemma {:induction false} LastMemberText(cfg: Config, attrs: seq<Attr>)
    requires MemberTextsFine(cfg, attrs)
    ensures LastValue(attrs, "type").Some? ==> TypeIn(LastValue(attrs, "type")).Some?
    ensures LastValue(attrs, "ref").Some? ==> NonZero(LastValue(attrs, "ref").value)
    decreases |attrs|
  {
    if attrs != [] {
      assert attrs == [attrs[0]] + attrs[1..];
      MemberTextsFineCons(cfg, attrs[0], attrs[1..]);
      LastMemberText(cfg, attrs[1..]);
      assert [attrs[0]][0] == attrs[0];
    }
  }

  lemma {:induction false} OneMemberText(cfg: Config, m: Member, a: Attr)
    ensures MemberAttr(cfg, m, a) == if MemberTextsFine(cfg, [a]) then Ok(MemberWith(m, [a])) else Err(BadRequest)
  {
    LastOfOne(a, "type");
    LastOfOne(a, "ref");
    LastOfOne(a, "role");
    assert [a][0] == a;
    TypeTexts(m, a.value);
  }

  lemma {:induction false} MemberTwice(cfg: Config, m: Member, a: Attr, rest: seq<Attr>)
    requires MemberTextsFine(cfg, [a]) && MemberTextsFine(cfg, rest)
    ensures MemberWith(MemberWith(m, [a]), rest) == MemberWith(m, [a] + rest)
  {
    LastMemberText(cfg, rest);
    LastOfMore(a, rest, "type");
    LastOfMore(a, rest, "ref");
    LastOfMore(a, rest, "role");
  }

  lemma {:induction false} MemberRead(cfg: Config, m: Member, attrs: seq<Attr>)
    ensures FoldAttrs(cfg, MemberAttr, m, attrs) ==
      if MemberTextsFine(cfg, attrs) then Ok(MemberWith(m, attrs)) else Err(BadRequest)
    decreases |attrs|
  {
    if attrs != [] {
      var a, rest := attrs[0], attrs[1..];
      assert attrs == [a] + rest;
      OneMemberText(cfg, m, a);
      MemberTextsFineCons(cfg, a, rest);
      if MemberTextsFine(cfg, [a]) {
        MemberRead(cfg, MemberWith(m, [a]), rest);
        if MemberTextsFine(cfg, rest) {
          MemberTwice(cfg, m, a, rest);
        }
      }
    }
  }

  predicate MemberFine(cfg: Config, attrs: seq<Attr>) {
    MemberTextsFine(cfg, attrs) && LastValue(attrs, "type").Some? && LastValue(attrs, "ref").Some?
  }

  /** The member that a part gives: type, reference and role by name, no role where none is given. */
  function MemberIn(attrs: seq<Attr>): Member {
    Member(TypeIn(LastValue(attrs, "type")), NumberIn(LastValue(attrs, "ref")), TextOr(LastValue(attrs, "role"), ""))
  }

  lemma {:induction false} MemberPartExactly(cfg: Config, e: Element, attrs: seq<Attr>)
    ensures MemberPart(cfg, e, attrs) ==
      if MemberFine(cfg, attrs) then Ok(e.(members := e.members + [MemberIn(attrs)])) else Err(BadRequest)
  {
    MemberRead(cfg, Member(None, None, ""), attrs);
    if MemberTextsFine(cfg, attrs) {
      LastMemberText(cfg, attrs);
    }
  }

  // ---------- The parts of an object ----------

  /** A part is empty, and it is fine for what its name makes of it in an object of the type. */
  predicate PartFine(cfg: Config, typ: ObjectType, part: Xml) {
    && part.children == []
    && (part.tag.name == "tag" ==> TagFine(cfg, part.tag.attrs))
    && (part.tag.name == "nd" && typ.Way? ==> NdFine(part.tag.attrs))
    && (part.tag.name == "member" && typ.Relation? ==> MemberFine(cfg, part.tag.attrs))
  }

  /** The parts are fine one by one, and no key is one of `keys` or comes twice. */
  predicate PartsFine(cfg: Config, typ: ObjectType, keys: set<string>, parts: seq<Xml>)
    decreases |parts|
  {
    parts == [] ||
    (&& PartFine(cfg, typ, parts[0])
     && (parts[0].tag.name == "tag" ==> LastValue(parts[0].tag.attrs, "k").value !in keys)
     && PartsFine(cfg, typ, keys + KeysOf(parts[0]), parts[1..]))
  }

  function KeysOf(part: Xml): set<string> {
    var k := LastValue(part.tag.attrs, "k");
    if part.tag.name == "tag" && k.Some? then {k.value} else {}
  }

  function TagsWith(tags: map<string, string>, parts: seq<Xml>): map<string, string>
    decreases |parts|
  {
    if parts == [] then tags
    else
      var k, v := LastValue(parts[0].tag.attrs, "k"), LastValue(parts[0].tag.attrs, "v");
      var more := if parts[0].tag.name == "tag" && k.Some? && v.Some? then tags[k.value := v.value] else tags;
      TagsWith(more, parts[1..])
  }

  /** The `ref` numbers of all `nd` parts, in document order. */
  function NodesIn(parts: seq<Xml>): seq<int> {
    if parts == [] then []
    else (if parts[0].tag.name == "nd" then Refs(parts[0].tag.attrs) else []) + NodesIn(parts[1..])
  }

  /** The members of all `member` parts, in document order. */
  function MembersIn(parts: seq<Xml>): seq<Member> {
    if parts == [] then []
    else (if parts[0].tag.name == "member" then [MemberIn(parts[0].tag.attrs)] else []) + MembersIn(parts[1..])
  }

  function WithParts(e: Element, parts: seq<Xml>): Element {
    e.(tags := TagsWith(e.tags, parts),
       nodes := e.nodes + if e.typ.Way? then NodesIn(parts) else [],
       members := e.members + if e.typ.Relation? then MembersIn(parts) else [])
  }

  lemma {:induction false} OnePart(cfg: Config, e: Element, part: Xml)
    requires part.children == []
    ensures AddPart(cfg, e.typ, e, part.tag) ==
      if PartFine(cfg, e.typ, part) && (part.tag.name == "tag" ==> LastValue(part.tag.attrs, "k").value !in e.tags) then
        Ok(WithParts(e, [part]))
      else Err(BadRequest)
  {
    TagPartExactly(cfg, e, part.tag.attrs);
    NdPartExactly(cfg, e, part.tag.attrs);
    MemberPartExactly(cfg, e, part.tag.attrs);
    OnePartGives(e, part);
  }

  lemma {:induction false} OnePartGives(e: Element, part: Xml)
    ensures WithParts(e, [part]) ==
      (var k, v := LastValue(part.tag.attrs, "k"), LastValue(part.tag.attrs, "v");
       if part.tag.name == "tag" then if k.Some? && v.Some? then e.(tags := e.tags[k.value := v.value]) else e
       else if part.tag.name == "nd" && e.typ.Way? then e.(nodes := e.nodes + Refs(part.tag.attrs))
       else if part.tag.name == "member" && e.typ.Relation? then e.(members := e.members + [MemberIn(part.tag.attrs)])
       else e)
  {
    assert [part][1..] == [];
    assert NodesIn([]) == [] && MembersIn([]) == [] && TagsWith(e.tags, []) == e.tags;
    var refs, member := Refs(part.tag.attrs), MemberIn(part.tag.attrs);
    assert refs + [] == refs && [member] + [] == [member];
    assert NodesIn([part]) == if part.tag.name == "nd" then refs else [];
    assert MembersIn([part]) == if part.tag.name == "member" then [member] else [];
    assert e.nodes + [] == e.nodes && e.members + [] == e.members;
    assert |"tag"| == 3 && |"nd"| == 2 && |"member"| == 6;
    var nodes := if e.typ.Way? then NodesIn([part]) else [];
    var members := if e.typ.Relation? then MembersIn([part]) else [];
    assert nodes == if part.tag.name == "nd" && e.typ.Way? then refs else [];
    assert members == if part.tag.name == "member" && e.typ.Relation? then [member] else [];
    var k, v := LastValue(part.tag.attrs, "k"), LastValue(part.tag.attrs, "v");
    var tags := if part.tag.name == "tag" && k.Some? && v.Some? then e.tags[k.value := v.value] else e.tags;
    assert TagsWith(e.tags, [part]) == TagsWith(tags, []) == tags;
    assert WithParts(e, [part]) == e.(tags := tags, nodes := e.nodes + nodes, members := e.members + members);
    assert e == e.(tags := e.tags, nodes := e.nodes, members := e.members);
  }

  lemma {:induction false} TagsTwice(tags: map<string, string>, part: Xml, rest: seq<Xml>)
    ensures TagsWith(TagsWith(tags, [part]), rest) == TagsWith(tags, [part] + rest)
  {
    assert ([part] + rest)[1..] == rest && [part][1..] == [];
  }

  lemma {:induction false} NodesTwice(before: seq<int>, part: Xml, rest: seq<Xml>)
    ensures before + NodesIn([part]) + NodesIn(rest) == before + NodesIn([part] + rest)
  {
    assert ([part] + rest)[1..] == rest && [part][1..] == [] && NodesIn([]) == [];
  }

  lemma {:induction false} MembersTwice(before: seq<Member>, part: Xml, rest: seq<Xml>)
    ensures before + MembersIn([part]) + MembersIn(rest) == before + MembersIn([part] + rest)
  {
    assert ([part] + rest)[1..] == rest && [part][1..] == [] && MembersIn([]) == [];
  }

  lemma {:induction false} PartsTwice(e: Element, part: Xml, rest: seq<Xml>)
    ensures WithParts(WithParts(e, [part]), rest) == WithParts(e, [part] + rest)
  {
    TagsTwice(e.tags, part, rest);
    NodesTwice(e.nodes, part, rest);
    MembersTwice(e.members, part, rest);
    assert e.nodes + [] + [] == e.nodes + [] && e.members + [] + [] == e.members + [];
  }

  lemma {:induction false} KeysAfter(e: Element, part: Xml)
    requires part.tag.name == "tag" ==> LastValue(part.tag.attrs, "k").Some? && LastValue(part.tag.attrs, "v").Some?
    ensures WithParts(e, [part]).tags.Keys == e.tags.Keys + KeysOf(part) && WithParts(e, [part]).typ == e.typ
  {
    OnePartGives(e, part);
  }

  /** For every list of parts: which are refused, and what the others add, in document order. */
  lemma {:induction false} PartsRead(cfg: Config, e: Element, parts: seq<Xml>)
    ensures PartsMeaning(cfg, e.typ, e, parts) ==
      if PartsFine(cfg, e.typ, e.tags.Keys, parts) then Ok(WithParts(e, parts)) else Err(BadRequest)
    decreases |parts|
  {
    if parts == [] {
      assert e.nodes + [] == e.nodes && e.members + [] == e.members;
    } else {
      var part, rest := parts[0], parts[1..];
      assert parts == [part] + rest;
      if part.children != [] {
        TooDeep(cfg, e, part);
      } else {
        OnePart(cfg, e, part);
        if AddPart(cfg, e.typ, e, part.tag).Ok? {
          KeysAfter(e, part);
          PartsRead(cfg, WithParts(e, [part]), rest);
          PartsTwice(e, part, rest);
        }
      }
    }
  }

  lemma {:induction false} TooDeep(cfg: Config, e: Element, part: Xml)
    requires part.children != []
    ensures AddPart(cfg, e.typ, e, part.tag).Err? ==> AddPart(cfg, e.typ, e, part.tag) == Err(BadRequest)
  {
    TagPartExactly(cfg, e, part.tag.attrs);
    NdPartExactly(cfg, e, part.tag.attrs);
    MemberPartExactly(cfg, e, part.tag.attrs);
  }

  // ---------- Tags as a map ----------

  predicate Maps(tags: map<string, string>, k: string, v: string) { k in tags && tags[k] == v }

  /** The object maps a key to a value exactly if some `tag` part gives both: its `k` text and its `v` text. */
  lemma {:induction false} TagsAreParts(cfg: Config, typ: ObjectType, tags: map<string, string>, parts: seq<Xml>,
                                        k: string, v: string)
    requires PartsFine(cfg, typ, tags.Keys, parts)
    ensures Maps(TagsWith(tags, parts), k, v) <==> Maps(tags, k, v) || GivesTag(parts, k, v)
    decreases |parts|
  {
    if parts != [] {
      var part, rest := parts[0], parts[1..];
      var key, value := LastValue(part.tag.attrs, "k"), LastValue(part.tag.attrs, "v");
      var more := if part.tag.name == "tag" then tags[key.value := value.value] else tags;
      assert more.Keys == tags.Keys + KeysOf(part);
      TagsAreParts(cfg, typ, more, rest, k, v);
      GivesTagCons(parts, k, v);
    }
  }

  predicate GivesTag(parts: seq<Xml>, k: string, v: string) {
    exists i :: 0 <= i < |parts| && parts[i].tag.name == "tag"
      && LastValue(parts[i].tag.attrs, "k") == Some(k) && LastValue(parts[i].tag.attrs, "v") == Some(v)
  }

  lemma {:induction false} GivesTagCons(parts: seq<Xml>, k: string, v: string)
    requires parts != []
    ensures GivesTag(parts, k, v) <==>
      || (parts[0].tag.name == "tag" && LastValue(parts[0].tag.attrs, "k") == Some(k)
          && LastValue(parts[0].tag.attrs, "v") == Some(v))
      || GivesTag(parts[1..], k, v)
  {
    var rest := parts[1..];
    if GivesTag(rest, k, v) {
      var i :| 0 <= i < |rest| && rest[i].tag.name == "tag"
        && LastValue(rest[i].tag.attrs, "k") == Some(k) && LastValue(rest[i].tag.attrs, "v") == Some(v);
      assert parts[i + 1] == rest[i];
    }
    if GivesTag(parts, k, v) {
      var i :| 0 <= i < |parts| && parts[i].tag.name == "tag"
        && LastValue(parts[i].tag.attrs, "k") == Some(k) && LastValue(parts[i].tag.attrs, "v") == Some(v);
      assert i > 0 ==> rest[i - 1] == parts[i];
    }
  }

  // ---------- Objects ----------

  /** The operation that a block's name gives. */
  function OperationOf(name: string): Option<Operation> {
    if name == "create" then Some(Create)
    else if name == "modify" then Some(Modify)
    else if name == "delete" then Some(Delete)
    else None
  }

  function TypeOfName(name: string): Option<ObjectType> {
    if name == "node" then Some(Node)
    else if name == "way" then Some(Way)
    else if name == "relation" then Some(Relation)
    else None
  }

  /** The object that an element describes. */
  function Described(cfg: Config, typ: ObjectType, op: Operation, o: Xml): Element {
    WithParts(Opened(cfg, typ, op, o.tag.attrs), o.children)
  }

  /** What a complete object must satisfy, with the status of the first thing that is wrong. */
  function CompleteFor(cfg: Config, op: Operation, e: Element): Outcome {
    if !op.Delete? && e.typ.Way? && e.nodes == [] then Fail(PreconditionFailed)
    else if
      || (!op.Delete? && e.typ.Way? && |e.nodes| > cfg.wayMaxNodes)
      || (!op.Delete? && e.typ.Relation? && cfg.relationMaxMembers.Some? && |e.members| > cfg.relationMaxMembers.value)
      || (cfg.elementMaxTags.Some? && |e.tags| > cfg.elementMaxTags.value)
      || (op.Create? && e.id.Some? && e.id.value >= 0)
      || (!op.Delete? && e.typ.Node? && (e.lat.None? || e.lon.None?)) then Fail(BadRequest)
    else Pass
  }

  lemma {:induction false} FinishExactly(cfg: Config, e: Element, op: Operation, ifUnused: bool)
    requires !op.Undefined? && e.changeset.Some? && e.id.Some? && e.version.Some?
    ensures FinishObject(cfg, e, op, ifUnused) ==
      if CompleteFor(cfg, op, e).Fail? then Err(CompleteFor(cfg, op, e).error)
      else Ok(Object(ParsedChange(op, e, ifUnused)))
  {
  }

  /** One object element, for every operation and flag: what is wrong with it first, or the change that it gives. */
  function ObjectReading(cfg: Config, op: Operation, ifUnused: bool, o: Xml): Result<Callback> {
    var typ := TypeOfName(o.tag.name);
    if typ.None? || !Openable(cfg, typ.value, op, o.tag.attrs) || !PartsFine(cfg, typ.value, {}, o.children) then
      Err(BadRequest)
    else
      var e := Described(cfg, typ.value, op, o);
      if CompleteFor(cfg, op, e).Fail? then Err(CompleteFor(cfg, op, e).error)
      else Ok(Object(ParsedChange(op, e, ifUnused)))
  }

  lemma {:induction false} ObjectRead(cfg: Config, op: Operation, ifUnused: bool, o: Xml)
    requires !op.Undefined?
    ensures ObjectMeaning(cfg, op, ifUnused, o) == ObjectReading(cfg, op, ifUnused, o)
  {
    var typ := TypeOfName(o.tag.name);
    TypesNamed(o.tag.name);
    if typ.Some? {
      TypedObjectRead(cfg, typ.value, op, ifUnused, o);
    }
  }

  lemma {:induction false} TypesNamed(name: string)
    ensures TypeNamed(name) == if TypeOfName(name).None? then Err(BadRequest) else Ok(TypeOfName(name).value)
  {
  }

  /** The meaning of an object element of a type, step by step. */
  lemma {:induction false} TypedObjectRead(cfg: Config, typ: ObjectType, op: Operation, ifUnused: bool, o: Xml)
    requires !op.Undefined? && TypeOfName(o.tag.name) == Some(typ) && TypeNamed(o.tag.name) == Ok(typ)
    ensures ObjectMeaning(cfg, op, ifUnused, o) == ObjectReading(cfg, op, ifUnused, o)
  {
    OpenObjectExactly(cfg, typ, op, o.tag.attrs);
    if !Openable(cfg, typ, op, o.tag.attrs) {
      assert ObjectMeaning(cfg, op, ifUnused, o) == Err(BadRequest);
    } else {
      OpenedRead(cfg, typ, op, ifUnused, o);
      var e, f := Opened(cfg, typ, op, o.tag.attrs), Described(cfg, typ, op, o);
      assert ObjectMeaning(cfg, op, ifUnused, o) ==
        var parts := PartsMeaning(cfg, typ, e, o.children);
        if parts.Err? then Err(parts.error) else FinishObject(cfg, parts.value, op, ifUnused);
    }
  }

  lemma {:induction false} OpenedRead(cfg: Config, typ: ObjectType, op: Operation, ifUnused: bool, o: Xml)
    requires !op.Undefined? && Openable(cfg, typ, op, o.tag.attrs)
    ensures var e := Opened(cfg, typ, op, o.tag.attrs); var f := Described(cfg, typ, op, o);
      && PartsMeaning(cfg, typ, e, o.children)
        == (if PartsFine(cfg, typ, {}, o.children) then Ok(f) else Err(BadRequest))
      && FinishObject(cfg, f, op, ifUnused) ==
           if CompleteFor(cfg, op, f).Fail? then Err(CompleteFor(cfg, op, f).error)
           else Ok(Object(ParsedChange(op, f, ifUnused)))
  {
    var e := Opened(cfg, typ, op, o.tag.attrs);
    LastIsFine(o.tag.attrs);
    assert e.tags.Keys == {};
    PartsRead(cfg, e, o.children);
    FinishExactly(cfg, WithParts(e, o.children), op, ifUnused);
  }

  // ---------- Documents ----------

  /** An object element with the start tag of its block. */
  datatype Placed = Placed(block: Tag, element: Xml)

  function InBlock(block: Tag, objects: seq<Xml>): seq<Placed> {
    if objects == [] then [] else [Placed(block, objects[0])] + InBlock(block, objects[1..])
  }

  /** All object elements, in document order. */
  function ObjectsOf(blocks: seq<Xml>): seq<Placed> {
    if blocks == [] then [] else InBlock(blocks[0].tag, blocks[0].children) + ObjectsOf(blocks[1..])
  }

  predicate Conditional(block: Tag) { block.name == "delete" && HasIfUnused(block.attrs) }

  function Reading(cfg: Config, p: Placed): Result<Callback> {
    if OperationOf(p.block.name).None? then Err(BadRequest)
    else ObjectReading(cfg, OperationOf(p.block.name).value, Conditional(p.block), p.element)
  }

  function Results(cfg: Config, ps: seq<Placed>): seq<Result<Callback>> {
    if ps == [] then [] else [Reading(cfg, ps[0])] + Results(cfg, ps[1..])
  }

  predicate AllOk(rs: seq<Result<Callback>>) { forall i :: 0 <= i < |rs| ==> rs[i].Ok? }

  function Values(rs: seq<Result<Callback>>): seq<Callback>
    requires AllOk(rs)
  {
    seq(|rs|, i requires 0 <= i < |rs| => rs[i].value)
  }

  /** Every element can be read. */
  predicate AllRead(cfg: Config, ps: seq<Placed>) { AllOk(Results(cfg, ps)) }

  function Readings(cfg: Config, ps: seq<Placed>): seq<Callback>
    requires AllRead(cfg, ps)
  {
    Values(Results(cfg, ps))
  }

  lemma {:induction false} ResultAt(cfg: Config, ps: seq<Placed>, i: nat)
    requires i < |ps|
    ensures |Results(cfg, ps)| == |ps| && Results(cfg, ps)[i] == Reading(cfg, ps[i])
    decreases |ps|
  {
    if |ps| == 1 {
      assert Results(cfg, ps[1..]) == [];
    } else {
      ResultAt(cfg, ps[1..], if i > 0 then i - 1 else 0);
    }
  }

  lemma {:induction false} ResultsConcat(cfg: Config, a: seq<Placed>, b: seq<Placed>)
    ensures Results(cfg, a + b) == Results(cfg, a) + Results(cfg, b)
    decreases |a|
  {
    if a == [] {
      assert a + b == b;
    } else {
      assert (a + b)[1..] == a[1..] + b && (a + b)[0] == a[0];
      ResultsConcat(cfg, a[1..], b);
    }
  }

  lemma {:induction false} ValuesConcat(a: seq<Result<Callback>>, b: seq<Result<Callback>>)
    ensures AllOk(a + b) <==> AllOk(a) && AllOk(b)
    ensures AllOk(a + b) ==> Values(a + b) == Values(a) + Values(b)
  {
    var c := a + b;
    assert forall i :: 0 <= i < |a| ==> c[i] == a[i];
    forall i | 0 <= i < |b|
      ensures c[|a| + i] == b[i]
    {
    }
    if AllOk(c) {
      forall i | 0 <= i < |b|
        ensures b[i].Ok?
      {
        assert c[|a| + i] == b[i];
      }
    }
  }

  lemma {:induction false} OneValue(r: Result<Callback>)
    ensures AllOk([r]) <==> r.Ok?
    ensures r.Ok? ==> Values([r]) == [r.value]
  {
    assert [r][0] == r;
  }

  lemma {:induction false} AllReadConcat(cfg: Config, a: seq<Placed>, b: seq<Placed>)
    ensures AllRead(cfg, a + b) <==> AllRead(cfg, a) && AllRead(cfg, b)
    ensures AllRead(cfg, a + b) ==> Readings(cfg, a + b) == Readings(cfg, a) + Readings(cfg, b)
  {
    ResultsConcat(cfg, a, b);
    ValuesConcat(Results(cfg, a), Results(cfg, b));
  }

  lemma {:induction false} OneRead(cfg: Config, p: Placed)
    ensures AllRead(cfg, [p]) <==> Reading(cfg, p).Ok?
    ensures AllRead(cfg, [p]) ==> Readings(cfg, [p]) == [Reading(cfg, p).value]
  {
    ResultAt(cfg, [p], 0);
    assert Results(cfg, [p]) == [Reading(cfg, p)];
    OneValue(Reading(cfg, p));
  }

  lemma {:induction false} ObjectsRead(cfg: Config, block: Tag, objects: seq<Xml>)
    requires OperationOf(block.name).Some?
    ensures var m := ObjectsMeaning(cfg, OperationOf(block.name).value, Conditional(block), objects);
      && (m.Ok? <==> AllRead(cfg, InBlock(block, objects)))
      && (m.Ok? ==> m.value == Readings(cfg, InBlock(block, objects)))
    decreases |objects|
  {
    if objects != [] {
      var first, rest := Placed(block, objects[0]), InBlock(block, objects[1..]);
      ObjectRead(cfg, OperationOf(block.name).value, Conditional(block), objects[0]);
      ObjectsRead(cfg, block, objects[1..]);
      OneRead(cfg, first);
      AllReadConcat(cfg, [first], rest);
    }
  }

  predicate BlocksNamed(blocks: seq<Xml>) {
    forall i :: 0 <= i < |blocks| ==> OperationOf(blocks[i].tag.name).Some?
  }

  lemma {:induction false} BlocksNamedCons(blocks: seq<Xml>)
    requires blocks != []
    ensures BlocksNamed(blocks) <==> OperationOf(blocks[0].tag.name).Some? && BlocksNamed(blocks[1..])
  {
    assert forall i :: 0 <= i < |blocks[1..]| ==> blocks[1..][i] == blocks[i + 1];
    assert forall i :: 1 <= i < |blocks| ==> blocks[i] == blocks[1..][i - 1];
  }

  lemma {:induction false} OneBlockRead(cfg: Config, block: Xml)
    ensures var m := BlockMeaning(cfg, block); var ps := InBlock(block.tag, block.children);
      && (m.Ok? <==> OperationOf(block.tag.name).Some? && AllRead(cfg, ps))
      && (m.Ok? ==> m.value == Readings(cfg, ps))
  {
    if OperationOf(block.tag.name).Some? {
      ObjectsRead(cfg, block.tag, block.children);
    }
  }

  lemma {:induction false} BlocksRead(cfg: Config, blocks: seq<Xml>)
    ensures var m := BlocksMeaning(cfg, blocks);
      && (m.Ok? <==> BlocksNamed(blocks) && AllRead(cfg, ObjectsOf(blocks)))
      && (m.Ok? ==> m.value == Readings(cfg, ObjectsOf(blocks)))
    decreases |blocks|
  {
    if blocks != [] {
      OneBlockRead(cfg, blocks[0]);
      BlocksRead(cfg, blocks[1..]);
      BlocksNamedCons(blocks);
      AllReadConcat(cfg, InBlock(blocks[0].tag, blocks[0].children), ObjectsOf(blocks[1..]));
    }
  }

  /** What an element in a block gives: every field by the name of the attribute or part that it comes from. */
  ghost predicate Gives(cfg: Config, p: Placed, c: ParsedChange) {
    var attrs, e := p.element.tag.attrs, c.element;
    && OperationOf(p.block.name) == Some(c.op) && c.ifUnused == Conditional(p.block)
    && TypeOfName(p.element.tag.name) == Some(e.typ)
    && e.id == NumberIn(LastValue(attrs, "id"))
    && e.changeset == NumberIn(LastValue(attrs, "changeset"))
    && e.version == (if c.op.Create? then Some(0) else VersionIn(LastValue(attrs, "version")))
    && e.lat == (if e.typ.Node? then DegreesIn(cfg, LastValue(attrs, "lat")) else None)
    && e.lon == (if e.typ.Node? then DegreesIn(cfg, LastValue(attrs, "lon")) else None)
    && e.nodes == (if e.typ.Way? then NodesIn(p.element.children) else [])
    && e.members == (if e.typ.Relation? then MembersIn(p.element.children) else [])
    && forall k, v :: Maps(e.tags, k, v) <==> GivesTag(p.element.children, k, v)
  }

  lemma {:induction false} DescribedTags(cfg: Config, typ: ObjectType, op: Operation, o: Xml)
    requires PartsFine(cfg, typ, {}, o.children)
    ensures forall k, v :: Maps(Described(cfg, typ, op, o).tags, k, v) <==> GivesTag(o.children, k, v)
  {
    var none: map<string, string> := map[];
    assert none.Keys == {};
    forall k, v
      ensures Maps(Described(cfg, typ, op, o).tags, k, v) <==> GivesTag(o.children, k, v)
    {
      TagsAreParts(cfg, typ, none, o.children, k, v);
    }
  }

  lemma {:induction false} ReadingGives(cfg: Config, p: Placed)
    requires Reading(cfg, p).Ok?
    ensures Reading(cfg, p).value.Object? && Gives(cfg, p, Reading(cfg, p).value.change)
  {
    var typ, op := TypeOfName(p.element.tag.name).value, OperationOf(p.block.name).value;
    DescribedTags(cfg, typ, op, p.element);
    assert [] + NodesIn(p.element.children) == NodesIn(p.element.children);
    assert [] + MembersIn(p.element.children) == MembersIn(p.element.children);
  }

  /**
   Which documents are accepted: an `osmChange` of blocks named create, modify and delete, in which every object
   element is fine for its block.
   */
  predicate Acceptable(cfg: Config, root: Xml) {
    root.tag.name == "osmChange" && BlocksNamed(root.children) && AllRead(cfg, ObjectsOf(root.children))
  }

  ghost predicate GivenBy(cfg: Config, p: Placed, c: Callback) { c.Object? && Gives(cfg, p, c.change) }

  /** The start, one change for each object element in document order with what that element gives, and the end. */
  ghost predicate HandsOver(cfg: Config, ps: seq<Placed>, out: seq<Callback>) {
    && |out| == |ps| + 2 && out[0] == StartDocument && out[|ps| + 1] == EndDocument
    && forall i :: 0 <= i < |ps| ==> GivenBy(cfg, ps[i], out[i + 1])
  }

  /**
   For every document: the parser accepts it exactly when it is acceptable, and then hands over exactly what its text
   gives.
   */
  lemma {:induction false} ParserReadsDocument(cfg: Config, root: Xml)
    ensures var r := RunFrom(cfg, INITIAL, Events(root));
      && (r.Ok? <==> Acceptable(cfg, root))
      && (r.Ok? ==> HandsOver(cfg, ObjectsOf(root.children), r.value.out))
  {
    ParserComputesMeaning(cfg, root);
    BlocksRead(cfg, root.children);
    if Acceptable(cfg, root) {
      var inner := Readings(cfg, ObjectsOf(root.children));
      assert DocumentMeaning(cfg, root) == Ok([StartDocument] + inner + [EndDocument]);
      ReadingsHandOver(cfg, ObjectsOf(root.children), [StartDocument] + inner + [EndDocument]);
      assert INITIAL.out + ([StartDocument] + inner + [EndDocument]) == [StartDocument] + inner + [EndDocument];
    }
  }

  lemma {:induction false} ReadingHandsOver(cfg: Config, ps: seq<Placed>, i: nat)
    requires i < |ps| && AllRead(cfg, ps)
    ensures |Readings(cfg, ps)| == |ps|
    ensures GivenBy(cfg, ps[i], Readings(cfg, ps)[i])
  {
    ResultAt(cfg, ps, i);
    var result := Results(cfg, ps)[i];
    assert result.Ok? && Readings(cfg, ps)[i] == result.value;
    ReadingGives(cfg, ps[i]);
  }

  lemma {:induction false} ReadingsHandOver(cfg: Config, ps: seq<Placed>, out: seq<Callback>)
    requires AllRead(cfg, ps)
    requires out == [StartDocument] + Readings(cfg, ps) + [EndDocument]
    ensures HandsOver(cfg, ps, out)
  {
    if ps == [] {
      assert Results(cfg, ps) == [];
    } else {
      ReadingHandsOver(cfg, ps, 0);
    }
    forall i | 0 <= i < |ps|
      ensures GivenBy(cfg, ps[i], out[i + 1])
    {
      ReadingHandsOver(cfg, ps, i);
      assert out[i + 1] == Readings(cfg, ps)[i];
    }
  }
}
