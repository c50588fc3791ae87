/**
 Filling and validating the objects of an osmChange document: the setters take attribute text and refuse bad values,
 and `IsValid` is the check at the end of each object.
 */
module OsmElements {
  import opened Common
  import opened Decimal
  import opened OsmObjects

  /** Outcome of parsing a floating point attribute. */
  datatype RealText = Finite(value: real) | NotFinite | NotNumeric

  /** Configured limits, and the two library calls the setters make. */
  datatype Config = Config(
    wayMaxNodes: nat,
    relationMaxMembers: Option<nat>,
    elementMaxTags: Option<nat>,
    unicodeLength: string -> Option<nat>,
    parseReal: string -> RealText)

  function SetChangeset(e: Element, text: string): Result<Element> {
    match FromChars(text, -MAX_INT64 - 1, MAX_INT64)
    case Number(v) => if v <= 0 then Err(BadRequest) else Ok(e.(changeset := Some(v)))
    case _ => Err(BadRequest)
  }

  /** The 64-bit value is checked, then stored in 32 bits. */
  function SetVersion(e: Element, text: string): Result<Element> {
    match FromChars(text, -MAX_INT64 - 1, MAX_INT64)
    case Number(v) => if v < 0 then Err(BadRequest) else Ok(e.(version := Some(ToUint32(v))))
    case _ => Err(BadRequest)
  }

  function SetId(e: Element, text: string): Result<Element> {
    match FromChars(text, -MAX_INT64 - 1, MAX_INT64)
    case Number(v) => if v == 0 then Err(BadRequest) else Ok(e.(id := Some(v)))
    case _ => Err(BadRequest)
  }

  function SetLat(cfg: Config, e: Element, text: string): Result<Element> {
    match cfg.parseReal(text)
    case Finite(v) => if v < -90.0 || v > 90.0 then Err(BadRequest) else Ok(e.(lat := Some(v)))
    case _ => Err(BadRequest)
  }

  function SetLon(cfg: Config, e: Element, text: string): Result<Element> {
    match cfg.parseReal(text)
    case Finite(v) => if v < -180.0 || v > 180.0 then Err(BadRequest) else Ok(e.(lon := Some(v)))
    case _ => Err(BadRequest)
  }

  function AddWayNode(e: Element, text: string): Result<Element> {
    match FromChars(text, -MAX_INT64 - 1, MAX_INT64)
    case Number(v) => if v == 0 then Err(BadRequest) else Ok(e.(nodes := e.nodes + [v]))
    case _ => Err(BadRequest)
  }

  function AddTag(cfg: Config, e: Element, key: string, value: string): Result<Element> {
    if key == "" then Err(BadRequest)
    else if cfg.unicodeLength(key).None? || cfg.unicodeLength(key).value > 255 then Err(BadRequest)
    else if cfg.unicodeLength(value).None? || cfg.unicodeLength(value).value > 255 then Err(BadRequest)
    else if key in e.tags then Err(BadRequest)
    else Ok(e.(tags := e.tags[key := value]))
  }

  function ToLower(c: char): char { if 'A' <= c <= 'Z' then (c as int + 32) as char else c }

  /** ASCII comparison without case. */
  predicate IEquals(a: string, b: string) {
    |a| == |b| && forall i :: 0 <= i < |a| ==> ToLower(a[i]) == ToLower(b[i])
  }

  function SetMemberType(m: Member, text: string): Result<Member> {
    if IEquals(text, "Node") then Ok(m.(typ := Some(Node)))
    else if IEquals(text, "Way") then Ok(m.(typ := Some(Way)))
    else if IEquals(text, "Relation") then Ok(m.(typ := Some(Relation)))
    else Err(BadRequest)
  }

  function SetMemberRef(m: Member, text: string): Result<Member> {
    match FromChars(text, -MAX_INT64 - 1, MAX_INT64)
    case Number(v) => if v == 0 then Err(BadRequest) else Ok(m.(ref := Some(v)))
    case _ => Err(BadRequest)
  }

  function SetMemberRole(cfg: Config, m: Member, text: string): Result<Member> {
    if cfg.unicodeLength(text).None? || cfg.unicodeLength(text).value > 255 then Err(BadRequest)
    else Ok(m.(role := text))
  }

  function AddMember(e: Element, m: Member): Result<Element> {
    if m.typ.None? || m.ref.None? then Err(BadRequest) else Ok(e.(members := e.members + [m]))
  }

  /** The check common to all objects: `Ok(false)` when a mandatory field is missing. */
  function BaseIsValid(cfg: Config, e: Element, op: Operation): Result<bool> {
    if e.changeset.None? then Err(BadRequest)
    else if cfg.elementMaxTags.Some? && |e.tags| > cfg.elementMaxTags.value then Err(BadRequest)
    else if e.id.None? || e.version.None? then Ok(false)
    else if op.Create? && e.id.value >= 0 then Err(BadRequest)
    else Ok(true)
  }

  /** `is_valid` of nodes, ways and relations. */
  function IsValid(cfg: Config, e: Element, op: Operation): Result<bool> {
    if op.Delete? then BaseIsValid(cfg, e, op)
    else
      match e.typ
      case Node =>
        var base := BaseIsValid(cfg, e, op);
        if base.Err? then base else Ok(base.value && e.lat.Some? && e.lon.Some?)
      case Way =>
        if e.nodes == [] then Err(PreconditionFailed)
        else if |e.nodes| > cfg.wayMaxNodes then Err(BadRequest)
        else BaseIsValid(cfg, e, op)
      case Relation =>
        if cfg.relationMaxMembers.Some? && |e.members| > cfg.relationMaxMembers.value then Err(BadRequest)
        else BaseIsValid(cfg, e, op)
  }

  // ---------- What a valid object is ----------

  predicate TextFits(cfg: Config, s: string) { cfg.unicodeLength(s).Some? && cfg.unicodeLength(s).value <= 255 }

  predicate NumbersSane(e: Element) {
    && (e.changeset.Some? ==> 0 < e.changeset.value <= MAX_INT64)
    && (e.id.Some? ==> e.id.value != 0)
    && (e.version.Some? ==> e.version.value <= MAX_UINT32)
    && (e.lat.Some? ==> -90.0 <= e.lat.value <= 90.0)
    && (e.lon.Some? ==> -180.0 <= e.lon.value <= 180.0)
  }

  predicate TagsSane(cfg: Config, tags: map<string, string>) {
    forall k :: k in tags ==> k != "" && TextFits(cfg, k) && TextFits(cfg, tags[k])
  }

  predicate NodesSane(nodes: seq<int>) { forall i :: 0 <= i < |nodes| ==> nodes[i] != 0 }

  predicate MembersSane(cfg: Config, members: seq<Member>) {
    forall i :: 0 <= i < |members| ==> MemberSane(cfg, members[i])
  }

  /** Limits that the setters keep at all times, whatever is still missing. */
  predicate FieldsSane(cfg: Config, e: Element) {
    NumbersSane(e) && TagsSane(cfg, e.tags) && NodesSane(e.nodes) && MembersSane(cfg, e.members)
  }

  /** What the setters of a member keep. */
  predicate MemberRoleFits(cfg: Config, m: Member) {
    (m.ref.Some? ==> m.ref.value != 0) && (m.role != "" ==> TextFits(cfg, m.role))
  }

  predicate MemberSane(cfg: Config, m: Member) { m.typ.Some? && m.ref.Some? && MemberRoleFits(cfg, m) }

  /** A complete object for its operation. */
  predicate ValidObject(cfg: Config, e: Element, op: Operation) {
    && FieldsSane(cfg, e) && !op.Undefined?
    && e.changeset.Some? && e.id.Some? && e.version.Some?
    && (op.Create? ==> e.id.value < 0 && e.version.value == 0)
    && (op.Modify? || op.Delete? ==> e.version.value >= 1)
    && (cfg.elementMaxTags.Some? ==> |e.tags| <= cfg.elementMaxTags.value)
    && (!op.Delete? && e.typ.Node? ==> e.lat.Some? && e.lon.Some?)
    && (!op.Delete? && e.typ.Way? ==> 1 <= |e.nodes| <= cfg.wayMaxNodes)
    && (!op.Delete? && e.typ.Relation? && cfg.relationMaxMembers.Some? ==> |e.members| <= cfg.relationMaxMembers.value)
  }

  /** `IsValid` accepts exactly the valid objects among those that the setters can build for the operation. */
  lemma {:induction false} IsValidExactly(cfg: Config, e: Element, op: Operation)
    requires FieldsSane(cfg, e) && !op.Undefined?
    requires e.version.Some? ==> if op.Create? then e.version.value == 0 else e.version.value >= 1
    ensures IsValid(cfg, e, op) == Ok(true) <==> ValidObject(cfg, e, op)
  {
  }

  /**
   The stored version is the number in the text exactly when that number fits 32 bits: larger ones pass the check and
   are silently truncated.
   */
  lemma {:induction false} VersionStoredExactly(e: Element, n: nat)
    requires n <= MAX_INT64
    ensures SetVersion(e, Print(n)).Ok? && SetVersion(e, Print(n)).value.version == Some(ToUint32(n))
    ensures SetVersion(e, Print(n)).value.version == Some(n) <==> n <= MAX_UINT32
  {
    PrintedIsRead(n, "", -MAX_INT64 - 1, MAX_INT64);
    assert Print(n) + "" == Print(n);
  }

  predicate KeepsSane(cfg: Config, r: Result<Element>) { r.Ok? ==> FieldsSane(cfg, r.value) }

  /** No setter that succeeds stores a value outside the limits. */
  lemma {:induction false} SettersKeepSane(cfg: Config, e: Element, text: string)
    requires FieldsSane(cfg, e)
    ensures KeepsSane(cfg, SetChangeset(e, text)) && KeepsSane(cfg, SetVersion(e, text))
      && KeepsSane(cfg, SetId(e, text))
    ensures KeepsSane(cfg, SetLat(cfg, e, text)) && KeepsSane(cfg, SetLon(cfg, e, text))
  {
  }

  lemma {:induction false} AddersKeepSane(cfg: Config, e: Element, text: string, m: Member)
    requires FieldsSane(cfg, e)
    ensures KeepsSane(cfg, AddWayNode(e, text))
    ensures MemberRoleFits(cfg, m) ==> KeepsSane(cfg, AddMember(e, m))
  {
    var w := AddWayNode(e, text);
    if w.Ok? {
      assert FieldsSane(cfg, w.value);
    }
    if MemberRoleFits(cfg, m) && AddMember(e, m).Ok? {
      assert MembersSane(cfg, AddMember(e, m).value.members);
    }
  }

  lemma {:induction false} AddTagKeepsSane(cfg: Config, e: Element, key: string, value: string)
    requires FieldsSane(cfg, e)
    ensures KeepsSane(cfg, AddTag(cfg, e, key, value))
  {
  }
}
