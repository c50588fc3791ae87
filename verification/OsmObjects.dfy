/** The map objects of an osmChange document, and the edits that the upload pipeline makes of them. */
module OsmObjects {
  import opened Common

  datatype Operation = Undefined | Create | Modify | Delete

  datatype ObjectType = Node | Way | Relation

  datatype Member = Member(typ: Option<ObjectType>, ref: Option<int>, role: string)

  /** An object as parsed: mandatory fields may still be missing. */
  datatype Element = Element(
    typ: ObjectType,
    changeset: Option<int>,
    id: Option<int>,
    version: Option<nat>,
    tags: map<string, string>,
    lat: Option<real>,
    lon: Option<real>,
    nodes: seq<int>,
    members: seq<Member>)

  function NewElement(typ: ObjectType): Element {
    Element(typ, None, None, None, map[], None, None, [], [])
  }

  /** An object together with the operation and the flag of its enclosing block. */
  datatype ParsedChange = ParsedChange(op: Operation, element: Element, ifUnused: bool) {
    /** The operation is defined and the fields that the handler reads are present. */
    predicate Complete() { !op.Undefined? && element.changeset.Some? && element.id.Some? && element.version.Some? }
  }

  /** What the parser hands to the handler. */
  type Change = c: ParsedChange | c.Complete()
    witness ParsedChange(Create, NewElement(Node).(changeset := Some(1), id := Some(-1), version := Some(0)), false)

  /** An entry of the original sequence that the tracking keeps. */
  datatype Item = Item(op: Operation, typ: ObjectType, id: int, version: nat, ifUnused: bool)

  /** An operation as buffered in an updater: its tracking entry and the object's contents. */
  datatype Edit = Edit(item: Item, element: Element)
}
