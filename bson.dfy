/**
 * BSON documents, reduced to what the split collector reads and writes:
 * a document is an ordered list of (field name, value) pairs, and field
 * lookup returns the FIRST field with the requested name, as both
 * BSONObj::getField and mutablebson::findFirstChildNamed do.
 * Byte encoding and the mutable document tree are not modelled.
 */
module Bson {
  import opened Wrappers

  /** The BSON value types the component inspects or builds. */
  datatype Value =
    | BinData(bytes: seq<bv8>)
    | Int32(n: int)
    | Str(s: string)
    | ObjectId(id: seq<bv8>)
    | Array(elems: seq<Value>)
    | Object(fields: seq<Field>)
    | Null

  datatype Field = Field(name: string, value: Value)

  type Document = seq<Field>

  /** Position of the first field called `name`, if there is one. */
  function FindField(d: Document, name: string): (r: Option<nat>)
    ensures r.Some? ==> r.value < |d| && d[r.value].name == name
    ensures r.Some? ==> forall j :: 0 <= j < r.value ==> d[j].name != name
    ensures r.None? <==> forall j :: 0 <= j < |d| ==> d[j].name != name
    decreases |d|
  {
    if |d| == 0 then None
    else if d[0].name == name then Some(0)
    else match FindField(d[1..], name)
      case None => None
      case Some(i) => Some(i + 1)
  }

  predicate HasField(d: Document, name: string) {
    FindField(d, name).Some?
  }

  /** The value of the first field called `name` (getField; EOO when missing). */
  function GetField(d: Document, name: string): (r: Option<Value>)
    ensures r.Some? <==> HasField(d, name)
    ensures r.Some? ==> r.value == d[FindField(d, name).value].value
  {
    match FindField(d, name)
    case None => None
    case Some(i) => Some(d[i].value)
  }

  /** Replaces the value of the field at position `i`, keeping its name and position. */
  function SetValueAt(d: Document, i: nat, v: Value): (r: Document)
    requires i < |d|
    ensures |r| == |d| && r[i] == Field(d[i].name, v)
    ensures forall j :: 0 <= j < |d| && j != i ==> r[j] == d[j]
  {
    d[i := Field(d[i].name, v)]
  }
}
