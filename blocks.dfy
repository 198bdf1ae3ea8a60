/**
 * Types shared by the editor modules: block identifiers, block names,
 * attribute values and blocks themselves.
 */
module Blocks {

  import opened Wrappers

  /** A block's client id (the editor calls it a UID). */
  type Uid = string

  /** A registered block type name such as "core/paragraph". */
  type BlockName = string

  /**
   * A defined attribute value. JavaScript's `undefined` is not a value here:
   * an absent key of an attribute map, or `None` where an `Option` is used, plays its part.
   * Numbers are integers; the editor code only compares them for equality.
   * An object or array is `Ref(id)`: `===` compares it by identity, so two
   * arrays with the same elements are different `Ref`s; contents are not kept.
   */
  datatype Value = Str(s: string) | Num(n: int) | Bool(b: bool) | Null | Ref(id: nat)

  type Attributes = map<string, Value>

  datatype Block = Block(uid: Uid, name: BlockName, attributes: Attributes, innerBlocks: seq<Block>)

  /** JavaScript truthiness of a possibly undefined value. */
  predicate Truthy(v: Option<Value>)
  {
    match v
    case None => false
    case Some(Str(s)) => s != ""
    case Some(Num(n)) => n != 0
    case Some(Bool(b)) => b
    case Some(Null) => false
    case Some(Ref(_)) => true
  }
}
