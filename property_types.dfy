/**
 * The value types, type tags and status codes of the property interface
 * (include/export/base/propertypp/property.hpp and the typed overloads of
 * include/export/sqlite/propertypp/sqlite.hh).
 */
module PropertyTypes {
  import opened Wrappers

  /** The status every store operation returns. */
  datatype Status = Ok | InvalidType | NotFound | AlreadyExists | UnknownError

  /** value_type: the type tag stored beside each property. */
  datatype Tag = StringType | IntType | Int64Type | DoubleType | BoolType | BlobType

  /** The integer each tag stands for in the type column. */
  function TagCode(t: Tag): (n: int)
    ensures 0 <= n <= 5
  {
    match t
    case StringType => 0
    case IntType => 1
    case Int64Type => 2
    case DoubleType => 3
    case BoolType => 4
    case BlobType => 5
  }

  /** static_cast<value_type> of an integer read back from the type column; None outside the enumeration. */
  function TagFromCode(n: int): (r: Option<Tag>)
    ensures r.Some? <==> 0 <= n <= 5
    ensures r.Some? ==> TagCode(r.value) == n
  {
    if n == 0 then Some(StringType)
    else if n == 1 then Some(IntType)
    else if n == 2 then Some(Int64Type)
    else if n == 3 then Some(DoubleType)
    else if n == 4 then Some(BoolType)
    else if n == 5 then Some(BlobType)
    else None
  }

  /** Reading back the code of a tag gives that tag, so distinct tags have distinct codes. */
  lemma TagCodeInverse(t: Tag, u: Tag)
    ensures TagFromCode(TagCode(t)) == Some(t)
    ensures TagCode(t) == TagCode(u) <==> t == u
  {
  }

  type uint8 = x: int | 0 <= x < 0x100
  type int32 = x: int | -0x8000_0000 <= x < 0x8000_0000
  type int64 = x: int | -0x8000_0000_0000_0000 <= x < 0x8000_0000_0000_0000

  /**
   * A property value: one variant per typed overload of get and set.
   * Doubles are not modelled (see README).
   */
  datatype Value =
    | StringValue(s: string)
    | IntValue(i: int32)
    | Int64Value(l: int64)
    | BoolValue(b: bool)
    | BlobValue(data: seq<uint8>)

  /** The tag the typed overload of a value forwards with it. */
  function TagOf(v: Value): Tag
  {
    match v
    case StringValue(_) => StringType
    case IntValue(_) => IntType
    case Int64Value(_) => Int64Type
    case BoolValue(_) => BoolType
    case BlobValue(_) => BlobType
  }
}
