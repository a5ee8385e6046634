/**
 * The data shapes of the per-player variable store (include/main.h):
 * the tagged value a variable holds, the per-name entry of a DataMap,
 * the per-owner allocation state of the IndexMap, the type codes the
 * type query answers with, and the parameter-count guard every native
 * call starts with.
 */
module PVarTypes {

  datatype Option<+T> = None | Some(value: T)

  /** A Pawn cell read as a signed 32-bit integer. */
  newtype Int32 = x: int | -0x8000_0000 <= x < 0x8000_0000

  /**
   * A single-precision float, kept as its 32-bit pattern. The store only
   * copies floats in and out and never computes with them.
   */
  type Float32 = bv32

  /** The closed union boost::variant<int, std::string, float>. */
  datatype Value =
    | IntValue(i: Int32)
    | StringValue(s: string)
    | FloatValue(f: Float32)

  /** One DataMap entry: the variable's enumeration index and its value. */
  datatype Entry = Entry(index: int, value: Value)

  /** Lower-cased name to entry, for one owner. */
  type DataMap = map<string, Entry>

  /**
   * One IndexMap entry: the highest index ever issued to the owner and
   * the FIFO queue of released indices, front at position 0.
   */
  datatype Slots = Slots(counter: int, free: seq<int>)

  const TypeNone: int := 0
  const TypeInt: int := 1
  const TypeString: int := 2
  const TypeFloat: int := 3

  /** The code the type query reports for a looked-up variable, if any. */
  function TypeCode(v: Option<Value>): (c: int)
    ensures c in {TypeNone, TypeInt, TypeString, TypeFloat}
    ensures c == TypeNone <==> v.None?
    ensures c == TypeInt <==> v.Some? && v.value.IntValue?
    ensures c == TypeString <==> v.Some? && v.value.StringValue?
    ensures c == TypeFloat <==> v.Some? && v.value.FloatValue?
  {
    match v
    case None => TypeNone
    case Some(IntValue(_)) => TypeInt
    case Some(StringValue(_)) => TypeString
    case Some(FloatValue(_)) => TypeFloat
  }

  /**
   * The CHECK_PARAMS guard: params[0] holds the byte size of the
   * arguments, four bytes per cell.
   */
  predicate ParamsMatch(paramBytes: int, count: nat)
  {
    paramBytes == count * 4
  }
}
