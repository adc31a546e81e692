/**
 * The dynamically typed scalar values that travel between the device, the
 * store and the user interface: None, bool, int, float and str.
 */
module PyValue {
  import opened Wrappers
  import opened PyStr

  /**
   * A Python scalar. A float is kept as the text Python prints for it
   * (its repr); float arithmetic itself is not part of this model.
   */
  datatype Value = VNone | VBool(b: bool) | VInt(i: int) | VFloat(repr: string) | VStr(s: string)

  /** isinstance(v, int): bool is a subclass of int in Python. */
  predicate IsInt(v: Value) {
    v.VBool? || v.VInt?
  }

  /** isinstance(v, bool) or isinstance(v, float) or isinstance(v, int). */
  predicate IsNumber(v: Value) {
    IsInt(v) || v.VFloat?
  }

  /** The text str(b) gives for a bool. */
  function BoolText(b: bool): string {
    if b then "True" else "False"
  }

  /** Python's str(v). */
  function Str(v: Value): string {
    match v
    case VNone => "None"
    case VBool(b) => BoolText(b)
    case VInt(i) => IntToString(i)
    case VFloat(repr) => repr
    case VStr(s) => s
  }

  /** The printed forms of True and False lower-case to "true" and "false". */
  lemma LowerBoolText(b: bool)
    ensures Lower(BoolText(b)) == (if b then "true" else "false")
  {
    var t := BoolText(b);
    var l := Lower(t);
    assert l[0] == LowerChar(t[0]);
  }

  /** str() on an int prints text that int() reads back to the same int. */
  lemma ParseIntOfStr(i: int)
    ensures ParseInt(Str(VInt(i))) == Some(i)
  {
    ParseIntOfIntToString(i);
  }

  /** How int() truncates a float, given its repr; None for inf and nan, which raise. */
  type FloatTruncation = string -> Option<int>

  /** Python's int(v): None where int() raises (None itself, text that is not an integer literal). */
  function IntOf(v: Value, truncate: FloatTruncation): (r: Option<int>)
    ensures v.VInt? ==> r == Some(v.i)
    ensures v.VBool? ==> r == Some(if v.b then 1 else 0)
    ensures v.VStr? ==> r == ParseInt(v.s)
    ensures v.VNone? ==> r.None?
  {
    match v
    case VNone => None
    case VBool(b) => Some(if b then 1 else 0)
    case VInt(i) => Some(i)
    case VFloat(repr) => truncate(repr)
    case VStr(s) => ParseInt(s)
  }
}
