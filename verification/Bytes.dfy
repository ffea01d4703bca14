/** Byte strings and the optional results shared by all modules. */
module Bytes {

  /** A byte, written as the character with that code so that protocol literals stay readable. */
  type byte = c: char | c as int < 256 witness '\0'

  type bytes = seq<byte>

  const CRLF: bytes := "\r\n"

  datatype Option<+T> = None | Some(value: T) {
    predicate IsFailure() {
      None?
    }

    function PropagateFailure<U>(): Option<U>
      requires None?
    {
      None
    }

    function Extract(): T
      requires Some?
    {
      value
    }
  }

  /** A 32-bit float: an exact real value or one of the three non-finite values. */
  datatype F32 = Finite(value: real) | PosInf | NegInf | NaN {
    /** The comparison `x >= 0.0`. */
    predicate NonNegative() {
      match this
      case Finite(v) => v >= 0.0
      case PosInf => true
      case NegInf => false
      case NaN => false
    }
  }
}
