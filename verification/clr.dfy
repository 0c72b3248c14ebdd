/** The few .NET runtime notions a tag is built from: strings as sequences of
    UTF-16 code units, possibly-null references, and members that may throw. */
module Clr {

  /** One UTF-16 code unit, the element type of a .NET string. */
  type CodeUnit = c: int | 0 <= c < 0x1_0000

  /** A non-null .NET string. */
  type Name = seq<CodeUnit>

  /** A reference that may be null. */
  datatype Option<+T> = None | Some(value: T)

  /** What a .NET member does when called: it returns a value, or it throws.
      The only exception the tag code can raise is a NullReferenceException.
      (Not the pass/fail `Outcome` of the usual Dafny wrapper library.) */
  datatype Outcome<+T> = Returns(value: T) | ThrowsNullReference
}
