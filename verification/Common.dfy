/** Types shared by every component: optional values and the integer widths of the source. */
module Common {

  datatype Option<+T> = None | Some(value: T)

  const MAX_INT: int := 0x7fff_ffff_ffff_ffff
  const MAX_UINT64: int := 0xffff_ffff_ffff_ffff

  /** The source's `int` and `time.Duration`. */
  type GoInt = x: int | -MAX_INT - 1 <= x <= MAX_INT

  type Uint64 = x: int | 0 <= x <= MAX_UINT64

  type Uint16 = x: int | 0 <= x < 0x1_0000

  type Byte = x: int | 0 <= x < 0x100

  predicate Distinct<T(==)>(s: seq<T>) {
    forall i, j :: 0 <= i < j < |s| ==> s[i] != s[j]
  }
}
