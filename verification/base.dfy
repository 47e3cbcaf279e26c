/** Vocabulary shared by every module: byte strings and optional values. */
module Base {
  /** A Go string. One `char` stands for one byte, so `|s|` is Go's `len(s)`
      and slicing is byte slicing. */
  type Str = seq<char>

  datatype Option<+T> = None | Some(value: T)

  function Min(a: int, b: int): int { if a < b then a else b }
}
