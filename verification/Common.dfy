/** Vocabulary shared by the models: optional values, results, bytes and trimming. */
module Common {

  datatype Option<+T> = None | Some(value: T)

  datatype Result<+T, +E> = Ok(value: T) | Err(error: E)

  type Byte = b: int | 0 <= b < 256

  type Bytes = seq<Byte>

  /** The bytes of an ASCII literal; every other character is written as `?`. */
  function Ascii(s: string): (r: Bytes)
    ensures |r| == |s|
  {
    seq(|s|, i requires 0 <= i < |s| => if s[i] as int < 128 then s[i] as int else 63)
  }

  function TrimStart(drop: char -> bool, s: string): string {
    if s != [] && drop(s[0]) then TrimStart(drop, s[1..]) else s
  }

  function TrimEnd(drop: char -> bool, s: string): string {
    if s != [] && drop(s[|s| - 1]) then TrimEnd(drop, s[..|s| - 1]) else s
  }

  function Trim(whitespace: char -> bool, s: string): string {
    TrimEnd(whitespace, TrimStart(whitespace, s))
  }
}
