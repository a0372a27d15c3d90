/** Names that several models share. */
module Common {

  datatype Option<T> = None | Some(value: T)

  /** ASCII lower case; characters beyond ASCII stay as they are. */
  function Lower(c: char): char {
    if 'A' <= c <= 'Z' then (c as int + 32) as char else c
  }

  function LowerAll(s: string): (r: string)
    ensures |r| == |s|
  {
    seq(|s|, i requires 0 <= i < |s| => Lower(s[i]))
  }
}
