/** Small result types shared by the modules of the model. */
module Outcomes {

  /** Python's `X | None`. */
  datatype Option<+T> = None | Some(value: T)

  /** How a Python call ends: it returns a value, or an exception escapes from it. */
  datatype Outcome<+T> = Returned(value: T) | Raised
}

/** Python's `str.lower()` and `str.upper()` on ASCII letters. */
module AsciiCase {

  function LowerChar(c: char): char
  {
    if 'A' <= c <= 'Z' then (c as int + 32) as char else c
  }

  function UpperChar(c: char): char
  {
    if 'a' <= c <= 'z' then (c as int - 32) as char else c
  }

  function Lower(s: string): (r: string)
    ensures |r| == |s|
    ensures forall i :: 0 <= i < |s| ==> r[i] == LowerChar(s[i])
  {
    seq(|s|, i requires 0 <= i < |s| => LowerChar(s[i]))
  }

  function Upper(s: string): (r: string)
    ensures |r| == |s|
    ensures forall i :: 0 <= i < |s| ==> r[i] == UpperChar(s[i])
  {
    seq(|s|, i requires 0 <= i < |s| => UpperChar(s[i]))
  }
}
