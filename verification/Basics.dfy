/** Small shared types: optional values, results with an error, and JavaScript strings as this code uses them. */
module Basics {
  datatype Option<+T> = None | Some(value: T)

  datatype Result<+T, +E> = Ok(value: T) | Err(error: E)

  function LowerChar(c: char): char {
    if 'A' <= c <= 'Z' then (c as int + 32) as char else c
  }

  /** toLowerCase, on the ASCII letters an address is made of. */
  function Lower(s: string): (r: string)
    ensures r == "" <==> s == ""
  {
    seq(|s|, i requires 0 <= i < |s| => LowerChar(s[i]))
  }

  /** An empty hash is falsy and counts as none. */
  function Truthy(tx: Option<string>): Option<string> {
    if tx == Some("") then None else tx
  }
}
