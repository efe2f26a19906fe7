/** The 64-bit integers of the program, with their wrap-around, and the decimal texts they are read from. */
module Integers {
  import opened Wrappers

  newtype uint64 = x: int | 0 <= x < 0x1_0000_0000_0000_0000

  const LIMIT: int := 0x1_0000_0000_0000_0000

  function Add(a: uint64, b: uint64): (r: uint64)
    ensures a as int + b as int < LIMIT ==> r as int == a as int + b as int
    ensures a as int + b as int >= LIMIT ==> r as int == a as int + b as int - LIMIT
  {
    ((a as int + b as int) % LIMIT) as uint64
  }

  function Sub(a: uint64, b: uint64): (r: uint64)
    ensures a >= b ==> r as int == a as int - b as int
    ensures a < b ==> r as int == a as int - b as int + LIMIT
  {
    ((a as int - b as int) % LIMIT) as uint64
  }

  /** The value of a text of decimal digits, or nothing when a character is not a digit. */
  function Digits(text: string): Option<nat> {
    if text == "" then Some(0)
    else
      var last := text[|text| - 1];
      var front := Digits(text[..|text| - 1]);
      if front.None? || !('0' <= last <= '9') then None
      else Some(10 * front.value + (last as int - '0' as int))
  }

  /** An unsigned decimal number that fits 64 bits: no sign, no spaces, not empty. */
  function ParseUint64(text: string): Option<uint64> {
    var digits := Digits(text);
    if text == "" || digits.None? || digits.value >= LIMIT then None else Some(digits.value as uint64)
  }

  const MAX_INT64: int := 0x7FFF_FFFF_FFFF_FFFF

  /** A signed decimal number that fits 64 bits; one sign may precede the digits. */
  function ParseInt64(text: string): Option<int> {
    var signed := text != "" && (text[0] == '-' || text[0] == '+');
    var body := if signed then text[1..] else text;
    var digits := Digits(body);
    if body == "" || digits.None? then None
    else
      var value: int := if signed && text[0] == '-' then 0 - (digits.value as int) else digits.value as int;
      if -MAX_INT64 - 1 <= value <= MAX_INT64 then Some(value) else None
  }
}
