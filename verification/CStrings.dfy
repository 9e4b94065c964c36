/** C strings, and the numbers that strtol reads in them: descriptors in redirects, indices of
    jobs and choices of users. */
module CStrings {
  import opened Options

  const NUL := '\0'

  const LONG_MAX := 0x7FFF_FFFF_FFFF_FFFF

  predicate IsSpace(c: char) { c == ' ' || '\t' <= c <= '\r' }

  predicate IsDigit(c: char) { '0' <= c <= '9' }

  function SkipSpaces(s: string): (r: string)
    ensures |r| <= |s|
  {
    if s != "" && IsSpace(s[0]) then SkipSpaces(s[1..]) else s
  }

  /** The value of the leading digits of s, continuing from v. */
  function Digits(s: string, v: int): (r: (int, string))
    ensures |r.1| <= |s|
  {
    if s != "" && IsDigit(s[0]) then Digits(s[1..], 10 * v + s[0] as int - '0' as int) else (v, s)
  }

  function Clamp(v: int): int {
    if v > LONG_MAX then LONG_MAX else if v < -LONG_MAX - 1 then -LONG_MAX - 1 else v
  }

  /** Storing a long in an int keeps the low 32 bits. */
  function ToInt(v: int): int {
    (v + 0x8000_0000) % 0x1_0000_0000 - 0x8000_0000
  }

  /** strtol in base 10 when it consumes the whole of a non-empty string. */
  function WholeNumber(s: string): Option<int> {
    var t := SkipSpaces(s);
    var negative := t != "" && t[0] == '-';
    var u := if t != "" && (t[0] == '-' || t[0] == '+') then t[1..] else t;
    if u == "" || !IsDigit(u[0]) then None
    else
      var (v, rest) := Digits(u, 0);
      if rest != "" then None else Some(ToInt(Clamp(if negative then -v else v)))
  }
}
