/** The two string operations the program relies on: Python's `str.join` and SQLite's `ltrim`. */
module Text {
  /** `sep.join(parts)`: the parts in order, with `sep` between neighbours. */
  function Join(parts: seq<string>, sep: string): string
  {
    if |parts| == 0 then ""
    else if |parts| == 1 then parts[0]
    else parts[0] + sep + Join(parts[1..], sep)
  }

  /** SQLite's `ltrim(s, ' ')`: `s` without its leading spaces. */
  function LTrim(s: string): (r: string)
    ensures |r| <= |s| && r == s[|s| - |r|..]
    ensures forall i :: 0 <= i < |s| - |r| ==> s[i] == ' '
    ensures r == [] || r[0] != ' '
  {
    if s != [] && s[0] == ' ' then LTrim(s[1..]) else s
  }
}
