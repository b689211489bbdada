// What several models need.

module Common {
  datatype Option<+T> = None | Some(value: T)

  function Max(a: int, b: int): int { if a < b then b else a }

  function Min(a: int, b: int): int { if a < b then a else b }

  function TrimStart<T>(s: seq<T>, blank: T -> bool): seq<T> {
    if s != [] && blank(s[0]) then TrimStart(s[1..], blank) else s
  }

  function TrimEnd<T>(s: seq<T>, blank: T -> bool): seq<T> {
    if s != [] && blank(s[|s| - 1]) then TrimEnd(s[..|s| - 1], blank) else s
  }
}
