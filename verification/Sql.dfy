// The parts of SQL the job statements are written in: three-valued conditions, which a
// WHERE clause admits only when they are true, and functions that skip NULLs.
module Sql {
  import opened Wrappers

  datatype Truth = True | False | Unknown

  function Is(b: bool): Truth {
    if b then True else False
  }

  function And(a: Truth, b: Truth): Truth {
    if a == False || b == False then False else if a == True && b == True then True else Unknown
  }

  function Or(a: Truth, b: Truth): Truth {
    if a == True || b == True then True else if a == False && b == False then False else Unknown
  }

  function IsNull<T>(a: Option<T>): Truth {
    Is(a.None?)
  }

  // a <= b, a < b and a = b of integers, unknown when either is NULL.
  function AtMost(a: Option<int>, b: Option<int>): Truth {
    if a.None? || b.None? then Unknown else Is(a.value <= b.value)
  }

  function Below(a: Option<int>, b: Option<int>): Truth {
    if a.None? || b.None? then Unknown else Is(a.value < b.value)
  }

  function Equal(a: Option<int>, b: Option<int>): Truth {
    if a.None? || b.None? then Unknown else Is(a.value == b.value)
  }

  // x <> ALL(list) and x = ANY(list) of a column that is never NULL.
  function NotAmong<T(==)>(x: T, list: seq<T>): Truth {
    Is(x !in list)
  }

  function Among<T(==)>(x: T, list: seq<T>): Truth {
    Is(x in list)
  }

  function Coalesce<T>(a: Option<T>, b: Option<T>): Option<T> {
    if a.Some? then a else b
  }

  function Greatest(a: int, b: int): int {
    if a < b then b else a
  }
}
