/** What several components share. */
module Basics {
  /** Every step function of this project returns an optional state: `None` means that the step is not
      possible in that state, for instance because the process would block. */
  datatype Option<+T> = None | Some(value: T)

  type byte = x: int | 0 <= x < 256

  /** The MAX macro of the select servers. */
  function Max(x: int, y: int): int {
    if x > y then x else y
  }

  /** The first place of x in s, or -1: a search through a table that ends at the first match. */
  function IndexOf(s: seq<int>, x: int): (k: int)
    ensures -1 <= k < |s|
    ensures k >= 0 ==> s[k] == x
    ensures forall j :: 0 <= j < (if k >= 0 then k else |s|) ==> s[j] != x
  {
    if s == [] then -1
    else if s[0] == x then 0
    else
      var r := IndexOf(s[1..], x);
      if r < 0 then -1 else r + 1
  }

  function Flatten(segs: seq<seq<byte>>): seq<byte> {
    if segs == [] then [] else Flatten(segs[..|segs| - 1]) + segs[|segs| - 1]
  }

  lemma {:induction false} SubsetSize<T>(a: set<T>, b: set<T>)
    requires a <= b
    ensures |a| <= |b|
  {
    if a != {} {
      var x :| x in a;
      SubsetSize(a - {x}, b - {x});
    }
  }
}
