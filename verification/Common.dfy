/** What several models share. */
module Common {

  datatype Option<+T> = None | Some(value: T)

  /** The index of the first c, or |s|. */
  function FirstOf(s: string, c: char): (i: nat)
    ensures i <= |s| && (i < |s| ==> s[i] == c) && forall k :: 0 <= k < i ==> s[k] != c
  {
    if s == "" || s[0] == c then 0 else 1 + FirstOf(s[1..], c)
  }
}

/** Signed 64-bit arithmetic. */
module Int64 {

  const MAX: int := 0x7fff_ffff_ffff_ffff
  const SPAN: int := 0x1_0000_0000_0000_0000

  /** The value that is left when x overflows. */
  function Wrap(x: int): (r: int)
    ensures -MAX - 1 <= r <= MAX
    ensures -MAX - 1 <= x <= MAX ==> r == x
    ensures MAX < x <= MAX + SPAN ==> r == x - SPAN
  {
    var m := x % SPAN;
    if m > MAX then m - SPAN else m
  }
}
