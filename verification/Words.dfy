/** Bytes, and the 32-bit little-endian integers that C reads and writes inside a byte array. */
module Words {
  import opened Params

  type byte = x: int | 0 <= x < 256

  const INT_MAX: int := 0x7fff_ffff
  const INT_MIN: int := -0x8000_0000

  function Unsigned(s: seq<byte>): int {
    if s == [] then 0 else s[0] + 256 * Unsigned(s[1..])
  }

  function Signed(u: int): int {
    if u > INT_MAX then u - 0x1_0000_0000 else u
  }

  /** The `int` stored at address `a`. */
  function ReadInt(m: seq<byte>, a: int): int
    requires 0 <= a && a + 4 <= |m|
  {
    Signed(Unsigned(m[a..a + 4]))
  }

  function Digits(u: int): (s: seq<byte>)
    requires 0 <= u < 0x1_0000_0000
    ensures |s| == 4 && Unsigned(s) == u
  {
    var h := u / 256;
    var g := h / 256;
    var s: seq<byte> := [u % 256, h % 256, g % 256, g / 256];
    assert Unsigned(s[3..]) == g / 256;
    assert s[1..][1..] == s[2..] && s[2..][1..] == s[3..];
    assert Unsigned(s[2..]) == g;
    assert Unsigned(s[1..]) == h;
    s
  }

  /** Stores `v` at address `a`: it reads back, and every other byte stays. */
  function WriteInt(m: seq<byte>, a: int, v: int): (r: seq<byte>)
    requires 0 <= a && a + 4 <= |m| && INT_MIN <= v <= INT_MAX
    ensures |r| == |m|
    ensures ReadInt(r, a) == v
    ensures forall i :: 0 <= i < |m| && !(a <= i < a + 4) ==> r[i] == m[i]
  {
    var d := Digits(if v < 0 then v + 0x1_0000_0000 else v);
    var r := m[..a] + d + m[a + 4..];
    assert r[a..a + 4] == d;
    r
  }

  lemma ReadIntFrame(m: seq<byte>, m': seq<byte>, a: int)
    requires 0 <= a && a + 4 <= |m| && a + 4 <= |m'|
    requires forall i :: a <= i < a + 4 ==> m'[i] == m[i]
    ensures ReadInt(m', a) == ReadInt(m, a)
  {
    assert m'[a..a + 4] == m[a..a + 4];
  }

  /** The break moved by `pages` pages, as a process sees it: dyn_mem returned `p`, the old break or
      the lowered one, and the bytes below both breaks are what they were. */
  predicate BreakMoved(m: seq<byte>, pages: int, m': seq<byte>, p: int) {
    && |m'| == |m| + pages * PAGE
    && if 0 <= pages then p == |m| <= |m'| && m'[..|m|] == m
       else p == |m'| <= |m| && m' == m[..|m'|]
  }
}
