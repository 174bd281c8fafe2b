/** itoa and strlen of libc.c: decimal text written backwards into a buffer and reversed in place. */
module Itoa {
  import opened Sequences
  import opened Words

  const ZERO := 48

  /** The decimal digits of `a`, the most significant first. */
  function Decimal(a: nat): (s: seq<byte>)
    ensures |s| >= 1 && forall i :: 0 <= i < |s| ==> ZERO <= s[i] <= ZERO + 9
  {
    if a < 10 then [ZERO + a] else Decimal(a / 10) + [ZERO + a % 10]
  }

  /** What itoa writes before the terminator: nothing at all for a negative number. */
  function Text(a: int): seq<byte> {
    if a < 0 then [] else Decimal(a)
  }

  /** The number a string of digits stands for. */
  function Value(s: seq<byte>): int {
    if s == [] then 0 else 10 * Value(s[..|s| - 1]) + s[|s| - 1] - ZERO
  }

  lemma {:induction false} DecimalReads(a: nat)
    ensures Value(Decimal(a)) == a
    ensures a > 0 ==> Decimal(a)[0] != ZERO
  {
    var s := Decimal(a);
    if a < 10 {
      assert s[..0] == [];
    } else {
      DecimalReads(a / 10);
      assert s[..|s| - 1] == Decimal(a / 10);
    }
  }

  /** The text reads back as the number exactly when the number is not negative. */
  lemma ReadsBackIff(a: int)
    ensures Value(Text(a)) == a <==> a >= 0
  {
    if a >= 0 {
      DecimalReads(a);
    }
  }

  /** The three bytes perror lends itoa hold the text and its terminator exactly up to 99. */
  lemma FitsThreeIff(a: int)
    ensures |Text(a)| + 1 <= 3 <==> a < 100
  {
    if a >= 10 {
      assert |Decimal(a)| == |Decimal(a / 10)| + 1;
      assert a >= 100 ==> |Decimal(a / 10)| == |Decimal(a / 10 / 10)| + 1;
    }
  }

  /** The digits in the order the first loop finds them; none unless the number is positive. */
  function Backwards(a: int): seq<byte>
    decreases a
  {
    if a <= 0 then [] else [ZERO + a % 10] + Backwards(a / 10)
  }

  lemma {:induction false} BackwardsReversed(a: int)
    requires a != 0
    ensures Reversed(Backwards(a)) == Text(a)
    decreases a
  {
    if a > 0 {
      assert Backwards(a)[1..] == Backwards(a / 10);
      if a >= 10 {
        BackwardsReversed(a / 10);
      }
    }
  }

  /** The buffer gets the text and its terminator, and nothing behind it changes. */
  method Itoa(a: int, b: array<byte>)
    requires |Text(a)| < b.Length
    modifies b
    ensures b[..|Text(a)|] == Text(a) && b[|Text(a)|] == 0
    ensures forall k :: |Text(a)| < k < b.Length ==> b[k] == old(b[k])
  {
    if a == 0 {
      b[0] := ZERO;
      b[1] := 0;
      return;
    }
    BackwardsReversed(a);
    var i := Digits(a, b);
    ReverseInPlace(b, i);
    b[i] := 0;
  }

  /** The first loop of itoa. */
  method Digits(a: int, b: array<byte>) returns (i: nat)
    requires |Backwards(a)| <= b.Length
    modifies b
    ensures i == |Backwards(a)| && b[..i] == Backwards(a)
    ensures forall k :: i <= k < b.Length ==> b[k] == old(b[k])
  {
    var n := a;
    i := 0;
    while n > 0
      invariant i + |Backwards(n)| == |Backwards(a)| && Backwards(a) == b[..i] + Backwards(n)
      invariant forall k :: i <= k < b.Length ==> b[k] == old(b[k])
    {
      assert Backwards(n) == [ZERO + n % 10] + Backwards(n / 10);
      b[i] := ZERO + n % 10;
      assert b[..i + 1] == b[..i] + [ZERO + n % 10];
      n := n / 10;
      i := i + 1;
    }
    assert b[..i] + [] == b[..i];
  }

  /** The second loop of itoa. */
  method ReverseInPlace(b: array<byte>, i: nat)
    requires i <= b.Length
    modifies b
    ensures b[..i] == Reversed(old(b[..i]))
    ensures forall k :: i <= k < b.Length ==> b[k] == old(b[k])
  {
    var i1 := 0;
    while i1 < i / 2
      invariant 0 <= i1 <= i / 2
      invariant forall k :: 0 <= k < i1 ==> b[k] == old(b[i - 1 - k]) && b[i - 1 - k] == old(b[k])
      invariant forall k :: i1 <= k < i - i1 ==> b[k] == old(b[k])
      invariant forall k :: i <= k < b.Length ==> b[k] == old(b[k])
    {
      var c := b[i1];
      b[i1] := b[i - i1 - 1];
      b[i - i1 - 1] := c;
      i1 := i1 + 1;
    }
    ghost var was := old(b[..i]);
    forall k | 0 <= k < i ensures b[..i][k] == Reversed(was)[k] {
      assert was[i - 1 - k] == old(b[i - 1 - k]);
    }
  }

  /** The length is the position of the first zero. */
  method Strlen(a: array<byte>) returns (i: nat)
    requires 0 in a[..]
    ensures i < a.Length && a[i] == 0 && forall k :: 0 <= k < i ==> a[k] != 0
  {
    i := 0;
    while a[i] != 0
      invariant i < a.Length && forall k :: 0 <= k < i ==> a[k] != 0
      decreases a.Length - i
    {
      i := i + 1;
    }
  }
}
