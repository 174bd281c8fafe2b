/** copy_data of utils.c (and its twins copy_from_user, copy_to_user): a loop over 32-bit words, then a
    loop over bytes; and the chunk loop of sys_write built on it. */
module Copy {
  import opened Params
  import opened Words

  /** Stores the bytes `d` from address `a` on. */
  function Store(m: seq<byte>, a: nat, d: seq<byte>): (r: seq<byte>)
    requires a + |d| <= |m|
    ensures |r| == |m| && r[a..a + |d|] == d
    ensures forall i :: 0 <= i < |m| && !(a <= i < a + |d|) ==> r[i] == m[i]
  {
    var r := m[..a] + d + m[a + |d|..];
    assert r[a..a + |d|] == d;
    r
  }

  /** The two loops, one word or one byte at a time. A word is read whole before it is written. */
  function Copied(m: seq<byte>, start: nat, dest: nat, size: int): (r: seq<byte>)
    requires 0 < size ==> start + size <= |m| && dest + size <= |m|
    ensures |r| == |m|
    decreases size
  {
    if size <= 0 then m
    else
      var step := Step(size);
      Copied(Store(m, dest, m[start..start + step]), start + step, dest + step, size - step)
  }

  function Step(size: int): nat {
    if size > 4 then 4 else 1
  }

  /** What a copy is for: `dest` receives what `start` held, all else stays. */
  function Moved(m: seq<byte>, start: nat, dest: nat, size: int): seq<byte>
    requires 0 < size ==> start + size <= |m| && dest + size <= |m|
  {
    if size <= 0 then m else Store(m, dest, m[start..start + size])
  }

  lemma IsStore(m: seq<byte>, r: seq<byte>, a: nat, d: seq<byte>)
    requires a + |d| <= |m| == |r|
    requires forall i :: 0 <= i < |m| ==> r[i] == if a <= i < a + |d| then d[i - a] else m[i]
    ensures r == Store(m, a, d)
  {
  }

  lemma StoreConcat(m: seq<byte>, a: nat, d: seq<byte>, e: seq<byte>)
    requires a + |d| + |e| <= |m|
    ensures Store(Store(m, a, d), a + |d|, e) == Store(m, a, d + e)
  {
  }

  lemma MovedStep(m: seq<byte>, start: nat, dest: nat, size: int, step: nat)
    requires 0 < step <= size && start + size <= |m| && dest + size <= |m|
    requires dest <= start || start + size <= dest
    ensures Moved(Store(m, dest, m[start..start + step]), start + step, dest + step, size - step)
            == Moved(m, start, dest, size)
  {
    hide Store;
    var d, e := m[start..start + step], m[start + step..start + size];
    var m1 := Store(m, dest, d);
    assert d + e == m[start..start + size];
    assert m1[start + step..start + size] == e;
    StoreConcat(m, dest, d, e);
    assert step == size ==> d == m[start..start + size];
  }

  /** A forward copy is right when the ranges are disjoint or the destination comes first. */
  lemma {:induction false} CopiedIsMoved(m: seq<byte>, start: nat, dest: nat, size: int)
    requires 0 < size ==> start + size <= |m| && dest + size <= |m|
    requires size <= 0 || dest <= start || start + size <= dest
    ensures Copied(m, start, dest, size) == Moved(m, start, dest, size)
    decreases size
  {
    hide Store;
    if size > 0 {
      hide Moved;
      var step := Step(size);
      CopiedIsMoved(Store(m, dest, m[start..start + step]), start + step, dest + step, size - step);
      MovedStep(m, start, dest, size, step);
    }
  }

  lemma {:induction false} CopiedZero(m: seq<byte>, start: nat, dest: nat, size: int)
    requires 0 < size ==> start + size <= |m| && dest + size <= |m|
    requires forall i :: 0 <= i < |m| ==> m[i] == 0
    ensures forall i :: 0 <= i < |m| ==> Copied(m, start, dest, size)[i] == 0
    decreases size
  {
    if size > 0 {
      var step := Step(size);
      CopiedZero(Store(m, dest, m[start..start + step]), start + step, dest + step, size - step);
    }
  }

  /** Copying onto a higher overlapping range reads bytes the loop already overwrote: one byte that
      is not zero, at the first such place, is lost. */
  lemma OverlapFails(n: nat, start: nat, dest: nat, size: int) returns (m: seq<byte>)
    requires start < dest < start + size && dest + size <= n
    ensures |m| == n && Copied(m, start, dest, size) != Moved(m, start, dest, size)
  {
    hide Store, Copied, Moved;
    var step := Step(size);
    var x := if dest - start < step then step else dest - start;
    var zero: seq<byte> := seq(n, _ => 0);
    m := zero[start + x := 1];
    var m1 := Store(m, dest, m[start..start + step]);
    OneLost(m, m1, start, dest, step, x);
    CopiedZero(m1, start + step, dest + step, size - step);
    CopiedStep(m, start, dest, size);
    MovedAt(m, start, dest, size, x);
  }

  lemma MovedAt(m: seq<byte>, start: nat, dest: nat, size: int, i: nat)
    requires i < size && start + size <= |m| && dest + size <= |m|
    ensures |Moved(m, start, dest, size)| == |m| && Moved(m, start, dest, size)[dest + i] == m[start + i]
  {
    assert m[start..start + size][i] == m[start + i];
  }

  lemma MovedChunk(m: seq<byte>, start: nat, dest: nat, n: nat, above: nat)
    requires start + n <= |m| && dest + n <= above <= |m|
    ensures var r := Moved(m, start, dest, n);
            |r| == |m| && r[dest..dest + n] == m[start..start + n] && r[above..] == m[above..]
  {
  }

  /** The first step overwrites the only byte that is not zero without having read it. */
  lemma OneLost(m: seq<byte>, m1: seq<byte>, start: nat, dest: nat, step: nat, x: nat)
    requires start < dest && dest + step <= |m| && step <= x && dest <= start + x < dest + step
    requires m1 == Store(m, dest, m[start..start + step])
    requires forall i :: 0 <= i < |m| && i != start + x ==> m[i] == 0
    ensures forall i :: 0 <= i < |m1| ==> m1[i] == 0
  {
    forall i | 0 <= i < |m1| ensures m1[i] == 0 {
      assert dest <= i < dest + step ==> m1[i] == m[start..start + step][i - dest] == m[start + i - dest];
    }
  }

  /** Exactly when the copy moves every possible memory content correctly. */
  lemma CopyCorrectIff(n: nat, start: nat, dest: nat, size: int)
    requires 0 < size ==> start + size <= n && dest + size <= n
    ensures (forall m: seq<byte> :: |m| == n ==> Copied(m, start, dest, size) == Moved(m, start, dest, size))
            <==> size <= 0 || dest <= start || start + size <= dest
  {
    if size <= 0 || dest <= start || start + size <= dest {
      forall m: seq<byte> | |m| == n
        ensures Copied(m, start, dest, size) == Moved(m, start, dest, size)
      {
        CopiedIsMoved(m, start, dest, size);
      }
    } else {
      var m := OverlapFails(n, start, dest, size);
    }
  }

  lemma CopiedStep(m: seq<byte>, start: nat, dest: nat, size: int)
    requires 0 < size && start + size <= |m| && dest + size <= |m|
    ensures var step := Step(size);
            Copied(m, start, dest, size)
            == Copied(Store(m, dest, m[start..start + step]), start + step, dest + step, size - step)
  {
  }

  lemma NothingLeft(m: seq<byte>, start: nat, dest: nat, size: int)
    requires size <= 0
    ensures Copied(m, start, dest, size) == m
  {
  }

  /** One 32-bit load and one 32-bit store. */
  method MoveWord(mem: array<byte>, p: nat, q: nat)
    requires p + 4 <= mem.Length && q + 4 <= mem.Length
    modifies mem
    ensures mem[..] == Store(old(mem[..]), q, old(mem[..])[p..p + 4])
  {
    mem[q], mem[q + 1], mem[q + 2], mem[q + 3] := mem[p], mem[p + 1], mem[p + 2], mem[p + 3];
    IsStore(old(mem[..]), mem[..], q, old(mem[..])[p..p + 4]);
  }

  method MoveByte(mem: array<byte>, p: nat, q: nat)
    requires p < mem.Length && q < mem.Length
    modifies mem
    ensures mem[..] == Store(old(mem[..]), q, old(mem[..])[p..p + 1])
  {
    mem[q] := mem[p];
    IsStore(old(mem[..]), mem[..], q, old(mem[..])[p..p + 1]);
  }

  method CopyData(mem: array<byte>, start: nat, dest: nat, size: int)
    requires 0 < size ==> start + size <= mem.Length && dest + size <= mem.Length
    modifies mem
    ensures mem[..] == Copied(old(mem[..]), start, dest, size)
  {
    hide Store, Copied;
    var p: nat, q: nat, left := start, dest, size;
    while left > 4
      invariant 0 < left ==> p + left <= mem.Length && q + left <= mem.Length
      invariant Copied(mem[..], p, q, left) == Copied(old(mem[..]), start, dest, size)
    {
      CopiedStep(mem[..], p, q, left);
      MoveWord(mem, p, q);
      p, q, left := p + 4, q + 4, left - 4;
    }
    while left > 0
      invariant left <= 4 && (0 < left ==> p + left <= mem.Length && q + left <= mem.Length)
      invariant Copied(mem[..], p, q, left) == Copied(old(mem[..]), start, dest, size)
    {
      CopiedStep(mem[..], p, q, left);
      MoveByte(mem, p, q);
      p, q, left := p + 1, q + 1, left - 1;
    }
    NothingLeft(mem[..], p, q, left);
  }

  // ----- sys_write

  const CHUNK := 1024  // WRITE_AUX_BUFF_MAX_SIZE

  /** access_ok for reading, with the 32-bit sum of the address and the size. */
  predicate AccessOk(addr: nat, size: int) {
    var first, last := addr / PAGE, (addr + size) % 0x1_0000_0000 / PAGE;
    first <= last && DATA <= first && last <= DATA + NUM_PAG_CODE + NUM_PAG_DATA
  }

  /** The error code sys_write returns before it copies anything, or 0. */
  function WriteError(fd: int, buffer: nat, size: int): int {
    if fd != 1 then -EBADF
    else if buffer == 0 then -EFAULT
    else if size <= 0 then -EINVAL
    else if !AccessOk(buffer, size) then -EFAULT
    else 0
  }

  /** access_ok accepts a buffer exactly if it starts in the process's pages and ends before the second
      page behind the code: every buffer in the data and code pages, and one page more. */
  lemma AcceptedIff(addr: nat, size: int)
    requires addr < 0x1_0000_0000 && 0 < size <= INT_MAX
    ensures AccessOk(addr, size) <==>
              DATA * PAGE <= addr && addr + size < (DATA + NUM_PAG_DATA + NUM_PAG_CODE + 1) * PAGE
    ensures DATA * PAGE <= addr && addr + size <= (DATA + NUM_PAG_DATA + NUM_PAG_CODE) * PAGE ==>
              WriteError(1, addr, size) == 0
    ensures (HEAP + 1) * PAGE <= addr + size ==> WriteError(1, addr, size) != 0
  {
    var sum := addr + size;
    assert sum < 0x1_0000_0000 ==> sum % 0x1_0000_0000 == sum;
    assert sum >= 0x1_0000_0000 ==> addr / PAGE > DATA + NUM_PAG_DATA + NUM_PAG_CODE;
  }

  lemma SameSlice(m': seq<byte>, m: seq<byte>, base: nat, b: nat, n: nat)
    requires |m'| == |m| && base <= b && b + n <= |m| && m'[base..] == m[base..]
    ensures m'[b..b + n] == m[b..b + n]
  {
    assert m'[b..b + n] == m'[base..][b - base..b + n - base];
  }

  lemma SliceJoin(m: seq<byte>, a: nat, b: nat, c: nat)
    requires a <= b <= c <= |m|
    ensures m[a..b] + m[b..c] == m[a..c]
  {
  }

  class Console {
    var mem: array<byte>   // the address space: kernel pages, then the pages of the process
    var shown: seq<byte>   // what sys_write_console has printed
    const bufferAux: nat

    constructor (mem: array<byte>, bufferAux: nat)
      requires mem.Length == TOTAL_PAGES * PAGE && bufferAux + CHUNK <= DATA * PAGE
      ensures Valid() && this.mem == mem && shown == []
    {
      this.mem, this.bufferAux, shown := mem, bufferAux, [];
    }

    ghost predicate Valid()
      reads this
    {
      mem.Length == TOTAL_PAGES * PAGE && bufferAux + CHUNK <= DATA * PAGE
    }

    /** sys_write_console prints `n` bytes from `a` on and returns their number. */
    method WriteConsole(a: nat, n: nat) returns (r: int)
      requires a + n <= mem.Length
      modifies this`shown
      ensures r == n && shown == old(shown) + mem[a..a + n]
    {
      shown := shown + mem[a..a + n];
      r := n;
    }

    /** One chunk: through the kernel buffer to the console. */
    method WriteChunk(buffer: nat, n: nat) returns (r: int)
      requires Valid() && n <= CHUNK && DATA * PAGE <= buffer && buffer + n <= mem.Length
      modifies this`shown, mem
      ensures r == n && shown == old(shown) + old(mem[..])[buffer..buffer + n]
      ensures mem[..][DATA * PAGE..] == old(mem[..])[DATA * PAGE..]
    {
      ghost var m := mem[..];
      CopyData(mem, buffer, bufferAux, n);
      CopiedIsMoved(m, buffer, bufferAux, n);
      hide Copied, Moved;
      MovedChunk(m, buffer, bufferAux, n, DATA * PAGE);
      assert mem[bufferAux..bufferAux + n] == mem[..][bufferAux..bufferAux + n];
      r := WriteConsole(bufferAux, n);
    }

    /** sys_write prints exactly the user's buffer, in order, whatever its size, and returns that size;
        on an error it prints nothing. User memory is only read. */
    method SysWrite(fd: int, buffer: nat, size: int) returns (ret: int)
      requires Valid() && buffer < 0x1_0000_0000 && size <= INT_MAX
      modifies this`shown, mem
      ensures var e := WriteError(fd, buffer, size);
              if e != 0 then ret == e && shown == old(shown)
              else ret == size && buffer + size <= mem.Length
                   && shown == old(shown) + old(mem[..])[buffer..buffer + size]
      ensures mem[..][DATA * PAGE..] == old(mem[..])[DATA * PAGE..]
    {
      if fd != 1 {
        return -EBADF;
      } else if buffer == 0 {
        return -EFAULT;
      } else if size <= 0 {
        return -EINVAL;
      } else if !AccessOk(buffer, size) {
        return -EFAULT;
      }
      ghost var m := mem[..];
      ghost var base := DATA * PAGE;
      ret := 0;
      var b, left := buffer, size;
      while left > CHUNK
        invariant 0 < left && base <= b && b + left == buffer + size <= mem.Length
        invariant ret == b - buffer && shown == old(shown) + m[buffer..b]
        invariant mem[..][base..] == m[base..]
      {
        SameSlice(mem[..], m, base, b, CHUNK);
        SliceJoin(m, buffer, b, b + CHUNK);
        var n := WriteChunk(b, CHUNK);
        ret := ret + n;
        b := b + CHUNK;
        left := left - CHUNK;
      }
      SameSlice(mem[..], m, base, b, left);
      SliceJoin(m, buffer, b, b + left);
      var n := WriteChunk(b, left);
      ret := ret + n;
    }
  }
}
