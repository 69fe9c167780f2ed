/**
  Copying between ranges of one memory, which may overlap: memmove reuses
  memcpy, which copies large aligned ranges in 32-byte blocks, whenever the
  destination is the lower address.
*/
module Memory {
  import opened Words

  /** Byte `i` after `n` bytes at `src` have been moved to `dest`. */
  function MovedByte(m: seq<byte>, dest: nat, src: nat, n: nat, i: nat): byte
    requires dest + n <= |m| && src + n <= |m| && i < |m|
  {
    if dest <= i < dest + n then m[src + (i - dest)] else m[i]
  }

  /** `r` is memory after `n` bytes at `src` have been moved to `dest`. */
  ghost predicate Moved(m: seq<byte>, dest: nat, src: nat, n: nat, r: seq<byte>)
    requires dest + n <= |m| && src + n <= |m|
  {
    |r| == |m| && forall i :: 0 <= i < |m| ==> r[i] == MovedByte(m, dest, src, n, i)
  }

  /** `r` is memory after all but the first `left` of the bytes have been moved. */
  ghost predicate MovedFrom(m: seq<byte>, dest: nat, src: nat, n: nat, left: nat, r: seq<byte>)
    requires dest + n <= |m| && src + n <= |m| && left <= n
  {
    Moved(m, dest + left, src + left, n - left, r)
  }

  /** A lower destination, or ranges that do not meet: copying upwards then never
      overwrites a byte that is still to be read. */
  predicate UpwardsSafe(dest: nat, src: nat, n: nat) { dest <= src || src + n <= dest }

  /** memcpy_fast: eight words are loaded, then stored, per block. */
  method MemcpyFast(mem: array<byte>, dest: nat, src: nat, n: nat)
    requires n > 0 && n % 32 == 0
    requires dest + n <= mem.Length && src + n <= mem.Length
    requires UpwardsSafe(dest, src, n)
    modifies mem
    ensures Moved(old(mem[..]), dest, src, n, mem[..])
  {
    var r0, r1, r2 := dest, src, n;
    while true
      invariant 0 < r2 <= n && r2 % 32 == 0 && r0 == dest + (n - r2) && r1 == src + (n - r2)
      invariant Moved(old(mem[..]), dest, src, n - r2, mem[..])
      decreases r2
    {
      BlockStep(mem, old(mem[..]), dest, src, n - r2, n);
      r0, r1, r2 := r0 + 32, r1 + 32, r2 - 32;
      if r2 == 0 {
        break;
      }
    }
  }

  /** One block: `ldmia r1!,{r3-r10}; stmia r0!,{r3-r10}`. */
  method BlockStep(mem: array<byte>, ghost was: seq<byte>, dest: nat, src: nat, done: nat, ghost n: nat)
    requires done + 32 <= n && dest + n <= mem.Length == |was| && src + n <= mem.Length
    requires UpwardsSafe(dest, src, n) && Moved(was, dest, src, done, mem[..])
    modifies mem
    ensures Moved(was, dest, src, done + 32, mem[..])
  {
    var words := mem[src + done..src + done + 32];
    forall i | dest + done <= i < dest + done + 32 {
      mem[i] := words[i - (dest + done)];
    }
  }

  /** memcpy */
  method Memcpy(mem: array<byte>, dest: nat, src: nat, n: nat)
    requires dest + n <= mem.Length && src + n <= mem.Length
    requires UpwardsSafe(dest, src, n)
    modifies mem
    ensures Moved(old(mem[..]), dest, src, n, mem[..])
  {
    var p, q, left := dest, src, n;
    var n32 := n / 32 * 32;
    if n32 != 0 && p % 4 == 0 && q % 4 == 0 {
      MemcpyFast(mem, p, q, n32);
      p, q, left := p + n32, q + n32, left % 32;
    }
    while left > 0
      invariant 0 <= left <= n && p == dest + (n - left) && q == src + (n - left)
      invariant Moved(old(mem[..]), dest, src, n - left, mem[..])
    {
      ByteStep(mem, old(mem[..]), dest, src, n - left, n);
      p, q, left := p + 1, q + 1, left - 1;
    }
  }

  /** `*p++ = *q++` */
  method ByteStep(mem: array<byte>, ghost was: seq<byte>, dest: nat, src: nat, done: nat, ghost n: nat)
    requires done < n && dest + n <= mem.Length == |was| && src + n <= mem.Length
    requires UpwardsSafe(dest, src, n) && Moved(was, dest, src, done, mem[..])
    modifies mem
    ensures Moved(was, dest, src, done + 1, mem[..])
  {
    mem[dest + done] := mem[src + done];
  }

  /** memmove, for every pair of ranges: each destination byte becomes the
      original source byte, and nothing else changes. */
  method Memmove(mem: array<byte>, dest: nat, src: nat, n: nat)
    requires dest + n <= mem.Length && src + n <= mem.Length
    modifies mem
    ensures Moved(old(mem[..]), dest, src, n, mem[..])
  {
    ghost var was := mem[..];
    if dest < src {
      Memcpy(mem, dest, src, n);
      return;
    }
    var p, q, left := dest + n, src + n, n;
    while left > 0
      invariant 0 <= left <= n && p == dest + left && q == src + left
      invariant MovedFrom(was, dest, src, n, left, mem[..])
    {
      p, q, left := p - 1, q - 1, left - 1;
      mem[p] := mem[q];
    }
  }

  // -- Why the other direction is needed ----------------------------------------------

  /** Memory after the byte loop of memcpy, whatever the ranges. */
  function Upwards(m: seq<byte>, dest: nat, src: nat, n: nat): (r: seq<byte>)
    requires dest + n <= |m| && src + n <= |m|
    ensures |r| == |m|
  {
    if n == 0 then m
    else
      var u := Upwards(m, dest, src, n - 1);
      u[dest + n - 1 := u[src + n - 1]]
  }

  lemma {:induction false} UpwardsOutside(m: seq<byte>, dest: nat, src: nat, n: nat)
    requires dest + n <= |m| && src + n <= |m|
    ensures forall i :: 0 <= i < |m| && !(dest <= i < dest + n) ==> Upwards(m, dest, src, n)[i] == m[i]
  {
    if n == 0 {
    } else {
      UpwardsOutside(m, dest, src, n - 1);
    }
  }

  /** Into a higher range, what lies beyond the start of that range is a copy of what has
      just been copied. */
  lemma {:induction false} UpwardsRepeats(m: seq<byte>, dest: nat, src: nat, n: nat, i: nat)
    requires src < dest && dest + n <= |m| && i < n
    ensures var u, d := Upwards(m, dest, src, n), dest - src;
            u[dest + i] == if i < d then m[src + i] else u[dest + i - d]
  {
    UpwardsOutside(m, dest, src, n - 1);
    if i == n - 1 {
    } else {
      UpwardsRepeats(m, dest, src, n - 1, i);
    }
  }

  /** The overlap of the ranges repeats what lies at their distance before it. */
  ghost predicate Periodic(m: seq<byte>, dest: nat, src: nat, n: nat)
    requires src < dest && dest + n <= |m|
  {
    forall i :: dest <= i < src + n ==> m[i] == m[i - (dest - src)]
  }

  /** Into a higher range, copying upwards is right exactly when the source repeats
      itself at the distance of the ranges. */
  lemma UpwardsMovesIff(m: seq<byte>, dest: nat, src: nat, n: nat)
    requires src < dest && dest + n <= |m|
    ensures Moved(m, dest, src, n, Upwards(m, dest, src, n)) <==> Periodic(m, dest, src, n)
  {
    var u, d := Upwards(m, dest, src, n), dest - src;
    UpwardsOutside(m, dest, src, n);
    if Moved(m, dest, src, n, u) {
      forall i | dest <= i < src + n
        ensures m[i] == m[i - d]
      {
        UpwardsRepeats(m, dest, src, n, i - src);
        assert u[d + i] == MovedByte(m, dest, src, n, d + i) == m[i];
        assert u[i] == MovedByte(m, dest, src, n, i) == m[i - d];
      }
    } else if Periodic(m, dest, src, n) {
      forall i | dest <= i < dest + n
        ensures u[i] == MovedByte(m, dest, src, n, i)
      {
        PeriodicMoves(m, dest, src, n, i - dest);
      }
    }
  }

  lemma {:induction false} PeriodicMoves(m: seq<byte>, dest: nat, src: nat, n: nat, i: nat)
    requires src < dest && dest + n <= |m| && i < n && Periodic(m, dest, src, n)
    ensures Upwards(m, dest, src, n)[dest + i] == m[src + i]
    decreases i
  {
    UpwardsRepeats(m, dest, src, n, i);
    if i < dest - src {
    } else {
      PeriodicMoves(m, dest, src, n, i - (dest - src));
      assert m[src + i] == m[src + i - (dest - src)];
    }
  }
}
