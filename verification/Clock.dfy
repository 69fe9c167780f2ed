/**
  The system clock: a free-running 24-bit SysTick down-counter, widened to 32
  bits by a software stamp, and wrap-around comparison of 32-bit times.

  "True time" is an unbounded count of SysTick ticks. It exists only in
  specifications; the program sees the counter and the stamp.
*/
module Clock {
  import opened Words

  const TWO24 := 0x100_0000
  const TWO31 := 0x8000_0000
  const TWO32 := 0x1_0000_0000

  function Wrap(x: int): u32 { x % TWO32 }

  function Complement(x: u32): u32 { TWO32 - 1 - x }

  function Signed(x: u32): int { if x < TWO31 then x else x - TWO32 }

  /** `time_diff(x, y)`: the signed 32-bit distance from x to y. */
  function TimeDiff(x: u32, y: u32): (d: int)
    ensures -TWO31 <= d < TWO31
  {
    Signed(Wrap(y - x))
  }

  /** The hardware counter at true time `t`, having read `v0` at time 0. */
  function SysTick(v0: int, t: int): u24 { (v0 - t) % TWO24 }

  /** `time_now()` once its two reads, the stamp and the counter, are made. The
      counter has no bits in common with the top byte of the stamp, so the
      bitwise "or" that joins them is a sum. */
  function TimeNowFrom(stamp: u32, counter: u24): u32 {
    var t := counter + stamp / TWO24 * TWO24;
    Complement(if t > stamp then Wrap(t - TWO24) else t)
  }

  /** Whole turns of the 32-bit clock make no difference. */
  lemma WrapTurns(x: int, turns: int)
    ensures Wrap(x + turns * TWO32) == Wrap(x)
  {
    var y := x + turns * TWO32;
    var q := y / TWO32 - x / TWO32 - turns;
    assert q * TWO32 == x % TWO32 - y % TWO32;
    assert q == 0;
  }

  lemma WrapAdd(x: int, y: int)
    ensures Wrap(Wrap(x) + y) == Wrap(x + y)
    ensures Wrap(y - Wrap(x)) == Wrap(y - x)
  {
    assert x == x / TWO32 * TWO32 + Wrap(x);
    WrapTurns(Wrap(x) + y, x / TWO32);
    WrapTurns(y - x, x / TWO32);
  }

  /** Signed differences of wrapped times are the true differences, for any
      two true times less than 2^31 ticks apart. */
  lemma TimeDiffExact(k: int, now: int, due: int)
    requires -TWO31 <= due - now < TWO31
    ensures TimeDiff(Wrap(now + k), Wrap(due + k)) == due - now
  {
    WrapAdd(now + k, Wrap(due + k));
    WrapAdd(due + k, -(now + k));
  }

  /** The counter value at which a stamp of the right time was taken. */
  lemma StampLow(x: int)
    ensures Complement(Wrap(x)) % TWO24 == (-1 - x) % TWO24
  {
    var c := Complement(Wrap(x));
    var n := -1 - x;
    var turns := x / TWO32 + 1;
    assert c == n + turns * TWO32;
    TurnsLow(n, turns * 256);
  }

  lemma TurnsLow(x: int, turns: int)
    ensures (x + turns * TWO24) % TWO24 == x % TWO24
  {
    var y := x + turns * TWO24;
    var q := y / TWO24 - x / TWO24 - turns;
    assert q * TWO24 == x % TWO24 - y % TWO24;
    assert q == 0;
  }

  lemma TimeDiffInverse(x: u32, y: u32)
    ensures Wrap(x + TimeDiff(x, y)) == y
  {
    WrapAdd(y - x, x);
  }

  /** How many ticks the two-read clock lags behind: whole turns of the 24-bit
      counter since the stamp was taken. */
  lemma TimeNowLag(v0: int, stamp: u32, stampAt: int, now: int)
    requires stampAt <= now
    requires stamp % TWO24 == SysTick(v0, stampAt)
    ensures TimeNowFrom(stamp, SysTick(v0, now))
            == Wrap(Complement(stamp) + (now - stampAt) % TWO24)
  {
    var age := (now - stampAt) % TWO24;
    var low := stamp % TWO24;
    assert (low - age) % TWO24 == SysTick(v0, now);
    assert stamp == low + stamp / TWO24 * TWO24;
    var t := SysTick(v0, now) + stamp / TWO24 * TWO24;
    if age <= low {
      assert t == stamp - age;
    } else {
      assert t == stamp - age + TWO24;
    }
  }

  /** `time_now()` is the stamped time plus the ticks elapsed since the stamp
      exactly when the counter has turned a multiple of 256 times, hence
      whenever the stamp is younger than one turn. */
  lemma TimeNowCorrectIff(v0: int, stamp: u32, stampAt: int, now: int)
    requires stampAt <= now
    requires stamp % TWO24 == SysTick(v0, stampAt)
    ensures TimeNowFrom(stamp, SysTick(v0, now)) == Wrap(Complement(stamp) + (now - stampAt))
            <==> (now - stampAt) / TWO24 % 256 == 0
  {
    TimeNowLag(v0, stamp, stampAt, now);
    var age := now - stampAt;
    var turns := age / TWO24;
    var c := Complement(stamp);
    assert age == turns * TWO24 + age % TWO24;
    WrapSame(c + age % TWO24, turns);
  }

  lemma WrapSame(x: int, turns: int)
    ensures Wrap(x) == Wrap(x + turns * TWO24) <==> turns % 256 == 0
  {
    var q, r := turns / 256, turns % 256;
    assert x + turns * TWO24 == x + r * TWO24 + q * TWO32;
    assert Wrap(x + turns * TWO24) == Wrap(x + r * TWO24);
  }
}
