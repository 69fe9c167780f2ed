/**
  strtol, and its being the inverse of the number conversions of vsnprintf.
*/
module Strtol {
  import opened Division
  import opened Printf
  import opened Words

  datatype Parsed = Parsed(value: int, consumed: nat)

  type Long = x: int | -0x8000_0000 <= x <= 0x7fff_ffff

  // -- What is read -----------------------------------------------------------------

  function At(s: string, i: nat): char { if i < |s| then s[i] else '\0' }

  function Lower(c: char): char { if 'A' <= c <= 'Z' then 'a' + (c - 'A') else c }

  predicate Space(c: char) {
    c == ' ' || c == '\t' || c == '\n' || c == '\r' || c == 12 as char || c == 11 as char
  }

  /** The value of a digit, 36 for any other character. */
  function DigitValue(c: char): nat {
    var l := Lower(c);
    if '0' <= l <= '9' then l as int - '0' as int
    else if 'a' <= l <= 'z' then l as int - 'a' as int + 10
    else 36
  }

  function SkipSpaces(s: string, i: nat): (j: nat)
    requires i <= |s|
    ensures i <= j <= |s|
    decreases |s| - i
  {
    if Space(At(s, i)) then SkipSpaces(s, i + 1) else i
  }

  /** The digits from position i on. */
  function Scan(s: string, i: nat, base: int, value: int): (r: Parsed)
    requires i <= |s|
    ensures r.consumed <= |s|
    decreases |s| - i
  {
    if i < |s| && DigitValue(s[i]) < 36 && DigitValue(s[i]) < base then
      Scan(s, i + 1, base, value * base + DigitValue(s[i]))
    else Parsed(value, i)
  }

  /** The optional prefix 0 or 0x, then the digits. A base of 0 becomes 8 at the 0,
      before the x is looked at. */
  function Unsigned(s: string, i: nat, base: int): (r: Parsed)
    requires i <= |s|
  {
    if At(s, i) == '0' then
      var b := if base == 0 then 8 else base;
      if Lower(At(s, i + 1)) == 'x' then
        if b != 16 then Parsed(0, i + 1) else Scan(s, i + 2, b, 0)
      else Scan(s, i + 1, b, 0)
    else Scan(s, i, if base == 0 then 10 else base, 0)
  }

  function Read(s: string, base: int): (r: Parsed) {
    var i := SkipSpaces(s, 0);
    if At(s, i) == '-' then
      var u := Unsigned(s, i + 1, base);
      Parsed(-u.value, u.consumed)
    else Unsigned(s, if At(s, i) == '+' then i + 1 else i, base)
  }

  /** No signed overflow on the way: the value only grows as digits are read. */
  predicate Fits(s: string, base: int) { -0x7fff_ffff <= Read(s, base).value <= 0x7fff_ffff }

  lemma {:induction false} ScanGrows(s: string, i: nat, base: int, value: int)
    requires i <= |s| && 0 <= value
    ensures value <= Scan(s, i, base, value).value
    decreases |s| - i
  {
    if |s| <= i || DigitValue(s[i]) >= 36 || DigitValue(s[i]) >= base {
    } else {
      assert value <= value * base;
      ScanGrows(s, i + 1, base, value * base + DigitValue(s[i]));
    }
  }

  // -- The loop -----------------------------------------------------------------------

  /** strtol, with pointers as positions: reading the terminator is reading NUL. */
  method Strtol(s: string, base0: int) returns (r: Parsed)
    requires Fits(s, base0)
    ensures r == Read(s, base0)
  {
    hide Scan, Space;
    var base := base0;
    var p, neg := 0, false;
    while Space(At(s, p))
      invariant p <= |s| && SkipSpaces(s, p) == SkipSpaces(s, 0)
      decreases |s| - p
    {
      p := p + 1;
    }
    var c := Lower(At(s, p));
    if c == '+' || c == '-' {
      neg := c == '-';
      p := p + 1;
      c := Lower(At(s, p));
    }
    ghost var start := p;
    if c == '0' {
      if base == 0 {
        base := 8;
      }
      p := p + 1;
      c := Lower(At(s, p));
      if c == 'x' {
        if base == 0 {
          base := 16;
        }
        if base != 16 {
          return Parsed(0, p);
        }
        p := p + 1;
        c := Lower(At(s, p));
      }
    }
    if base == 0 {
      base := 10;
    }
    assert Scan(s, p, base, 0) == Unsigned(s, start, base0);
    var val;
    val, p := ScanDigits(s, p, base);
    r := Parsed(if neg then -val else val, p);
  }

  method ScanDigits(s: string, start: nat, base: int) returns (val: Long, p: nat)
    requires start <= |s| && Scan(s, start, base, 0).value <= 0x7fff_ffff
    ensures Parsed(val, p) == Scan(s, start, base, 0)
  {
    hide Scan, DigitValue;
    p, val := start, 0;
    while true
      invariant p <= |s| && 0 <= val
      invariant Scan(s, p, base, val) == Scan(s, start, base, 0)
      decreases |s| - p
    {
      var c, d := Lower(At(s, p)), 0;
      if '0' <= c <= '9' {
        d := c as int - '0' as int;
      } else if 'a' <= c <= 'z' {
        d := c as int - 'a' as int + 10;
      } else {
        if p < |s| {
          NoDigit(s, p);
        }
        ScanStops(s, p, base, val);
        break;
      }
      DigitOf(s, p, d);
      if d >= base {
        ScanStops(s, p, base, val);
        break;
      }
      ScanStep(s, p, base, val, val * base + d);
      val := val * base + d;
      p := p + 1;
    }
  }

  lemma DigitOf(s: string, p: nat, d: int)
    requires p <= |s|
    requires var c := Lower(At(s, p));
             || ('0' <= c <= '9' && d == c as int - '0' as int)
             || ('a' <= c <= 'z' && d == c as int - 'a' as int + 10)
    ensures p < |s| && DigitValue(s[p]) == d < 36
  {
  }

  lemma NoDigit(s: string, p: nat)
    requires p < |s|
    ensures DigitValue(s[p]) < 36 ==> '0' <= Lower(s[p]) <= '9' || 'a' <= Lower(s[p]) <= 'z'
  {
  }

  lemma ScanStops(s: string, p: nat, base: int, val: int)
    requires p <= |s|
    requires p < |s| ==> DigitValue(s[p]) >= 36 || DigitValue(s[p]) >= base
    ensures Scan(s, p, base, val) == Parsed(val, p)
  {
  }

  lemma ScanStep(s: string, p: nat, base: int, val: int, next: int)
    requires p < |s| && DigitValue(s[p]) < 36 && DigitValue(s[p]) < base
    requires next == val * base + DigitValue(s[p])
    requires 0 <= val && Scan(s, p, base, val).value <= 0x7fff_ffff
    ensures Scan(s, p, base, val) == Scan(s, p + 1, base, next)
    ensures 0 <= next <= 0x7fff_ffff
  {
    hide DigitValue;
    ProductOf(val, base);
    assert Scan(s, p, base, val) == Scan(s, p + 1, base, next);
    ScanGrows(s, p + 1, base, next);
  }

  lemma ProductOf(a: nat, b: nat)
    ensures 0 <= a * b
  {
  }

  // -- Reading back what was printed ------------------------------------------------

  function Fold(d: string, base: int, value: int): int {
    if d == "" then value else Fold(d[1..], base, value * base + DigitValue(d[0]))
  }

  predicate AllDigits(d: string, base: int) {
    forall k :: 0 <= k < |d| ==> DigitValue(d[k]) < base
  }

  lemma {:induction false} ScanFold(s: string, i: nat, base: int, value: int)
    requires i <= |s| && base <= 36 && AllDigits(s[i..], base)
    ensures Scan(s, i, base, value) == Parsed(Fold(s[i..], base, value), |s|)
    decreases |s| - i
  {
    if i == |s| {
    } else {
      assert s[i..][0] == s[i];
      assert s[i..][1..] == s[i + 1..];
      ScanFold(s, i + 1, base, value * base + DigitValue(s[i]));
    }
  }

  lemma {:induction false} FoldMore(d: string, c: char, base: int, value: int)
    ensures Fold(d + [c], base, value) == Fold(d, base, value) * base + DigitValue(c)
  {
    if d == "" {
      assert ([c])[1..] == "";
    } else {
      assert (d + [c])[1..] == d[1..] + [c];
      FoldMore(d[1..], c, base, value * base + DigitValue(d[0]));
    }
  }

  lemma DigitCharValue(d: nat, upper: bool)
    requires d < 16
    ensures DigitValue(DigitChar(d, upper)) == d
  {
  }

  lemma FoldOfNone(base: int)
    ensures Fold("", base, 0) == 0
  {
  }

  /** Reading the digits of a number gives the number. */
  lemma {:induction false} FoldDigits(x: nat, base: nat, upper: bool)
    requires 2 <= base <= 16
    ensures Fold(Digits(x, base, upper), base, 0) == x
    ensures AllDigits(Digits(x, base, upper), base)
    decreases x
  {
    hide DigitChar, DigitValue, Digits, Fold;
    Quotient(x, base);
    if x < base {
      DigitsShort(x, base, upper);
      DigitCharValue(x, upper);
      FoldMore("", DigitChar(x, upper), base, 0);
      FoldOfNone(base);
      assert "" + [DigitChar(x, upper)] == [DigitChar(x, upper)];
    } else {
      DigitsStep(x, base, upper);
      DigitCharValue(x % base, upper);
      FoldDigits(x / base, base, upper);
      FoldMore(Digits(x / base, base, upper), DigitChar(x % base, upper), base, 0);
    }
  }

  lemma {:induction false} FoldZeros(n: int, d: string, base: int)
    requires 2 <= base
    ensures Fold(Repeat('0', n) + d, base, 0) == Fold(d, base, 0)
    ensures AllDigits(d, base) ==> AllDigits(Repeat('0', n) + d, base)
    decreases n
  {
    if n <= 0 {
      assert Repeat('0', n) + d == d;
    } else {
      assert (Repeat('0', n) + d)[1..] == Repeat('0', n - 1) + d;
      FoldZeros(n - 1, d, base);
      assert Repeat('0', n) + d == ['0'] + (Repeat('0', n - 1) + d);
    }
  }

  /** A run of digits is read whole, whatever it starts with. */
  lemma ReadRun(s: string, i: nat, base: int)
    requires i < |s| && 2 <= base <= 16 && AllDigits(s[i..], base)
    ensures Unsigned(s, i, base) == Parsed(Fold(s[i..], base, 0), |s|)
  {
    ScanFold(s, i, base, 0);
    assert s[i..][0] == s[i];
    if s[i] == '0' {
      assert s[i..][1..] == s[i + 1..];
      ScanFold(s, i + 1, base, 0);
      if i + 1 < |s| {
        assert s[i..][1] == s[i + 1];
      }
    }
  }

  lemma {:induction false} SkipRun(s: string, i: nat, k: nat)
    requires i <= k <= |s| && !Space(At(s, k))
    requires forall j :: i <= j < k ==> s[j] == ' '
    ensures SkipSpaces(s, i) == k
    decreases k - i
  {
    if i == k {
    } else {
      SkipRun(s, i + 1, k);
    }
  }

  lemma {:induction false} RepeatAt(c: char, n: int, k: nat)
    requires k < n
    ensures Repeat(c, n)[k] == c
    decreases n
  {
    if k == 0 {
    } else {
      RepeatAt(c, n - 1, k - 1);
    }
  }

  lemma ReadSigned(n: int, neg: bool, d: string, base: int)
    requires 2 <= base <= 16 && d != "" && AllDigits(d, base)
    ensures var s := Repeat(' ', n) + Minus(neg) + d;
            Read(s, base) == Parsed(if neg then -Fold(d, base, 0) else Fold(d, base, 0), |s|)
  {
    var s := Repeat(' ', n) + Minus(neg) + d;
    var k := |Repeat(' ', n)|;
    forall j | 0 <= j < k ensures s[j] == ' ' {
      RepeatAt(' ', n, j);
    }
    var i := if neg then k + 1 else k;
    assert s[k] == if neg then '-' else d[0];
    assert DigitValue(d[0]) < base;
    SkipRun(s, 0, k);
    assert s[i..] == d;
    ReadRun(s, i, base);
  }

  function Signed(m: u32, neg: bool): int { if neg then 0 - m else m }

  /** A number without prefix, padded either way. */
  lemma ReadSpelled(m: u32, neg: bool, f: Flags, r: Radix)
    requires r.base in {8, 10, 16} && Prefix(f, r) == ""
    ensures Read(Spelled(m, neg, f, r), r.base) == Parsed(Signed(m, neg), |Spelled(m, neg, f, r)|)
  {
    hide Digits, Read, Fold, AllDigits, Prefix, Spelled;
    var d := Digits(m, r.base, r.upper);
    var k := PadWidth(neg, |d|, f, r);
    FoldDigits(m, r.base, r.upper);
    SpelledPlain(m, neg, f, r);
    if f.zeroPad {
      FoldZeros(k, d, r.base);
      ReadSigned(0, neg, Repeat('0', k) + d, r.base);
    } else {
      ReadSigned(k, neg, d, r.base);
    }
  }

  lemma SpelledPlain(m: u32, neg: bool, f: Flags, r: Radix)
    requires 2 <= r.base <= 16 && Prefix(f, r) == ""
    ensures var d := Digits(m, r.base, r.upper);
            var k := PadWidth(neg, |d|, f, r);
            Spelled(m, neg, f, r)
            == if f.zeroPad then Repeat(' ', 0) + Minus(neg) + (Repeat('0', k) + d)
               else Repeat(' ', k) + Minus(neg) + d
  {
    hide Digits, Prefix;
    var d := Digits(m, r.base, r.upper);
    var k := PadWidth(neg, |d|, f, r);
    if f.zeroPad {
      assert Minus(neg) + "" + Repeat('0', k) + "" + d == Minus(neg) + (Repeat('0', k) + d);
    } else {
      assert "" + "" + Repeat(' ', k) + Minus(neg) + d == Repeat(' ', k) + Minus(neg) + d;
    }
  }

  /** The value of a number argument under its conversion. */
  function ValueOf(n: u32, f: Flags, r: Radix): int {
    if r.signed then AsInt(Cut(n, f, r)) else Cut(n, f, r)
  }

  /** %d, %i, padded with spaces or zeros to any width: reading in base ten gives the
      number back and takes the whole text; nothing overflows unless the number has no
      positive counterpart. */
  lemma DecimalReadsBack(n: u32, f: Flags, r: Radix)
    requires r.base == 10
    ensures Read(NumberText(n, f, r), 10) == Parsed(ValueOf(n, f, r), |NumberText(n, f, r)|)
    ensures Fits(NumberText(n, f, r), 10) <==> -0x8000_0000 < ValueOf(n, f, r) < 0x8000_0000
  {
    hide Digits, Repeat, Read;
    var x := Cut(n, f, r);
    var neg := Negative(x, r);
    ReadSpelled(Magnitude(x, neg), neg, f, r);
  }

  /** Spaces that land between the prefix and the digits. */
  predicate SpacesInside(n: u32, f: Flags, r: Radix)
    requires 2 <= r.base <= 16
  {
    Prefix(f, r) != "" && !f.zeroPad && PadWidth(false, |Digits(Cut(n, f, r), r.base, r.upper)|, f, r) > 0
  }

  /** %u, %o, %x and %X read back in their own base, exactly when no padding lands
      between a prefix and the digits; a value that does not fit a long overflows. */
  lemma UnsignedReadsBackIff(n: u32, f: Flags, r: Radix)
    requires !r.signed && r.base in {8, 10, 16}
    ensures Read(NumberText(n, f, r), r.base) == Parsed(ValueOf(n, f, r), |NumberText(n, f, r)|)
            <==> !SpacesInside(n, f, r)
    ensures !SpacesInside(n, f, r) ==> (Fits(NumberText(n, f, r), r.base) <==> ValueOf(n, f, r) < 0x8000_0000)
  {
    hide Digits, Repeat, Read;
    if Prefix(f, r) == "" {
      ReadSpelled(Cut(n, f, r), false, f, r);
    } else if SpacesInside(n, f, r) {
      ReadSpaced(Cut(n, f, r), f, r);
    } else {
      ReadPrefixed(Cut(n, f, r), f, r);
    }
  }

  lemma StopsAtSpace(prefix: string, k: int, d: string, base: int)
    requires k > 0 && ((base == 8 && prefix == "0") || (base == 16 && prefix == "0x"))
    ensures Read(prefix + Repeat(' ', k) + d, base) == Parsed(0, |prefix|)
  {
    var s := prefix + Repeat(' ', k) + d;
    RepeatAt(' ', k, 0);
    assert s[0] == '0' && s[|prefix|] == ' ';
    assert base == 16 ==> s[1] == 'x';
  }

  lemma ReadSpaced(m: u32, f: Flags, r: Radix)
    requires r.base in {8, 10, 16} && Prefix(f, r) != "" && !f.zeroPad
    requires PadWidth(false, |Digits(m, r.base, r.upper)|, f, r) > 0
    ensures Read(Spelled(m, false, f, r), r.base).consumed < |Spelled(m, false, f, r)|
  {
    hide Digits, Repeat, Read;
    var d := Digits(m, r.base, r.upper);
    var k := PadWidth(false, |d|, f, r);
    StopsAtSpace(Prefix(f, r), k, d, r.base);
    assert Spelled(m, false, f, r) == Prefix(f, r) + Repeat(' ', k) + d;
  }

  lemma ReadPrefixed(m: u32, f: Flags, r: Radix)
    requires r.base in {8, 10, 16} && Prefix(f, r) != ""
    requires f.zeroPad || PadWidth(false, |Digits(m, r.base, r.upper)|, f, r) <= 0
    ensures Read(Spelled(m, false, f, r), r.base) == Parsed(m, |Spelled(m, false, f, r)|)
  {
    hide Digits, Read, Fold, AllDigits;
    var d := Digits(m, r.base, r.upper);
    var k := PadWidth(false, |d|, f, r);
    FoldDigits(m, r.base, r.upper);
    FoldZeros(k, d, r.base);
    var zeros := Repeat('0', k) + d;
    PrefixThenDigits(Prefix(f, r), zeros, r.base);
    assert Repeat(Pad(f), k) == Repeat('0', k);
    assert Spelled(m, false, f, r) == Prefix(f, r) + zeros;
  }

  lemma PrefixThenDigits(prefix: string, d: string, base: int)
    requires d != "" && AllDigits(d, base)
    requires (base == 8 && prefix == "0") || (base == 16 && prefix == "0x")
    ensures Read(prefix + d, base) == Parsed(Fold(d, base, 0), |prefix + d|)
  {
    var s := prefix + d;
    assert s[0] == '0' && s[|prefix|..] == d;
    if base == 8 {
      assert AllDigits(s, 8);
      assert s[0..] == s && s[1..] == d;
      ReadRun(s, 0, 8);
    } else {
      assert s[1] == 'x';
      ScanFold(s, 2, 16, 0);
    }
  }

  lemma {:induction false} ScanForward(s: string, i: nat, base: int, value: int)
    requires i <= |s|
    ensures i <= Scan(s, i, base, value).consumed
    decreases |s| - i
  {
    if |s| <= i || DigitValue(s[i]) >= 36 || DigitValue(s[i]) >= base {
    } else {
      ScanForward(s, i + 1, base, value * base + DigitValue(s[i]));
    }
  }

  /** Where the digits begin, prefix included: behind the spaces and the sign. */
  function AfterSign(s: string): nat {
    var i := SkipSpaces(s, 0);
    if At(s, i) == '+' || At(s, i) == '-' then i + 1 else i
  }

  /** A hexadecimal prefix is read, rather than its 0 alone with the value zero, exactly
      when the base is 16: base 0 does not recognise it. */
  lemma HexPrefixReadIff(s: string, base: int)
    requires At(s, AfterSign(s)) == '0' && Lower(At(s, AfterSign(s) + 1)) == 'x'
    ensures Read(s, base).consumed > AfterSign(s) + 1 <==> base == 16
    ensures base != 16 ==> Read(s, base) == Parsed(0, AfterSign(s) + 1)
  {
    var k := AfterSign(s);
    if base == 16 {
      ScanForward(s, k + 2, 16, 0);
    }
  }

  // -- What is skipped and where reading stops ---------------------------------------------

  /** Which characters are digits, by their codes, and of what value: letters count in
      either case. */
  lemma ValueByCode(c: char)
    ensures var n := c as int;
            DigitValue(c) == if 48 <= n <= 57 then n - 48
                             else if 97 <= n <= 122 then n - 87
                             else if 65 <= n <= 90 then n - 55
                             else 36
  {
  }

  lemma {:induction false} SkipsSpaces(s: string, i: nat, k: nat)
    requires i <= k <= |s| && At(s, k) !in " \t\n\r\U{0B}\U{0C}"
    requires forall j :: i <= j < k ==> s[j] in " \t\n\r\U{0B}\U{0C}"
    ensures SkipSpaces(s, i) == k
    decreases k - i
  {
    if i == k {
    } else {
      SkipsSpaces(s, i + 1, k);
    }
  }

  lemma {:induction false} ScanUntil(s: string, i: nat, k: nat, base: int, value: int)
    requires i <= k <= |s| && base <= 36 && AllDigits(s[i..k], base) && (k < |s| ==> DigitValue(s[k]) >= base)
    ensures Scan(s, i, base, value) == Parsed(Fold(s[i..k], base, value), k)
    decreases k - i
  {
    if i == k {
    } else {
      assert s[i..k][0] == s[i] && s[i..k][1..] == s[i + 1..k];
      ScanUntil(s, i + 1, k, base, value * base + DigitValue(s[i]));
    }
  }

  /** The base in which digits are read: without one a leading 0 makes it eight. */
  function RadixFor(d: string, base: int): int
    requires d != ""
  {
    if base != 0 then base else if d[0] == '0' then 8 else 10
  }

  /** A 0 before an x is another matter: the prefix of base sixteen, and the end of the number
      in a base in which x is a digit. */
  predicate HasPrefix(d: string, tail: string, base: int) {
    || (base == 16 && d == "0" && tail != "" && tail[0] in "xX")
    || (base >= 34 && |d| > 1 && d[0] == '0' && d[1] in "xX")
  }

  /** Any white space, a sign or none, the digits of the base, and something else or nothing:
      reading gives the digits with their sign and stops behind them. */
  lemma ReadsSigned(spaces: string, sign: string, d: string, tail: string, base: int)
    requires (base == 0 || 2 <= base <= 36) && d != "" && AllDigits(d, RadixFor(d, base))
    requires tail != "" ==> DigitValue(tail[0]) >= RadixFor(d, base)
    requires sign in {"", "+", "-"} && forall c :: c in spaces ==> c in " \t\n\r\U{0B}\U{0C}"
    requires !HasPrefix(d, tail, base)
    ensures var value := Fold(d, RadixFor(d, base), 0);
            Read(spaces + sign + d + tail, base)
            == Parsed(if sign == "-" then -value else value, |spaces + sign + d|)
  {
    var s := spaces + sign + d + tail;
    var k, i := |spaces|, |spaces + sign|;
    assert forall j :: 0 <= j < k ==> s[j] == spaces[j] && spaces[j] in spaces;
    assert DigitValue(d[0]) < RadixFor(d, base) <= 36;
    assert s[k] == if sign == "" then d[0] else sign[0];
    SkipsSpaces(s, 0, k);
    assert s[i..i + |d|] == d;
    hide AllDigits, DigitValue, SkipSpaces;
    assert At(s, i) == d[0] && (|d| > 1 ==> At(s, i + 1) == d[1]);
    assert |d| == 1 && tail != "" ==> At(s, i + 1) == tail[0];
    UnsignedStops(s, i, i + |d|, base);
  }

  lemma UnsignedStops(s: string, i: nat, k: nat, base: int)
    requires i < k <= |s| && (base == 0 || 2 <= base <= 36) && AllDigits(s[i..k], RadixFor(s[i..k], base))
    requires k < |s| ==> DigitValue(s[k]) >= RadixFor(s[i..k], base)
    requires !(base == 16 && s[i..k] == "0" && At(s, k) in "xX")
    requires !(base >= 34 && i + 1 < k && s[i] == '0' && s[i + 1] in "xX")
    ensures Unsigned(s, i, base) == Parsed(Fold(s[i..k], RadixFor(s[i..k], base), 0), k)
  {
    var radix := RadixFor(s[i..k], base);
    ScanUntil(s, i, k, radix, 0);
    assert s[i..k][0] == s[i];
    if s[i] == '0' {
      assert s[i..k][1..] == s[i + 1..k];
      ScanUntil(s, i + 1, k, radix, 0);
      if i + 1 < k {
        assert s[i..k][1] == s[i + 1];
      } else {
        assert s[i..k] == "0";
        assert Fold("0", radix, 0) == Fold("", radix, 0) == 0;
      }
    }
  }
}
