/**
  vsnprintf: what a format and its arguments spell, as a function, and the writer
  that produces it into a buffer of limited size.
*/
module Printf {
  import opened Division
  import opened Options
  import opened Words

  /** A C string is the sequence of characters before its terminator. */
  type CChar = c: char | c != '\0' witness 'a'
  type CString = seq<CChar>

  datatype Arg = Number(n: u32) | Text(s: CString)

  datatype Flags = Flags(width: int, alternate: bool, zeroPad: bool, chr: bool, short: bool)

  /** A directive after its modifiers, and what follows it. */
  datatype Directive = Directive(flags: Flags, conv: CChar, rest: CString, args: seq<Arg>)

  datatype Radix = Radix(base: nat, upper: bool, signed: bool)

  datatype Piece = Piece(text: string, args: seq<Arg>)

  // -- What is printed -----------------------------------------------------------

  function AsInt(n: u32): int { if n < 0x8000_0000 then n else n - 0x1_0000_0000 }

  predicate IsDigit(c: char) { '0' <= c <= '9' }

  function WidthOf(s: CString, w: nat): nat {
    if s != "" && IsDigit(s[0]) then WidthOf(s[1..], w * 10 + (s[0] as int - '0' as int)) else w
  }

  function AfterWidth(s: CString): (r: CString)
    ensures |r| <= |s|
  {
    if s != "" && IsDigit(s[0]) then AfterWidth(s[1..]) else s
  }

  /** The modifiers of a directive. There is none when the format or the arguments
      end too early, or an argument has the wrong kind. */
  function Modifiers(s: CString, f: Flags, args: seq<Arg>): Option<Directive>
    decreases |s|
  {
    if s == "" then None
    else if s[0] == '*' then
      if args != [] && args[0].Number? then Modifiers(s[1..], f.(width := AsInt(args[0].n)), args[1..]) else None
    else if s[0] == '#' then Modifiers(s[1..], f.(alternate := true), args)
    else if s[0] == '0' then Modifiers(s[1..], f.(zeroPad := true), args)
    else if IsDigit(s[0]) then
      Modifiers(AfterWidth(s[1..]), f.(width := WidthOf(s[1..], s[0] as int - '0' as int)), args)
    else if s[0] == 'h' then
      if |s| > 1 && s[1] == 'h' then Modifiers(s[2..], f.(chr := true), args)
      else Modifiers(s[1..], f.(short := true), args)
    else Some(Directive(f, s[0], s[1..], args))
  }

  function RadixOf(c: char): Option<Radix> {
    match c
    case 'o' => Some(Radix(8, false, false))
    case 'd' => Some(Radix(10, false, true))
    case 'i' => Some(Radix(10, false, true))
    case 'u' => Some(Radix(10, false, false))
    case 'X' => Some(Radix(16, true, false))
    case 'x' => Some(Radix(16, false, false))
    case 'p' => Some(Radix(16, false, false))
    case _ => None
  }

  function Repeat(c: char, n: int): (r: string)
    ensures |r| == if n < 0 then 0 else n
    decreases n
  {
    if n <= 0 then "" else [c] + Repeat(c, n - 1)
  }

  function DigitChar(d: nat, upper: bool): char
    requires d < 16
  {
    if d < 10 then '0' + d as char else (if upper then 'A' else 'a') + (d - 10) as char
  }

  /** Positional notation, most significant digit first. */
  function Digits(x: nat, base: nat, upper: bool): (r: string)
    requires 2 <= base <= 16
    ensures |r| >= 1
    decreases x
  {
    if x < base then [DigitChar(x, upper)] else Digits(x / base, base, upper) + [DigitChar(x % base, upper)]
  }

  /** The argument, cut to the length modifier. The target's char is unsigned. */
  function Cut(x: u32, f: Flags, r: Radix): u32 {
    if f.chr then x % 0x100
    else if f.short then
      if r.signed && x % 0x1_0000 >= 0x8000 then 0xffff_0000 + x % 0x1_0000 else x % 0x1_0000
    else x
  }

  function Magnitude(x: u32, neg: bool): u32 {
    if neg then (0x1_0000_0000 - x) % 0x1_0000_0000 else x
  }

  function Prefix(f: Flags, r: Radix): string {
    if !f.alternate then "" else if r.base == 8 then "0" else if r.base == 16 then "0x" else ""
  }

  function Minus(on: bool): string { if on then "-" else "" }

  function Pad(f: Flags): char { if f.zeroPad then '0' else ' ' }

  function PadWidth(neg: bool, digits: nat, f: Flags, r: Radix): int {
    f.width - (if neg then 1 else 0) - |Prefix(f, r)| - digits
  }

  /** A magnitude and a sign, with their prefix and padding. */
  function Spelled(m: u32, neg: bool, f: Flags, r: Radix): string
    requires 2 <= r.base <= 16
  {
    var digits := Digits(m, r.base, r.upper);
    Minus(neg && f.zeroPad) + Prefix(f, r) + Repeat(Pad(f), PadWidth(neg, |digits|, f, r))
    + Minus(neg && !f.zeroPad) + digits
  }

  predicate Negative(x: u32, r: Radix) { r.signed && x >= 0x8000_0000 }

  function NumberText(n: u32, f: Flags, r: Radix): string
    requires 2 <= r.base <= 16
  {
    var x := Cut(n, f, r);
    var neg := Negative(x, r);
    Spelled(Magnitude(x, neg), neg, f, r)
  }

  function Converted(d: Directive): Option<Piece> {
    var args := d.args;
    if d.conv == 's' then
      if args != [] && args[0].Text? then
        Some(Piece(args[0].s + Repeat(' ', d.flags.width - |args[0].s|), args[1..]))
      else None
    else if d.conv == 'c' then
      if args != [] && args[0].Number? then Some(Piece([(args[0].n % 0x100) as char], args[1..])) else None
    else match RadixOf(d.conv)
      case None => Some(Piece([d.conv], args))
      case Some(r) =>
        if args != [] && args[0].Number? then Some(Piece(NumberText(args[0].n, d.flags, r), args[1..])) else None
  }

  const PLAIN := Flags(0, false, false, false, false)

  lemma {:induction false} ModifiersShorten(s: CString, f: Flags, args: seq<Arg>)
    requires Modifiers(s, f, args).Some?
    ensures |Modifiers(s, f, args).value.rest| < |s|
    decreases |s|
  {
    if s[0] !in "*#0123456789h" {
    } else if s[0] == '*' {
      ModifiersShorten(s[1..], f.(width := AsInt(args[0].n)), args[1..]);
    } else if s[0] == '#' {
      ModifiersShorten(s[1..], f.(alternate := true), args);
    } else if s[0] == '0' {
      ModifiersShorten(s[1..], f.(zeroPad := true), args);
    } else if IsDigit(s[0]) {
      ModifiersShorten(AfterWidth(s[1..]), f.(width := WidthOf(s[1..], s[0] as int - '0' as int)), args);
    } else if s[0] == 'h' {
      if |s| > 1 && s[1] == 'h' {
        ModifiersShorten(s[2..], f.(chr := true), args);
      } else {
        ModifiersShorten(s[1..], f.(short := true), args);
      }
    }
  }

  function Then(text: string, rest: Option<string>): Option<string> {
    match rest
    case None => None
    case Some(s) => Some(text + s)
  }

  /** What a format and its arguments spell. There is nothing when they do not fit
      together: that is the caller's mistake. */
  function Format(s: CString, args: seq<Arg>): Option<string>
    decreases |s|
  {
    if s == "" then Some("")
    else if s[0] != '%' then Then([s[0]], Format(s[1..], args))
    else match Modifiers(s[1..], PLAIN, args)
      case None => None
      case Some(d) =>
        ModifiersShorten(s[1..], PLAIN, args);
        match Converted(d)
        case None => None
        case Some(p) => Then(p.text, Format(d.rest, p.args))
  }

  // -- The writer ------------------------------------------------------------------

  /** The memory before the call and the part of it that is the caller's buffer. */
  datatype Window = Window(was: seq<char>, str: nat, size: nat) {
    predicate Valid() { str + size <= |was| }

    /** How many characters there is room for besides the terminator. */
    function Kept(n: nat): (m: nat)
      ensures m <= n && m <= size
    {
      var room: nat := if size == 0 then 0 else size - 1;
      if n < room then n else room
    }

    /** The memory once `out` has been put, up to the room there is. */
    function Stored(out: string): (r: seq<char>)
      requires Valid()
      ensures |r| == |was|
    {
      var m := Kept(|out|);
      was[..str] + out[..m] + was[str + m..]
    }

    /** The memory after the call. */
    function Written(out: string): (r: seq<char>)
      requires Valid()
      ensures |r| == |was|
    {
      if size == 0 then was
      else
        var m := Kept(|out|);
        was[..str] + out[..m] + ['\0'] + was[str + m + 1..]
    }
  }

  /** do_putch: characters beyond the end are counted, not stored. */
  method Putch(buf: array<char>, p: int, end: int, c: char, ghost w: Window, ghost out: string) returns (q: int)
    requires w.Valid() && p == w.str + |out| && end == w.str + w.size - 1
    requires buf[..] == w.Stored(out)
    modifies buf
    ensures buf[..] == w.Stored(out + [c]) && q == p + 1
  {
    if p < end {
      buf[p] := c;
    }
    q := p + 1;
  }

  method PutRepeated(buf: array<char>, p: int, end: int, c: char, n: int, ghost w: Window, ghost out: string)
    returns (q: int)
    requires w.Valid() && p == w.str + |out| && end == w.str + w.size - 1
    requires buf[..] == w.Stored(out)
    modifies buf
    ensures buf[..] == w.Stored(out + Repeat(c, n)) && q == p + |Repeat(c, n)|
  {
    hide Window.Stored;
    q := p;
    var width := n;
    ghost var put := "";
    assert out + put == out;
    while width > 0
      invariant put + Repeat(c, width) == Repeat(c, n)
      invariant width <= 0 ==> put == Repeat(c, n)
      invariant q == w.str + |out + put| && buf[..] == w.Stored(out + put)
    {
      q := Putch(buf, q, end, c, w, out + put);
      assert out + put + [c] == out + (put + [c]);
      assert put + Repeat(c, width) == (put + [c]) + Repeat(c, width - 1);
      put := put + [c];
      width := width - 1;
    }
  }

  /** The modifiers of a directive, up to the conversion. */
  method ReadModifiers(format: CString, args: seq<Arg>) returns (d: Directive)
    requires Modifiers(format, PLAIN, args).Some?
    ensures d == Modifiers(format, PLAIN, args).value
  {
    var s, ap, f := format, args, PLAIN;
    while true
      invariant Modifiers(s, f, ap) == Modifiers(format, PLAIN, args)
      decreases |s|
    {
      var c := s[0];
      if c == '*' {
        f := f.(width := AsInt(ap[0].n));
        ap := ap[1..];
        s := s[1..];
      } else if c == '#' {
        f := f.(alternate := true);
        s := s[1..];
      } else if c == '0' {
        f := f.(zeroPad := true);
        s := s[1..];
      } else if IsDigit(c) {
        var width: nat := c as int - '0' as int;
        s := s[1..];
        ghost var run := s;
        while s != "" && IsDigit(s[0])
          invariant WidthOf(s, width) == WidthOf(run, c as int - '0' as int)
          invariant AfterWidth(s) == AfterWidth(run) && |s| <= |run|
          decreases |s|
        {
          width := width * 10 + (s[0] as int - '0' as int);
          s := s[1..];
        }
        f := f.(width := width);
      } else if c == 'h' {
        s := s[1..];
        if s != "" && s[0] == 'h' {
          f := f.(chr := true);
          s := s[1..];
        } else {
          f := f.(short := true);
        }
      } else {
        return Directive(f, c, s[1..], ap);
      }
    }
  }

  // -- Digits -----------------------------------------------------------------------

  function Pow(b: nat, k: nat): nat { if k == 0 then 1 else b * Pow(b, k - 1) }

  lemma {:induction false} DigitsLength(x: nat, base: nat, upper: bool, k: nat)
    requires 2 <= base <= 16 && 1 <= k && x < Pow(base, k)
    ensures |Digits(x, base, upper)| <= k
  {
    hide DigitChar, Digits;
    DivideBound(x, base, Pow(base, k - 1));
    if x < base {
      DigitsShort(x, base, upper);
    } else {
      DigitsStep(x, base, upper);
      DigitsLength(x / base, base, upper, k - 1);
    }
  }

  lemma DigitsShort(x: nat, base: nat, upper: bool)
    requires 2 <= base <= 16 && x < base
    ensures Digits(x, base, upper) == [DigitChar(x, upper)]
  {
    hide DigitChar;
  }

  lemma DivideBound(x: nat, b: nat, m: nat)
    requires 2 <= b && x < b * m
    ensures x / b < m
    ensures x >= b && m <= 1 ==> false
  {
    Quotient(x, b);
    if m <= x / b {
      MulMono(m, x / b, b);
    }
  }

  /** Octal is the longest: eleven digits, and one to spare in the scratch array. */
  lemma WordDigits(x: u32, base: nat, upper: bool)
    requires base == 8 || base == 10 || base == 16
    ensures |Digits(x, base, upper)| <= 11
  {
    assert Pow(8, 11) == 0x2_0000_0000;
    assert Pow(10, 11) == 100000000000;
    assert Pow(16, 11) >= 0x1_0000_0000;
    DigitsLength(x, base, upper, 11);
  }

  function Reversed(s: string): (r: string)
    ensures |r| == |s|
  {
    if s == "" then "" else [s[|s| - 1]] + Reversed(s[..|s| - 1])
  }

  /** The digits still to come, and those that there are. */
  function DigitsAnd(x: nat, base: nat, upper: bool, done: string): string
    requires 2 <= base <= 16
  {
    (if x == 0 then "" else Digits(x, base, upper)) + Reversed(done)
  }

  lemma DigitsLast(x: nat, base: nat, upper: bool, done: string)
    requires 2 <= base <= 16 && x != 0
    ensures x / base < x
    ensures DigitsAnd(x / base, base, upper, done + [DigitChar(x % base, upper)]) == DigitsAnd(x, base, upper, done)
    ensures |done| < |DigitsAnd(x, base, upper, done)|
  {
    hide Digits, DigitChar, Reversed;
    DigitsStep(x, base, upper);
    ReversedMore(done, DigitChar(x % base, upper));
  }

  /** The digits of x, least significant first, in an array of twelve. */
  method FillDigits(tmp: array<char>, n: u32, r: Radix) returns (q: nat)
    requires tmp.Length == 12 && r.base in {8, 10, 16}
    modifies tmp
    ensures q <= 11 && Reversed(tmp[..q]) == Digits(n, r.base, r.upper)
  {
    hide Digits, DigitChar, Reversed, DigitsAnd;
    if n == 0 {
      q := 0;
      tmp[q] := '0';
      q := q + 1;
      assert tmp[..1] == ['0'];
      ReversedOne('0');
      ZeroDigits(r.base, r.upper);
    } else {
      var x: nat := n;
      q := 0;
      assert tmp[..0] == [];
      WordDigits(n, r.base, r.upper);
      NoneDone(n, r.base, r.upper);
      while x != 0
        invariant x <= n && q <= 11
        invariant DigitsAnd(x, r.base, r.upper, tmp[..q]) == Digits(n, r.base, r.upper)
      {
        DigitsLast(x, r.base, r.upper, tmp[..q]);
        ghost var before := tmp[..q];
        tmp[q] := DigitChar(x % r.base, r.upper);
        assert tmp[..q + 1] == before + [tmp[q]];
        q := q + 1;
        x := x / r.base;
      }
      AllDone(r.base, r.upper, tmp[..q]);
    }
  }

  lemma NoneDone(x: nat, base: nat, upper: bool)
    requires 2 <= base <= 16 && x != 0
    ensures DigitsAnd(x, base, upper, "") == Digits(x, base, upper)
  {
    ReversedNone();
  }

  lemma AllDone(base: nat, upper: bool, done: string)
    requires 2 <= base <= 16
    ensures DigitsAnd(0, base, upper, done) == Reversed(done)
  {
  }

  lemma DigitsStep(x: nat, base: nat, upper: bool)
    requires 2 <= base <= 16 && x != 0
    ensures x / base < x
    ensures Digits(x, base, upper)
            == (if x / base == 0 then "" else Digits(x / base, base, upper)) + [DigitChar(x % base, upper)]
  {
    hide DigitChar;
    Quotient(x, base);
    if x < base {
      assert x % base == x;
    }
  }

  lemma ZeroDigits(base: nat, upper: bool)
    requires 2 <= base <= 16
    ensures Digits(0, base, upper) == "0"
  {
  }

  lemma ReversedNone()
    ensures Reversed("") == ""
  {
  }

  lemma ReversedMore(s: string, c: char)
    ensures Reversed(s + [c]) == [c] + Reversed(s)
  {
    assert (s + [c])[..|s|] == s;
  }

  lemma ReversedOne(c: char)
    ensures Reversed([c]) == [c]
  {
  }

  // -- Conversions ------------------------------------------------------------------

  /** Digits come out of the scratch array last in, first out. */
  method PutDigits(buf: array<char>, p: int, end: int, tmp: array<char>, q: nat, ghost w: Window, ghost out: string)
    returns (p': int)
    requires w.Valid() && p == w.str + |out| && end == w.str + w.size - 1
    requires buf != tmp && q <= tmp.Length && buf[..] == w.Stored(out)
    modifies buf
    ensures buf[..] == w.Stored(out + Reversed(tmp[..q])) && p' == p + q
  {
    hide Window.Stored;
    p' := p;
    var k := q;
    ghost var all, put := Reversed(tmp[..q]), "";
    assert out + put == out;
    while k != 0
      invariant 0 <= k <= q && tmp[..] == old(tmp[..])
      invariant put + Reversed(tmp[..k]) == all
      invariant p' == w.str + |out + put| && buf[..] == w.Stored(out + put)
    {
      assert tmp[..k][..k - 1] == tmp[..k - 1];
      k := k - 1;
      p' := Putch(buf, p', end, tmp[k], w, out + put);
      assert out + put + [tmp[k]] == out + (put + [tmp[k]]);
      put := put + [tmp[k]];
    }
    assert put == all;
  }

  method PutText(buf: array<char>, p: int, end: int, s: CString, width: int, ghost w: Window, ghost out: string)
    returns (p': int)
    requires w.Valid() && p == w.str + |out| && end == w.str + w.size - 1
    requires buf[..] == w.Stored(out)
    modifies buf
    ensures buf[..] == w.Stored(out + (s + Repeat(' ', width - |s|))) && p' == p + |s + Repeat(' ', width - |s|)|
  {
    p' := p;
    var k := 0;
    while k < |s|
      invariant 0 <= k <= |s|
      invariant p' == w.str + |out + s[..k]| && buf[..] == w.Stored(out + s[..k])
    {
      p' := Putch(buf, p', end, s[k], w, out + s[..k]);
      assert out + s[..k] + [s[k]] == out + s[..k + 1];
      k := k + 1;
    }
    assert s[..k] == s;
    p' := PutRepeated(buf, p', end, ' ', width - k, w, out + s);
    assert out + s + Repeat(' ', width - |s|) == out + (s + Repeat(' ', width - |s|));
  }

  method PutPrefix(buf: array<char>, p: int, end: int, f: Flags, r: Radix, width: int,
                   ghost w: Window, ghost out: string)
    returns (p': int, width': int)
    requires w.Valid() && p == w.str + |out| && end == w.str + w.size - 1
    requires buf[..] == w.Stored(out)
    modifies buf
    ensures buf[..] == w.Stored(out + Prefix(f, r)) && p' == p + |Prefix(f, r)|
    ensures width' == width - |Prefix(f, r)|
  {
    p', width' := p, width;
    ghost var put := out;
    if f.alternate {
      if r.base == 8 || r.base == 16 {
        p' := Putch(buf, p', end, '0', w, put);
        put := put + ['0'];
        width' := width' - 1;
      }
      if r.base == 16 {
        p' := Putch(buf, p', end, 'x', w, put);
        put := put + ['x'];
        width' := width' - 1;
      }
    }
    assert put == out + Prefix(f, r);
  }

  method PutNumber(buf: array<char>, p: int, end: int, n: u32, f: Flags, r: Radix, ghost w: Window, ghost out: string)
    returns (p': int)
    requires r.base in {8, 10, 16}
    requires w.Valid() && p == w.str + |out| && end == w.str + w.size - 1
    requires buf[..] == w.Stored(out)
    modifies buf
    ensures buf[..] == w.Stored(out + NumberText(n, f, r)) && p' == p + |NumberText(n, f, r)|
  {
    hide Digits, Repeat, Reversed, Window.Stored, Prefix;
    p' := p;
    var x: u32 := n;
    if f.chr {
      x := x % 0x100;
    } else if f.short {
      x := x % 0x1_0000;
      if r.signed && x >= 0x8000 {
        x := 0xffff_0000 + x;
      }
    }
    ghost var neg := Negative(Cut(n, f, r), r);
    ghost var put := out;
    var signed, width := r.signed, f.width;
    assert out + "" == out;
    if signed && x >= 0x8000_0000 {
      if f.zeroPad {
        p' := Putch(buf, p', end, '-', w, out);
        put := out + "-";
        signed := false;
      }
      width := width - 1;
      x := (0x1_0000_0000 - x) % 0x1_0000_0000;
    } else {
      signed := false;
    }
    assert x == Magnitude(Cut(n, f, r), neg) && put == out + Minus(neg && f.zeroPad);
    p', width := PutPrefix(buf, p', end, f, r, width, w, put);
    put := put + Prefix(f, r);
    p' := PutPadded(buf, p', end, x, signed, width, f, r, w, put);
    SpelledIs(out, x, neg, f, r);
  }

  lemma SpelledIs(out: string, m: u32, neg: bool, f: Flags, r: Radix)
    requires 2 <= r.base <= 16
    ensures out + Minus(neg && f.zeroPad) + Prefix(f, r) + Padded(m, neg && !f.zeroPad,
              f.width - (if neg then 1 else 0) - |Prefix(f, r)|, f, r)
            == out + Spelled(m, neg, f, r)
  {
    hide Digits, Repeat, Prefix, Minus;
    var s1, s2, s4, s5 := Minus(neg && f.zeroPad), Prefix(f, r), Minus(neg && !f.zeroPad), Digits(m, r.base, r.upper);
    var s3 := Repeat(Pad(f), PadWidth(neg, |s5|, f, r));
    assert out + s1 + s2 + (s3 + s4 + s5) == out + (s1 + s2 + s3 + s4 + s5);
  }

  /** Padding, a late sign and the digits. */
  function Padded(m: u32, signed: bool, width: int, f: Flags, r: Radix): string
    requires 2 <= r.base <= 16
  {
    var digits := Digits(m, r.base, r.upper);
    Repeat(Pad(f), width - |digits|) + Minus(signed) + digits
  }

  method PutPadded(buf: array<char>, p: int, end: int, x: u32, signed: bool, width: int, f: Flags, r: Radix,
                   ghost w: Window, ghost out: string)
    returns (p': int)
    requires r.base in {8, 10, 16}
    requires w.Valid() && p == w.str + |out| && end == w.str + w.size - 1
    requires buf[..] == w.Stored(out)
    modifies buf
    ensures buf[..] == w.Stored(out + Padded(x, signed, width, f, r)) && p' == p + |Padded(x, signed, width, f, r)|
  {
    hide Digits, Repeat, Reversed, Window.Stored;
    var tmp := new char[12];
    var q := FillDigits(tmp, x, r);
    ghost var s1, s2, s3 := Repeat(Pad(f), width - q), Minus(signed), Digits(x, r.base, r.upper);
    p' := PutRepeated(buf, p, end, if f.zeroPad then '0' else ' ', width - q, w, out);
    assert out + s1 + "" == out + s1;
    if signed {
      p' := Putch(buf, p', end, '-', w, out + s1);
    }
    p' := PutDigits(buf, p', end, tmp, q, w, out + s1 + s2);
    assert out + s1 + s2 + s3 == out + (s1 + s2 + s3);
  }

  // -- vsnprintf ----------------------------------------------------------------------

  /** What is still to be printed completes what has been printed. */
  ghost predicate Completes(out: string, s: CString, args: seq<Arg>, all: string) {
    Format(s, args).Some? && out + Format(s, args).value == all
  }

  lemma LiteralCompletes(out: string, s: CString, args: seq<Arg>, all: string)
    requires s != "" && s[0] != '%' && Completes(out, s, args, all)
    ensures Completes(out + [s[0]], s[1..], args, all)
  {
    assert out + [s[0]] + Format(s[1..], args).value == out + ([s[0]] + Format(s[1..], args).value);
  }

  lemma DirectiveCompletes(out: string, s: CString, args: seq<Arg>, all: string)
    requires s != "" && s[0] == '%' && Completes(out, s, args, all)
    ensures Modifiers(s[1..], PLAIN, args).Some?
    ensures var d := Modifiers(s[1..], PLAIN, args).value;
            && |d.rest| < |s| && Converted(d).Some?
            && Completes(out + Converted(d).value.text, d.rest, Converted(d).value.args, all)
  {
    hide Converted, Modifiers;
    var d := Modifiers(s[1..], PLAIN, args).value;
    ModifiersShorten(s[1..], PLAIN, args);
    var p := Converted(d).value;
    assert out + p.text + Format(d.rest, p.args).value == out + (p.text + Format(d.rest, p.args).value);
  }

  method PutConverted(buf: array<char>, p: int, end: int, d: Directive, ghost w: Window, ghost out: string)
    returns (p': int, ap: seq<Arg>)
    requires Converted(d).Some?
    requires w.Valid() && p == w.str + |out| && end == w.str + w.size - 1
    requires buf[..] == w.Stored(out)
    modifies buf
    ensures var text := Converted(d).value.text;
            buf[..] == w.Stored(out + text) && p' == p + |text| && ap == Converted(d).value.args
  {
    hide NumberText, Repeat, Window.Stored, RadixOf;
    ap := d.args;
    if d.conv == 's' {
      p' := PutText(buf, p, end, ap[0].s, d.flags.width, w, out);
      ap := ap[1..];
    } else if d.conv == 'c' {
      p' := Putch(buf, p, end, (ap[0].n % 0x100) as char, w, out);
      ap := ap[1..];
    } else {
      var radix := RadixOf(d.conv);
      RadixBase(d.conv);
      match radix
      case None =>
        p' := Putch(buf, p, end, d.conv, w, out);
      case Some(r) =>
        p' := PutNumber(buf, p, end, ap[0].n, d.flags, r, w, out);
        ap := ap[1..];
    }
  }

  lemma RadixBase(c: char)
    ensures RadixOf(c).Some? ==> RadixOf(c).value.base in {8, 10, 16}
  {
  }

  /** vsnprintf: the whole length is returned, the buffer holds what there is room
      for and a terminator, and no other memory changes. */
  method Vsnprintf(buf: array<char>, str: nat, size: nat, format: CString, args: seq<Arg>) returns (n: int)
    requires str + size <= buf.Length
    requires Format(format, args).Some?
    modifies buf
    ensures n == |Format(format, args).value|
    ensures buf[..] == Window(old(buf[..]), str, size).Written(Format(format, args).value)
  {
    hide Format, Modifiers, Converted, Window.Stored, Window.Written;
    var p: int, end: int := str, str + size - 1;
    var s, ap := format, args;
    ghost var w, all := Window(buf[..], str, size), Format(format, args).value;
    ghost var out := "";
    NothingStored(w);
    assert out + all == all;
    while s != ""
      invariant p == str + |out| && buf[..] == w.Stored(out)
      invariant Completes(out, s, ap, all)
      decreases |s|
    {
      var c := s[0];
      if c != '%' {
        LiteralCompletes(out, s, ap, all);
        p := Putch(buf, p, end, c, w, out);
        s := s[1..];
        out := out + [c];
      } else {
        DirectiveCompletes(out, s, ap, all);
        var d := ReadModifiers(s[1..], ap);
        p, ap := PutConverted(buf, p, end, d, w, out);
        out := out + Converted(d).value.text;
        s := d.rest;
      }
    }
    assert out == all by {
      FormatOfEnd(ap);
    }
    Terminated(w, out);
    if p <= end {
      buf[p] := '\0';
    } else if str <= end {
      buf[end] := '\0';
    }
    n := p - str;
  }

  lemma FormatOfEnd(args: seq<Arg>)
    ensures Format("", args) == Some("")
  {
  }

  lemma NothingStored(w: Window)
    requires w.Valid()
    ensures w.Stored("") == w.was
  {
  }

  /** The terminator goes behind the last character stored, if anywhere. */
  lemma Terminated(w: Window, out: string)
    requires w.Valid()
    ensures w.size == 0 ==> w.Written(out) == w.Stored(out)
    ensures 0 < w.size && |out| < w.size ==> w.Written(out) == w.Stored(out)[w.str + |out| := '\0']
    ensures 0 < w.size <= |out| ==> w.Written(out) == w.Stored(out)[w.str + w.size - 1 := '\0']
  {
  }

  /** Inside the buffer: what fits, terminated. Outside it: what was there. */
  lemma WrittenMeans(w: Window, out: string)
    requires w.Valid()
    ensures var m := w.Written(out);
            && (forall i :: 0 <= i < |m| && !(w.str <= i < w.str + w.size) ==> m[i] == w.was[i])
            && (w.size > 0 ==>
                  var k := if |out| < w.size - 1 then |out| else w.size - 1;
                  m[w.str..w.str + k] == out[..k] && m[w.str + k] == '\0')
  {
    if w.size > 0 {
      var k := w.Kept(|out|);
      var head, tail := w.was[..w.str], ['\0'] + w.was[w.str + k + 1..];
      assert w.Written(out) == head + out[..k] + tail;
      Middle(head, out[..k], tail);
    }
  }

  lemma Middle(a: string, b: string, c: string)
    ensures (a + b + c)[|a|..|a| + |b|] == b
  {
  }
}
