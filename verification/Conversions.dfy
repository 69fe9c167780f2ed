/**
  What each conversion of vsnprintf prints, by its letter: the value that reading it back
  gives, the characters that can occur, and how prefix and padding are put together.
*/
module Conversions {
  import opened Division
  import opened Options
  import opened Printf
  import opened Strtol
  import opened Words

  /** The number that a conversion means by its argument: `hh` takes 8 bits, without sign
      since the target's char has none, `h` takes 16, and without either it takes 32. */
  function Meant(n: u32, f: Flags, signed: bool): int {
    if f.chr then n % 0x100
    else if f.short then
      var x := n % 0x1_0000;
      if signed && x >= 0x8000 then x - 0x1_0000 else x
    else if signed && n >= 0x8000_0000 then n - 0x1_0000_0000
    else n
  }

  predicate IsNumber(d: Directive) {
    d.conv in "diuoxXp" && d.args != [] && d.args[0].Number?
  }

  function TextOf(d: Directive): string
    requires IsNumber(d)
  {
    match Converted(d)
    case Some(p) => p.text
    case None => ""
  }

  lemma TextIs(d: Directive, r: Radix)
    requires IsNumber(d) && RadixOf(d.conv) == Some(r)
    ensures TextOf(d) == NumberText(d.args[0].n, d.flags, r)
    ensures Converted(d).Some? && Converted(d).value.args == d.args[1..]
  {
    hide NumberText, RadixOf;
  }

  lemma MeantIs(n: u32, f: Flags, r: Radix)
    ensures ValueOf(n, f, r) == Meant(n, f, r.signed)
  {
  }

  /** %d and %i print a signed number in base ten, whatever the flags. */
  lemma SignedReads(d: Directive)
    requires IsNumber(d) && d.conv in "di"
    ensures Read(TextOf(d), 10) == Parsed(Meant(d.args[0].n, d.flags, true), |TextOf(d)|)
  {
    var r := Radix(10, false, true);
    TextIs(d, r);
    MeantIs(d.args[0].n, d.flags, r);
    hide Read, NumberText, ValueOf, Meant, TextOf;
    DecimalReadsBack(d.args[0].n, d.flags, r);
  }

  /** %u prints an unsigned one. */
  lemma UnsignedReads(d: Directive)
    requires IsNumber(d) && d.conv == 'u'
    ensures Read(TextOf(d), 10) == Parsed(Meant(d.args[0].n, d.flags, false), |TextOf(d)|)
  {
    var r := Radix(10, false, false);
    TextIs(d, r);
    MeantIs(d.args[0].n, d.flags, r);
    hide Read, NumberText, ValueOf, Meant, TextOf;
    DecimalReadsBack(d.args[0].n, d.flags, r);
  }

  /** %o prints one in base eight, %x, %X and %p in base sixteen; it reads back unless
      spaces come between a prefix and the digits. */
  lemma PrefixedReadsIff(d: Directive)
    requires IsNumber(d) && d.conv in "oxXp"
    ensures Read(TextOf(d), if d.conv == 'o' then 8 else 16)
              == Parsed(Meant(d.args[0].n, d.flags, false), |TextOf(d)|)
            <==> !(d.flags.alternate && ' ' in TextOf(d))
  {
    var r := if d.conv == 'o' then Radix(8, false, false) else Radix(16, d.conv == 'X', false);
    TextIs(d, r);
    MeantIs(d.args[0].n, d.flags, r);
    SpacesIff(d.args[0].n, d.flags, r);
    hide Read, NumberText, ValueOf, Meant, TextOf, SpacesInside, Cut;
    UnsignedReadsBackIff(d.args[0].n, d.flags, r);
  }

  /** An unsigned number is a prefix, padding and digits. */
  lemma UnsignedIs(n: u32, f: Flags, r: Radix)
    requires !r.signed && 2 <= r.base <= 16
    ensures var digits := Digits(Cut(n, f, r), r.base, r.upper);
            NumberText(n, f, r) == Prefix(f, r) + Repeat(Pad(f), PadWidth(false, |digits|, f, r)) + digits
  {
    hide Digits, Cut, PadWidth, Prefix, Repeat;
    var digits := Digits(Cut(n, f, r), r.base, r.upper);
    var pad := Repeat(Pad(f), PadWidth(false, |digits|, f, r));
    assert "" + Prefix(f, r) + pad + "" + digits == Prefix(f, r) + pad + digits;
  }

  lemma SpaceInParts(a: string, b: string, c: string)
    requires ' ' !in a && ' ' !in c
    ensures ' ' in a + b + c <==> ' ' in b
  {
  }

  /** There is a space in a prefixed number exactly if some padding of spaces is. */
  lemma SpacesIff(n: u32, f: Flags, r: Radix)
    requires !r.signed && (r.base == 8 || r.base == 16)
    ensures SpacesInside(n, f, r) <==> f.alternate && ' ' in NumberText(n, f, r)
  {
    var digits := Digits(Cut(n, f, r), r.base, r.upper);
    var k := PadWidth(false, |digits|, f, r);
    UnsignedIs(n, f, r);
    DigitsAre(Cut(n, f, r), r.base, r.upper);
    RepeatIs(Pad(f), k);
    hide Digits, Cut, PadWidth, NumberText, Repeat;
    SpaceInParts(Prefix(f, r), Repeat(Pad(f), k), digits);
  }

  lemma RepeatIs(c: char, n: int)
    ensures forall x :: x in Repeat(c, n) ==> x == c
    ensures n > 0 ==> c in Repeat(c, n)
  {
    forall x | x in Repeat(c, n) ensures x == c {
      var k :| 0 <= k < |Repeat(c, n)| && Repeat(c, n)[k] == x;
      RepeatAt(c, n, k);
    }
    if n > 0 {
      RepeatAt(c, n, 0);
    }
  }

  // -- The characters --------------------------------------------------------------------------

  /** A digit is the character at its place in the alphabet. */
  lemma DigitIsLiteral(d: nat, upper: bool)
    requires d < 16
    ensures DigitChar(d, upper) == (if upper then "0123456789ABCDEF" else "0123456789abcdef")[d]
  {
  }

  /** The digits of a base. */
  predicate DigitOf(c: char, base: nat, upper: bool) {
    || '0' <= c <= (if base == 8 then '7' else '9')
    || (base == 16 && if upper then 'A' <= c <= 'F' else 'a' <= c <= 'f')
  }

  lemma {:induction false} DigitsAre(x: nat, base: nat, upper: bool)
    requires base in {8, 10, 16}
    ensures forall c :: c in Digits(x, base, upper) ==> DigitOf(c, base, upper)
    ensures Digits(x, base, upper)[0] == '0' <==> x == 0
    decreases x
  {
    hide Digits, DigitChar;
    Quotient(x, base);
    if x < base {
      DigitsShort(x, base, upper);
      DigitIs(x, base, upper);
    } else {
      DigitsStep(x, base, upper);
      DigitIs(x % base, base, upper);
      DigitsAre(x / base, base, upper);
    }
  }

  lemma DigitIs(d: nat, base: nat, upper: bool)
    requires d < base && base in {8, 10, 16}
    ensures DigitOf(DigitChar(d, upper), base, upper) && (DigitChar(d, upper) == '0' <==> d == 0)
  {
  }

  /** Which characters each conversion can print. */
  predicate Allowed(conv: char, c: char) {
    || c == ' ' || '0' <= c <= (if conv == 'o' then '7' else '9')
    || (conv in "di" && c == '-')
    || (conv in "xXp" && c == 'x')
    || (conv in "xp" && 'a' <= c <= 'f')
    || (conv == 'X' && 'A' <= c <= 'F')
  }

  lemma PartsAllowed(conv: char, a: string, b: string, c: string, d: string, e: string)
    requires forall x :: x in a || x in b || x in c || x in d || x in e ==> Allowed(conv, x)
    ensures forall x :: x in a + b + c + d + e ==> Allowed(conv, x)
  {
  }

  lemma CharactersOf(d: Directive)
    requires IsNumber(d)
    ensures forall c :: c in TextOf(d) ==> Allowed(d.conv, c)
  {
    var r := RadixOf(d.conv).value;
    TextIs(d, r);
    var x := Cut(d.args[0].n, d.flags, r);
    var neg := Negative(x, r);
    var digits := Digits(Magnitude(x, neg), r.base, r.upper);
    var k := PadWidth(neg, |digits|, d.flags, r);
    DigitsAre(Magnitude(x, neg), r.base, r.upper);
    RepeatIs(Pad(d.flags), k);
    hide Digits, Cut, PadWidth, Repeat, Magnitude, TextOf;
    PartsAllowed(d.conv, Minus(neg && d.flags.zeroPad), Prefix(d.flags, r), Repeat(Pad(d.flags), k),
                 Minus(neg && !d.flags.zeroPad), digits);
  }

  // -- Prefix and padding ------------------------------------------------------------------

  /** A directive of other flags. */
  function With(d: Directive, alternate: bool, width: int): Directive {
    d.(flags := d.flags.(alternate := alternate, width := width))
  }

  function PrefixOf(conv: char): string { if conv == 'o' then "0" else if conv in "xXp" then "0x" else "" }

  lemma MinusThen(neg: bool, digits: string)
    requires digits != "" && '-' !in digits
    ensures var t := Minus(neg) + digits;
            t[0] == '-' <==> neg
    ensures var t := Minus(neg) + digits;
            digits == if t[0] == '-' then t[1..] else t
  {
    assert ("-" + digits)[1..] == digits && "" + digits == digits;
    assert digits[0] in digits;
  }

  lemma PlainText(n: u32, f: Flags, r: Radix)
    requires 2 <= r.base <= 16 && !f.alternate && f.width <= 0
    ensures var neg := Negative(Cut(n, f, r), r);
            NumberText(n, f, r) == Minus(neg) + Digits(Magnitude(Cut(n, f, r), neg), r.base, r.upper)
  {
    hide Digits, Cut, Negative, Magnitude;
    var neg := Negative(Cut(n, f, r), r);
    var digits := Digits(Magnitude(Cut(n, f, r), neg), r.base, r.upper);
    assert NumberText(n, f, r) == Minus(neg && f.zeroPad) + "" + "" + Minus(neg && !f.zeroPad) + digits;
  }

  lemma DigitsPlain(x: nat, base: nat, upper: bool)
    requires base in {8, 10, 16}
    ensures var digits := Digits(x, base, upper);
            (digits[0] == '0' <==> digits == "0") && '-' !in digits && ' ' !in digits
  {
    DigitsAre(x, base, upper);
    ZeroIs(x, base, upper);
    hide Digits;
  }

  /** The number alone: a sign, then digits without leading zeros. */
  lemma PlainIs(d: Directive)
    requires IsNumber(d) && !d.flags.alternate && d.flags.width <= 0
    ensures var t := TextOf(d);
            && t != "" && (t[0] == '-' <==> d.conv in "di" && Meant(d.args[0].n, d.flags, true) < 0)
            && (var digits := if t[0] == '-' then t[1..] else t;
                digits != "" && (digits[0] == '0' <==> digits == "0") && '-' !in digits && ' ' !in digits)
  {
    var r := RadixOf(d.conv).value;
    TextIs(d, r);
    MeantIs(d.args[0].n, d.flags, r);
    PlainText(d.args[0].n, d.flags, r);
    var x := Cut(d.args[0].n, d.flags, r);
    var neg := Negative(x, r);
    DigitsPlain(Magnitude(x, neg), r.base, r.upper);
    assert neg <==> d.conv in "di" && Meant(d.args[0].n, d.flags, true) < 0;
    hide Digits, Cut, TextOf, NumberText, Meant, Negative, Magnitude, Minus;
    MinusThen(neg, Digits(Magnitude(x, neg), r.base, r.upper));
  }

  lemma ZeroIs(x: nat, base: nat, upper: bool)
    requires base in {8, 10, 16}
    ensures x == 0 ==> Digits(x, base, upper) == "0"
  {
  }

  lemma Regroup(a: string, p: string, q: string, b: string, d: string)
    ensures a + p + q + b + d == (a + p) + q + (b + d)
  {
  }

  /** What comes before the padding, the padding, and what comes behind. */
  lemma NumberParts(n: u32, f: Flags, r: Radix)
    requires 2 <= r.base <= 16
    ensures var neg := Negative(Cut(n, f, r), r);
            var digits := Digits(Magnitude(Cut(n, f, r), neg), r.base, r.upper);
            NumberText(n, f, r)
            == (Minus(neg && f.zeroPad) + Prefix(f, r)) + Repeat(Pad(f), PadWidth(neg, |digits|, f, r))
               + (Minus(neg && !f.zeroPad) + digits)
  {
    hide Digits, Cut, Negative, Magnitude, Minus, Prefix, Repeat, Pad, PadWidth;
    var neg := Negative(Cut(n, f, r), r);
    var digits := Digits(Magnitude(Cut(n, f, r), neg), r.base, r.upper);
    Regroup(Minus(neg && f.zeroPad), Prefix(f, r), Repeat(Pad(f), PadWidth(neg, |digits|, f, r)),
            Minus(neg && !f.zeroPad), digits);
  }

  lemma JoinPlain(neg: bool, zero: bool, prefix: string, digits: string)
    requires neg ==> prefix == ""
    ensures (Minus(neg && zero) + prefix) + "" + (Minus(neg && !zero) + digits) == prefix + (Minus(neg) + digits)
  {
  }

  /** What the flags `#` and width leave alone. */
  lemma FlagsApart(n: u32, f: Flags, alternate: bool, width: int, r: Radix)
    requires r.signed ==> r.base == 10
    ensures Cut(n, f.(alternate := alternate, width := width), r) == Cut(n, f, r)
    ensures Negative(Cut(n, f, r), r) ==> Prefix(f, r) == ""
    ensures Prefix(f, r) in {"", "0", "0x"}
    ensures forall k: nat, neg :: f.width <= 0 ==> PadWidth(neg, k, f, r) <= 0
  {
  }

  lemma AlternateText(n: u32, f: Flags, r: Radix)
    requires r.base in {8, 10, 16} && f.alternate && f.width <= 0 && (r.signed ==> r.base == 10)
    ensures NumberText(n, f, r) == Prefix(f, r) + NumberText(n, f.(alternate := false, width := 0), r)
  {
    hide Digits, Cut, Negative, Magnitude, Minus, Prefix, NumberText, Repeat, Pad, PadWidth;
    NumberParts(n, f, r);
    PlainText(n, f.(alternate := false, width := 0), r);
    FlagsApart(n, f, false, 0, r);
    var neg := Negative(Cut(n, f, r), r);
    var digits := Digits(Magnitude(Cut(n, f, r), neg), r.base, r.upper);
    ShortPad(Pad(f), PadWidth(neg, |digits|, f, r));
    JoinPlain(neg, f.zeroPad, Prefix(f, r), digits);
  }

  /** `#` puts 0 before an octal and 0x before a hexadecimal number, and nothing before a
      decimal one. */
  lemma AlternateIs(d: Directive)
    requires IsNumber(d) && d.flags.width <= 0 && d.flags.alternate
    ensures TextOf(d) == PrefixOf(d.conv) + TextOf(With(d, false, 0))
  {
    var r := RadixOf(d.conv).value;
    TextIs(d, r);
    TextIs(With(d, false, 0), r);
    assert Prefix(d.flags, r) == PrefixOf(d.conv);
    hide NumberText, TextOf;
    AlternateText(d.args[0].n, d.flags, r);
  }

  /** Where the padding of a number goes: behind its prefix, and zeros behind its sign too. */
  function Head(d: Directive, t: string): nat
    requires t != ""
  {
    if d.flags.alternate && d.conv in "oxXp" then |PrefixOf(d.conv)|
    else if d.flags.zeroPad && t[0] == '-' then 1
    else 0
  }

  lemma JoinPadded(neg: bool, zero: bool, prefix: string, pad: string, digits: string)
    requires (neg ==> prefix == "") && prefix in {"", "0", "0x"} && digits != "" && digits[0] != '-'
    ensures var t := (Minus(neg && zero) + prefix) + "" + (Minus(neg && !zero) + digits);
            var h := |prefix| + if neg && zero then 1 else 0;
            && t != "" && (t[0] == '-' <==> neg) && h <= |t| == |prefix| + |digits| + (if neg then 1 else 0)
            && (Minus(neg && zero) + prefix) + pad + (Minus(neg && !zero) + digits) == t[..h] + pad + t[h..]
  {
    var a, b := Minus(neg && zero) + prefix, Minus(neg && !zero) + digits;
    assert a + "" + b == a + b;
    SplitAt(a, pad, b);
  }

  lemma FirstDigit(x: nat, base: nat, upper: bool)
    requires base in {8, 10, 16}
    ensures Digits(x, base, upper) != "" && Digits(x, base, upper)[0] != '-'
  {
    DigitsPlain(x, base, upper);
    hide Digits;
    assert Digits(x, base, upper)[0] in Digits(x, base, upper);
  }

  lemma WidthApart(f: Flags, r: Radix, neg: bool, digits: nat)
    ensures var e := f.(width := 0);
            && Prefix(e, r) == Prefix(f, r) && Pad(e) == Pad(f) && e.zeroPad == f.zeroPad
            && PadWidth(neg, digits, e, r) <= 0
            && PadWidth(neg, digits, f, r) == f.width - (|Prefix(f, r)| + digits + if neg then 1 else 0)
  {
  }

  lemma PaddedText(n: u32, f: Flags, r: Radix)
    requires r.base in {8, 10, 16} && (r.signed ==> r.base == 10)
    ensures var t := NumberText(n, f.(width := 0), r);
            var neg := Negative(Cut(n, f, r), r);
            var h := |Prefix(f, r)| + if neg && f.zeroPad then 1 else 0;
            && t != "" && (t[0] == '-' <==> neg) && h <= |t|
            && NumberText(n, f, r) == t[..h] + Repeat(Pad(f), f.width - |t|) + t[h..]
  {
    hide Digits, Cut, Negative, Magnitude, Minus, Prefix, NumberText, Repeat, Pad, PadWidth;
    NumberParts(n, f, r);
    NumberParts(n, f.(width := 0), r);
    FlagsApart(n, f, f.alternate, 0, r);
    var neg := Negative(Cut(n, f, r), r);
    var digits := Digits(Magnitude(Cut(n, f, r), neg), r.base, r.upper);
    FirstDigit(Magnitude(Cut(n, f, r), neg), r.base, r.upper);
    WidthApart(f, r, neg, |digits|);
    ShortPad(Pad(f), PadWidth(neg, |digits|, f.(width := 0), r));
    JoinPadded(neg, f.zeroPad, Prefix(f, r), Repeat(Pad(f), PadWidth(neg, |digits|, f, r)), digits);
  }

  lemma HeadIs(d: Directive, r: Radix, t: string)
    requires IsNumber(d) && RadixOf(d.conv) == Some(r) && t != ""
    requires t[0] == '-' <==> Negative(Cut(d.args[0].n, d.flags, r), r)
    ensures (r.signed ==> r.base == 10) && r.base in {8, 10, 16}
    ensures Head(d, t) == |Prefix(d.flags, r)|
                          + if Negative(Cut(d.args[0].n, d.flags, r), r) && d.flags.zeroPad then 1 else 0
  {
    hide Cut;
  }

  lemma RadixIs(conv: char)
    requires conv in "diuoxXp"
    ensures RadixOf(conv).Some? && var r := RadixOf(conv).value;
            (r.signed ==> r.base == 10) && r.base in {8, 10, 16}
  {
  }

  /** A number is padded to its width, with zeros or spaces as its flags say, at that
      place. */
  lemma PaddedTo(d: Directive)
    requires IsNumber(d)
    ensures var t := TextOf(With(d, d.flags.alternate, 0));
            && t != "" && Head(d, t) <= |t|
            && TextOf(d) == t[..Head(d, t)]
                            + Repeat(if d.flags.zeroPad then '0' else ' ', d.flags.width - |t|) + t[Head(d, t)..]
  {
    hide NumberText, TextOf, Cut, Repeat, RadixOf, Prefix, Negative, Head, Pad;
    RadixIs(d.conv);
    var r, t := RadixOf(d.conv).value, TextOf(With(d, d.flags.alternate, 0));
    TextWith(d, r);
    PaddedText(d.args[0].n, d.flags, r);
    HeadIs(d, r, t);
    PadIs(d.flags);
  }

  lemma TextWith(d: Directive, r: Radix)
    requires IsNumber(d) && RadixOf(d.conv) == Some(r)
    ensures TextOf(d) == NumberText(d.args[0].n, d.flags, r)
    ensures TextOf(With(d, d.flags.alternate, 0)) == NumberText(d.args[0].n, d.flags.(width := 0), r)
  {
    hide NumberText, TextOf, RadixOf;
    TextIs(d, r);
    TextIs(With(d, d.flags.alternate, 0), r);
  }

  lemma PadIs(f: Flags)
    ensures Pad(f) == if f.zeroPad then '0' else ' '
  {
  }

  lemma ShortPad(c: char, n: int)
    requires n <= 0
    ensures Repeat(c, n) == ""
  {
  }

  lemma SplitAt(a: string, p: string, b: string)
    ensures (a + b)[..|a|] + p + (a + b)[|a|..] == a + p + b
  {
    assert (a + b)[..|a|] == a && (a + b)[|a|..] == b;
  }

  // -- Text, characters and everything else -------------------------------------------------

  /** %s prints its text and then spaces up to the width; %c one character; any other letter
      itself, without taking an argument. */
  lemma OthersPrint(d: Directive)
    requires d.conv !in "diuoxXp"
    ensures match Converted(d)
            case Some(p) =>
              if d.conv == 's' then
                && d.args != [] && d.args[0].Text? && p.args == d.args[1..]
                && d.args[0].s <= p.text
                && |p.text| == (if d.flags.width > |d.args[0].s| then d.flags.width else |d.args[0].s|)
                && forall k :: |d.args[0].s| <= k < |p.text| ==> p.text[k] == ' '
              else if d.conv == 'c' then
                && d.args != [] && d.args[0].Number? && p.args == d.args[1..]
                && p.text == [(d.args[0].n % 0x100) as char]
              else p.text == [d.conv] && p.args == d.args
            case None => d.conv in "sc"
  {
    if d.conv == 's' && d.args != [] && d.args[0].Text? {
      var s, k := d.args[0].s, d.flags.width - |d.args[0].s|;
      assert Converted(d).value.text == s + Repeat(' ', k);
      forall j | |s| <= j < |s + Repeat(' ', k)| ensures (s + Repeat(' ', k))[j] == ' ' {
        RepeatAt(' ', k, j - |s|);
      }
    }
  }

  // -- The modifiers ------------------------------------------------------------------------

  function Sized(n: nat): CString { if n == 0 then "" else if n == 1 then "h" else "hh" }

  lemma SizeRead(f: Flags, size: nat, conv: CChar, rest: CString, args: seq<Arg>)
    requires conv !in "*#0123456789h" && size <= 2 && !f.chr && !f.short
    ensures var s: CString := Sized(size) + [conv] + rest;
            Modifiers(s, f, args) == Some(Directive(f.(chr := size == 2, short := size == 1), conv, rest, args))
  {
    var c: CString := [conv] + rest;
    assert c[0] == conv && c[1..] == rest && !IsDigit(conv);
    var s: CString := Sized(size) + [conv] + rest;
    if size == 0 {
      assert s == c;
    } else if size == 1 {
      assert s[0] == 'h' && s[1..] == c && s[1] == conv;
    } else {
      assert s[0] == 'h' && s[1] == 'h' && s[2..] == c;
    }
  }

  lemma {:induction false} WidthIs(width: CString, tail: CString, w: nat)
    requires (forall c :: c in width ==> IsDigit(c)) && (tail != "" ==> !IsDigit(tail[0]))
    ensures WidthOf(width + tail, w) == Fold(width, 10, w) && AfterWidth(width + tail) == tail
    decreases |width|
  {
    if width == "" {
      assert width + tail == tail;
    } else {
      assert width[0] in width && (width + tail)[0] == width[0] && (width + tail)[1..] == width[1..] + tail;
      assert forall c :: c in width[1..] ==> c in width;
      WidthIs(width[1..], tail, w * 10 + (width[0] as int - '0' as int));
    }
  }

  lemma WidthRead(width: CString, f: Flags, size: nat, conv: CChar, rest: CString, args: seq<Arg>)
    requires conv !in "*#0123456789h" && size <= 2 && !f.chr && !f.short && f.width == 0
    requires (forall c :: c in width ==> IsDigit(c)) && (width != "" ==> width[0] != '0')
    ensures var s: CString := width + (Sized(size) + [conv] + rest);
            Modifiers(s, f, args)
            == Some(Directive(f.(width := Fold(width, 10, 0), chr := size == 2, short := size == 1), conv, rest, args))
  {
    var tail: CString := Sized(size) + [conv] + rest;
    var s: CString := width + tail;
    assert !IsDigit(conv) && !IsDigit(tail[0]);
    if width == "" {
      assert s == tail;
      SizeRead(f, size, conv, rest, args);
    } else {
      assert width[0] in width && s[0] == width[0] && s[1..] == width[1..] + tail;
      assert forall c :: c in width[1..] ==> c in width;
      WidthIs(width[1..], tail, width[0] as int - '0' as int);
      SizeRead(f.(width := Fold(width, 10, 0)), size, conv, rest, args);
    }
  }

  lemma ZeroRead(zero: bool, width: CString, f: Flags, size: nat, conv: CChar, rest: CString, args: seq<Arg>)
    requires conv !in "*#0123456789h" && size <= 2 && !f.chr && !f.short && f.width == 0 && !f.zeroPad
    requires (forall c :: c in width ==> IsDigit(c)) && (width != "" ==> width[0] != '0')
    ensures var s: CString := (if zero then "0" else "") + (width + (Sized(size) + [conv] + rest));
            Modifiers(s, f, args)
            == Some(Directive(f.(width := Fold(width, 10, 0), zeroPad := zero, chr := size == 2, short := size == 1),
                              conv, rest, args))
  {
    var w: CString := width + (Sized(size) + [conv] + rest);
    var s: CString := (if zero then "0" else "") + w;
    WidthRead(width, f.(zeroPad := zero), size, conv, rest, args);
    hide Fold, IsDigit;
    if zero {
      assert s[0] == '0' && s[1..] == w;
    } else {
      assert s == w;
    }
  }

  /** `#`, `0`, a width and `h` or `hh`, each there or not, are understood as such. */
  lemma ModifiersRead(alternate: bool, zero: bool, width: CString, size: nat, conv: CChar, rest: CString,
                      args: seq<Arg>)
    requires conv !in "*#0123456789h" && size <= 2
    requires (forall c :: c in width ==> IsDigit(c)) && (width != "" ==> width[0] != '0')
    ensures var s: CString := (if alternate then "#" else "")
                              + ((if zero then "0" else "") + (width + (Sized(size) + [conv] + rest)));
            Modifiers(s, PLAIN, args)
            == Some(Directive(Flags(Fold(width, 10, 0), alternate, zero, size == 2, size == 1), conv, rest, args))
  {
    var z: CString := (if zero then "0" else "") + (width + (Sized(size) + [conv] + rest));
    var s: CString := (if alternate then "#" else "") + z;
    ZeroRead(zero, width, PLAIN.(alternate := alternate), size, conv, rest, args);
    hide Fold, IsDigit;
    if alternate {
      assert s[0] == '#' && s[1..] == z;
    } else {
      assert s == z;
    }
  }

  /** `*` takes the width from the arguments, as a signed number. */
  lemma StarReads(conv: CChar, rest: CString, n: u32, args: seq<Arg>)
    requires conv !in "*#0123456789h"
    ensures var s: CString := "*" + ([conv] + rest);
            Modifiers(s, PLAIN, [Number(n)] + args)
            == Some(Directive(PLAIN.(width := Meant(n, PLAIN, true)), conv, rest, args))
  {
    var c: CString := [conv] + rest;
    var s: CString := "*" + c;
    assert s[0] == '*' && s[1..] == c && c[0] == conv && c[1..] == rest && !IsDigit(conv);
    assert ([Number(n)] + args)[1..] == args;
  }

  /** Outside of directives a format prints itself. */
  lemma {:induction false} FormatSplits(s: CString, rest: CString, args: seq<Arg>)
    requires '%' !in s
    ensures Format(s + rest, args) == match Format(rest, args) case None => None case Some(t) => Some(s + t)
    decreases |s|
  {
    if s == "" {
      assert s + rest == rest;
      assert forall t: string :: "" + t == t;
    } else {
      assert (s + rest)[1..] == s[1..] + rest;
      FormatSplits(s[1..], rest, args);
      assert s[0] in s && forall c :: c in s[1..] ==> c in s;
      assert forall t: string :: [s[0]] + (s[1..] + t) == s + t;
    }
  }

  /** A directive prints its conversion, and what follows goes on with the arguments that
      it leaves. */
  lemma DirectivePrints(s: CString, args: seq<Arg>, d: Directive)
    requires Modifiers(s, PLAIN, args) == Some(d)
    ensures var all: CString := "%" + s;
            Format(all, args) == match Converted(d)
                                 case None => None
                                 case Some(p) =>
                                   match Format(d.rest, p.args)
                                   case None => None
                                   case Some(t) => Some(p.text + t)
  {
    var all: CString := "%" + s;
    assert all[0] == '%' && all[1..] == s;
    ModifiersShorten(s, PLAIN, args);
    hide Modifiers, Converted;
  }

  function TwoWide(nr: u32): Directive {
    Directive(Flags(2, false, true, false, false), 'u', "", [Number(nr)])
  }

  lemma TwoWideRead(nr: u32)
    ensures Modifiers("02u", PLAIN, [Number(nr)]) == Some(TwoWide(nr))
  {
    ModifiersRead(false, true, "2", 0, 'u', "", [Number(nr)]);
    assert "2"[1..] == "" && Fold("2", 10, 0) == 2;
    hide Modifiers;
    var s: CString := "" + ("0" + ("2" + (Sized(0) + ['u'] + "")));
    assert s == "02u";
  }

  lemma TwoWidePrints(nr: u32)
    ensures Format("%02u", [Number(nr)]) == Some(TextOf(TwoWide(nr)))
  {
    TwoWideRead(nr);
    TextIs(TwoWide(nr), Radix(10, false, false));
    NothingMore([Number(nr)][1..]);
    hide Modifiers, Converted, Format, NumberText;
    DirectivePrints("02u", [Number(nr)], TwoWide(nr));
    var all: CString := "%" + "02u";
    assert all == "%02u";
    assert TextOf(TwoWide(nr)) + "" == TextOf(TwoWide(nr));
  }

  lemma NothingMore(args: seq<Arg>)
    ensures Format("", args) == Some("")
  {
  }

  /** So the number of an error is shown in two decimal digits, the tens first. */
  lemma ErrorShown(nr: nat)
    requires nr < 100
    ensures Format("E%02u", [Number(nr)]) == Some("E" + [DigitChar(nr / 10, false), DigitChar(nr % 10, false)])
  {
    TwoWidePrints(nr);
    TwoDigits(nr);
    TextIs(TwoWide(nr), Radix(10, false, false));
    hide Format, NumberText;
    FormatSplits("E", "%02u", [Number(nr)]);
    var all: CString := "E" + "%02u";
    assert all == "E%02u";
  }

  lemma TwoDigits(nr: nat)
    requires nr < 100
    ensures NumberText(nr, Flags(2, false, true, false, false), Radix(10, false, false))
            == [DigitChar(nr / 10, false), DigitChar(nr % 10, false)]
  {
    var f, r := Flags(2, false, true, false, false), Radix(10, false, false);
    UnsignedIs(nr, f, r);
    if nr < 10 {
      DigitsShort(nr, 10, false);
      assert Repeat('0', 1) == "0";
    } else {
      DigitsStep(nr, 10, false);
      DigitsShort(nr / 10, 10, false);
      ShortPad('0', 0);
    }
  }
}
