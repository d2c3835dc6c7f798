/** Formatted output: a 64-byte buffer flushed into the up channel, and the digit printer. */
module Printk {
  import opened Words
  import Arithmetic
  import Rtt

  const PRINTK_BUFFER_SIZE := 64
  const CHARS := "0123456789abcdef"

  type Base = b: int | 2 <= b <= 16 witness 10
  type Int32 = v: int | -0x8000_0000 <= v < 0x8000_0000

  // ----- numbers

  function Digit(k: nat): char
    requires k < 16
  {
    CHARS[k]
  }

  function DigitValue(c: char): nat {
    if '0' <= c <= '9' then c as int - '0' as int else if 'a' <= c <= 'f' then c as int - 'a' as int + 10 else 0
  }

  lemma DigitRead(k: nat)
    requires k < 16
    ensures DigitValue(Digit(k)) == k && (Digit(k) == '0' <==> k == 0)
  {
  }

  ghost predicate IsDigit(c: char, base: Base) {
    exists k: nat :: k < base && c == Digit(k)
  }

  /** The numeral of num: most significant digit first, no padding. */
  function Digits(num: nat, base: Base): (d: string)
    ensures |d| >= 1
    decreases num
  {
    if num < base then [Digit(num)]
    else
      Arithmetic.DivSmaller(num, base);
      Digits(num / base, base) + [Digit(num % base)]
  }

  /** What a reader makes of a numeral. */
  function Parse(d: string, base: Base): nat {
    if d == [] then 0 else Parse(d[..|d|-1], base) * base + DigitValue(d[|d|-1])
  }

  lemma ParseLast(d: string, c: char, base: Base)
    ensures Parse(d + [c], base) == Parse(d, base) * base + DigitValue(c)
  {
    hide DigitValue;
    assert (d + [c])[..|d|] == d;
  }

  /** The digits read back as the number. */
  lemma {:induction false} DigitsParseBack(num: nat, base: Base)
    ensures Parse(Digits(num, base), base) == num
    decreases num
  {
    hide *;
    DigitsLast(num, base);
    if num < base {
      DigitRead(num);
      ParseLast([], Digit(num), base);
      assert [] + [Digit(num)] == [Digit(num)];
    } else {
      Arithmetic.DivSmaller(num, base);
      Arithmetic.DivBounds(num, base);
      DigitRead(num % base);
      DigitsParseBack(num / base, base);
      ParseLast(Digits(num / base, base), Digit(num % base), base);
    }
  }

  lemma DigitsLast(num: nat, base: Base)
    ensures 0 <= num % base < base && 0 <= num / base
    ensures num < base ==> Digits(num, base) == [Digit(num)] && Parse([], base) == 0
    ensures num >= base ==> Digits(num, base) == Digits(num / base, base) + [Digit(num % base)]
  {
    Arithmetic.DivBounds(num, base);
  }

  /** Every character is a digit of the base, and only zero itself starts with a zero. */
  lemma {:induction false} NoLeadingZero(num: nat, base: Base)
    ensures forall k :: 0 <= k < |Digits(num, base)| ==> IsDigit(Digits(num, base)[k], base)
    ensures Digits(num, base)[0] == '0' <==> num == 0
    decreases num
  {
    hide Digit;
    if num < base {
      DigitRead(num);
    } else {
      Arithmetic.DivSmaller(num, base);
      Arithmetic.DivAtLeast(num, base, 1);
      NoLeadingZero(num / base, base);
    }
  }

  /** Two numbers that print alike in the same base are the same number. */
  lemma DigitsInjective(m: nat, n: nat, base: Base)
    requires Digits(m, base) == Digits(n, base)
    ensures m == n
  {
    DigitsParseBack(m, base);
    DigitsParseBack(n, base);
  }

  function Pow(base: Base, k: nat): (p: nat)
    ensures p >= 1
  {
    if k == 0 then 1 else Pow(base, k - 1) * base
  }

  /** The last w digits of num as the printing loop finds them: divide by the power, keep the remainder. */
  function Padded(num: nat, base: Base, w: nat): (d: string)
    requires num < Pow(base, w)
    ensures |d| == w
  {
    if w == 0 then []
    else
      Arithmetic.DivBelow(num, Pow(base, w - 1), base);
      [Digit(num / Pow(base, w - 1))] + Padded(num % Pow(base, w - 1), base, w - 1)
  }

  /** Taking digits from the front or from the back gives the same numeral. */
  lemma {:induction false} PaddedFromTheBack(num: nat, base: Base, w: nat)
    requires w > 0 && num < Pow(base, w)
    ensures 0 <= num / base < Pow(base, w - 1)
    ensures Padded(num, base, w) == Padded(num / base, base, w - 1) + [Digit(num % base)]
    decreases w
  {
    hide Digit;
    Arithmetic.DivBelow(num, base, Pow(base, w - 1));
    Arithmetic.DivBelow(num, Pow(base, w - 1), base);
    if w == 1 {
      Arithmetic.DivUnique(num, 1, num, 0);
      Arithmetic.DivUnique(num, base, 0, num);
    } else {
      Arithmetic.Nested(num, base, Pow(base, w - 2));
      PaddedFromTheBack(num % Pow(base, w - 1), base, w - 1);
    }
  }

  /** A number of exactly w digits needs no padding. */
  lemma {:induction false} PaddedIsDigits(num: nat, base: Base, w: nat)
    requires w > 0 && num < Pow(base, w) && (w == 1 || Pow(base, w - 1) <= num)
    ensures Padded(num, base, w) == Digits(num, base)
    decreases w
  {
    hide Digit;
    PaddedFromTheBack(num, base, w);
    if w == 1 {
      Arithmetic.DivUnique(num, base, 0, num);
    } else {
      Arithmetic.DivAtLeast(num, base, Pow(base, w - 2));
      Arithmetic.DivBounds(num, base);
      PaddedIsDigits(num / base, base, w - 1);
    }
  }

  // ----- formats

  datatype Arg = Num(v: Int32) | Str(s: string)

  /** The conversions that take a number. */
  predicate TakesNum(d: char) {
    d == 'c' || d == 'd' || d == 'u' || d == 'x' || d == 'X' || d == 'p'
  }

  /** How many characters of the format its first item has. */
  function Width(fs: string): nat {
    if fs != [] && fs[0] == '%' then 2 else 1
  }

  /** How many arguments the first item takes. */
  function Needs(fs: string): nat {
    if |fs| >= 2 && fs[0] == '%' && (TakesNum(fs[1]) || fs[1] == 's') then 1 else 0
  }

  /** The first item is complete and finds an argument of its kind. */
  predicate FirstFits(fs: string, args: seq<Arg>) {
    && Width(fs) <= |fs| && Needs(fs) <= |args|
    && (forall k :: 0 <= k < Width(fs) ==> fs[k] != '\0')
    && (Needs(fs) == 1 && TakesNum(fs[1]) ==> args[0].Num?)
    && (Needs(fs) == 1 && fs[1] == 's' ==> args[0].Str? && '\0' !in args[0].s)
  }

  /** The format has no lone `%` at its end and no zero byte, and each conversion finds its argument. */
  predicate Fits(fs: string, args: seq<Arg>)
    decreases |fs|
  {
    fs == [] || (FirstFits(fs, args) && Fits(fs[Width(fs)..], args[Needs(fs)..]))
  }

  /** The 32-bit unsigned reading of a number. */
  function Unsigned(v: Int32): Word {
    var w: int := v;
    if w < 0 then w + LIMIT else w
  }

  /** What `v = -v` and the cast to unsigned make of a negative number. */
  function Negated(v: Int32): nat
    requires v < 0
  {
    var w: int := v;
    -w
  }

  /** The text of one numeric conversion. */
  function Converted(d: char, v: Int32): string {
    if d == 'c' then [(v % 256) as char]
    else if d == 'd' then if v < 0 then "-" + Digits(Negated(v), 10) else Digits(v, 10)
    else if d == 'u' then Digits(Unsigned(v), 10)
    else Digits(Unsigned(v), 16)
  }

  /** The text of the first item. An unknown conversion prints nothing and takes no argument. */
  function First(fs: string, args: seq<Arg>): string
    requires fs != [] && FirstFits(fs, args)
  {
    if fs[0] != '%' then [fs[0]]
    else if TakesNum(fs[1]) then Converted(fs[1], args[0].v)
    else if fs[1] == 's' then args[0].s
    else if fs[1] == '%' then "%"
    else ""
  }

  /** The text that a format stands for. */
  function Expand(fs: string, args: seq<Arg>): string
    requires Fits(fs, args)
    decreases |fs|
  {
    if fs == [] then [] else First(fs, args) + Expand(fs[Width(fs)..], args[Needs(fs)..])
  }

  /** How many arguments a format takes. */
  function Takes(fs: string): nat
    decreases |fs|
  {
    if |fs| < Width(fs) then 0 else Needs(fs) + Takes(fs[Width(fs)..])
  }

  lemma FirstOfConcat(f: string, a: seq<Arg>, g: string, b: seq<Arg>)
    requires f != [] && FirstFits(f, a)
    ensures Width(f + g) == Width(f) && Needs(f + g) == Needs(f)
    ensures FirstFits(f + g, a + b) && First(f + g, a + b) == First(f, a)
    ensures Width(f) <= |f| && Needs(f) <= |a|
    ensures (f + g)[Width(f)..] == f[Width(f)..] + g && (a + b)[Needs(f)..] == a[Needs(f)..] + b
  {
    hide Converted, TakesNum;
    assert forall k :: 0 <= k < Width(f) ==> (f + g)[k] == f[k];
    assert Needs(f) == 1 ==> (a + b)[0] == a[0];
  }

  /** Formats compose: printing two in a row is printing their concatenation, provided the first takes all
      of its own arguments. */
  lemma {:induction false} ExpandConcat(f: string, a: seq<Arg>, g: string, b: seq<Arg>)
    requires Fits(f, a) && Takes(f) == |a| && Fits(g, b)
    ensures Fits(f + g, a + b)
    ensures Expand(f + g, a + b) == Expand(f, a) + Expand(g, b)
    decreases |f|
  {
    hide First, FirstFits, TakesNum, Needs;
    if f == [] {
      assert f + g == g && a + b == b;
    } else {
      FirstOfConcat(f, a, g, b);
      ExpandConcat(f[Width(f)..], a[Needs(f)..], g, b);
    }
  }

  /** A text with every `%` doubled. */
  function Escape(text: string): string {
    if text == [] then [] else (if text[0] == '%' then "%%" else [text[0]]) + Escape(text[1..])
  }

  /** Any text can be printed as it is by escaping it. */
  lemma {:induction false} EscapeRoundTrip(text: string)
    requires '\0' !in text
    ensures Fits(Escape(text), []) && Expand(Escape(text), []) == text
  {
    if text != [] {
      EscapeRoundTrip(text[1..]);
      var fs: string, none: seq<Arg> := Escape(text), [];
      assert fs[Width(fs)..] == Escape(text[1..]) && none[0..] == none;
      assert First(fs, none) == [text[0]];
    }
  }

  // ----- what a reader gets back

  /** Digits of the base without a leading zero, unless the text is a single one. */
  ghost predicate IsNumeral(text: string, base: Base) {
    && text != [] && (text[0] == '0' ==> |text| == 1)
    && forall k :: 0 <= k < |text| ==> IsDigit(text[k], base)
  }

  /** A decimal number with an optional sign. */
  function ParseSigned(text: string): int {
    if text != [] && text[0] == '-' then -(Parse(text[1..], 10) as int) else Parse(text, 10)
  }

  ghost predicate IsSigned(text: string) {
    if text != [] && text[0] == '-' then IsNumeral(text[1..], 10) && text[1] != '0' else IsNumeral(text, 10)
  }

  /** What somebody who knows the letter of a conversion, and nothing else, reads in its text. */
  ghost predicate ReadsAs(d: char, text: string, v: Int32) {
    match d
    case 'c' => |text| == 1 && text[0] as int == v % 256
    case 'd' => IsSigned(text) && ParseSigned(text) == v
    case 'u' => IsNumeral(text, 10) && Parse(text, 10) == v % 0x1_0000_0000
    case _ => (d == 'x' || d == 'X' || d == 'p') && IsNumeral(text, 16) && Parse(text, 16) == v % 0x1_0000_0000
  }

  lemma DigitsAreNumeral(num: nat, base: Base)
    ensures IsNumeral(Digits(num, base), base) && Parse(Digits(num, base), base) == num
    ensures Digits(num, base)[0] != '-' && (num > 0 ==> Digits(num, base)[0] != '0')
  {
    DigitsParseBack(num, base);
    NoLeadingZero(num, base);
    var d := Digits(num, base);
    assert IsDigit(d[0], base);
    if num == 0 { assert d == [Digit(0)]; }
  }

  /** Every numeric conversion can be read back by its letter. */
  lemma ConvertedReads(d: char, v: Int32)
    requires TakesNum(d)
    ensures ReadsAs(d, Converted(d, v), v)
  {
    hide Digits, IsNumeral, Parse;
    if d == 'd' {
      if v < 0 {
        DigitsAreNumeral(Negated(v), 10);
        assert Converted(d, v)[1..] == Digits(Negated(v), 10);
      } else {
        DigitsAreNumeral(v, 10);
      }
    } else {
      DigitsAreNumeral(Unsigned(v), 10);
      DigitsAreNumeral(Unsigned(v), 16);
    }
  }

  /** What a format is made of, each conversion with its argument. */
  datatype Item = Plain(c: char) | Percent | Number(d: char, v: Int32) | Text(s: string) | Unknown(d: char)

  function Written(item: Item): string {
    match item
    case Plain(c) => [c]
    case Percent => "%%"
    case Number(d, _) => ['%', d]
    case Text(_) => "%s"
    case Unknown(d) => ['%', d]
  }

  function Taken(item: Item): seq<Arg> {
    match item
    case Number(_, v) => [Num(v)]
    case Text(s) => [Str(s)]
    case _ => []
  }

  /** The text stands for the item. */
  ghost predicate Shows(item: Item, text: string) {
    match item
    case Plain(c) => c != '%' && text == [c]
    case Percent => text == "%"
    case Number(d, v) => ReadsAs(d, text, v)
    case Text(s) => text == s
    case Unknown(d) => d !in "cduxXps%" && text == ""
  }

  function FormatOf(items: seq<Item>): string {
    if items == [] then [] else Written(items[0]) + FormatOf(items[1..])
  }

  function ArgsOf(items: seq<Item>): seq<Arg> {
    if items == [] then [] else Taken(items[0]) + ArgsOf(items[1..])
  }

  function Concat(texts: seq<string>): string {
    if texts == [] then [] else texts[0] + Concat(texts[1..])
  }

  lemma FirstShows(fs: string, args: seq<Arg>) returns (item: Item)
    requires fs != [] && FirstFits(fs, args)
    ensures Width(fs) <= |fs| && Needs(fs) <= |args|
    ensures Written(item) == fs[..Width(fs)] && Taken(item) == args[..Needs(fs)] && Shows(item, First(fs, args))
  {
    if fs[0] != '%' {
      item := Plain(fs[0]);
    } else if TakesNum(fs[1]) {
      ConvertedReads(fs[1], args[0].v);
      item := Number(fs[1], args[0].v);
    } else if fs[1] == 's' {
      item := Text(args[0].s);
    } else if fs[1] == '%' {
      item := Percent;
    } else {
      item := Unknown(fs[1]);
    }
    hide ReadsAs, Converted;
  }

  /** Every text that `printk` prints can be read back: it is made of one piece for each item of the format, in order,
      and each piece stands for its item. */
  lemma {:induction false} EveryFormatReads(fs: string, args: seq<Arg>) returns (items: seq<Item>, texts: seq<string>)
    requires Fits(fs, args)
    ensures FormatOf(items) == fs && ArgsOf(items) <= args && |texts| == |items|
    ensures forall k :: 0 <= k < |items| ==> Shows(items[k], texts[k])
    ensures Expand(fs, args) == Concat(texts)
    decreases |fs|
  {
    if fs == [] {
      items, texts := [], [];
    } else {
      hide FirstFits, First, Shows, Written, Taken, Width, Needs;
      var item := FirstShows(fs, args);
      var w, k := Width(fs), Needs(fs);
      assert fs == fs[..w] + fs[w..] && args == args[..k] + args[k..];
      var rest, more := EveryFormatReads(fs[w..], args[k..]);
      items, texts := [item] + rest, [First(fs, args)] + more;
      assert items[1..] == rest && texts[1..] == more;
    }
  }

  // ----- the printer

  class Buffer {
    const s: array<char>
    const out: Rtt.UpChannel
    var wIdx: nat
    var rv: int
    ghost var text: string          // everything printed so far, flushed or not

    ghost predicate Valid()
      reads this, s, out, out.p
      ensures Valid() ==> rv >= 0
    {
      && s.Length == PRINTK_BUFFER_SIZE && s != out.p && out.Valid()
      && wIdx < s.Length && rv >= 0 && rv % PRINTK_BUFFER_SIZE == wIdx
      && text == out.written + s[..wIdx]
    }

    constructor (out: Rtt.UpChannel)
      requires out.Valid()
      ensures Valid() && fresh(s) && this.out == out && text == out.written && rv == 0
    {
      s := new char[PRINTK_BUFFER_SIZE];
      this.out := out;
      wIdx, rv := 0, 0;
      text := out.written;
    }

    /** `printk_append_char`: across a flush or not, the text grows by exactly the character. */
    method AppendChar(c: char)
      requires Valid()
      modifies this, s, out, out.p
      ensures Valid() && text == old(text) + [c] && rv == old(rv) + 1
      ensures old(out.consumed) <= out.consumed
    {
      hide Rtt.Unread, Rtt.UpChannel.Valid;
      var w := wIdx;
      if w < s.Length {
        s[w] := c;
        w := w + 1;
        wIdx := w;
        rv := rv + 1;
        text := text + [c];
        assert s[..w] == old(s[..wIdx]) + [c];
      }
      if w == s.Length {
        var sent := out.Write(s, w);
        rv := if sent != w then -1 else rv;
        if sent == w { wIdx := 0; }
      }
    }

    /** `printk_append_unsigned`: the numeral of the number. */
    method AppendUnsigned(num: Word, base: Base)
      requires Valid()
      modifies this, s, out, out.p
      ensures Valid() && text == old(text) + Digits(num, base) && rv == old(rv) + |Digits(num, base)|
      ensures old(out.consumed) <= out.consumed
    {
      hide Valid, Digit;
      var basepow := TopPower(num, base);
      ghost var todo := |Digits(num, base)|;
      var left: nat := num;
      ghost var done: string := [];
      while true
        invariant Valid() && todo >= 1 && basepow == Pow(base, todo - 1) && left < Pow(base, todo)
        invariant text == old(text) + done && rv == old(rv) + |done|
        invariant done + Padded(left, base, todo) == Digits(num, base)
        invariant old(out.consumed) <= out.consumed
        decreases todo
      {
        var div, rest, next := NextDigit(left, basepow, base, todo);
        AppendChar(Digit(div));
        Regroup(done, [Digit(div)], Padded(rest, base, todo - 1));
        done := done + [Digit(div)];
        left, basepow, todo := rest, next, todo - 1;
        if rv < 0 || basepow == 0 { break; }
      }
    }

    /** One numeric conversion. */
    method AppendConverted(d: char, v: Int32)
      requires Valid() && TakesNum(d)
      modifies this, s, out, out.p
      ensures Valid() && text == old(text) + Converted(d, v) && rv == old(rv) + |Converted(d, v)|
      ensures old(out.consumed) <= out.consumed
    {
      hide Valid, Digits;
      if d == 'c' {
        AppendChar((v % 256) as char);
      } else if d == 'd' {
        var magnitude: int := v;
        if v < 0 {
          magnitude := Negated(v);
          AppendChar('-');
        }
        if rv >= 0 {
          AppendUnsigned(magnitude, 10);
        }
      } else if d == 'u' {
        AppendUnsigned(Unsigned(v), 10);
      } else {
        AppendUnsigned(Unsigned(v), 16);
      }
    }

    /** A string argument. */
    method AppendString(str: string)
      requires Valid()
      modifies this, s, out, out.p
      ensures Valid() && text == old(text) + str && rv == old(rv) + |str|
      ensures old(out.consumed) <= out.consumed
    {
      hide Valid;
      var k := 0;
      while k < |str| && rv >= 0
        invariant k <= |str| && Valid() && text == old(text) + str[..k] && rv == old(rv) + k
        invariant old(out.consumed) <= out.consumed
      {
        AppendChar(str[k]);
        assert str[..k+1] == str[..k] + [str[k]];
        k := k + 1;
      }
      assert str[..k] == str;
    }

    /** One round of the loop of `printk`: the item at position i of the format. */
    method AppendFirst(fs: string, i: nat, args: seq<Arg>, a: nat) returns (i': nat, a': nat)
      requires Valid() && i < |fs| && a <= |args| && FirstFits(fs[i..], args[a..])
      modifies this, s, out, out.p
      ensures Valid() && text == old(text) + First(fs[i..], args[a..])
      ensures rv == old(rv) + |First(fs[i..], args[a..])|
      ensures i' == i + Width(fs[i..]) && a' == a + Needs(fs[i..])
      ensures old(out.consumed) <= out.consumed
    {
      hide Valid, Converted, TakesNum;
      i', a' := i + 1, a;
      if fs[i] == '%' {
        var d := fs[i'];
        if TakesNum(d) {
          AppendConverted(d, args[a].v);
          a' := a + 1;
        } else if d == 's' {
          AppendString(args[a].s);
          a' := a + 1;
        } else if d == '%' {
          AppendChar('%');
        }
        i' := i' + 1;
      } else {
        AppendChar(fs[i]);
      }
    }

    /** The loop of `printk`. */
    method AppendFormat(fs: string, args: seq<Arg>)
      requires Valid() && Fits(fs, args)
      modifies this, s, out, out.p
      ensures Valid() && text == old(text) + Expand(fs, args) && rv == old(rv) + |Expand(fs, args)|
      ensures old(out.consumed) <= out.consumed
    {
      hide Valid, FirstFits, First, TakesNum;
      var i: nat, a: nat := 0, 0;
      ghost var done: string := [];
      while i < |fs| && rv >= 0
        invariant i <= |fs| && a <= |args| && Fits(fs[i..], args[a..])
        invariant Valid() && text == old(text) + done && rv == old(rv) + |done|
        invariant done + Expand(fs[i..], args[a..]) == Expand(fs, args)
        invariant old(out.consumed) <= out.consumed
      {
        FirstStays(fs, i, args, a);
        Regroup(done, First(fs[i..], args[a..]), Expand(fs[i + Width(fs[i..])..], args[a + Needs(fs[i..])..]));
        done := done + First(fs[i..], args[a..]);
        i, a := AppendFirst(fs, i, args, a);
      }
    }

    /** The end of `printk`: what no flush has sent yet. */
    method Finish() returns (result: int)
      requires Valid()
      modifies this, s, out, out.p
      ensures out.Valid() && out.written == old(text) && old(out.consumed) <= out.consumed
      ensures result == old(rv) + old(rv) % PRINTK_BUFFER_SIZE
    {
      if rv > 0 {
        if wIdx != 0 {
          var sent := out.Write(s, wIdx);
        }
        rv := rv + wIdx;
      }
      return rv;
    }
  }

  lemma Regroup(a: string, b: string, c: string)
    ensures (a + b) + c == a + (b + c)
  {
  }

  /** The first loop of `printk_append_unsigned`: the power of the leading digit. Being at most the number
      (or one), it never leaves 32 bits. */
  method TopPower(num: Word, base: Base) returns (basepow: Word)
    ensures basepow == Pow(base, |Digits(num, base)| - 1)
    ensures basepow == 1 || basepow <= num
    ensures num < Pow(base, |Digits(num, base)|)
    ensures Padded(num, base, |Digits(num, base)|) == Digits(num, base)
  {
    var number: nat := num;
    var width: nat := 1;
    basepow := 1;
    Arithmetic.DivUnique(num, 1, num, 0);
    while number >= base
      invariant width >= 1 && basepow == Pow(base, width - 1) && number == num / basepow
      invariant width == 1 || basepow <= num
      decreases number
    {
      Arithmetic.DivSmaller(number, base);
      Arithmetic.Nested(num, basepow, base);
      Arithmetic.DivBelow(num, basepow, base);
      number := number / base;
      width := width + 1;
      basepow := basepow * base;
    }
    Arithmetic.DivBelow(num, basepow, base);
    PaddedIsDigits(num, base, width);
  }

  /** The arithmetic of one round of the second loop. */
  method NextDigit(num: nat, basepow: Word, base: Base, ghost w: nat) returns (div: nat, rest: nat, next: Word)
    requires w >= 1 && basepow == Pow(base, w - 1) && num < Pow(base, w)
    ensures div < base && rest < Pow(base, w - 1)
    ensures Padded(num, base, w) == [Digit(div)] + Padded(rest, base, w - 1)
    ensures if w == 1 then next == 0 else next == Pow(base, w - 2)
  {
    hide *;
    PaddedFront(num, base, w);
    PowDown(base, w);
    Arithmetic.Remainder(num, basepow);
    Arithmetic.DivBounds(basepow, base);
    div := num / basepow;
    rest := num - div * basepow;
    next := basepow / base;
  }

  lemma PaddedFront(num: nat, base: Base, w: nat)
    requires w >= 1 && num < Pow(base, w)
    ensures 0 <= num / Pow(base, w - 1) < base && 0 <= num % Pow(base, w - 1) < Pow(base, w - 1)
    ensures Padded(num, base, w) == [Digit(num / Pow(base, w - 1))] + Padded(num % Pow(base, w - 1), base, w - 1)
  {
    hide Digit;
    Arithmetic.DivBelow(num, Pow(base, w - 1), base);
  }

  lemma PowDown(base: Base, w: nat)
    requires w >= 1
    ensures Pow(base, w - 1) / base == if w == 1 then 0 else Pow(base, w - 2)
  {
    if w == 1 {
      Arithmetic.DivUnique(1, base, 0, 1);
    } else {
      Arithmetic.DivUnique(Pow(base, w - 1), base, Pow(base, w - 2), 0);
    }
  }

  /** `printk`: the chunks handed to the ring concatenate to the expansion, over any number of flushes. The
      value returned counts the unflushed tail twice. */
  method Printk(out: Rtt.UpChannel, fs: string, args: seq<Arg>) returns (rv: int)
    requires out.Valid() && Fits(fs, args)
    modifies out, out.p
    ensures out.Valid() && out.written == old(out.written) + Expand(fs, args)
    ensures old(out.consumed) <= out.consumed
    ensures rv == |Expand(fs, args)| + |Expand(fs, args)| % PRINTK_BUFFER_SIZE
  {
    hide Expand, Fits;
    var f := new Buffer(out);
    f.AppendFormat(fs, args);
    rv := f.Finish();
  }

  /** The expansion from a position on, as its first item and the rest. */
  lemma FirstStays(fs: string, i: nat, args: seq<Arg>, a: nat)
    requires i < |fs| && a <= |args| && Fits(fs[i..], args[a..])
    ensures FirstFits(fs[i..], args[a..])
    ensures i + Width(fs[i..]) <= |fs| && a + Needs(fs[i..]) <= |args|
    ensures Fits(fs[i + Width(fs[i..])..], args[a + Needs(fs[i..])..])
    ensures Expand(fs[i..], args[a..])
         == First(fs[i..], args[a..]) + Expand(fs[i + Width(fs[i..])..], args[a + Needs(fs[i..])..])
  {
    hide First, TakesNum;
    var f, g := fs[i..], args[a..];
    assert f[Width(f)..] == fs[i + Width(f)..] && g[Needs(f)..] == args[a + Needs(f)..];
  }
}
