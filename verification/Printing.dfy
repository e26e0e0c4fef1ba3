/**
 Number printing on the console: uart_dec and uart_hex (freestanding/uart.cpp), print_uint
 (freestanding/libc_min.cpp). Each fills a small buffer with digits, lowest first, and empties it backwards.
 */
module Printing {
  import opened Common

  type u64 = x: int | 0 <= x < 0x1_0000_0000_0000_0000

  // ----- Numerals

  predicate IsBase(base: nat) {
    2 <= base <= 16
  }

  /** The canonical digits of `v`, highest first; none for 0. */
  function Digits(v: nat, base: nat): (ds: seq<nat>)
    requires IsBase(base)
    ensures forall k | 0 <= k < |ds| :: ds[k] < base
    ensures v > 0 ==> ds != [] && ds[0] > 0
    decreases v
  {
    if v == 0 then [] else Digits(v / base, base) + [v % base]
  }

  function Value(ds: seq<nat>, base: nat): nat {
    if ds == [] then 0 else base * Value(ds[..|ds| - 1], base) + ds[|ds| - 1]
  }

  lemma ValueAppend(ds: seq<nat>, d: nat, base: nat)
    ensures Value(ds + [d], base) == base * Value(ds, base) + d
  {
    assert (ds + [d])[..|ds|] == ds;
  }

  /** Reading the digits back yields the number. */
  lemma {:induction false} DigitsReadBack(v: nat, base: nat)
    requires IsBase(base)
    ensures Value(Digits(v, base), base) == v
    decreases v
  {
    if v > 0 {
      var q, r := v / base, v % base;
      Shrinks(v, base);
      DigitsReadBack(q, base);
      DivMod(v, base);
      LastDigit(v, q, r, base);
      OneMoreDigit(Digits(q, base), q, r, v, base);
    }
  }

  lemma OneMoreDigit(ds: seq<nat>, q: nat, r: nat, v: nat, base: nat)
    requires Value(ds, base) == q && v == base * q + r
    ensures Value(ds + [r], base) == v
  {
    ValueAppend(ds, r, base);
  }

  lemma DivMod(v: nat, base: nat)
    requires base > 0
    ensures v == base * (v / base) + v % base
  {
  }

  lemma DivModOf(q: nat, r: nat, base: nat)
    requires r < base
    ensures (base * q + r) / base == q && (base * q + r) % base == r
  {
    var x := base * q + r;
    var q', r' := x / base, x % base;
    DivMod(x, base);
    assert base * (q + 1) == base * q + base && base * (q' + 1) == base * q' + base;
    if q' < q { Times(base, q' + 1, q); } else if q < q' { Times(base, q + 1, q'); }
  }

  /** And they are the only digits without a leading zero that do. */
  lemma {:induction false} DigitsAreCanonical(ds: seq<nat>, base: nat, v: nat)
    requires IsBase(base) && (forall k | 0 <= k < |ds| :: ds[k] < base)
    requires (ds != [] ==> ds[0] > 0) && v == Value(ds, base)
    ensures Digits(v, base) == ds
    decreases |ds|
  {
    if ds != [] {
      var init, last := ds[..|ds| - 1], ds[|ds| - 1];
      assert ds == init + [last];
      assert init != [] ==> init[0] == ds[0];
      DigitsAreCanonical(init, base, Value(init, base));
      if init != [] { ValuePositive(init, base); }
      CanonicalStep(init, last, base, v);
    }
  }

  lemma CanonicalStep(init: seq<nat>, last: nat, base: nat, v: nat)
    requires IsBase(base) && last < base && v == Value(init + [last], base)
    requires (Value(init, base) > 0 || last > 0) && Digits(Value(init, base), base) == init
    ensures Digits(v, base) == init + [last]
  {
    var _ := ValueSplits(init, last, base);
    LastDigit(v, Value(init, base), last, base);
  }

  lemma ValueSplits(init: seq<nat>, last: nat, base: nat) returns (v: nat)
    requires IsBase(base) && last < base
    ensures v == Value(init + [last], base) && v / base == Value(init, base) && v % base == last
    ensures v > 0 <==> Value(init, base) > 0 || last > 0
  {
    var q := Value(init, base);
    v := Value(init + [last], base);
    ValueAppend(init, last, base);
    DivModOf(q, last, base);
    if q > 0 { Times(base, 1, q); }
  }

  lemma LastDigit(v: nat, q: nat, r: nat, base: nat)
    requires IsBase(base) && r < base && v > 0 && v / base == q && v % base == r
    ensures Digits(v, base) == Digits(q, base) + [r]
  {
  }

  lemma {:induction false} ValuePositive(ds: seq<nat>, base: nat)
    requires base > 0 && ds != [] && ds[0] > 0
    ensures Value(ds, base) > 0
    decreases |ds|
  {
    if |ds| > 1 {
      ValuePositive(ds[..|ds| - 1], base);
      assert base * Value(ds[..|ds| - 1], base) > 0;
    }
  }

  function Pow(b: nat, n: nat): nat {
    if n == 0 then 1 else b * Pow(b, n - 1)
  }

  /** Fewer than `b^n` needs at most `n` digits, and conversely. */
  lemma {:induction false} DigitCount(v: nat, base: nat, n: nat)
    requires IsBase(base)
    ensures |Digits(v, base)| <= n <==> v < Pow(base, n)
    decreases n
  {
    if n == 0 {
    } else if v > 0 {
      DigitCount(v / base, base, n - 1);
      DivBound(v, base, Pow(base, n - 1));
    } else {
      PowPositive(base, n);
    }
  }

  lemma {:induction false} PowPositive(b: nat, n: nat)
    requires b > 0
    ensures Pow(b, n) > 0
    decreases n
  {
    if n > 0 { PowPositive(b, n - 1); }
  }

  lemma DivBound(v: nat, b: nat, p: nat)
    requires b > 0
    ensures v / b < p <==> v < b * p
  {
    var q := v / b;
    DivMod(v, b);
    assert b * (q + 1) == b * q + b;
    if q < p { Times(b, q + 1, p); } else { Times(b, p, q); }
  }

  lemma {:induction false} PowMonotone(a: nat, b: nat, n: nat)
    requires a <= b
    ensures Pow(a, n) <= Pow(b, n)
    decreases n
  {
    if n > 0 {
      PowMonotone(a, b, n - 1);
      Times(b, Pow(a, n - 1), Pow(b, n - 1));
      Times(Pow(a, n - 1), a, b);
    }
  }

  lemma Powers()
    ensures Pow(10, 20) > 0xFFFF_FFFF_FFFF_FFFF
    ensures Pow(7, 24) > 0xFFFF_FFFF_FFFF_FFFF >= Pow(6, 24)
  {
    assert Pow(10, 5) == 100000;
    assert Pow(10, 10) == 10000000000;
    assert Pow(10, 15) == 1000000000000000;
    assert Pow(10, 20) == 100000000000000000000;
    assert Pow(7, 6) == 117649 && Pow(6, 6) == 46656;
    assert Pow(7, 12) == 13841287201 && Pow(6, 12) == 2176782336;
    assert Pow(7, 18) == 1628413597910449 && Pow(6, 18) == 101559956668416;
    assert Pow(7, 24) == 191581231380566414401 && Pow(6, 24) == 4738381338321616896;
  }

  /** uart_dec's 20-digit buffer never overflows. */
  lemma DecFits(v: u64)
    ensures |Digits(v, 10)| <= 20
  {
    Powers();
    DigitCount(v, 10, 20);
  }

  lemma UintFits(v: u64, base: nat)
    requires IsBase(base) && base >= 7
    ensures |Digits(v, base)| <= 24
  {
    Powers();
    PowMonotone(7, base, 24);
    DigitCount(v, base, 24);
  }

  /** print_uint's 24-digit buffer never overflows in a base if and only if the base is at least 7. */
  lemma UintFitsIff(base: nat)
    requires IsBase(base)
    ensures (forall v: u64 :: |Digits(v, base)| <= 24) <==> base >= 7
  {
    if base >= 7 {
      forall v: u64 ensures |Digits(v, base)| <= 24 { UintFits(v, base); }
    } else {
      Powers();
      PowMonotone(base, 6, 24);
      DigitCount(0xFFFF_FFFF_FFFF_FFFF, base, 24);
      var v: u64 := 0xFFFF_FFFF_FFFF_FFFF;
      assert |Digits(v, base)| > 24;
    }
  }

  // ----- Characters

  /** "0123456789abcdef" or "0123456789ABCDEF" at `d`. */
  function DigitChar(d: nat, upper: bool): char
    requires d < 16
  {
    (if upper then "0123456789ABCDEF" else "0123456789abcdef")[d]
  }

  function CharDigit(c: char): nat {
    if '0' <= c <= '9' then c as int - '0' as int
    else if 'a' <= c <= 'f' then c as int - 'a' as int + 10
    else if 'A' <= c <= 'F' then c as int - 'A' as int + 10
    else 16
  }

  function Chars(ds: seq<nat>, upper: bool): string
    requires forall k | 0 <= k < |ds| :: ds[k] < 16
  {
    seq(|ds|, k requires 0 <= k < |ds| => DigitChar(ds[k], upper))
  }

  function CharDigits(s: string): seq<nat> {
    seq(|s|, k requires 0 <= k < |s| => CharDigit(s[k]))
  }

  lemma CharsReadBack(ds: seq<nat>, upper: bool)
    requires forall k | 0 <= k < |ds| :: ds[k] < 16
    ensures CharDigits(Chars(ds, upper)) == ds
  {
    forall k | 0 <= k < |ds| ensures CharDigit(DigitChar(ds[k], upper)) == ds[k] {
      CharReadBack(ds[k], upper);
    }
  }

  lemma CharReadBack(d: nat, upper: bool)
    requires d < 16
    ensures CharDigit(DigitChar(d, upper)) == d
    ensures d < 10 ==> DigitChar(d, upper) == ('0' as int + d) as char
    ensures d >= 10 ==> DigitChar(d, false) == ('a' as int + (d - 10)) as char
  {
  }

  /** A number as it should appear. */
  function Numeral(v: nat, base: nat, upper: bool): string
    requires IsBase(base)
  {
    if v == 0 then "0" else Chars(Digits(v, base), upper)
  }

  function Parsed(s: string, base: nat): nat {
    Value(CharDigits(s), base)
  }

  /** A numeral reads back as its number, and starts with 0 only if it is 0. */
  lemma NumeralReadsBack(v: nat, base: nat, upper: bool)
    requires IsBase(base)
    ensures Parsed(Numeral(v, base, upper), base) == v
    ensures Numeral(v, base, upper) != "" && (Numeral(v, base, upper)[0] == '0' <==> v == 0)
  {
    if v == 0 {
      assert CharDigits("0") == [0];
      assert Value([0], base) == 0 by { ValueAppend([], 0, base); }
    } else {
      CharsReadBack(Digits(v, base), upper);
      DigitsReadBack(v, base);
      CharReadBack(Digits(v, base)[0], upper);
    }
  }

  /** Decimal digits, without a leading zero unless that is all. */
  predicate IsDecimal(s: string) {
    s != "" && (forall k | 0 <= k < |s| :: '0' <= s[k] <= '9') && (s[0] == '0' ==> |s| == 1)
  }

  /** A decimal numeral is one. */
  lemma DecimalIs(v: nat)
    ensures IsDecimal(Numeral(v, 10, false)) && Parsed(Numeral(v, 10, false), 10) == v
  {
    NumeralReadsBack(v, 10, false);
    forall k | 0 <= k < |Digits(v, 10)| ensures '0' <= DigitChar(Digits(v, 10)[k], false) <= '9' {
      CharReadBack(Digits(v, 10)[k], false);
    }
  }

  lemma ZeroDigit(s: string)
    requires s == "0"
    ensures Parsed(s, 10) == 0
  {
    assert CharDigits(s) == [0];
    ValueAppend([], 0, 10);
    assert [] + [0] == [0];
  }

  /** The digits of a decimal string are those of its value. */
  lemma DecimalDigits(s: string, ds: seq<nat>)
    requires IsDecimal(s) && s[0] != '0' && ds == CharDigits(s)
    ensures (forall k | 0 <= k < |ds| :: ds[k] < 10) && ds != [] && ds[0] > 0
    ensures Value(ds, 10) > 0 && Digits(Value(ds, 10), 10) == ds
  {
    ValuePositive(ds, 10);
    DigitsAreCanonical(ds, 10, Value(ds, 10));
  }

  lemma DecimalChars(s: string, ds: seq<nat>)
    requires IsDecimal(s) && ds == CharDigits(s) && forall k | 0 <= k < |ds| :: ds[k] < 10
    ensures Chars(ds, false) == s
  {
    forall k | 0 <= k < |s| ensures DigitChar(ds[k], false) == s[k] {
      CharReadBack(ds[k], false);
    }
  }

  /** The only one of its value. */
  lemma DecimalIsNumeral(s: string)
    requires IsDecimal(s)
    ensures s == Numeral(Parsed(s, 10), 10, false)
  {
    if s[0] == '0' {
      ZeroDigit(s);
    } else {
      var ds := CharDigits(s);
      DecimalDigits(s, ds);
      DecimalChars(s, ds);
    }
  }

  lemma OneDigit(d: nat)
    requires d < 10
    ensures Numeral(d, 10, false) == [('0' as int + d) as char]
  {
    CharReadBack(d, false);
    assert Digits(0, 10) == [];
    if d > 0 { assert Digits(d, 10) == [d]; }
  }

  function Backwards(s: string): string {
    seq(|s|, k requires 0 <= k < |s| => s[|s| - 1 - k])
  }

  function Suffix(s: string, n: nat): string {
    if |s| <= n then s else s[|s| - n..]
  }

  /** A digit loop at work on `all`: the digits of `v` are still to come, `low` is in the buffer, lowest first. */
  ghost predicate Filling(all: string, v: nat, base: nat, upper: bool, low: string)
    requires IsBase(base)
  {
    all == Chars(Digits(v, base), upper) + Backwards(low)
  }

  lemma FillStarts(v: nat, base: nat, upper: bool)
    requires IsBase(base) && v > 0
    ensures Filling(Numeral(v, base, upper), v, base, upper, "")
  {
  }

  lemma Shrinks(v: nat, base: nat)
    requires IsBase(base) && v > 0
    ensures 0 <= v / base < v
  {
    DivBound(v, base, v);
    Times(v, 2, base);
  }

  lemma CharsGrow(ds: seq<nat>, d: nat, upper: bool)
    requires d < 16 && forall k | 0 <= k < |ds| :: ds[k] < 16
    ensures Chars(ds + [d], upper) == Chars(ds, upper) + [DigitChar(d, upper)]
  {
  }

  lemma BackwardsGrow(s: string, c: char)
    ensures Backwards(s + [c]) == [c] + Backwards(s)
  {
  }

  lemma FillStep(all: string, v: nat, base: nat, upper: bool, low: string, q: nat, r: nat)
    requires IsBase(base) && v > 0 && q == v / base && r == v % base
    requires Filling(all, v, base, upper, low)
    ensures Filling(all, q, base, upper, low + [DigitChar(r, upper)])
  {
    var ds := Digits(q, base);
    LastDigit(v, q, r, base);
    CharsGrow(ds, r, upper);
    BackwardsGrow(low, DigitChar(r, upper));
  }

  lemma DecStep(all: string, v: nat, low: string)
    requires v > 0 && Filling(all, v, 10, false, low)
    ensures 0 <= v / 10 < v
    ensures Filling(all, v / 10, 10, false, low + [('0' as int + v % 10) as char])
  {
    Shrinks(v, 10);
    CharReadBack(v % 10, false);
    FillStep(all, v, 10, false, low, v / 10, v % 10);
  }

  /** When a digit loop ends, the buffer holds all digits or is full. */
  lemma FillEnds(all: string, v: nat, base: nat, upper: bool, low: string, room: nat)
    requires IsBase(base) && (v == 0 || |low| == room) && |low| <= room
    requires Filling(all, v, base, upper, low)
    ensures Backwards(low) == Suffix(all, room)
  {
    if v == 0 { assert all == Backwards(low); }
  }

  /** In the bases whose numerals fit the buffer, nothing is cut off. */
  lemma UintIsWhole(v: u64, base: nat, upper: bool)
    requires IsBase(base) && base >= 7
    ensures Suffix(Numeral(v, base, upper), 24) == Numeral(v, base, upper)
  {
    UintFits(v, base);
  }

  lemma DecIsWhole(v: u64)
    ensures Suffix(Numeral(v, 10, false), 20) == Numeral(v, 10, false)
  {
    DecFits(v);
  }

  // ----- Sixteen hexadecimal digits

  /** `v >> 4 * k`. */
  function Shifted(v: nat, k: nat): nat {
    if k == 0 then v else Shifted(v, k - 1) / 16
  }

  /** The low `k` hexadecimal digits, highest first. */
  function Fixed(v: nat, k: nat): (ds: seq<nat>)
    ensures |ds| == k && forall j | 0 <= j < k :: ds[j] < 16
    decreases k
  {
    if k == 0 then [] else Fixed(v / 16, k - 1) + [v % 16]
  }

  lemma {:induction false} ShiftedTwice(v: nat, k: nat)
    ensures Shifted(v / 16, k) == Shifted(v, k + 1)
    decreases k
  {
    if k > 0 { ShiftedTwice(v, k - 1); }
  }

  lemma {:induction false} FixedAt(v: nat, k: nat, j: nat)
    requires j < k
    ensures Fixed(v, k)[j] == Shifted(v, k - 1 - j) % 16
    decreases k
  {
    if j < k - 1 {
      FixedAt(v / 16, k - 1, j);
      ShiftedTwice(v, k - 2 - j);
    }
  }

  /** A fixed number of digits reads back as the number if and only if the number is small enough for them. */
  lemma {:induction false} FixedReadsBack(v: nat, k: nat)
    ensures Value(Fixed(v, k), 16) == v <==> v < Pow(16, k)
    decreases k
  {
    if k > 0 {
      FixedReadsBack(v / 16, k - 1);
      ValueAppend(Fixed(v / 16, k - 1), v % 16, 16);
      DivBound(v, 16, Pow(16, k - 1));
    }
  }

  lemma HexStep(v: nat, k: nat, nib: nat)
    requires k < 16 && nib == Shifted(v, k) % 16
    ensures Chars(Fixed(v, 16)[..16 - k], false) == Chars(Fixed(v, 16)[..15 - k], false) + [DigitChar(nib, false)]
  {
    FixedAt(v, 16, 15 - k);
    var shown := Fixed(v, 16)[..15 - k];
    assert Fixed(v, 16)[..16 - k] == shown + [nib];
    CharsGrow(shown, nib, false);
  }

  lemma Pow16()
    ensures Pow(16, 16) == 0x1_0000_0000_0000_0000
  {
    assert Pow(16, 4) == 0x1_0000;
    assert Pow(16, 8) == 0x1_0000_0000;
    assert Pow(16, 12) == 0x1_0000_0000_0000;
  }

  /** What uart_hex prints after 0x reads back as the value, for every 64-bit value. */
  lemma HexReadsBack(v: u64)
    ensures |Chars(Fixed(v, 16), false)| == 16 && Parsed(Chars(Fixed(v, 16), false), 16) == v
  {
    CharsReadBack(Fixed(v, 16), false);
    FixedReadsBack(v, 16);
    Pow16();
  }

  // ----- The console's loops

  /** What uart_puts writes for a string. */
  function Puts(s: string): string {
    if s == "" then "" else (if s[0] == '\n' then "\r\n" else [s[0]]) + Puts(s[1..])
  }

  /** Strings are put one after the other, and a string without a newline as it is. */
  lemma {:induction false} PutsAppend(a: string, b: string)
    ensures Puts(a + b) == Puts(a) + Puts(b)
    decreases |a|
  {
    if a == "" {
      assert a + b == b;
    } else {
      PutsAppend(a[1..], b);
      assert (a + b)[1..] == a[1..] + b && (a + b)[0] == a[0];
    }
  }

  lemma {:induction false} PutsPlain(s: string)
    requires '\n' !in s
    ensures Puts(s) == s
    decreases |s|
  {
    if s != "" {
      PutsPlain(s[1..]);
      assert s == [s[0]] + s[1..];
    }
  }

  lemma PutsLine(s: string)
    requires '\n' !in s
    ensures Puts(s + "\n") == s + "\r\n"
  {
    PutsAppend(s, "\n");
    PutsPlain(s);
    assert Puts("\n") == "\r\n";
  }

  /** print_uint's loop: digits into the buffer, lowest first, until there are none or it is full. */
  method UintDigits(buf: array<char>, value: nat, base: nat, upper: bool) returns (i: nat)
    requires IsBase(base) && value > 0
    modifies buf
    ensures i <= buf.Length && Backwards(buf[..i]) == Suffix(Numeral(value, base, upper), buf.Length)
  {
    ghost var all := Numeral(value, base, upper);
    FillStarts(value, base, upper);
    var v := value;
    i := 0;
    assert buf[..0] == "";
    while v != 0 && i < buf.Length
      invariant 0 <= v && i <= buf.Length && Filling(all, v, base, upper, buf[..i])
      decreases v
    {
      ghost var low := buf[..i];
      Shrinks(v, base);
      FillStep(all, v, base, upper, low, v / base, v % base);
      buf[i] := DigitChar(v % base, upper);
      v, i := v / base, i + 1;
      assert buf[..i] == low + [buf[i - 1]];
    }
    FillEnds(all, v, base, upper, buf[..i], buf.Length);
  }

  /** uart_dec's loop. */
  method DecDigits(buf: array<char>, value: nat) returns (i: nat)
    requires value > 0
    modifies buf
    ensures i <= buf.Length && Backwards(buf[..i]) == Suffix(Numeral(value, 10, false), buf.Length)
  {
    ghost var all := Numeral(value, 10, false);
    FillStarts(value, 10, false);
    var v := value;
    i := 0;
    assert buf[..0] == "";
    while v != 0 && i < buf.Length
      invariant 0 <= v && i <= buf.Length && Filling(all, v, 10, false, buf[..i])
      decreases v
    {
      ghost var low := buf[..i];
      DecStep(all, v, low);
      buf[i] := ('0' as int + v % 10) as char;
      v, i := v / 10, i + 1;
      assert buf[..i] == low + [buf[i - 1]];
    }
    FillEnds(all, v, 10, false, buf[..i], buf.Length);
  }

  lemma PutsNext(s: string, i: nat)
    requires i < |s|
    ensures Puts(s[i..]) == (if s[i] == '\n' then "\r\n" else [s[i]]) + Puts(s[i + 1..])
  {
    assert s[i..][1..] == s[i + 1..];
  }

  class Uart {
    var out: string

    constructor ()
      ensures out == ""
    {
      out := "";
    }

    method Putc(c: char)
      modifies this
      ensures out == old(out) + [c]
    {
      out := out + [c];
    }

    /** `uart_puts`: a carriage return before every newline. */
    method PutString(s: string)
      modifies this
      ensures out == old(out) + Puts(s)
    {
      var i := 0;
      assert s[0..] == s;
      while i < |s|
        invariant 0 <= i <= |s| && out + Puts(s[i..]) == old(out) + Puts(s)
      {
        PutsNext(s, i);
        if s[i] == '\n' { Putc('\r'); }
        Putc(s[i]);
        i := i + 1;
      }
    }

    /** Empties the first `n` characters of a digit buffer backwards. */
    method PutBackwards(buf: array<char>, n: nat)
      requires n <= buf.Length
      modifies this
      ensures out == old(out) + Backwards(buf[..n])
    {
      var i := n;
      while i > 0
        invariant 0 <= i <= n
        invariant out + Backwards(buf[..i]) == old(out) + Backwards(buf[..n])
      {
        i := i - 1;
        Putc(buf[i]);
        assert Backwards(buf[..i + 1]) == [buf[i]] + Backwards(buf[..i]);
      }
    }

    /** `print_uint`: the last 24 digits, which are all of them in any base from 7 on. */
    method PrintUint(value: u64, base: nat, upper: bool)
      requires IsBase(base)
      modifies this
      ensures out == old(out) + Suffix(Numeral(value, base, upper), 24)
      ensures base >= 7 ==> out == old(out) + Numeral(value, base, upper)
    {
      if base >= 7 { UintIsWhole(value, base, upper); }
      if value == 0 {
        Putc('0');
        return;
      }
      var buf := new char[24];
      var i := UintDigits(buf, value, base, upper);
      PutBackwards(buf, i);
    }

    /** `uart_dec`: every digit. */
    method Dec(value: u64)
      modifies this
      ensures out == old(out) + Numeral(value, 10, false)
    {
      DecIsWhole(value);
      if value == 0 {
        Putc('0');
        return;
      }
      var buf := new char[20];
      var i := DecDigits(buf, value);
      PutBackwards(buf, i);
    }

    /** `uart_hex`: 0x and the sixteen hexadecimal digits of a 64-bit value. */
    method Hex(value: u64)
      modifies this
      ensures out == old(out) + "0x" + Chars(Fixed(value, 16), false)
    {
      Putc('0');
      Putc('x');
      var k := 16;
      assert Chars(Fixed(value, 16)[..0], false) == "";
      while k > 0
        invariant 0 <= k <= 16
        invariant out == old(out) + "0x" + Chars(Fixed(value, 16)[..16 - k], false)
      {
        k := k - 1;
        var nib := Shifted(value, k) % 16;
        CharReadBack(nib, false);
        HexStep(value, k, nib);
        Putc(if nib < 10 then ('0' as int + nib) as char else ('a' as int + (nib - 10)) as char);
      }
      assert Fixed(value, 16)[..16] == Fixed(value, 16);
    }
  }
}
