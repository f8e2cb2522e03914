/** Number printing: itoa and strrev (mp3/syscalls/ece391support.c, mp3/student-distrib/lib.c)
    and the %x, %#x, %u and %d branches of the kernel's printf. */
module Numerals {

  const TWO_TO_THE_31 := 0x8000_0000
  const TWO_TO_THE_32 := 0x1_0000_0000
  const NUL := '\0'
  const LOOKUP := "0123456789ABCDEFGHIJKLMNOPQRSTUVWXYZ"

  type Uint32 = v: int | 0 <= v < TWO_TO_THE_32
  type Int32 = v: int | -TWO_TO_THE_31 <= v < TWO_TO_THE_31
  type Radix = r: int | 2 <= r <= 36 witness 10

  // ----- what a numeral means -----

  /** The digit a character stands for, or 36 if it is none. */
  function DigitOf(c: char): (d: nat)
    ensures d <= 36
  {
    if '0' <= c <= '9' then c as int - '0' as int
    else if 'A' <= c <= 'Z' then c as int - 'A' as int + 10
    else 36
  }

  /** Reading a numeral: the first digit has the highest place. */
  function Value(s: string, radix: Radix): nat {
    if s == [] then 0 else Value(s[..|s| - 1], radix) * radix + DigitOf(s[|s| - 1])
  }

  /** Every character is a digit of the radix, and there is no superfluous leading zero. */
  ghost predicate Canonical(s: string, radix: Radix) {
    s != [] && (forall k | 0 <= k < |s| :: DigitOf(s[k]) < radix) && (|s| > 1 ==> s[0] != '0')
  }

  // ----- printing -----

  /** The character for a digit. */
  function Digit(d: nat): (c: char)
    requires d < 36
    ensures DigitOf(c) == d && c != NUL && (d > 0 ==> c != '0')
  {
    LOOKUP[d]
  }

  /** The number without its last digit (v / radix), and that digit (v % radix). */
  function High(v: nat, radix: Radix): (q: nat)
    ensures v > 0 ==> q < v
  {
    v / radix
  }

  function Low(v: nat, radix: Radix): (d: nat)
    ensures d < radix
  {
    v % radix
  }

  lemma HighAndLow(v: nat, radix: Radix)
    ensures v == High(v, radix) * radix + Low(v, radix)
  {
  }

  /** The digits of v, none for zero. */
  function Places(v: nat, radix: Radix): string {
    if v == 0 then "" else Places(High(v, radix), radix) + [Digit(Low(v, radix))]
  }

  function Numeral(v: nat, radix: Radix): string {
    if v == 0 then "0" else Places(v, radix)
  }

  lemma ValueAppend(s: string, c: char, radix: Radix)
    ensures Value("", radix) == 0
    ensures Value(s + [c], radix) == Value(s, radix) * radix + DigitOf(c)
  {
    assert (s + [c])[..|s|] == s;
  }

  lemma {:induction false} PlacesReadBack(v: nat, radix: Radix)
    ensures Value(Places(v, radix), radix) == v
  {
    hide Digit, DigitOf, High, Low;
    if v > 0 {
      PlacesReadBack(High(v, radix), radix);
      ValueAppend(Places(High(v, radix), radix), Digit(Low(v, radix)), radix);
      HighAndLow(v, radix);
    }
  }

  lemma {:induction false} PlacesCanonical(v: nat, radix: Radix)
    requires v > 0
    ensures Canonical(Places(v, radix), radix) && Places(v, radix)[0] != '0'
  {
    hide Digit, DigitOf, High, Low;
    HighAndLow(v, radix);
    if High(v, radix) > 0 {
      PlacesCanonical(High(v, radix), radix);
    }
  }

  /** Round trip: the numeral of v reads back as v, and is canonical. */
  lemma NumeralReadsBack(v: nat, radix: Radix)
    ensures Value(Numeral(v, radix), radix) == v && Canonical(Numeral(v, radix), radix)
  {
    PlacesReadBack(v, radix);
    if v == 0 {
      ValueAppend("", '0', radix);
      assert "" + ['0'] == "0";
    } else {
      PlacesCanonical(v, radix);
    }
  }

  /** The other round trip: v's numeral is the only canonical one that reads as v. */
  lemma OnlyNumeral(s: string, radix: Radix)
    requires Canonical(s, radix)
    ensures s == Numeral(Value(s, radix), radix)
  {
    if |s| == 1 && s[0] == '0' {
      assert Value(s, radix) == Value(s[..0], radix) * radix;
    } else {
      OnlyPlaces(s, radix);
    }
  }

  lemma {:induction false} OnlyPlaces(s: string, radix: Radix)
    requires Canonical(s, radix) && s[0] != '0'
    ensures Value(s, radix) > 0 && s == Places(Value(s, radix), radix)
  {
    hide High, Low, Digit, DigitOf, Value;
    var high, last := s[..|s| - 1], s[|s| - 1];
    DigitIsOnly(last);
    ValueAppend(high, last, radix);
    assert s == high + [last];
    if high != [] {
      OnlyPlaces(high, radix);
      TimesMonotone(1, Value(high, radix), radix);
    }
    DivMod(Value(high, radix), radix, DigitOf(last));
  }

  lemma DigitIsOnly(c: char)
    requires DigitOf(c) < 36
    ensures c == Digit(DigitOf(c)) && (c != '0' ==> DigitOf(c) > 0)
  {
  }

  lemma DivMod(high: nat, radix: Radix, d: nat)
    requires d < radix
    ensures High(high * radix + d, radix) == high && Low(high * radix + d, radix) == d
  {
    hide High, Low;
    var v := high * radix + d;
    var quotient := High(v, radix);
    HighAndLow(v, radix);
    if quotient > high {
      TimesMonotone(high + 1, quotient, radix);
    } else if quotient < high {
      TimesMonotone(quotient + 1, high, radix);
    }
  }

  lemma TimesMonotone(a: int, b: int, factor: nat)
    requires a <= b
    ensures a * factor <= b * factor
  {
  }

  ghost function Power(radix: Radix, n: nat): nat {
    if n == 0 then 1 else Power(radix, n - 1) * radix
  }

  /** A numeral has at most n digits exactly when the number is below the n-th power. */
  lemma {:induction false} PlacesFit(v: nat, radix: Radix, n: nat)
    ensures |Places(v, radix)| <= n <==> v < Power(radix, n)
  {
    hide High, Low;
    PowerPositive(radix, n);
    if n > 0 && v > 0 {
      PlacesFit(High(v, radix), radix, n - 1);
      BelowMultiple(v, radix, Power(radix, n - 1));
    }
  }

  lemma BelowMultiple(v: nat, radix: Radix, p: nat)
    ensures High(v, radix) < p <==> v < p * radix
  {
    HighAndLow(v, radix);
    hide High, Low;
    if High(v, radix) < p {
      TimesMonotone(High(v, radix) + 1, p, radix);
    } else {
      TimesMonotone(p, High(v, radix), radix);
    }
  }

  lemma {:induction false} PowerPositive(radix: Radix, n: nat)
    ensures Power(radix, n) > 0
  {
    if n > 0 {
      PowerPositive(radix, n - 1);
      TimesMonotone(1, Power(radix, n - 1), radix);
    }
  }

  /** No 32-bit number has more than 32 digits, more than 10 in decimal, more than 8 in hexadecimal. */
  lemma NumeralsFit(v: Uint32, radix: Radix)
    ensures |Numeral(v, radix)| <= 32
    ensures radix >= 10 ==> |Numeral(v, radix)| <= 10
    ensures radix >= 16 ==> |Numeral(v, radix)| <= 8
  {
    LargePowers();
    hide Power, Places;
    PlacesFit(v, radix, 32);
    PowerGrows(2, radix, 32);
    if radix >= 10 {
      PlacesFit(v, radix, 10);
      PowerGrows(10, radix, 10);
    }
    if radix >= 16 {
      PlacesFit(v, radix, 8);
      PowerGrows(16, radix, 8);
    }
  }

  lemma LargePowers()
    ensures Power(2, 32) == Power(16, 8) == TWO_TO_THE_32 < Power(10, 10)
  {
    PowerSquares(2, 16);
    PowerSquares(2, 8);
    PowerSquares(2, 4);
    PowerSquares(16, 4);
    PowerSquares(10, 5);
  }

  lemma {:induction false} PowerGrows(low: Radix, high: Radix, n: nat)
    requires low <= high
    ensures Power(low, n) <= Power(high, n)
  {
    if n > 0 {
      PowerGrows(low, high, n - 1);
      TimesMonotone(Power(low, n - 1), Power(high, n - 1), low);
      TimesMonotone(low, high, Power(high, n - 1));
    }
  }

  lemma PowerSquares(radix: Radix, n: nat)
    ensures Power(radix, 2 * n) == Power(radix, n) * Power(radix, n)
  {
    PowerAdds(radix, n, n);
  }

  lemma {:induction false} PowerAdds(radix: Radix, m: nat, n: nat)
    ensures Power(radix, m + n) == Power(radix, m) * Power(radix, n)
  {
    if n > 0 {
      PowerAdds(radix, m, n - 1);
      TimesAssociates(Power(radix, m), Power(radix, n - 1), radix);
    }
  }

  lemma TimesAssociates(a: int, b: int, c: int)
    ensures (a * b) * c == a * (b * c)
  {
  }

  /** Zeros in front change nothing but the length. */
  lemma {:induction false} LeadingZeros(zeros: string, s: string, radix: Radix)
    requires forall k | 0 <= k < |zeros| :: zeros[k] == '0'
    ensures Value(zeros + s, radix) == Value(s, radix)
    decreases |s|, |zeros|
  {
    if s != [] {
      LeadingZeros(zeros, s[..|s| - 1], radix);
      assert (zeros + s)[..|zeros + s| - 1] == zeros + s[..|s| - 1];
    } else if zeros != [] {
      LeadingZeros(zeros[..|zeros| - 1], s, radix);
      assert (zeros + s)[..|zeros + s| - 1] == zeros[..|zeros| - 1] + s;
    }
  }

  // ----- strings in buffers -----

  /** The buffer holds the string s, closed by a NUL, from index at on. */
  ghost predicate Holds(buf: array<char>, at: nat, s: string)
    reads buf
  {
    && at + |s| < buf.Length && buf[at + |s|] == NUL
    && (forall j | at <= j < at + |s| :: buf[j] == s[j - at] != NUL)
  }

  method Strlen(s: array<char>, at: nat, ghost contents: string) returns (len: nat)
    requires Holds(s, at, contents)
    ensures len == |contents|
  {
    len := 0;
    while s[at + len] != NUL
      invariant len <= |contents|
      decreases |contents| - len
    {
      len := len + 1;
    }
  }

  function Reversed(s: string): (r: string)
    ensures |r| == |s| && forall k | 0 <= k < |s| :: r[k] == s[|s| - 1 - k]
  {
    seq(|s|, k requires 0 <= k < |s| => s[|s| - 1 - k])
  }

  method StrRev(s: array<char>, at: nat, ghost contents: string)
    requires Holds(s, at, contents)
    modifies s
    ensures Holds(s, at, Reversed(contents))
    ensures forall k | 0 <= k < at :: s[k] == old(s[k])
  {
    ghost var reversed := Reversed(contents);
    forall k | 0 <= k < |contents|
      ensures reversed[k] != NUL
    {
      assert s[at + |contents| - 1 - k] != NUL;
    }
    var beg := 0;
    var len := Strlen(s, at, contents);
    var end: int := len as int - 1;
    while beg < end
      invariant 0 <= beg <= end + 1 && beg + end == |contents| - 1
      invariant s[at + |contents|] == NUL
      invariant forall j | at + beg <= j <= at + end :: s[j] == contents[j - at]
      invariant forall j | at <= j < at + beg :: s[j] == reversed[j - at]
      invariant forall j | at + end < j < at + |contents| :: s[j] == reversed[j - at]
      invariant forall k | 0 <= k < at :: s[k] == old(s[k])
    {
      s[at + end], s[at + beg] := s[at + beg], s[at + end];
      beg := beg + 1;
      end := end - 1;
    }
    assert beg == end ==> s[at + beg] == reversed[beg];
  }

  /** itoa: the buffer gets the number's numeral, whatever it held before. */
  method Itoa(value: Uint32, buf: array<char>, at: nat, radix: Radix)
    requires at + |Numeral(value, radix)| < buf.Length
    modifies buf
    ensures Holds(buf, at, Numeral(value, radix))
    ensures forall k | 0 <= k < at :: buf[k] == old(buf[k])
  {
    hide Digit, DigitOf, Reversed, High, Low;
    if value == 0 {
      buf[at] := '0';
      buf[at + 1] := NUL;
      return;
    }
    ghost var done := "";
    var newbuf, newval := 0, value;
    AllPlaces(value, radix);
    hide Places, Numeral;
    while newval > 0
      invariant 0 <= newval && newbuf == |done|
      invariant Numeral(value, radix) == Places(newval, radix) + done
      invariant forall j | at <= j < at + newbuf :: buf[j] == Reversed(done)[j - at] != NUL
      invariant forall k | 0 <= k < at :: buf[k] == old(buf[k])
    {
      var i := Low(newval, radix);
      LastPlace(newval, radix, done);
      ghost var grown := [Digit(i)] + done;
      assert Reversed(grown) == Reversed(done) + [Digit(i)];
      buf[at + newbuf] := Digit(i);
      forall j | at <= j <= at + newbuf
        ensures buf[j] == Reversed(grown)[j - at] != NUL
      {
        if j < at + newbuf {
          assert Reversed(grown)[j - at] == Reversed(done)[j - at];
        }
      }
      done := grown;
      newbuf := newbuf + 1;
      newval := High(newval, radix);
    }
    buf[at + newbuf] := NUL;
    assert done == Numeral(value, radix);
    assert Holds(buf, at, Reversed(done));
    StrRev(buf, at, Reversed(done));
    ReversedTwice(done);
  }

  lemma ReversedTwice(s: string)
    ensures Reversed(Reversed(s)) == s
  {
  }

  lemma AllPlaces(v: nat, radix: Radix)
    requires v > 0
    ensures Numeral(v, radix) == Places(v, radix) + "" && Places(0, radix) == ""
  {
  }

  lemma LastPlace(v: nat, radix: Radix, done: string)
    requires v > 0
    ensures Places(v, radix) + done == Places(High(v, radix), radix) + ([Digit(Low(v, radix))] + done)
    ensures Reversed([Digit(Low(v, radix))] + done) == Reversed(done) + [Digit(Low(v, radix))]
  {
    hide High, Low, Digit, Reversed;
    ReversedFront(Digit(Low(v, radix)), done);
    var front, last := Places(High(v, radix), radix), [Digit(Low(v, radix))];
    assert Places(v, radix) == front + last;
    assert (front + last) + done == front + (last + done);
  }

  lemma ReversedFront(c: char, s: string)
    ensures Reversed([c] + s) == Reversed(s) + [c]
  {
  }

  /** puts: what appears on the screen. */
  method Puts(s: array<char>, at: nat, ghost contents: string) returns (out: string)
    requires Holds(s, at, contents)
    ensures out == contents
  {
    var index := 0;
    out := "";
    while s[at + index] != NUL
      invariant index <= |contents| && out == contents[..index]
      decreases |contents| - index
    {
      out := out + [s[at + index]];
      index := index + 1;
    }
  }

  /** %x and %u: the 64- and 36-character buffers always suffice. */
  method Unsigned(value: Uint32, radix: Radix) returns (out: string)
    requires radix == 16 || radix == 10
    ensures Canonical(out, radix) && Value(out, radix) == value
  {
    NumeralsFit(value, radix);
    NumeralReadsBack(value, radix);
    var convBuf := new char[if radix == 16 then 64 else 36];
    Itoa(value, convBuf, 0, radix);
    out := Puts(convBuf, 0, Numeral(value, radix));
  }

  /** %d: a minus sign for negative numbers, the smallest included, whose negation wraps around to itself. */
  method Signed(value: Int32) returns (out: string)
    ensures if value < 0 then
              out != [] && out[0] == '-' && Canonical(out[1..], 10) && Value(out[1..], 10) == 0 - value
            else
              Canonical(out, 10) && Value(out, 10) == value
  {
    hide Canonical, Value, Numeral;
    var convBuf := new char[36];
    var magnitude: Uint32 := (if value < 0 then 0 - value else value) % TWO_TO_THE_32;
    NumeralsFit(magnitude, 10);
    NumeralReadsBack(magnitude, 10);
    ghost var contents := Numeral(magnitude, 10);
    if value < 0 {
      convBuf[0] := '-';
      Itoa(magnitude, convBuf, 1, 10);
      contents := "-" + contents;
      assert contents[1..] == Numeral(magnitude, 10);
      assert forall j | 1 <= j < |contents| :: contents[j] == Numeral(magnitude, 10)[j - 1];
    } else {
      Itoa(magnitude, convBuf, 0, 10);
    }
    out := Puts(convBuf, 0, contents);
  }

  function Zeros(n: nat): string {
    seq(n, _ => '0')
  }

  lemma PaddedValue(value: Uint32)
    ensures |Numeral(value, 16)| <= 8
    ensures var out := Zeros(8 - |Numeral(value, 16)|) + Numeral(value, 16);
            Value(out, 16) == value && forall k | 0 <= k < 8 :: DigitOf(out[k]) < 16
  {
    hide Value, Numeral, DigitOf;
    NumeralsFit(value, 16);
    NumeralReadsBack(value, 16);
    LeadingZeros(Zeros(8 - |Numeral(value, 16)|), Numeral(value, 16), 16);
    ZeroIsADigit();
  }

  lemma ZeroIsADigit()
    ensures DigitOf('0') == 0
  {
  }

  /** The loop of %#x: zeros from the given index up to the string at index 8. */
  method FillZeros(buf: array<char>, from: nat, ghost s: string)
    requires from <= 8 && Holds(buf, 8, s)
    modifies buf
    ensures Holds(buf, 8, s) && forall k | from <= k < 8 :: buf[k] == '0'
  {
    var i := from;
    while i < 8
      invariant from <= i <= 8 && Holds(buf, 8, s)
      invariant forall k | from <= k < i :: buf[k] == '0'
    {
      buf[i] := '0';
      i := i + 1;
    }
  }

  /** %#x: the numeral is written at index 8, zeros between its length and 8, and printing
      starts at its length; so there are always exactly eight digits. */
  method AlternateHex(value: Uint32) returns (out: string)
    ensures |out| == 8 && (forall k | 0 <= k < 8 :: DigitOf(out[k]) < 16) && Value(out, 16) == value
  {
    hide Value, Numeral, DigitOf, Holds;
    PaddedValue(value);
    ghost var numeral := Numeral(value, 16);
    var convBuf := new char[64];
    Itoa(value, convBuf, 8, 16);
    var startingIndex := Strlen(convBuf, 8, numeral);
    FillZeros(convBuf, startingIndex, numeral);
    PaddedHolds(convBuf, numeral);
    out := Puts(convBuf, startingIndex, Zeros(8 - |numeral|) + numeral);
  }

  lemma PaddedHolds(buf: array<char>, s: string)
    requires |s| <= 8 && Holds(buf, 8, s) && forall k | |s| <= k < 8 :: buf[k] == '0'
    ensures Holds(buf, |s|, Zeros(8 - |s|) + s)
  {
    var padded := Zeros(8 - |s|) + s;
    forall j | |s| <= j < |s| + |padded|
      ensures buf[j] == padded[j - |s|] != NUL
    {
      if j >= 8 {
        assert padded[j - |s|] == s[j - 8];
      }
    }
  }
}
