/** RAD50 names (rad50.cpp): six characters in two 16-bit halves. */
module Rad50 {

  const COUNT := 6

  /** The character for each of the 40 codes. */
  const CHARS := " ABCDEFGHIJKLMNOPQRSTUVWXYZ$.%0123456789"

  function CharToIndex(c: char): (i: nat)
    ensures i < 40
  {
    if 'A' <= c <= 'Z' then c as nat - 'A' as nat + 1
    else if 'a' <= c <= 'z' then c as nat - 'a' as nat + 1
    else if '0' <= c <= '9' then c as nat - '0' as nat + 30
    else if c == '$' then 27
    else if c == '.' then 28
    else if c == '%' then 29
    else 0
  }

  /** The code of the character at a position of a name that is filled up with spaces. */
  function At(s: string, ii: nat): char { if ii < |s| then s[ii] else ' ' }
  function Code(s: string, ii: nat): (i: nat)
    ensures i < 40
  {
    CharToIndex(At(s, ii))
  }

  /** The number that n characters make to the base 40. */
  function Number(s: string, from: nat, n: nat): nat {
    if n == 0 then 0 else Number(s, from, n - 1) * 40 + Code(s, from + n - 1)
  }

  /** The two halves of a name. */
  datatype Name = Name(low: nat, high: nat)

  function Encoded(s: string): Name { Name(Number(s, 0, 3), Number(s, 3, 3)) }

  /** v without its last n digits to the base 40. */
  function Shifted(v: nat, n: nat): nat { if n == 0 then v else Shifted(v, n - 1) / 40 }

  function Digit(v: nat, n: nat): (i: nat)
    ensures i < 40
  {
    Shifted(v, n) % 40
  }

  function Chars(v: nat): (s: string)
    ensures |s| == 3
  {
    [CHARS[Digit(v, 2)], CHARS[Digit(v, 1)], CHARS[Digit(v, 0)]]
  }

  function Decoded(r: Name): (s: string)
    ensures |s| == COUNT
  {
    Chars(r.low) + Chars(r.high)
  }

  /** What a name keeps of a character: upper case, and a space for all that RAD50 does not know. */
  function Normal(c: char): char {
    if 'a' <= c <= 'z' then (c as nat - 'a' as nat + 'A' as nat) as char
    else if 'A' <= c <= 'Z' || '0' <= c <= '9' || c == '$' || c == '.' || c == '%' then c
    else ' '
  }

  function NormalHalf(s: string, from: nat): (r: string)
    ensures |r| == COUNT / 2
  {
    [Normal(At(s, from)), Normal(At(s, from + 1)), Normal(At(s, from + 2))]
  }

  function Normalised(s: string): (r: string)
    ensures |r| == COUNT
  {
    NormalHalf(s, 0) + NormalHalf(s, 3)
  }

  // ---- The loops ----

  lemma {:induction false} NumberBound(s: string, from: nat, n: nat)
    requires n <= 3
    ensures Number(s, from, n) < 64000
    ensures n < 3 ==> Number(s, from, n) < 1600
    ensures n < 2 ==> Number(s, from, n) < 40
  {
    if n > 0 { NumberBound(s, from, n - 1); }
  }

  /** One step of an accumulator of type uint16_t: it never overflows. */
  lemma NoOverflow(s: string, from: nat, n: nat)
    requires n < 3
    ensures (Number(s, from, n) * 40 % 0x1_0000 + Code(s, from + n)) % 0x1_0000 == Number(s, from, n + 1)
  {
    NumberBound(s, from, n);
    NumberBound(s, from, n + 1);
  }

  /** ator, with its 16-bit accumulators. */
  method Ator(s: string) returns (r: nat)
    ensures r == Encoded(s).high * 0x1_0000 + Encoded(s).low && r < 0x1_0000_0000
  {
    var v1, v2 := 0, 0;
    var ii := 0;
    while ii < COUNT
      invariant 0 <= ii <= COUNT
      invariant v1 == Number(s, 0, if ii < 3 then ii else 3)
      invariant v2 == Number(s, 3, if ii < 3 then 0 else ii - 3)
    {
      var c := At(s, ii);
      if ii < COUNT / 2 {
        NoOverflow(s, 0, ii);
        v1 := v1 * 40 % 0x1_0000;
        v1 := (v1 + CharToIndex(c)) % 0x1_0000;
      } else {
        NoOverflow(s, 3, ii - 3);
        v2 := v2 * 40 % 0x1_0000;
        v2 := (v2 + CharToIndex(c)) % 0x1_0000;
      }
      ii := ii + 1;
    }
    NumberBound(s, 0, 3);
    NumberBound(s, 3, 3);
    r := v2 * 0x1_0000 + v1;
  }

  /** rtoa, into a buffer for six characters and the zero behind them. */
  method Rtoa(low: nat, high: nat, s: array<char>)
    requires s.Length >= COUNT + 1
    modifies s
    ensures s[..COUNT] == Decoded(Name(low, high)) && s[COUNT] == 0 as char
  {
    var v1, v2 := low, high;
    ghost var t := Decoded(Name(low, high));
    var ii := 0;
    while ii < COUNT / 2
      invariant 0 <= ii <= 3 && v1 == Shifted(low, ii) && v2 == Shifted(high, ii)
      invariant forall k {:trigger s[k]} :: 3 - ii <= k < 3 || 6 - ii <= k < 6 ==> s[k] == t[k]
    {
      Shown(low, high, ii);
      s[COUNT / 2 - ii - 1] := CHARS[v1 % 40];
      v1 := v1 / 40;
      s[COUNT - ii - 1] := CHARS[v2 % 40];
      v2 := v2 / 40;
      ii := ii + 1;
    }
    s[COUNT] := 0 as char;
  }

  lemma Shown(low: nat, high: nat, ii: nat)
    requires ii < 3
    ensures Decoded(Name(low, high))[2 - ii] == CHARS[Shifted(low, ii) % 40]
    ensures Decoded(Name(low, high))[5 - ii] == CHARS[Shifted(high, ii) % 40]
  {}

  // ---- Round trips ----

  lemma CharRoundTrip(c: char)
    ensures CHARS[CharToIndex(c)] == Normal(c)
  {}

  lemma IndexRoundTrip(i: nat)
    requires i < 40
    ensures CharToIndex(CHARS[i]) == i
  {}

  lemma LastDigit(q: nat, d: nat)
    requires d < 40
    ensures (q * 40 + d) % 40 == d && (q * 40 + d) / 40 == q
  {}

  /** The digits of the number that three characters make are their codes. */
  lemma NumberDigits(s: string, from: nat)
    ensures var v := Number(s, from, 3);
            Digit(v, 0) == Code(s, from + 2) && Digit(v, 1) == Code(s, from + 1) && Digit(v, 2) == Code(s, from)
  {
    var v, a, b, c := Number(s, from, 3), Code(s, from), Code(s, from + 1), Code(s, from + 2);
    assert Number(s, from, 1) == a;
    assert Number(s, from, 2) == a * 40 + b;
    assert v == (a * 40 + b) * 40 + c;
    LastDigit(a * 40 + b, c);
    LastDigit(a, b);
    assert Shifted(v, 1) == a * 40 + b;
    assert Shifted(v, 2) == a;
  }

  /** Decoding what was encoded gives the name in upper case, with a space for every character RAD50
      does not know, filled up or cut to six. */
  lemma DecodeEncoded(s: string)
    ensures Decoded(Encoded(s)) == Normalised(s)
  {
    HalfDecoded(s, 0);
    HalfDecoded(s, 3);
  }

  lemma HalfDecoded(s: string, from: nat)
    ensures Chars(Number(s, from, 3)) == NormalHalf(s, from)
  {
    NumberDigits(s, from);
    CharRoundTrip(At(s, from));
    CharRoundTrip(At(s, from + 1));
    CharRoundTrip(At(s, from + 2));
  }

  lemma RemainderOf(q: nat, r: nat)
    requires r < 64000
    ensures (64000 * q + r) % 64000 == r
  {}

  lemma QuotientRemainder(v: nat)
    ensures v == v / 40 * 40 + v % 40
  {}

  /** Three digits are all that is left of a number modulo 64000. */
  lemma DigitsNumber(v: nat)
    ensures (Digit(v, 2) * 40 + Digit(v, 1)) * 40 + Digit(v, 0) == v % 64000
  {
    var v1 := v / 40;
    var v2 := v1 / 40;
    var q := v2 / 40;
    assert Shifted(v, 1) == v1 && Shifted(v, 2) == v2;
    QuotientRemainder(v);
    QuotientRemainder(v1);
    QuotientRemainder(v2);
    RemainderOf(q, (v2 % 40 * 40 + v1 % 40) * 40 + v % 40);
  }

  lemma NumberOfChars(v: nat, s: string, from: nat)
    requires from + 3 <= |s| && s[from..from + 3] == Chars(v)
    ensures Number(s, from, 3) == v % 64000
  {
    assert s[from] == s[from..from + 3][0] && s[from + 1] == s[from..from + 3][1]
        && s[from + 2] == s[from..from + 3][2];
    IndexRoundTrip(Digit(v, 0));
    IndexRoundTrip(Digit(v, 1));
    IndexRoundTrip(Digit(v, 2));
    assert Number(s, from, 1) == Digit(v, 2);
    assert Number(s, from, 2) == Digit(v, 2) * 40 + Digit(v, 1);
    DigitsNumber(v);
  }

  lemma Halves(a: string, b: string)
    requires |a| == 3 && |b| == 3
    ensures (a + b)[0..3] == a && (a + b)[3..6] == b
  {}

  lemma Unreduced(v: nat)
    ensures v % 64000 == v <==> v < 64000
  {}

  /** Encoding what was decoded reduces each half modulo 64000; so the name comes back exactly if both
      halves are below that. */
  lemma EncodeDecoded(r: Name)
    ensures Encoded(Decoded(r)) == Name(r.low % 64000, r.high % 64000)
    ensures Encoded(Decoded(r)) == r <==> r.low < 64000 && r.high < 64000
  {
    var s := Decoded(r);
    Halves(Chars(r.low), Chars(r.high));
    Unreduced(r.low);
    Unreduced(r.high);
    NumberOfChars(r.low, s, 0);
    NumberOfChars(r.high, s, 3);
  }

  /** Two names have the same code exactly if they are the same once normalised. */
  lemma SameCodeSameName(s: string, t: string)
    ensures Encoded(s) == Encoded(t) <==> Normalised(s) == Normalised(t)
  {
    DecodeEncoded(s);
    DecodeEncoded(t);
    if Normalised(s) == Normalised(t) {
      NormalisedCodes(s);
      NormalisedCodes(t);
    }
  }

  lemma NormalisedCodes(s: string)
    ensures Encoded(Normalised(s)) == Encoded(s)
  {
    var n := Normalised(s);
    NormalCode(At(s, 0));
    NormalCode(At(s, 1));
    NormalCode(At(s, 2));
    NormalCode(At(s, 3));
    NormalCode(At(s, 4));
    NormalCode(At(s, 5));
    SameNumber(n, s, 0);
    SameNumber(n, s, 3);
  }

  lemma NormalCode(c: char)
    ensures CharToIndex(Normal(c)) == CharToIndex(c)
  {}

  lemma SameNumber(s: string, t: string, from: nat)
    requires Code(s, from) == Code(t, from) && Code(s, from + 1) == Code(t, from + 1)
             && Code(s, from + 2) == Code(t, from + 2)
    ensures Number(s, from, 3) == Number(t, from, 3)
  {
    assert Number(s, from, 1) == Number(t, from, 1);
    assert Number(s, from, 2) == Number(t, from, 2);
  }

  // ---- Names for clients without one ----

  function DecimalDigit(d: nat): char
    requires d < 10
  {
    (d + '0' as nat) as char
  }

  /** sprintf("%%%05d", port) */
  function PortText(port: nat): (s: string)
    requires port < 0x1_0000
    ensures |s| == COUNT
  {
    ['%', DecimalDigit(port / 10000), DecimalDigit(port / 1000 % 10), DecimalDigit(port / 100 % 10),
     DecimalDigit(port / 10 % 10), DecimalDigit(port % 10)]
  }

  function Packed(r: Name): nat { r.high * 0x1_0000 + r.low }

  /** Clients without a name get different names on different data ports. */
  lemma PortNamesDiffer(p: nat, q: nat)
    requires p < 0x1_0000 && q < 0x1_0000 && Packed(Encoded(PortText(p))) == Packed(Encoded(PortText(q)))
    ensures p == q
  {
    var s, t := PortText(p), PortText(q);
    NumberBound(s, 0, 3);
    NumberBound(t, 0, 3);
    SameCodeSameName(s, t);
    assert Normalised(s) == s && Normalised(t) == t;
    SameDigits(p, q);
  }

  lemma SameDigits(p: nat, q: nat)
    requires p < 0x1_0000 && q < 0x1_0000 && PortText(p) == PortText(q)
    ensures p == q
  {
    var s, t := PortText(p), PortText(q);
    assert s[1] == t[1] && s[2] == t[2] && s[3] == t[3] && s[4] == t[4] && s[5] == t[5];
    Decimals(p);
    Decimals(q);
  }

  lemma Decimals(p: nat)
    ensures p == p / 10000 * 10000 + p / 1000 % 10 * 1000 + p / 100 % 10 * 100 + p / 10 % 10 * 10 + p % 10
  {
    assert p / 100 == p / 10 / 10 && p / 1000 == p / 100 / 10 && p / 10000 == p / 1000 / 10;
  }
}
