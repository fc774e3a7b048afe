/** Base64 as in section 4 and section 5 of RFC 4648; strings are byte strings. */
module Base64 {
  import opened Domain

  datatype Alphabet = Alphabet(c62: char, c63: char)

  const STANDARD := Alphabet('+', '/')
  const URL_SAFE := Alphabet('-', '_')

  predicate IsBytes(s: string) {
    forall i | 0 <= i < |s| :: s[i] as int < 256
  }

  // The two characters beyond letters and digits.
  predicate Proper(a: Alphabet) {
    a == STANDARD || a == URL_SAFE
  }

  function Digit(a: Alphabet, v: nat): char
    requires v < 64
  {
    if v < 26 then ('A' as int + v) as char
    else if v < 52 then ('a' as int + v - 26) as char
    else if v < 62 then ('0' as int + v - 52) as char
    else if v == 62 then a.c62 else a.c63
  }

  function Value(a: Alphabet, c: char): (v: Option<nat>)
    ensures v.Some? ==> v.value < 64
  {
    if 'A' <= c <= 'Z' then Some(c as int - 'A' as int)
    else if 'a' <= c <= 'z' then Some(c as int - 'a' as int + 26)
    else if '0' <= c <= '9' then Some(c as int - '0' as int + 52)
    else if c == a.c62 then Some(62)
    else if c == a.c63 then Some(63)
    else None
  }

  lemma DigitValue(a: Alphabet, v: nat)
    requires Proper(a) && v < 64
    ensures Value(a, Digit(a, v)) == Some(v)
    ensures Digit(a, v) != '=' && Digit(a, v) != '\n' && Digit(a, v) != '\r' && Digit(a, v) != ' '
  {
  }

  // One group of up to three bytes.
  function Group(a: Alphabet, s: string): string
    requires IsBytes(s) && 1 <= |s| <= 3
  {
    var x := s[0] as int;
    var y := if |s| > 1 then s[1] as int else 0;
    var z := if |s| > 2 then s[2] as int else 0;
    var c0, c1 := Digit(a, x / 4), Digit(a, x % 4 * 16 + y / 16);
    var c2, c3 := Digit(a, y % 16 * 4 + z / 64), Digit(a, z % 64);
    if |s| == 1 then [c0, c1] else if |s| == 2 then [c0, c1, c2] else [c0, c1, c2, c3]
  }

  function Encode(a: Alphabet, s: string): string
    requires IsBytes(s)
    decreases |s|
  {
    if s == "" then "" else if |s| <= 3 then Group(a, s) else Group(a, s[..3]) + Encode(a, s[3..])
  }

  function Byte(n: nat): char
    requires n < 256
  {
    n as char
  }

  // The bytes of a group of two to four digits; a strict decoder wants the
  // unused bits to be zero.
  function Ungroup(a: Alphabet, s: string, strict: bool): Option<string>
    requires 2 <= |s| <= 4
  {
    var v0, v1 := Value(a, s[0]), Value(a, s[1]);
    var v2, v3 := if |s| > 2 then Value(a, s[2]) else Some(0), if |s| > 3 then Value(a, s[3]) else Some(0);
    if v0.None? || v1.None? || v2.None? || v3.None? then None
    else
      var x := Byte(v0.value * 4 + v1.value / 16);
      var y := Byte(v1.value % 16 * 16 + v2.value / 4);
      var z := Byte(v2.value % 4 * 64 + v3.value);
      if |s| == 4 then Some([x, y, z])
      else if |s| == 3 then if strict && z as int != 0 then None else Some([x, y])
      else if strict && y as int != 0 then None else Some([x])
  }

  function DecodeDigits(a: Alphabet, s: string, strict: bool): Option<string>
    decreases |s|
  {
    if s == "" then Some("")
    else if |s| == 1 then None
    else if |s| <= 4 then Ungroup(a, s, strict)
    else
      var first, rest := Ungroup(a, s[..4], strict), DecodeDigits(a, s[4..], strict);
      if first.None? || rest.None? then None else Some(first.value + rest.value)
  }

  // Line breaks are skipped wherever they stand.
  function NoBreaks(s: string): string
    decreases |s|
  {
    if s == "" then ""
    else if s[0] == '\n' || s[0] == '\r' then NoBreaks(s[1..])
    else [s[0]] + NoBreaks(s[1..])
  }

  function Decode(a: Alphabet, s: string, strict: bool): Option<string> {
    DecodeDigits(a, NoBreaks(s), strict)
  }

  // ---------------------------------------------------------- round trip

  lemma OneBack(a: Alphabet, s: string, strict: bool)
    requires Proper(a) && IsBytes(s) && |s| == 1
    ensures |Group(a, s)| == 2 && Ungroup(a, Group(a, s), strict) == Some(s) && Clean(a, Group(a, s))
  {
    var x := s[0] as int;
    DigitValue(a, x / 4);
    DigitValue(a, x % 4 * 16);
    Sextets(x, 0, 0);
    assert s == [s[0]];
  }

  lemma TwoBack(a: Alphabet, s: string, strict: bool)
    requires Proper(a) && IsBytes(s) && |s| == 2
    ensures |Group(a, s)| == 3 && Ungroup(a, Group(a, s), strict) == Some(s) && Clean(a, Group(a, s))
  {
    var x, y := s[0] as int, s[1] as int;
    DigitValue(a, x / 4);
    DigitValue(a, x % 4 * 16 + y / 16);
    DigitValue(a, y % 16 * 4);
    Sextets(x, y, 0);
    assert s == [s[0], s[1]];
  }

  lemma FourBack(a: Alphabet, v0: nat, v1: nat, v2: nat, v3: nat, s: string, strict: bool)
    requires Proper(a) && v0 < 64 && v1 < 64 && v2 < 64 && v3 < 64 && IsBytes(s) && |s| == 3
    requires v0 * 4 + v1 / 16 == s[0] as int && v1 % 16 * 16 + v2 / 4 == s[1] as int && v2 % 4 * 64 + v3 == s[2] as int
    ensures var e := [Digit(a, v0), Digit(a, v1), Digit(a, v2), Digit(a, v3)];
            Ungroup(a, e, strict) == Some(s) && Clean(a, e)
  {
    DigitValue(a, v0);
    DigitValue(a, v1);
    DigitValue(a, v2);
    DigitValue(a, v3);
    assert s == [s[0], s[1], s[2]];
  }

  lemma ThreeBack(a: Alphabet, s: string, strict: bool)
    requires Proper(a) && IsBytes(s) && |s| == 3
    ensures |Group(a, s)| == 4 && Ungroup(a, Group(a, s), strict) == Some(s) && Clean(a, Group(a, s))
  {
    var x, y, z := s[0] as int, s[1] as int, s[2] as int;
    Sextets(x, y, z);
    var v0, v1, v2, v3 := x / 4, x % 4 * 16 + y / 16, y % 16 * 4 + z / 64, z % 64;
    assert Group(a, s) == [Digit(a, v0), Digit(a, v1), Digit(a, v2), Digit(a, v3)];
    FourBack(a, v0, v1, v2, v3, s, strict);
  }

  lemma GroupBack(a: Alphabet, s: string, strict: bool)
    requires Proper(a) && IsBytes(s) && 1 <= |s| <= 3
    ensures |Group(a, s)| == |s| + 1 && Ungroup(a, Group(a, s), strict) == Some(s) && Clean(a, Group(a, s))
  {
    if |s| == 1 { OneBack(a, s, strict); } else if |s| == 2 { TwoBack(a, s, strict); } else { ThreeBack(a, s, strict); }
  }

  lemma Sextets(x: nat, y: nat, z: nat)
    requires x < 256 && y < 256 && z < 256
    ensures x / 4 < 64 && x % 4 * 16 + y / 16 < 64 && y % 16 * 4 + z / 64 < 64 && z % 64 < 64
    ensures x / 4 * 4 + (x % 4 * 16 + y / 16) / 16 == x
    ensures (x % 4 * 16 + y / 16) % 16 * 16 + (y % 16 * 4 + z / 64) / 4 == y
    ensures (y % 16 * 4 + z / 64) % 4 * 64 + z % 64 == z
  {
  }

  // Nothing but digits of the alphabet.
  predicate Clean(a: Alphabet, s: string) {
    forall i | 0 <= i < |s| :: Value(a, s[i]).Some? && s[i] != '=' && s[i] != '\n' && s[i] != '\r' && s[i] != ' '
  }

  lemma {:induction false} CleanStays(a: Alphabet, s: string)
    requires Clean(a, s)
    ensures NoBreaks(s) == s
    decreases |s|
  {
    if s != "" { CleanStays(a, s[1..]); }
  }

  lemma JoinBack(a: Alphabet, head: string, tail: string, first: string, rest: string, strict: bool)
    requires |head| == 4 && tail != "" && Clean(a, head) && Clean(a, tail) && |tail| % 4 != 1
    requires Ungroup(a, head, strict) == Some(first) && DecodeDigits(a, tail, strict) == Some(rest)
    ensures DecodeDigits(a, head + tail, strict) == Some(first + rest)
    ensures Clean(a, head + tail) && |head + tail| % 4 != 1
  {
    assert (head + tail)[..4] == head && (head + tail)[4..] == tail;
  }

  lemma ShortBack(a: Alphabet, s: string, strict: bool)
    requires Proper(a) && IsBytes(s) && 1 <= |s| <= 3
    ensures var e := Encode(a, s);
            DecodeDigits(a, e, strict) == Some(s) && Clean(a, e) && |e| % 4 != 1 && e != ""
  {
    GroupBack(a, s, strict);
  }

  lemma {:induction false} DigitsBack(a: Alphabet, s: string, strict: bool)
    requires Proper(a) && IsBytes(s)
    ensures var e := Encode(a, s);
            DecodeDigits(a, e, strict) == Some(s) && Clean(a, e) && |e| % 4 != 1 && (e == "" <==> s == "")
    decreases |s|
  {
    if s != "" && |s| <= 3 {
      ShortBack(a, s, strict);
    } else if s != "" {
      GroupBack(a, s[..3], strict);
      DigitsBack(a, s[3..], strict);
      JoinBack(a, Group(a, s[..3]), Encode(a, s[3..]), s[..3], s[3..], strict);
      assert s[..3] + s[3..] == s;
    }
  }

  // Decoding what was encoded gives it back, strictly or not.
  lemma RoundTrip(a: Alphabet, s: string, strict: bool)
    requires Proper(a) && IsBytes(s)
    ensures Decode(a, Encode(a, s), strict) == Some(s)
  {
    DigitsBack(a, s, strict);
    CleanStays(a, Encode(a, s));
  }

  // --------------------------------------------------------------- padding

  function Padding(n: nat): string {
    if n % 4 == 2 then "==" else if n % 4 == 3 then "=" else ""
  }

  function EncodePadded(a: Alphabet, s: string): string
    requires IsBytes(s)
  {
    Encode(a, s) + Padding(|Encode(a, s)|)
  }

  function Pads(s: string): nat {
    if s == "" || s[|s| - 1] != '=' then 0
    else if |s| == 1 || s[|s| - 2] != '=' then 1 else 2
  }

  // The padded form has whole groups of four.
  function DecodePadded(a: Alphabet, s: string, strict: bool): Option<string> {
    if |s| % 4 != 0 || Pads(s) > |s| then None else DecodeDigits(a, s[..|s| - Pads(s)], strict)
  }

  lemma PadsAre(a: Alphabet, raw: string)
    requires Clean(a, raw) && |raw| % 4 != 1
    ensures Pads(raw + Padding(|raw|)) == |Padding(|raw|)| && (|raw| + |Padding(|raw|)|) % 4 == 0
  {
  }

  lemma PaddedDecodes(a: Alphabet, raw: string, strict: bool)
    requires Clean(a, raw) && |raw| % 4 != 1
    ensures DecodePadded(a, raw + Padding(|raw|), strict) == DecodeDigits(a, raw, strict)
  {
    PadsAre(a, raw);
    assert (raw + Padding(|raw|))[..|raw|] == raw;
  }

  lemma PaddedBack(a: Alphabet, s: string)
    requires Proper(a) && IsBytes(s)
    ensures DecodePadded(a, EncodePadded(a, s), true) == Some(s)
  {
    DigitsBack(a, s, true);
    PaddedDecodes(a, Encode(a, s), true);
  }

  lemma GroupLength(a: Alphabet, s: string)
    requires IsBytes(s) && 1 <= |s| <= 3
    ensures |Group(a, s)| == |s| + 1
  {
  }

  lemma JoinLength(a: Alphabet, s: string)
    requires IsBytes(s) && |s| > 3
    ensures |Encode(a, s)| == 4 + |Encode(a, s[3..])|
  {
    GroupLength(a, s[..3]);
  }

  lemma {:induction false} LengthOf(a: Alphabet, s: string)
    requires IsBytes(s)
    ensures |Encode(a, s)| == if |s| % 3 == 0 then |s| / 3 * 4 else |s| / 3 * 4 + |s| % 3 + 1
    decreases |s|
  {
    if |s| > 3 {
      JoinLength(a, s);
      LengthOf(a, s[3..]);
    } else if s != "" {
      GroupLength(a, s);
    }
  }

  // Whole groups of four for every three bytes begun.
  lemma PaddedLength(a: Alphabet, s: string)
    requires IsBytes(s)
    ensures |EncodePadded(a, s)| <= |s| / 3 * 4 + 4
  {
    LengthOf(a, s);
    assert |EncodePadded(a, s)| == |Encode(a, s)| + |Padding(|Encode(a, s)|)|;
    if |s| % 3 == 1 {
      assert |Encode(a, s)| == |s| / 3 * 4 + 2;
    } else if |s| % 3 == 2 {
      assert |Encode(a, s)| == |s| / 3 * 4 + 3;
    }
  }
}

/** Decimal notation of 64-bit integers. */
module Decimal {
  import opened Domain

  const MIN64: int := -0x8000_0000_0000_0000
  const MAX64: int := 0x7FFF_FFFF_FFFF_FFFF

  predicate In64(n: int) {
    MIN64 <= n <= MAX64
  }

  // Conversion to 64 bits wraps around.
  function Wrap64(n: int): int {
    (n - MIN64) % 0x1_0000_0000_0000_0000 + MIN64
  }

  lemma WrapKeeps(n: int)
    ensures In64(Wrap64(n)) && (Wrap64(n) == n <==> In64(n))
  {
  }

  function Digits(n: nat): string {
    if n < 10 then [(n + '0' as int) as char] else Digits(n / 10) + [(n % 10 + '0' as int) as char]
  }

  function Format(n: int): string {
    if n < 0 then "-" + Digits(-n) else Digits(n)
  }

  predicate AllDigits(s: string) {
    forall i | 0 <= i < |s| :: '0' <= s[i] <= '9'
  }

  function Number(s: string): nat
    requires AllDigits(s)
    decreases |s|
  {
    if s == "" then 0 else Number(s[..|s| - 1]) * 10 + (s[|s| - 1] as int - '0' as int)
  }

  // Base ten with an optional sign; what does not fit 64 bits is refused.
  function Parse(s: string): Option<int> {
    var signed := s != "" && (s[0] == '-' || s[0] == '+');
    var digits := if signed then s[1..] else s;
    if digits == "" || !AllDigits(digits) then None
    else
      var n: int := if signed && s[0] == '-' then 0 - Number(digits) else Number(digits);
      if In64(n) then Some(n) else None
  }

  lemma {:induction false} DigitsNumber(n: nat)
    ensures Digits(n) != "" && AllDigits(Digits(n)) && Number(Digits(n)) == n
  {
    if n < 10 {
      assert Digits(n)[..0] == "";
    } else {
      DigitsNumber(n / 10);
      var s := Digits(n);
      assert s[..|s| - 1] == Digits(n / 10);
    }
  }

  lemma ParsesNumber(d: string)
    requires d != "" && AllDigits(d)
    ensures Parse(d) == if In64(Number(d)) then Some(Number(d)) else None
  {
    assert '0' <= d[0] <= '9';
  }

  lemma ParsesNegative(d: string)
    requires d != "" && AllDigits(d)
    ensures Parse("-" + d) == if In64(0 - Number(d)) then Some(0 - Number(d)) else None
    ensures ("-" + d)[0] == '-' && ("-" + d)[1..] == d
  {
    assert ("-" + d)[1..] == d;
  }

  lemma FormatParses(n: int)
    ensures Parse(Format(n)) == if In64(n) then Some(n) else None
    ensures AllDigits(Format(n)) || (Format(n) != "" && Format(n)[0] == '-' && AllDigits(Format(n)[1..]))
  {
    if n < 0 {
      DigitsNumber(-n);
      ParsesNegative(Digits(-n));
    } else {
      DigitsNumber(n);
      ParsesNumber(Digits(n));
    }
  }
}
