/** Text helpers of Go's standard library: trimming, hex, UTF-8 and searching.

    A string is a sequence of code points; where Go counts bytes, `Utf8` says how many there are.
  */
module Text {
  import opened Wrappers

  type byte = x: int | 0 <= x < 256

  // ----- white space

  predicate IsSpace(c: char) {
    var v := c as int;
    9 <= v <= 13 || v == 32 || v == 0x85 || v == 0xA0 || v == 0x1680 || 0x2000 <= v <= 0x200A
    || v == 0x2028 || v == 0x2029 || v == 0x202F || v == 0x205F || v == 0x3000
  }

  function TrimLeft(s: string): string {
    if s != [] && IsSpace(s[0]) then TrimLeft(s[1..]) else s
  }

  function TrimRight(s: string): string {
    if s != [] && IsSpace(s[|s| - 1]) then TrimRight(s[..|s| - 1]) else s
  }

  function TrimSpace(s: string): string {
    TrimRight(TrimLeft(s))
  }

  /** No white space at either end. */
  predicate Trimmed(s: string) {
    s != [] ==> !IsSpace(s[0]) && !IsSpace(s[|s| - 1])
  }

  lemma {:induction false} TrimRightEnds(s: string)
    ensures TrimRight(s) <= s
    ensures TrimRight(s) != [] ==> !IsSpace(TrimRight(s)[|TrimRight(s)| - 1])
    decreases |s|
  {
    if s != [] && IsSpace(s[|s| - 1]) {
      TrimRightEnds(s[..|s| - 1]);
    }
  }

  lemma {:induction false} TrimLeftEnds(s: string)
    ensures TrimLeft(s) != [] ==> !IsSpace(TrimLeft(s)[0])
    ensures forall c :: c in TrimLeft(s) ==> c in s
    decreases |s|
  {
    if s != [] && IsSpace(s[0]) {
      TrimLeftEnds(s[1..]);
    }
  }

  lemma TrimSpaceTrims(s: string)
    ensures Trimmed(TrimSpace(s))
    ensures forall c :: c in TrimSpace(s) ==> c in s
    ensures Trimmed(s) ==> TrimSpace(s) == s
  {
    TrimLeftEnds(s);
    TrimRightEnds(TrimLeft(s));
  }

  lemma TrimSpaceIdempotent(s: string)
    ensures TrimSpace(TrimSpace(s)) == TrimSpace(s)
  {
    TrimSpaceTrims(s);
    TrimSpaceTrims(TrimSpace(s));
  }

  /** Trimming takes away white space at the ends and nothing else. */
  lemma TrimSpaceTakesSpaces(s: string) returns (left: string, right: string)
    ensures s == left + TrimSpace(s) + right
    ensures forall c :: c in left || c in right ==> IsSpace(c)
  {
    left := TrimmedLeft(s);
    right := TrimmedRight(TrimLeft(s));
  }

  lemma {:induction false} TrimmedLeft(s: string) returns (left: string)
    ensures s == left + TrimLeft(s)
    ensures forall c :: c in left ==> IsSpace(c)
    decreases |s|
  {
    if s != [] && IsSpace(s[0]) {
      var rest := TrimmedLeft(s[1..]);
      left := [s[0]] + rest;
      assert s == [s[0]] + s[1..];
    } else {
      left := [];
    }
  }

  lemma {:induction false} TrimmedRight(s: string) returns (right: string)
    ensures s == TrimRight(s) + right
    ensures forall c :: c in right ==> IsSpace(c)
    decreases |s|
  {
    if s != [] && IsSpace(s[|s| - 1]) {
      var rest := TrimmedRight(s[..|s| - 1]);
      right := rest + [s[|s| - 1]];
      assert s == s[..|s| - 1] + [s[|s| - 1]];
    } else {
      right := [];
    }
  }

  /** The white space of ASCII and Latin-1, as `unicode.IsSpace` has it. */
  lemma KnownSpaces(c: char)
    ensures c <= '\U{FF}' ==>
              (IsSpace(c) <==> c in {'\t', '\n', '\U{0B}', '\U{0C}', '\r', ' ', '\U{85}', '\U{A0}'})
  {
  }

  // ----- hexadecimal

  predicate IsHexDigit(c: char) {
    '0' <= c <= '9' || 'a' <= c <= 'f' || 'A' <= c <= 'F'
  }

  function HexValue(c: char): (v: int)
    requires IsHexDigit(c)
    ensures 0 <= v < 16
  {
    if '0' <= c <= '9' then c as int - '0' as int
    else if 'a' <= c <= 'f' then c as int - 'a' as int + 10
    else c as int - 'A' as int + 10
  }

  function HexDigit(v: int): (c: char)
    requires 0 <= v < 16
    ensures IsHexDigit(c) && HexValue(c) == v
  {
    if v < 10 then ('0' as int + v) as char else ('a' as int + v - 10) as char
  }

  function EncodeHex(bytes: seq<byte>): string {
    if bytes == [] then [] else [HexDigit(bytes[0] / 16), HexDigit(bytes[0] % 16)] + EncodeHex(bytes[1..])
  }

  /** Rejects an odd number of digits and anything that is not a digit. */
  function DecodeHex(s: string): Option<seq<byte>> {
    if s == [] then Some([])
    else if |s| == 1 || !IsHexDigit(s[0]) || !IsHexDigit(s[1]) then None
    else match DecodeHex(s[2..])
      case None => None
      case Some(rest) => Some([HexValue(s[0]) * 16 + HexValue(s[1])] + rest)
  }

  lemma {:induction false} HexRoundTrip(bytes: seq<byte>)
    ensures DecodeHex(EncodeHex(bytes)) == Some(bytes)
  {
    if bytes != [] {
      HexRoundTrip(bytes[1..]);
      var s := EncodeHex(bytes);
      assert s[2..] == EncodeHex(bytes[1..]);
      assert bytes == [bytes[0]] + bytes[1..];
    }
  }

  lemma DecodePair(high: char, low: char)
    requires IsHexDigit(high) && IsHexDigit(low)
    ensures DecodeHex([high, low]) == Some([HexValue(high) * 16 + HexValue(low)])
  {
    var s := [high, low];
    assert s[2..] == [];
    assert DecodeHex(s[2..]) == Some([]);
    var value: seq<byte> := [HexValue(high) * 16 + HexValue(low)];
    assert value + [] == value;
  }

  lemma KnownHex()
    ensures DecodeHex("0f") == Some([15]) && DecodeHex("aB") == Some([171]) && EncodeHex([171]) == "ab"
  {
    DecodePair('0', 'f');
    DecodePair('a', 'B');
    assert EncodeHex([171]) == [HexDigit(10), HexDigit(11)] + EncodeHex([171][1..]);
  }

  lemma {:induction false} EncodeHexConcat(a: seq<byte>, b: seq<byte>)
    ensures EncodeHex(a + b) == EncodeHex(a) + EncodeHex(b)
  {
    if a == [] {
      assert a + b == b;
    } else {
      EncodeHexConcat(a[1..], b);
      assert (a + b)[1..] == a[1..] + b && (a + b)[0] == a[0];
      var head := [HexDigit(a[0] / 16), HexDigit(a[0] % 16)];
      assert EncodeHex(a + b) == head + (EncodeHex(a[1..]) + EncodeHex(b));
      assert EncodeHex(a) == head + EncodeHex(a[1..]);
    }
  }

  /** Encoded text has digits only, so it is trimmed and never starts with a prefix. */
  lemma {:induction false} EncodeHexShape(bytes: seq<byte>)
    ensures |EncodeHex(bytes)| == 2 * |bytes|
    ensures forall c :: c in EncodeHex(bytes) ==> IsHexDigit(c)
    ensures Trimmed(EncodeHex(bytes))
  {
    if bytes != [] {
      EncodeHexShape(bytes[1..]);
    }
    var s := EncodeHex(bytes);
    assert s != [] ==> s[0] in s && s[|s| - 1] in s;
  }

  lemma {:induction false} DecodableIsDigits(s: string)
    requires DecodeHex(s).Some?
    ensures forall c :: c in s ==> IsHexDigit(c)
  {
    if s != [] {
      DecodableIsDigits(s[2..]);
      assert s == [s[0], s[1]] + s[2..];
    }
  }

  // ----- lower case

  /** What the model needs of Unicode lower-casing: it is right on ASCII, nothing maps to an ASCII
      capital, and it works letter by letter. */
  ghost predicate LowersAscii(lower: char -> char) {
    && (forall c :: c < '\U{80}' ==> lower(c) == if 'A' <= c <= 'Z' then (c as int + 32) as char else c)
    && (forall c :: !('A' <= lower(c) <= 'Z'))
  }

  function ToLower(lower: char -> char, s: string): string {
    seq(|s|, i requires 0 <= i < |s| => lower(s[i]))
  }

  lemma {:induction false} HexIgnoresCase(lower: char -> char, s: string, t: string)
    requires LowersAscii(lower)
    requires ToLower(lower, s) == ToLower(lower, t)
    requires DecodeHex(s).Some? && DecodeHex(t).Some?
    ensures DecodeHex(s) == DecodeHex(t)
  {
    assert |s| == |ToLower(lower, s)| == |t|;
    if s != [] {
      assert ToLower(lower, s)[0] == ToLower(lower, t)[0] && ToLower(lower, s)[1] == ToLower(lower, t)[1];
      SameDigit(lower, s[0], t[0]);
      SameDigit(lower, s[1], t[1]);
      assert ToLower(lower, s[2..]) == ToLower(lower, s)[2..] == ToLower(lower, t[2..]);
      HexIgnoresCase(lower, s[2..], t[2..]);
    }
  }

  lemma SameDigit(lower: char -> char, a: char, b: char)
    requires LowersAscii(lower) && IsHexDigit(a) && IsHexDigit(b) && lower(a) == lower(b)
    ensures HexValue(a) == HexValue(b)
  {
  }

  /** Lower-casing digits gives the text their bytes are encoded as. */
  lemma {:induction false} LowerIsEncoding(lower: char -> char, s: string)
    requires LowersAscii(lower)
    requires DecodeHex(s).Some?
    ensures ToLower(lower, s) == EncodeHex(DecodeHex(s).value)
  {
    hide LowersAscii, EncodeHex, ToLower, HexValue, HexDigit, IsHexDigit;
    if s == [] {
      EncodeNothing(lower);
    } else {
      LowerIsEncoding(lower, s[2..]);
      LowerDigit(lower, s[0]);
      LowerDigit(lower, s[1]);
      EncodeByte(HexValue(s[0]), HexValue(s[1]), DecodeHex(s[2..]).value);
      LowerPair(lower, s);
    }
  }

  lemma EncodeNothing(lower: char -> char)
    ensures ToLower(lower, []) == EncodeHex([])
  {
  }

  lemma EncodeByte(high: int, low: int, rest: seq<byte>)
    requires 0 <= high < 16 && 0 <= low < 16
    ensures EncodeHex([high * 16 + low] + rest) == [HexDigit(high), HexDigit(low)] + EncodeHex(rest)
  {
    var bytes := [high * 16 + low] + rest;
    assert bytes[1..] == rest && bytes[0] / 16 == high && bytes[0] % 16 == low;
  }

  lemma LowerPair(lower: char -> char, s: string)
    requires |s| >= 2
    ensures ToLower(lower, s) == [lower(s[0]), lower(s[1])] + ToLower(lower, s[2..])
  {
  }

  lemma LowerDigit(lower: char -> char, c: char)
    requires LowersAscii(lower) && IsHexDigit(c)
    ensures lower(c) == HexDigit(HexValue(c))
  {
  }

  lemma LowerConcat(lower: char -> char, s: string, t: string)
    ensures ToLower(lower, s + t) == ToLower(lower, s) + ToLower(lower, t)
  {
  }

  // ----- UTF-8 (RFC 3629)

  function EncodeRune(c: char): seq<byte> {
    var v := c as int;
    if v < 0x80 then [v]
    else if v < 0x800 then [0xC0 + v / 64, 0x80 + v % 64]
    else if v < 0x10000 then [0xE0 + v / 4096, 0x80 + v / 64 % 64, 0x80 + v % 64]
    else [0xF0 + v / 262144, 0x80 + v / 4096 % 64, 0x80 + v / 64 % 64, 0x80 + v % 64]
  }

  function Utf8(s: string): seq<byte> {
    if s == [] then [] else EncodeRune(s[0]) + Utf8(s[1..])
  }

  predicate IsContinuation(b: byte) {
    0x80 <= b < 0xC0
  }

  /** The six bits a continuation byte carries. */
  function Tail(b: byte): (v: int)
    requires IsContinuation(b)
    ensures 0 <= v < 64
  {
    b as int - 0x80
  }

  /** The first code point and its width, or nothing if the bytes do not start with a valid one. */
  function DecodeRune(b: seq<byte>): Option<(char, nat)>
    requires b != []
  {
    if b[0] < 0x80 then
      Some((b[0] as char, 1))
    else if 0xC2 <= b[0] < 0xE0 && |b| >= 2 && IsContinuation(b[1]) then
      Some((((b[0] as int - 0xC0) * 64 + Tail(b[1])) as char, 2))
    else if 0xE0 <= b[0] < 0xF0 && |b| >= 3 && IsContinuation(b[1]) && IsContinuation(b[2]) then
      var v := (b[0] as int - 0xE0) * 4096 + Tail(b[1]) * 64 + Tail(b[2]);
      if 0x800 <= v && !(0xD800 <= v < 0xE000) then Some((v as char, 3)) else None
    else if 0xF0 <= b[0] < 0xF5 && |b| >= 4 && IsContinuation(b[1]) && IsContinuation(b[2]) && IsContinuation(b[3]) then
      var v := (b[0] as int - 0xF0) * 262144 + Tail(b[1]) * 4096 + Tail(b[2]) * 64 + Tail(b[3]);
      if 0x10000 <= v < 0x110000 then Some((v as char, 4)) else None
    else
      None
  }

  function DecodeUtf8(b: seq<byte>): Option<string>
    decreases |b|
  {
    if b == [] then Some([])
    else match DecodeRune(b)
      case None => None
      case Some((c, n)) =>
        if n > |b| then None
        else match DecodeUtf8(b[n..])
          case None => None
          case Some(rest) => Some([c] + rest)
  }

  lemma TwoBytesBack(c: char, rest: seq<byte>)
    requires 0x80 <= c as int < 0x800
    ensures DecodeRune(EncodeRune(c) + rest) == Some((c, 2))
  {
    var v := c as int;
    assert v == (v / 64) * 64 + v % 64;
    var b := EncodeRune(c) + rest;
    assert b[0] == 0xC0 + v / 64 && b[1] == 0x80 + v % 64;
  }

  lemma ThreeBytesBack(c: char, rest: seq<byte>)
    requires 0x800 <= c as int < 0x10000
    ensures DecodeRune(EncodeRune(c) + rest) == Some((c, 3))
  {
    var v := c as int;
    assert v == (v / 4096) * 4096 + (v / 64 % 64) * 64 + v % 64;
    var b := EncodeRune(c) + rest;
    assert b[0] == 0xE0 + v / 4096 && b[1] == 0x80 + v / 64 % 64 && b[2] == 0x80 + v % 64;
  }

  lemma FourBytesBack(c: char, rest: seq<byte>)
    requires 0x10000 <= c as int
    ensures DecodeRune(EncodeRune(c) + rest) == Some((c, 4))
  {
    var v := c as int;
    assert v == (v / 262144) * 262144 + (v / 4096 % 64) * 4096 + (v / 64 % 64) * 64 + v % 64;
    var b := EncodeRune(c) + rest;
    assert b[0] == 0xF0 + v / 262144 && b[1] == 0x80 + v / 4096 % 64 && b[2] == 0x80 + v / 64 % 64 && b[3] == 0x80 + v % 64;
  }

  lemma RuneWidth(c: char)
    ensures |EncodeRune(c)| == (if c as int < 0x80 then 1 else if c as int < 0x800 then 2 else if c as int < 0x10000 then 3 else 4)
    ensures c != '\0' ==> 0 !in EncodeRune(c)
  {
  }

  lemma OneByteBack(c: char, rest: seq<byte>)
    requires c as int < 0x80
    ensures DecodeRune(EncodeRune(c) + rest) == Some((c, 1))
  {
  }

  lemma RuneRoundTrip(c: char, rest: seq<byte>)
    ensures DecodeRune(EncodeRune(c) + rest) == Some((c, |EncodeRune(c)|))
    ensures c != '\0' ==> 0 !in EncodeRune(c)
  {
    hide *;
    RuneWidth(c);
    var v := c as int;
    if v < 0x80 {
      OneByteBack(c, rest);
    } else if v < 0x800 {
      TwoBytesBack(c, rest);
    } else if v < 0x10000 {
      ThreeBytesBack(c, rest);
    } else {
      FourBytesBack(c, rest);
    }
  }

  lemma {:induction false} Utf8RoundTrip(s: string)
    ensures DecodeUtf8(Utf8(s)) == Some(s)
  {
    if s != [] {
      var head, rest := EncodeRune(s[0]), Utf8(s[1..]);
      RuneRoundTrip(s[0], rest);
      Utf8RoundTrip(s[1..]);
      assert (head + rest)[|head|..] == rest;
      assert s == [s[0]] + s[1..];
    }
  }

  lemma TwoBytes(b: seq<byte>)
    requires b != [] && DecodeRune(b).Some? && 0xC2 <= b[0] < 0xE0
    ensures var (c, n) := DecodeRune(b).value; n == 2 <= |b| && b[..2] == EncodeRune(c)
  {
    var c := DecodeRune(b).value.0;
    var v := (b[0] as int - 0xC0) * 64 + Tail(b[1]);
    assert c as int == v && v / 64 == b[0] as int - 0xC0 && v % 64 == Tail(b[1]);
  }

  lemma ThreeBytes(b: seq<byte>)
    requires b != [] && DecodeRune(b).Some? && 0xE0 <= b[0] < 0xF0
    ensures var (c, n) := DecodeRune(b).value; n == 3 <= |b| && b[..3] == EncodeRune(c)
  {
    var c := DecodeRune(b).value.0;
    var high := (b[0] as int - 0xE0) * 64 + Tail(b[1]);
    var v := high * 64 + Tail(b[2]);
    assert c as int == v && v / 64 == high && v % 64 == Tail(b[2]);
    assert v / 4096 == b[0] as int - 0xE0 && high % 64 == Tail(b[1]);
  }

  lemma FourBytes(b: seq<byte>)
    requires b != [] && DecodeRune(b).Some? && 0xF0 <= b[0]
    ensures var (c, n) := DecodeRune(b).value; n == 4 <= |b| && b[..4] == EncodeRune(c)
  {
    var c := DecodeRune(b).value.0;
    var top := (b[0] as int - 0xF0) * 64 + Tail(b[1]);
    var high := top * 64 + Tail(b[2]);
    var v := high * 64 + Tail(b[3]);
    assert c as int == v && v / 64 == high && v % 64 == Tail(b[3]);
    assert v / 4096 == top && high % 64 == Tail(b[2]);
    assert v / 262144 == b[0] as int - 0xF0 && top % 64 == Tail(b[1]);
  }

  lemma RuneIsEncoded(b: seq<byte>)
    requires b != [] && DecodeRune(b).Some?
    ensures var (c, n) := DecodeRune(b).value; 1 <= n <= |b| && b[..n] == EncodeRune(c)
  {
    if b[0] < 0x80 {
    } else if b[0] < 0xE0 {
      TwoBytes(b);
    } else if b[0] < 0xF0 {
      ThreeBytes(b);
    } else {
      FourBytes(b);
    }
  }

  /** Decoding accepts nothing but the encodings of texts: no overlong forms, no surrogates, no
      truncated sequences. */
  lemma {:induction false} Utf8Encodes(b: seq<byte>)
    requires DecodeUtf8(b).Some?
    ensures Utf8(DecodeUtf8(b).value) == b
    decreases |b|
  {
    if b != [] {
      hide EncodeRune, DecodeRune;
      RuneIsEncoded(b);
      var (c, n) := DecodeRune(b).value;
      Utf8Encodes(b[n..]);
      assert b == b[..n] + b[n..];
      assert ([c] + DecodeUtf8(b[n..]).value)[1..] == DecodeUtf8(b[n..]).value;
    }
  }

  /** One code point of each width (section 3 of RFC 3629). */
  lemma KnownRunes()
    ensures EncodeRune('A') == [0x41] && EncodeRune('\U{E9}') == [0xC3, 0xA9]
    ensures EncodeRune('\U{20AC}') == [0xE2, 0x82, 0xAC] && EncodeRune('\U{1F600}') == [0xF0, 0x9F, 0x98, 0x80]
  {
  }

  lemma {:induction false} Utf8NoZero(s: string)
    requires '\0' !in s
    ensures 0 !in Utf8(s)
  {
    if s != [] {
      RuneRoundTrip(s[0], []);
      Utf8NoZero(s[1..]);
    }
  }

  // ----- searching

  function Split(s: string, separator: char): (parts: seq<string>)
    ensures |parts| > 0
  {
    if s == [] then [[]]
    else
      var rest := Split(s[1..], separator);
      if s[0] == separator then [[]] + rest else [[s[0]] + rest[0]] + rest[1..]
  }

  function Join(parts: seq<string>, separator: char): string {
    if parts == [] then "" else if |parts| == 1 then parts[0] else parts[0] + [separator] + Join(parts[1..], separator)
  }

  ghost predicate Lacks(parts: seq<string>, separator: char) {
    forall i :: 0 <= i < |parts| ==> separator !in parts[i]
  }

  lemma {:induction false} SplitLacks(s: string, separator: char)
    ensures Lacks(Split(s, separator), separator)
  {
    if s != [] {
      SplitLacks(s[1..], separator);
    }
  }

  lemma {:induction false} SplitWhole(a: string, separator: char)
    requires separator !in a
    ensures Split(a, separator) == [a]
  {
    if a != [] {
      SplitWhole(a[1..], separator);
      assert a == [a[0]] + a[1..];
    }
  }

  lemma {:induction false} SplitFirst(a: string, separator: char, rest: string)
    requires separator !in a
    ensures Split(a + [separator] + rest, separator) == [a] + Split(rest, separator)
  {
    var s := a + [separator] + rest;
    if a == [] {
      assert s[1..] == rest;
    } else {
      SplitFirst(a[1..], separator, rest);
      assert s[1..] == a[1..] + [separator] + rest;
      assert a == [a[0]] + a[1..];
    }
  }

  lemma {:induction false} SplitInvertsJoin(parts: seq<string>, separator: char)
    requires parts != [] && Lacks(parts, separator)
    ensures Split(Join(parts, separator), separator) == parts
  {
    assert separator !in parts[0];
    if |parts| == 1 {
      SplitWhole(parts[0], separator);
    } else {
      SplitInvertsJoin(parts[1..], separator);
      SplitFirst(parts[0], separator, Join(parts[1..], separator));
    }
  }

  lemma {:induction false} JoinInvertsSplit(s: string, separator: char)
    ensures Join(Split(s, separator), separator) == s
  {
    if s != [] {
      JoinInvertsSplit(s[1..], separator);
      var rest := Split(s[1..], separator);
      assert s == [s[0]] + s[1..];
      if s[0] == separator {
        assert ([[]] + rest)[1..] == rest;
      } else {
        assert ([[s[0]] + rest[0]] + rest[1..])[1..] == rest[1..];
      }
    }
  }

  /** The least position of `pattern` in `s`, or |s| if there is none. */
  function IndexOf(s: string, pattern: string): (i: nat)
    ensures i <= |s|
    ensures i < |s| ==> pattern <= s[i..]
    ensures forall j :: 0 <= j < i ==> !(pattern <= s[j..])
    decreases |s|
  {
    if s == [] || pattern <= s then
      0
    else
      var k := IndexOf(s[1..], pattern);
      assert forall j :: 0 < j <= |s| ==> s[j..] == s[1..][j - 1..];
      k + 1
  }

  predicate Contains(s: string, pattern: string) {
    exists i :: 0 <= i <= |s| && pattern <= s[i..]
  }

  /** Lexicographic order of code points, which for UTF-8 is the order of the bytes. */
  predicate Before(a: string, b: string) {
    b != [] && (a == [] || a[0] < b[0] || (a[0] == b[0] && Before(a[1..], b[1..])))
  }

  lemma {:induction false} BeforeIsTotal(a: string, b: string)
    ensures a == b || Before(a, b) || Before(b, a)
    ensures !(Before(a, b) && Before(b, a))
    ensures !Before(a, a)
  {
    if a != [] && b != [] && a[0] == b[0] {
      BeforeIsTotal(a[1..], b[1..]);
      assert a[1..] == b[1..] ==> a == b;
    }
    if a != [] {
      BeforeIsTotal(a[1..], a[1..]);
    }
  }

  lemma {:induction false} BeforeIsTransitive(a: string, b: string, c: string)
    requires Before(a, b) && Before(b, c)
    ensures Before(a, c)
  {
    if a != [] && a[0] == b[0] == c[0] {
      BeforeIsTransitive(a[1..], b[1..], c[1..]);
    }
  }
}
