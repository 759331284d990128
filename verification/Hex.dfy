/** libraries/bkbase/src/hex.cpp: hexadecimal numbers written as usual, most significant digit first,
    for bytes stored the other way round. */
module Hex {
  import opened Bytes

  /** The value of a digit; -1 for any other character. */
  function HexDigit(c: char): (d: int)
    ensures -1 <= d < 16
  {
    if '0' <= c <= '9' then c as int - '0' as int
    else if 'a' <= c <= 'f' then c as int - 'a' as int + 10
    else if 'A' <= c <= 'F' then c as int - 'A' as int + 10
    else -1
  }

  predicate IsDigit(c: char) {
    HexDigit(c) != -1
  }

  function Nibble(c: char): (d: nat)
    ensures d < 16 && (IsDigit(c) ==> d == HexDigit(c))
  {
    if IsDigit(c) then HexDigit(c) else 0
  }

  predicate AllHex(s: string) {
    forall k :: 0 <= k < |s| ==> IsDigit(s[k])
  }

  function DigitHex(d: nat): char
    requires d < 16
  {
    "0123456789abcdef"[d]
  }

  predicate IsSpace(c: char) {
    c == ' ' || c == '\t' || c == '\n' || c == '\r' || c == 11 as char || c == 12 as char
  }

  lemma HexDigitOfDigitHex(d: nat)
    requires d < 16
    ensures HexDigit(DigitHex(d)) == d
    ensures IsDigit(DigitHex(d)) && !IsSpace(DigitHex(d)) && DigitHex(d) != 'x' && DigitHex(d) != 'X'
  {
  }

  /** The character at `i`; a string ends with a null character. */
  function CharAt(s: string, i: nat): char {
    if i < |s| then s[i] else '\0'
  }

  // ---------- the number in a string ----------

  function SkipSpaces(s: string): string {
    if s != [] && IsSpace(s[0]) then SkipSpaces(s[1..]) else s
  }

  function Skip0x(s: string): string {
    if |s| >= 2 && s[0] == '0' && (s[1] == 'x' || s[1] == 'X') then s[2..] else s
  }

  function LeadingDigits(s: string): (r: string)
    ensures |r| <= |s|
  {
    if s != [] && IsDigit(s[0]) then [s[0]] + LeadingDigits(s[1..]) else []
  }

  function Digits(s: string): string {
    LeadingDigits(Skip0x(SkipSpaces(s)))
  }

  function DigitsValue(digits: string): nat {
    if digits == [] then 0
    else 16 * DigitsValue(digits[..|digits| - 1]) + Nibble(digits[|digits| - 1])
  }

  /** Half as many bytes as digits, rounded up, as far as there is room. */
  function BytesFor(digits: nat, size: nat): nat {
    Min(size, (digits + 1) / 2)
  }

  /** The bytes of a number, the least significant first. */
  function NumberBytes(digits: string, size: nat): seq<uint8> {
    LE(DigitsValue(digits), BytesFor(|digits|, size))
  }

  function ReverseBin(s: string, size: nat): seq<uint8> {
    NumberBytes(Digits(s), size)
  }

  function Pow16(k: nat): (p: nat)
    ensures p > 0
  {
    if k == 0 then 1 else 16 * Pow16(k - 1)
  }

  lemma {:induction false} TwoDigitsPerByte(k: nat)
    ensures Pow16(2 * k) == Pow256(k)
  {
    if k > 0 {
      TwoDigitsPerByte(k - 1);
      assert Pow16(2 * k) == 16 * Pow16(2 * k - 1) == 256 * Pow16(2 * (k - 1));
    }
  }

  lemma {:induction false} DigitsBound(digits: string)
    ensures DigitsValue(digits) < Pow16(|digits|)
    ensures DigitsValue(digits) < Pow256((|digits| + 1) / 2)
  {
    if digits != [] {
      DigitsBound(digits[..|digits| - 1]);
    }
    var k := (|digits| + 1) / 2;
    TwoDigitsPerByte(k);
    if |digits| % 2 == 1 {
      assert Pow16(2 * k) == 16 * Pow16(|digits|);
    }
  }

  function Zeros(k: nat): seq<uint8> {
    LE(0, k)
  }

  lemma {:induction false} ZerosAreZero(k: nat, i: nat)
    requires i < k
    ensures Zeros(k)[i] == 0
  {
    if i > 0 {
      ZerosAreZero(k - 1, i - 1);
    }
  }

  lemma {:induction false} LEPadded(n: nat, k: nat, j: nat)
    requires n < Pow256(k)
    ensures LE(n, k + j) == LE(n, k) + Zeros(j)
  {
    if k > 0 {
      LEPadded(n / 256, k - 1, j);
      assert LE(n, k + j) == [n % 256] + LE(n / 256, k - 1 + j);
    }
  }

  lemma NumberInZeroedBuffer(v: nat, k: nat, size: nat)
    requires v < Pow256(k)
    ensures var r := LE(v, Min(size, k)); r + Zeros(size - |r|) == LE(v, size)
  {
    if k < size {
      LEPadded(v, k, size - k);
    } else {
      ConcatAssociates(LE(v, size), [], []);
    }
  }

  lemma NumberBytesAreTheNumber(digits: string, size: nat)
    ensures var r := NumberBytes(digits, size);
            |r| <= size && FromLE(r + Zeros(size - |r|)) == DigitsValue(digits) % Pow256(size)
  {
    var v := DigitsValue(digits);
    DigitsBound(digits);
    NumberInZeroedBuffer(v, (|digits| + 1) / 2, size);
    FromLEOfLE(v, size);
  }

  /** In a buffer that was zero, the number of the string modulo 256^size, however many digits
      the string has. */
  lemma ReverseBinIsTheNumber(s: string, size: nat)
    ensures var r := ReverseBin(s, size);
            |r| <= size && FromLE(r + Zeros(size - |r|)) == DigitsValue(Digits(s)) % Pow256(size)
  {
    NumberBytesAreTheNumber(Digits(s), size);
  }

  // ---------- and back ----------

  /** The digits of the bytes, the last byte first. */
  function ReverseHex(bytes: seq<uint8>): string {
    if bytes == [] then "" else ReverseHex(bytes[1..]) + [DigitHex(bytes[0] / 16), DigitHex(bytes[0] % 16)]
  }

  predicate AllDigits(s: string) {
    forall k :: 0 <= k < |s| ==> IsDigit(s[k]) && !IsSpace(s[k]) && s[k] != 'x' && s[k] != 'X'
  }

  lemma {:induction false} ReverseHexIsDigits(bytes: seq<uint8>)
    ensures AllDigits(ReverseHex(bytes)) && |ReverseHex(bytes)| == 2 * |bytes|
  {
    if bytes != [] {
      ReverseHexIsDigits(bytes[1..]);
      HexDigitOfDigitHex(bytes[0] / 16);
      HexDigitOfDigitHex(bytes[0] % 16);
    }
  }

  lemma {:induction false} AllDigitsAreRead(s: string)
    requires AllDigits(s)
    ensures LeadingDigits(s) == s
  {
    if s != [] {
      AllDigitsAreRead(s[1..]);
      assert s == [s[0]] + s[1..];
    }
  }

  lemma PlainDigits(s: string)
    requires AllDigits(s)
    ensures Digits(s) == s
  {
    AllDigitsAreRead(s);
    assert s != [] ==> !IsSpace(s[0]);
  }

  lemma TwoMoreDigits(digits: string, hi: char, lo: char)
    ensures DigitsValue(digits + [hi, lo]) == 256 * DigitsValue(digits) + 16 * Nibble(hi) + Nibble(lo)
  {
    var all := digits + [hi, lo];
    assert all[..|all| - 1] == digits + [hi];
    assert (digits + [hi])[..|digits|] == digits;
  }

  lemma {:induction false} ReverseHexValue(bytes: seq<uint8>)
    ensures AllDigits(ReverseHex(bytes)) && DigitsValue(ReverseHex(bytes)) == FromLE(bytes)
  {
    ReverseHexIsDigits(bytes);
    if bytes != [] {
      ReverseHexValue(bytes[1..]);
      var hi, lo := bytes[0] / 16, bytes[0] % 16;
      HexDigitOfDigitHex(hi);
      HexDigitOfDigitHex(lo);
      TwoMoreDigits(ReverseHex(bytes[1..]), DigitHex(hi), DigitHex(lo));
    }
  }

  /** Reading the digits of any bytes gives the bytes back. */
  lemma ReverseHexRoundTrip(bytes: seq<uint8>)
    ensures ReverseBin(ReverseHex(bytes), |bytes|) == bytes
  {
    ReverseHexIsDigits(bytes);
    PlainDigits(ReverseHex(bytes));
    ReverseHexValue(bytes);
    LEOfFromLE(bytes);
  }

  // ---------- the loops ----------

  /** Skips spaces and a leading 0x; what is left at `p` are the digits. */
  method SkipToDigits(s: string) returns (p: nat)
    ensures p <= |s| && s[p..] == Skip0x(SkipSpaces(s))
  {
    p := 0;
    while p < |s| && IsSpace(CharAt(s, p))
      invariant p <= |s| && SkipSpaces(s[p..]) == SkipSpaces(s)
    {
      assert s[p..][1..] == s[p + 1..];
      p := p + 1;
    }
    if CharAt(s, p) == '0' && (CharAt(s, p + 1) == 'x' || CharAt(s, p + 1) == 'X') {
      p := p + 2;
    }
  }

  lemma OneMoreDigit(s: string, begin: nat, p: nat)
    requires begin <= p < |s| && IsDigit(s[p])
    ensures s[begin..p] + LeadingDigits(s[p..]) == s[begin..p + 1] + LeadingDigits(s[p + 1..])
  {
    assert s[p..][1..] == s[p + 1..];
    assert s[begin..p + 1] == s[begin..p] + [s[p]];
    ConcatAssociates(s[begin..p], [s[p]], LeadingDigits(s[p + 1..]));
  }

  method FindEnd(s: string, begin: nat) returns (p: nat)
    requires begin <= |s|
    ensures begin <= p <= |s| && s[begin..p] == LeadingDigits(s[begin..]) && AllHex(s[begin..p])
  {
    p := begin;
    while IsDigit(CharAt(s, p))
      invariant begin <= p <= |s|
      invariant LeadingDigits(s[begin..]) == s[begin..p] + LeadingDigits(s[p..])
      invariant forall k :: begin <= k < p ==> IsDigit(s[k])
      decreases |s| - p
    {
      OneMoreDigit(s, begin, p);
      p := p + 1;
    }
    ConcatAssociates(s[begin..p], [], []);
  }

  /** `bytes` is what is left of the number `v` above the value `rest`. */
  predicate Converted(v: nat, rest: nat, bytes: seq<uint8>) {
    v == rest * Pow256(|bytes|) + FromLE(bytes)
  }

  lemma ScaleByte(f: nat, b: nat, p: nat)
    ensures 256 * (f + b * p) == 256 * f + b * (256 * p)
  {
  }

  lemma {:induction false} FromLESnoc(s: seq<uint8>, b: uint8)
    ensures FromLE(s + [b]) == FromLE(s) + b * Pow256(|s|)
  {
    if s == [] {
      assert FromLE([b]) == b + 256 * FromLE([]);
    } else {
      FromLESnoc(s[1..], b);
      assert (s + [b])[1..] == s[1..] + [b] && (s + [b])[0] == s[0];
      ScaleByte(FromLE(s[1..]), b, Pow256(|s| - 1));
    }
  }

  lemma OneMoreByte(v: nat, rest: nat, bytes: seq<uint8>, b: uint8)
    requires Converted(v, 256 * rest + b, bytes)
    ensures Converted(v, rest, bytes + [b])
  {
    var p := Pow256(|bytes|);
    FromLESnoc(bytes, b);
    assert (256 * rest + b) * p == rest * (256 * p) + b * p;
  }

  /** One or two digits make one byte. */
  lemma LastDigits(digits: string)
    requires digits != []
    ensures DigitsValue(digits) ==
            if |digits| == 1 then Nibble(digits[0])
            else
              256 * DigitsValue(digits[..|digits| - 2])
              + 16 * Nibble(digits[|digits| - 2]) + Nibble(digits[|digits| - 1])
  {
    if |digits| == 1 {
      assert DigitsValue(digits[..0]) == 0;
    } else {
      var n := |digits|;
      assert digits == digits[..n - 2] + [digits[n - 2], digits[n - 1]];
      TwoMoreDigits(digits[..n - 2], digits[n - 2], digits[n - 1]);
    }
  }

  lemma {:induction false} LEModulo(n: nat, k: nat)
    ensures LE(n % Pow256(k), k) == LE(n, k)
  {
    FromLEOfLE(n, k);
    LEOfFromLE(LE(n, k));
  }

  lemma AllConverted(v: nat, rest: nat, bytes: seq<uint8>)
    requires Converted(v, rest, bytes)
    ensures bytes == LE(v, |bytes|)
  {
    DivModUnique(v, Pow256(|bytes|), rest, FromLE(bytes));
    LEModulo(v, |bytes|);
    LEOfFromLE(bytes);
  }

  /** How many digits are left when `count` bytes have been written. */
  function Left(n: nat, count: nat): nat {
    if 2 * count <= n then n - 2 * count else 0
  }

  /** The next byte: the low half from the last digit, the high half from the one before, if any. */
  method TakeByte(digits: string, left: nat) returns (b: uint8)
    requires AllHex(digits) && 0 < left <= |digits|
    ensures DigitsValue(digits[..left]) == 256 * DigitsValue(digits[..Left(left, 1)]) + b
  {
    b := HexDigit(digits[left - 1]);
    if left > 1 {
      b := b + 16 * HexDigit(digits[left - 2]);
    }
    LastDigits(digits[..left]);
    assert left > 1 ==> digits[..left][..left - 2] == digits[..left - 2];
  }

  method ConvertDigits(digits: string, buf: array<uint8>) returns (count: nat)
    requires AllHex(digits)
    modifies buf
    ensures count == BytesFor(|digits|, buf.Length)
    ensures buf[..count] == LE(DigitsValue(digits), count) && buf[count..] == old(buf[count..])
  {
    var left := |digits|;
    count := 0;
    ghost var v := DigitsValue(digits);
    ghost var bytes: seq<uint8> := [];
    assert digits[..left] == digits;
    assert Converted(v, v, []);
    while left > 0 && count < buf.Length
      invariant count <= buf.Length && left == Left(|digits|, count) && 2 * count <= |digits| + 1
      invariant bytes == buf[..count] && Converted(v, DigitsValue(digits[..left]), bytes)
      invariant buf[count..] == old(buf[count..])
    {
      var b := TakeByte(digits, left);
      OneMoreByte(v, DigitsValue(digits[..Left(left, 1)]), bytes, b);
      bytes := bytes + [b];
      buf[count] := b;
      left := Left(left, 1);
      count := count + 1;
    }
    AllConverted(v, DigitsValue(digits[..left]), bytes);
  }

  method HexToReverseBin(s: string, buf: array<uint8>) returns (count: nat)
    modifies buf
    ensures buf[..] == ReverseBin(s, buf.Length) + old(buf[|ReverseBin(s, buf.Length)|..])
    ensures count == |ReverseBin(s, buf.Length)|
  {
    var begin := SkipToDigits(s);
    var end := FindEnd(s, begin);
    count := ConvertDigits(s[begin..end], buf);
  }

  method HexFromReverseBin(buf: seq<uint8>) returns (s: string)
    ensures s == ReverseHex(buf)
  {
    s := "";
    for i := 0 to |buf|
      invariant s == ReverseHex(buf[|buf| - i..])
    {
      var b := buf[|buf| - i - 1];
      assert buf[|buf| - i - 1..][1..] == buf[|buf| - i..];
      s := s + [DigitHex(b / 16)];
      s := s + [DigitHex(b % 16)];
    }
  }

  // ---------- character by character ----------

  /** The digits and their values, in lower and in upper case; no other character has one. */
  lemma DigitsCharacterByCharacter(c: char, d: nat)
    requires d < 16
    ensures HexDigit(c) == d <==> c == "0123456789abcdef"[d] || c == "0123456789ABCDEF"[d]
    ensures HexDigit(c) == -1 <==> forall e :: 0 <= e < 16 ==> c != "0123456789abcdef"[e] && c != "0123456789ABCDEF"[e]
    ensures DigitHex(d) == "0123456789abcdef"[d]
  {
    if HexDigit(c) != -1 {
      var e := HexDigit(c);
      assert c == "0123456789abcdef"[e] || c == "0123456789ABCDEF"[e];
    }
  }

  predicate AllSpaces(s: string) {
    forall k :: 0 <= k < |s| ==> s[k] in [' ', '\t', '\n', '\r', 11 as char, 12 as char]
  }

  lemma {:induction false} SpacesAreSkipped(spaces: string, rest: string)
    requires AllSpaces(spaces) && (rest != [] ==> !AllSpaces(rest[..1]))
    ensures SkipSpaces(spaces + rest) == rest
  {
    if spaces == [] {
      assert spaces + rest == rest;
      assert rest != [] ==> rest[..1][0] == rest[0];
    } else {
      assert (spaces + rest)[1..] == spaces[1..] + rest;
      SpacesAreSkipped(spaces[1..], rest);
    }
  }

  lemma {:induction false} DigitsUpTo(digits: string, tail: string)
    requires AllHex(digits) && (tail != [] ==> !IsDigit(tail[0]))
    ensures LeadingDigits(digits + tail) == digits
  {
    if digits == [] {
      assert digits + tail == tail;
    } else {
      assert (digits + tail)[1..] == digits[1..] + tail;
      DigitsUpTo(digits[1..], tail);
      assert digits == [digits[0]] + digits[1..];
    }
  }

  /** Spaces, then perhaps 0x or 0X, then the digits, up to the first character that is none. */
  lemma DigitsBehindPrefix(spaces: string, prefix: string, digits: string, tail: string)
    requires AllSpaces(spaces) && AllHex(digits) && (tail != [] ==> !IsDigit(tail[0]))
    requires prefix == "0x" || prefix == "0X"
    ensures Digits(spaces + (prefix + (digits + tail))) == digits
  {
    var rest := prefix + (digits + tail);
    assert rest[..1][0] == '0' && rest[..1][0] !in [' ', '\t', '\n', '\r', 11 as char, 12 as char];
    SpacesAreSkipped(spaces, rest);
    assert rest[2..] == digits + tail;
    DigitsUpTo(digits, tail);
  }

  lemma DigitsWithoutPrefix(spaces: string, digits: string, tail: string)
    requires AllSpaces(spaces) && AllHex(digits) && digits != [] && (tail != [] ==> !IsDigit(tail[0]))
    requires digits == "0" && tail != [] ==> tail[0] != 'x' && tail[0] != 'X'
    ensures Digits(spaces + (digits + tail)) == digits
  {
    var rest := digits + tail;
    assert IsDigit(rest[0]) && rest[..1][0] == rest[0];
    SpacesAreSkipped(spaces, rest);
    if |digits| >= 2 {
      assert IsDigit(digits[1]) && rest[1] == digits[1];
    }
    DigitsUpTo(digits, tail);
  }

  lemma SplitByte(v: nat, b: nat, r: nat)
    requires b < 256 && r > 0
    ensures LE(256 * v + b, r) == [b] + LE(v, r - 1)
  {
    assert (256 * v + b) % 256 == b && (256 * v + b) / 256 == v;
  }

  /** The digit that is `i` from the end, or zero where there is none. */
  function FromEnd(digits: string, i: nat): nat {
    if i < |digits| then Nibble(digits[|digits| - 1 - i]) else 0
  }

  lemma TwoLessFromEnd(digits: string, i: nat)
    requires |digits| >= 2
    ensures FromEnd(digits[..|digits| - 2], i) == FromEnd(digits, i + 2)
  {
  }

  lemma LowestByte(digits: string, r: nat)
    requires digits != [] && r > 0
    ensures LE(DigitsValue(digits), r)[0] == FromEnd(digits, 0) + 16 * FromEnd(digits, 1)
    ensures |digits| >= 2 ==> LE(DigitsValue(digits), r)[1..] == LE(DigitsValue(digits[..|digits| - 2]), r - 1)
  {
    LastDigits(digits);
    var v := if |digits| >= 2 then DigitsValue(digits[..|digits| - 2]) else 0;
    SplitByte(v, FromEnd(digits, 0) + 16 * FromEnd(digits, 1), r);
  }

  /** Digit by digit: byte `k` is made of the two digits that are `2 * k` from the end, the one further
      left counting 16 times; where there is none, it counts as zero. */
  lemma {:induction false} BytesDigitByDigit(digits: string, r: nat, k: nat)
    requires k < r && 2 * k < |digits|
    ensures LE(DigitsValue(digits), r)[k] == FromEnd(digits, 2 * k) + 16 * FromEnd(digits, 2 * k + 1)
    decreases k
  {
    LowestByte(digits, r);
    if k > 0 {
      var rest := digits[..|digits| - 2];
      BytesDigitByDigit(rest, r - 1, k - 1);
      TwoLessFromEnd(digits, 2 * k - 2);
      TwoLessFromEnd(digits, 2 * k - 1);
    }
  }

  /** Into a buffer: as many bytes as pairs of digits, one more for an odd one, or as fit; and byte
      `k` is the two digits that are `2 * k` from the end. */
  lemma ReverseBinDigitByDigit(s: string, size: nat, k: nat)
    requires k < |ReverseBin(s, size)|
    ensures var d := Digits(s);
            && |ReverseBin(s, size)| == (if size < (|d| + 1) / 2 then size else (|d| + 1) / 2)
            && ReverseBin(s, size)[k] == FromEnd(d, 2 * k) + 16 * FromEnd(d, 2 * k + 1)
  {
    BytesDigitByDigit(Digits(s), |ReverseBin(s, size)|, k);
  }

  /** Byte by byte: two digits for each, the last byte first. */
  lemma {:induction false} ReverseHexByteByByte(bytes: seq<uint8>, k: nat)
    requires k < |bytes|
    ensures var s, b := ReverseHex(bytes), bytes[|bytes| - 1 - k];
            && |s| == 2 * |bytes|
            && s[2 * k] == "0123456789abcdef"[b / 16] && s[2 * k + 1] == "0123456789abcdef"[b % 16]
  {
    ReverseHexIsDigits(bytes);
    ReverseHexIsDigits(bytes[1..]);
    if k < |bytes| - 1 {
      ReverseHexByteByByte(bytes[1..], k);
    }
  }
}
