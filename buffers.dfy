/**
 * The two Node `Buffer` codecs the engine uses: `Buffer.from(str, "utf8")` and the hex pair
 * `buf.toString("hex")` / `Buffer.from(str, "hex")`. Decoding hex reads two digits at a time
 * from the start and stops at the first pair that is not two hex digits, dropping a lone
 * trailing digit, as Node does.
 */
module Buffers {

  type byte = x: int | 0 <= x < 256

  /** UTF-8 encoding of one Unicode scalar value. */
  function EncodeChar(c: char): (b: seq<byte>)
    ensures 1 <= |b| <= 4
  {
    var cp := c as int;
    if cp < 0x80 then [cp]
    else if cp < 0x800 then [0xC0 + cp / 0x40, 0x80 + cp % 0x40]
    else if cp < 0x10000 then [0xE0 + cp / 0x1000, 0x80 + (cp / 0x40) % 0x40, 0x80 + cp % 0x40]
    else [0xF0 + cp / 0x40000, 0x80 + (cp / 0x1000) % 0x40, 0x80 + (cp / 0x40) % 0x40, 0x80 + cp % 0x40]
  }

  /** `Buffer.from(s, "utf8")` */
  function Utf8(s: string): (b: seq<byte>)
    ensures |s| <= |b| <= 4 * |s|
  {
    if s == [] then [] else EncodeChar(s[0]) + Utf8(s[1..])
  }

  /** ASCII text encodes to its own code points. */
  lemma {:induction false} Utf8Ascii(s: string)
    requires forall k :: 0 <= k < |s| ==> s[k] as int < 0x80
    ensures |Utf8(s)| == |s| && forall k :: 0 <= k < |s| ==> Utf8(s)[k] == s[k] as int
  {
    if s != [] {
      Utf8Ascii(s[1..]);
    }
  }

  /** The length of a UTF-8 sequence, read from its lead byte. */
  function LeadLength(b: byte): nat {
    if b < 0x80 then 1 else if b < 0xE0 then 2 else if b < 0xF0 then 3 else 4
  }

  /** The lead byte of a character's encoding says how many bytes it takes. */
  lemma EncodeCharLead(c: char)
    ensures |EncodeChar(c)| == LeadLength(EncodeChar(c)[0])
  {
  }

  /** Two characters with the same encoding are the same character. */
  lemma EncodeCharInjective(c: char, d: char)
    requires EncodeChar(c) == EncodeChar(d)
    ensures c == d
  {
    var x, y := c as int, d as int;
    var e := EncodeChar(c);
    if |e| == 2 {
      assert x / 0x40 == y / 0x40 && x % 0x40 == y % 0x40;
    } else if |e| == 3 {
      assert x / 0x1000 == y / 0x1000 && (x / 0x40) % 0x40 == (y / 0x40) % 0x40 && x % 0x40 == y % 0x40;
      SplitDigits(x / 0x40, y / 0x40, 0x40);
      assert x / 0x40 == y / 0x40;
    } else if |e| == 4 {
      assert x / 0x40000 == y / 0x40000 && (x / 0x1000) % 0x40 == (y / 0x1000) % 0x40;
      assert (x / 0x40) % 0x40 == (y / 0x40) % 0x40 && x % 0x40 == y % 0x40;
      SplitDigits(x / 0x1000, y / 0x1000, 0x40);
      SplitDigits(x / 0x40, y / 0x40, 0x40);
    }
  }

  /** A number is fixed by its quotient and remainder. */
  lemma SplitDigits(x: nat, y: nat, m: nat)
    requires m > 0 && x / m == y / m && x % m == y % m
    ensures x == y
  {
  }

  /** UTF-8 encoding is injective: different texts have different encodings. */
  lemma {:induction false} Utf8Injective(a: string, b: string)
    ensures Utf8(a) == Utf8(b) ==> a == b
    decreases |a|
  {
    if Utf8(a) == Utf8(b) && a != [] && b != [] {
      var x, y := EncodeChar(a[0]), EncodeChar(b[0]);
      assert Utf8(a) == x + Utf8(a[1..]) && Utf8(b) == y + Utf8(b[1..]);
      assert x[0] == Utf8(a)[0] == y[0];
      EncodeCharLead(a[0]);
      EncodeCharLead(b[0]);
      assert x == Utf8(a)[..|x|] == y;
      assert Utf8(a[1..]) == Utf8(a)[|x|..] == Utf8(b[1..]);
      EncodeCharInjective(a[0], b[0]);
      Utf8Injective(a[1..], b[1..]);
      assert a == [a[0]] + a[1..] && b == [b[0]] + b[1..];
    }
  }

  const HexDigits: string := "0123456789abcdef"

  /** Value of a hex digit (either case), if `c` is one. */
  function HexValue(c: char): (v: int)
    ensures -1 <= v < 16
    ensures v == -1 <==> !('0' <= c <= '9' || 'a' <= c <= 'f' || 'A' <= c <= 'F')
  {
    if '0' <= c <= '9' then c as int - '0' as int
    else if 'a' <= c <= 'f' then c as int - 'a' as int + 10
    else if 'A' <= c <= 'F' then c as int - 'A' as int + 10
    else -1
  }

  /** The lower-case digits are each other's inverse with `HexValue`. */
  lemma HexDigitValue(n: nat)
    requires n < 16
    ensures HexValue(HexDigits[n]) == n
  {
  }

  /** `buf.toString("hex")`: two lower-case hex digits per byte, high nibble first. */
  function ToHex(b: seq<byte>): (h: string)
    ensures |h| == 2 * |b|
  {
    if b == [] then "" else [HexDigits[b[0] / 16], HexDigits[b[0] % 16]] + ToHex(b[1..])
  }

  /** `Buffer.from(h, "hex")`: the longest prefix of valid digit pairs. */
  function FromHex(h: string): (b: seq<byte>)
    ensures |b| <= |h| / 2
  {
    if |h| < 2 then []
    else
      var hi, lo := HexValue(h[0]), HexValue(h[1]);
      if hi < 0 || lo < 0 then [] else [hi * 16 + lo] + FromHex(h[2..])
  }

  /** Every byte becomes the two digits of its high and low nibble. */
  lemma {:induction false} ToHexDigits(b: seq<byte>, i: nat)
    requires i < |b|
    ensures ToHex(b)[2 * i] == HexDigits[b[i] / 16] && ToHex(b)[2 * i + 1] == HexDigits[b[i] % 16]
  {
    if i > 0 {
      ToHexDigits(b[1..], i - 1);
    }
  }

  /** Hex output holds only lower-case hex digits. */
  lemma {:induction false} ToHexAlphabet(b: seq<byte>)
    ensures forall k :: 0 <= k < |ToHex(b)| ==> ToHex(b)[k] in HexDigits
  {
    if b != [] {
      ToHexAlphabet(b[1..]);
      var h := ToHex(b);
      forall k | 0 <= k < |h| ensures h[k] in HexDigits {
        if k >= 2 { assert h[k] == ToHex(b[1..])[k - 2]; }
      }
    }
  }

  /** Decoding undoes encoding. */
  lemma {:induction false} FromToHex(b: seq<byte>)
    ensures FromHex(ToHex(b)) == b
  {
    if b != [] {
      var h := ToHex(b);
      var hi, lo := b[0] / 16, b[0] % 16;
      assert h == [HexDigits[hi], HexDigits[lo]] + ToHex(b[1..]);
      HexDigitValue(hi);
      HexDigitValue(lo);
      assert HexValue(h[0]) * 16 + HexValue(h[1]) == b[0];
      assert h[2..] == ToHex(b[1..]);
      FromToHex(b[1..]);
      assert FromHex(h) == [b[0]] + FromHex(h[2..]);
      assert [b[0]] + b[1..] == b;
    }
  }
}
