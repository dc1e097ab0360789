/**
 * The global function encodeURI of ECMA-262 (section 19.2.6, "URI Handling Functions").
 * A character of the unescaped set is copied; every other character is replaced by the
 * UTF-8 octets of its code point, each written "%XY" with upper-case hexadecimal digits.
 * Dafny characters are Unicode scalar values, so the URIError that encodeURI raises for a
 * lone surrogate cannot arise.
 */
module UriEncoding {

  type Byte = b: int | 0 <= b < 256

  predicate IsAsciiAlphaNumeric(c: char) {
    'a' <= c <= 'z' || 'A' <= c <= 'Z' || '0' <= c <= '9'
  }

  /** uriAlpha, DecimalDigit, uriMark ("-_.!~*'()"), uriReserved (";/?:@&=+$,") and "#". */
  predicate IsUnescaped(c: char) {
    IsAsciiAlphaNumeric(c) || c in "-_.!~*'()" || c in ";/?:@&=+$,#"
  }

  predicate AllUnescaped(s: string) {
    forall i :: 0 <= i < |s| ==> IsUnescaped(s[i])
  }

  predicate IsUpperHexDigit(c: char) {
    '0' <= c <= '9' || 'A' <= c <= 'F'
  }

  predicate IsAscii(s: string) {
    forall i :: 0 <= i < |s| ==> s[i] < '\U{80}'
  }

  function HexDigit(n: int): (c: char)
    requires 0 <= n < 16
    ensures IsUpperHexDigit(c)
  {
    if n < 10 then ('0' as int + n) as char else ('A' as int + n - 10) as char
  }

  /** The UTF-8 octets of one code point: one octet below 0x80, two below 0x800, three below 0x10000, else four. */
  function Utf8(c: char): (bs: seq<Byte>)
    ensures 1 <= |bs| <= 4
    ensures |bs| == 1 <==> c < '\U{80}'
    ensures |bs| == 1 ==> bs[0] == c as int
  {
    var cp := c as int;
    if cp < 0x80 then [cp]
    else if cp < 0x800 then [0xC0 + cp / 0x40, 0x80 + cp % 0x40]
    else if cp < 0x1_0000 then [0xE0 + cp / 0x1000, 0x80 + (cp / 0x40) % 0x40, 0x80 + cp % 0x40]
    else [0xF0 + cp / 0x4_0000, 0x80 + (cp / 0x1000) % 0x40, 0x80 + (cp / 0x40) % 0x40, 0x80 + cp % 0x40]
  }

  function PercentOctet(b: Byte): (r: string)
    ensures |r| == 3 && r[0] == '%' && IsUpperHexDigit(r[1]) && IsUpperHexDigit(r[2])
  {
    ['%', HexDigit(b / 16), HexDigit(b % 16)]
  }

  function PercentOctets(bs: seq<Byte>): (r: string)
    ensures |r| == 3 * |bs|
  {
    if bs == [] then [] else PercentOctet(bs[0]) + PercentOctets(bs[1..])
  }

  /** One character: copied when unescaped, otherwise one to four "%XY" triplets. */
  function EncodeChar(c: char): (r: string)
    ensures IsUnescaped(c) ==> r == [c]
    ensures !IsUnescaped(c) ==> 3 <= |r| <= 12 && r[0] == '%'
  {
    if IsUnescaped(c) then [c] else PercentOctets(Utf8(c))
  }

  /**
   * encodeURI(s): empty only for the empty string; an unescaped first character is kept first,
   * and any other first character opens a "%XY" escape.
   */
  function EncodeURI(s: string): (r: string)
    ensures r == [] <==> s == []
    ensures s != [] && IsUnescaped(s[0]) ==> r[0] == s[0]
    ensures s != [] && !IsUnescaped(s[0]) ==> r[0] == '%'
  {
    if s == [] then [] else EncodeChar(s[0]) + EncodeURI(s[1..])
  }

  /** The characters encodeURI can emit: unescaped characters, '%' and upper-case hexadecimal digits. */
  predicate IsEncodedChar(c: char) {
    IsUnescaped(c) || c == '%' || IsUpperHexDigit(c)
  }

  lemma {:induction false} PercentOctetsAlphabet(bs: seq<Byte>)
    ensures forall i :: 0 <= i < |PercentOctets(bs)| ==> IsEncodedChar(PercentOctets(bs)[i])
  {
    if bs != [] {
      PercentOctetsAlphabet(bs[1..]);
      var h, t := PercentOctet(bs[0]), PercentOctets(bs[1..]);
      assert PercentOctets(bs) == h + t;
      forall i | 0 <= i < |h + t| ensures IsEncodedChar((h + t)[i]) {
        if i >= |h| { assert (h + t)[i] == t[i - |h|]; }
      }
    }
  }

  /** encodeURI is a homomorphism: it encodes each part of a concatenation separately. */
  lemma {:induction false} EncodeURIAppend(a: string, b: string)
    ensures EncodeURI(a + b) == EncodeURI(a) + EncodeURI(b)
  {
    if a == [] {
      assert a + b == b;
    } else {
      assert (a + b)[0] == a[0];
      assert (a + b)[1..] == a[1..] + b;
      EncodeURIAppend(a[1..], b);
    }
  }

  /**
   * Encoding never shortens a string, it lengthens every string holding a character to escape,
   * and no character grows beyond four escapes of three characters each.
   */
  lemma {:induction false} EncodeURILength(s: string)
    ensures |s| <= |EncodeURI(s)| <= 12 * |s|
    ensures |EncodeURI(s)| == |s| <==> AllUnescaped(s)
  {
    if s != [] {
      EncodeURILength(s[1..]);
      assert AllUnescaped(s) <==> IsUnescaped(s[0]) && AllUnescaped(s[1..]);
    }
  }

  /** A string made only of unescaped characters is its own encoding, and only such a string is. */
  lemma EncodeURIIdentity(s: string)
    ensures EncodeURI(s) == s <==> AllUnescaped(s)
  {
    EncodeURILength(s);
    if AllUnescaped(s) {
      UnescapedIdentity(s);
    }
  }

  lemma {:induction false} UnescapedIdentity(s: string)
    requires AllUnescaped(s)
    ensures EncodeURI(s) == s
  {
    if s != [] {
      UnescapedIdentity(s[1..]);
      assert s == [s[0]] + s[1..];
    }
  }

  /** Every character of an encoding is an unescaped character, '%' or an upper-case hexadecimal digit. */
  lemma {:induction false} EncodeURIAlphabet(s: string)
    ensures forall i :: 0 <= i < |EncodeURI(s)| ==> IsEncodedChar(EncodeURI(s)[i])
  {
    if s != [] {
      EncodeURIAlphabet(s[1..]);
      var h, t := EncodeChar(s[0]), EncodeURI(s[1..]);
      if !IsUnescaped(s[0]) {
        PercentOctetsAlphabet(Utf8(s[0]));
      }
      assert EncodeURI(s) == h + t;
      forall i | 0 <= i < |h + t| ensures IsEncodedChar((h + t)[i]) {
        if i >= |h| { assert (h + t)[i] == t[i - |h|]; }
      }
    }
  }

  // ----- the inverse, for ASCII text -----

  function HexValue(c: char): (n: int)
    requires IsUpperHexDigit(c)
    ensures 0 <= n < 16
  {
    if c <= '9' then c as int - '0' as int else c as int - 'A' as int + 10
  }

  lemma HexValueOfDigit(n: int)
    requires 0 <= n < 16
    ensures HexValue(HexDigit(n)) == n
  {
  }

  /** Replaces each "%XY" that denotes an ASCII code by that character; everything else is copied. */
  function PercentDecodeAscii(s: string): string
    decreases |s|
  {
    if |s| >= 3 && s[0] == '%' && IsUpperHexDigit(s[1]) && IsUpperHexDigit(s[2])
                && HexValue(s[1]) < 8 then
      [(16 * HexValue(s[1]) + HexValue(s[2])) as char] + PercentDecodeAscii(s[3..])
    else if s == [] then []
    else [s[0]] + PercentDecodeAscii(s[1..])
  }

  lemma DecodeEncodedAsciiChar(c: char, rest: string)
    requires c < '\U{80}'
    ensures PercentDecodeAscii(EncodeChar(c) + rest) == [c] + PercentDecodeAscii(rest)
  {
    if IsUnescaped(c) {
      assert c != '%';
      assert ([c] + rest)[1..] == rest;
    } else {
      var cp := c as int;
      HexValueOfDigit(cp / 16);
      HexValueOfDigit(cp % 16);
      assert PercentOctets(Utf8(c)) == PercentOctet(cp);
      var e := PercentOctet(cp) + rest;
      assert e[3..] == rest;
      assert (16 * HexValue(e[1]) + HexValue(e[2])) == cp;
    }
  }

  /** On ASCII text, percent-decoding undoes encodeURI. */
  lemma {:induction false} DecodeEncodeAscii(s: string)
    requires IsAscii(s)
    ensures PercentDecodeAscii(EncodeURI(s)) == s
  {
    if s != [] {
      DecodeEncodedAsciiChar(s[0], EncodeURI(s[1..]));
      assert IsAscii(s[1..]) by {
        forall i | 0 <= i < |s[1..]| ensures s[1..][i] < '\U{80}' { assert s[1..][i] == s[i + 1]; }
      }
      DecodeEncodeAscii(s[1..]);
      assert s == [s[0]] + s[1..];
    }
  }
}
