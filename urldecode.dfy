/**
 * PHP's `rawurldecode`, applied by `match` (src/RadixRouter.php:125) to the
 * request path before lookup: every `%` followed by two hexadecimal digits
 * (either case) becomes the byte they spell, as in section 2.1 of RFC 3986;
 * any other `%` and every `+` stay as they are. Strings are byte strings:
 * a byte is a `char` below 256.
 *
 * Its partner is `rawurlencode`, which escapes everything outside the
 * unreserved set of section 2.3 of RFC 3986 with upper-case digits.
 */
module PercentDecoding {

  predicate IsByte(c: char) {
    c as int < 256
  }

  predicate IsByteString(s: string) {
    forall i :: 0 <= i < |s| ==> IsByte(s[i])
  }

  predicate IsHexDigit(c: char) {
    ('0' <= c <= '9') || ('a' <= c <= 'f') || ('A' <= c <= 'F')
  }

  function HexValue(c: char): (v: nat)
    requires IsHexDigit(c)
    ensures v < 16
  {
    if '0' <= c <= '9' then (c - '0') as nat
    else if 'a' <= c <= 'f' then (c - 'a') as nat + 10
    else (c - 'A') as nat + 10
  }

  /** The upper-case digit `rawurlencode` writes. */
  function HexDigit(v: nat): (c: char)
    requires v < 16
    ensures IsHexDigit(c) && HexValue(c) == v
  {
    if v < 10 then ('0' as int + v) as char else ('A' as int + v - 10) as char
  }

  /** Whether `s` starts with a percent-escape. */
  predicate EscapeAt(s: string) {
    |s| >= 3 && s[0] == '%' && IsHexDigit(s[1]) && IsHexDigit(s[2])
  }

  function RawUrlDecode(s: string): (r: string)
    ensures |r| <= |s|
    decreases |s|
  {
    if s == [] then []
    else if EscapeAt(s) then [(16 * HexValue(s[1]) + HexValue(s[2])) as char] + RawUrlDecode(s[3..])
    else [s[0]] + RawUrlDecode(s[1..])
  }

  /** The characters `rawurlencode` leaves alone (section 2.3 of RFC 3986). */
  predicate Unreserved(c: char) {
    ('A' <= c <= 'Z') || ('a' <= c <= 'z') || ('0' <= c <= '9') || c == '-' || c == '_' || c == '.' || c == '~'
  }

  function EncodeByte(c: char): (r: string)
    requires IsByte(c)
    ensures Unreserved(c) ==> r == [c]
    ensures !Unreserved(c) ==> |r| == 3 && r[0] == '%'
  {
    if Unreserved(c) then [c]
    else ['%', HexDigit(c as nat / 16), HexDigit(c as nat % 16)]
  }

  function RawUrlEncode(s: string): (r: string)
    requires IsByteString(s)
    ensures forall i :: 0 <= i < |r| ==> Unreserved(r[i]) || r[i] == '%' || IsHexDigit(r[i])
  {
    if s == [] then [] else EncodeByte(s[0]) + RawUrlEncode(s[1..])
  }

  /** Text without `%` is decoded to itself. */
  lemma {:induction false} DecodeWithoutPercent(s: string)
    requires '%' !in s
    ensures RawUrlDecode(s) == s
  {
    if s != [] {
      assert s[0] != '%';
      assert '%' !in s[1..] by {
        forall i | 0 <= i < |s[1..]| ensures s[1..][i] != '%' {
          assert s[1..][i] == s[i + 1];
        }
      }
      DecodeWithoutPercent(s[1..]);
      assert s == [s[0]] + s[1..];
    }
  }

  /** Decoding reads one encoded byte off the front. */
  lemma DecodeEncodedByte(c: char, rest: string)
    requires IsByte(c)
    ensures RawUrlDecode(EncodeByte(c) + rest) == [c] + RawUrlDecode(rest)
  {
    var e := EncodeByte(c) + rest;
    if Unreserved(c) {
      assert e[0] == c && c != '%';
      assert e[1..] == rest;
    } else {
      var hi, lo := c as nat / 16, c as nat % 16;
      assert EscapeAt(e);
      assert HexValue(e[1]) == hi && HexValue(e[2]) == lo;
      assert (16 * hi + lo) as char == c;
      assert e[3..] == rest;
    }
  }

  /** `rawurldecode` undoes `rawurlencode` on every byte string. */
  lemma {:induction false} DecodeEncode(s: string)
    requires IsByteString(s)
    ensures RawUrlDecode(RawUrlEncode(s)) == s
  {
    if s != [] {
      assert IsByteString(s[1..]) by {
        forall i | 0 <= i < |s[1..]| ensures IsByte(s[1..][i]) {
          assert s[1..][i] == s[i + 1];
        }
      }
      DecodeEncode(s[1..]);
      DecodeEncodedByte(s[0], RawUrlEncode(s[1..]));
      assert s == [s[0]] + s[1..];
    }
  }

  /** Text without `%` in front of the rest passes through unchanged. */
  lemma {:induction false} DecodePlainPrefix(a: string, b: string)
    requires '%' !in a
    ensures RawUrlDecode(a + b) == a + RawUrlDecode(b)
  {
    if a == [] {
      assert a + b == b;
    } else {
      assert (a + b)[0] == a[0] && a[0] in a;
      assert (a + b)[1..] == a[1..] + b;
      assert '%' !in a[1..] by {
        forall i | 0 <= i < |a[1..]| ensures a[1..][i] != '%' {
          assert a[1..][i] == a[i + 1];
          assert a[i + 1] in a;
        }
      }
      DecodePlainPrefix(a[1..], b);
      assert a == [a[0]] + a[1..];
    }
  }

  /** The request path of a route with a space, as a client sends it. */
  lemma DecodeEncodedSpace()
    ensures RawUrlDecode("/foo" + "%20" + "bar") == "/foo" + " " + "bar"
  {
    assert EscapeAt("%20" + "bar");
    assert ("%20" + "bar")[3..] == "bar";
    DecodeWithoutPercent("bar");
    DecodePlainPrefix("/foo", "%20" + "bar");
    assert "/foo" + "%20" + "bar" == "/foo" + ("%20" + "bar");
  }

  /** An escape decodes whatever the case of its digits, and a lone `%` or a
      `+` is kept. */
  lemma DecodeExamples()
    ensures RawUrlDecode("%2F") == "/"
    ensures RawUrlDecode("%2f") == "/"
    ensures RawUrlDecode("a+b") == "a+b"
    ensures RawUrlDecode("%zz") == "%zz"
  {
    assert EscapeAt("%2F") && EscapeAt("%2f");
    assert "%2F"[3..] == [] && "%2f"[3..] == [];
    DecodeWithoutPercent("+b");
    DecodeWithoutPercent("zz");
    assert "%zz"[1..] == "zz";
  }
}
