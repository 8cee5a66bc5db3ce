/**
 * `urllib.parse.quote(s)` with its default `safe='/'`: the string is encoded
 * as UTF-8 and every byte outside the unreserved set of section 2.3 of
 * RFC 3986 and outside `safe` becomes `%` and two upper-case hex digits
 * (section 2.1 of RFC 3986). The decoder `UnquoteToBytes` follows
 * `urllib.parse.unquote_to_bytes` and serves as the encoder's inverse.
 */
module UrlQuote {
  import opened Wrappers
  import opened Utf8

  /** The unreserved characters `A-Z a-z 0-9 _ . - ~`, which quote never escapes. */
  predicate IsAlwaysSafe(b: byte) {
    || ('A' as int <= b as int <= 'Z' as int)
    || ('a' as int <= b as int <= 'z' as int)
    || ('0' as int <= b as int <= '9' as int)
    || b as int == '_' as int
    || b as int == '.' as int
    || b as int == '-' as int
    || b as int == '~' as int
  }

  /** Bytes left as they are: the unreserved set plus the default `safe` character `/`. */
  predicate IsSafe(b: byte) {
    IsAlwaysSafe(b) || b as int == '/' as int
  }

  /** A character that may stand for itself in quote's output. */
  predicate IsSafeChar(c: char) {
    c as int < 0x80 && IsSafe(c as int as byte)
  }

  predicate IsUpperHexDigit(c: char) {
    '0' <= c <= '9' || 'A' <= c <= 'F'
  }

  /** `c` read as a hex digit of either case, or -1. */
  function HexValue(c: char): (r: int)
    ensures -1 <= r < 16
    ensures IsUpperHexDigit(c) ==> r >= 0
  {
    if '0' <= c <= '9' then c as int - '0' as int
    else if 'A' <= c <= 'F' then c as int - 'A' as int + 10
    else if 'a' <= c <= 'f' then c as int - 'a' as int + 10
    else -1
  }

  /** The upper-case hex digit of `n`, as `'%{:02X}'` writes it. */
  function HexDigit(n: int): (c: char)
    requires 0 <= n < 16
    ensures IsUpperHexDigit(c) && HexValue(c) == n
  {
    "0123456789ABCDEF"[n]
  }

  /** What quote writes for one byte: the byte itself if safe, else `%XX`. */
  function EncodeByte(b: byte): (r: string)
    ensures IsSafe(b) ==> r == [b as int as char]
    ensures !IsSafe(b) ==> |r| == 3 && r[0] == '%' && IsUpperHexDigit(r[1]) && IsUpperHexDigit(r[2])
                           && HexValue(r[1]) * 16 + HexValue(r[2]) == b as int
  {
    if IsSafe(b) then [b as int as char]
    else ['%', HexDigit(b as int / 16), HexDigit(b as int % 16)]
  }

  /** `urllib.parse.quote_from_bytes(bs)`. */
  function QuoteBytes(bs: seq<byte>): (r: string)
    ensures |bs| <= |r| <= 3 * |bs|
  {
    if bs == [] then [] else EncodeByte(bs[0]) + QuoteBytes(bs[1..])
  }

  /** `urllib.parse.quote(s)`. */
  function Quote(s: string): (r: string)
    ensures |s| <= |r| <= 12 * |s|
  {
    QuoteBytes(Encode(s))
  }

  /** `urllib.parse.unquote_to_bytes(s)`: `%HH` (either case) becomes that byte, anything else its UTF-8 bytes. */
  function UnquoteToBytes(s: string): seq<byte>
    decreases |s|
  {
    if s == [] then []
    else if s[0] == '%' && |s| >= 3 && HexValue(s[1]) >= 0 && HexValue(s[2]) >= 0 then
      [(HexValue(s[1]) * 16 + HexValue(s[2])) as byte] + UnquoteToBytes(s[3..])
    else
      EncodeChar(s[0]) + UnquoteToBytes(s[1..])
  }

  /** `urllib.parse.unquote(s)` with strict UTF-8 decoding: None where the bytes are not UTF-8. */
  function Unquote(s: string): Option<string> {
    Decode(UnquoteToBytes(s))
  }

  /** The number of bytes quote escapes. */
  function CountUnsafe(bs: seq<byte>): (n: nat)
    ensures n <= |bs|
  {
    if bs == [] then 0 else (if IsSafe(bs[0]) then 0 else 1) + CountUnsafe(bs[1..])
  }

  /** Quoting works byte by byte: the quote of a concatenation is the concatenation of the quotes. */
  lemma {:induction false} QuoteBytesAppend(a: seq<byte>, b: seq<byte>)
    ensures QuoteBytes(a + b) == QuoteBytes(a) + QuoteBytes(b)
  {
    if a == [] {
      assert a + b == b;
    } else {
      assert (a + b)[1..] == a[1..] + b;
      QuoteBytesAppend(a[1..], b);
    }
  }

  lemma QuoteAppend(a: string, b: string)
    ensures Quote(a + b) == Quote(a) + Quote(b)
  {
    EncodeAppend(a, b);
    QuoteBytesAppend(Encode(a), Encode(b));
  }

  /**
   * Every byte contributes one character (safe) or three (escaped), so the
   * output is between |bs| and 3 * |bs| characters long.
   */
  lemma {:induction false} QuoteBytesLength(bs: seq<byte>)
    ensures |QuoteBytes(bs)| == |bs| + 2 * CountUnsafe(bs)
    ensures |bs| <= |QuoteBytes(bs)| <= 3 * |bs|
  {
    if bs != [] {
      QuoteBytesLength(bs[1..]);
    }
  }

  /** A byte sequence made only of safe bytes is copied unchanged. */
  lemma {:induction false} QuoteBytesSafe(bs: seq<byte>)
    requires forall i :: 0 <= i < |bs| ==> IsSafe(bs[i])
    ensures |QuoteBytes(bs)| == |bs|
    ensures forall i :: 0 <= i < |bs| ==> QuoteBytes(bs)[i] as int == bs[i] as int
  {
    if bs != [] {
      QuoteBytesSafe(bs[1..]);
      forall i | 0 <= i < |bs|
        ensures QuoteBytes(bs)[i] as int == bs[i] as int
      {
        if i > 0 {
          assert QuoteBytes(bs)[i] == QuoteBytes(bs[1..])[i - 1];
        }
      }
    }
  }

  /**
   * Quote's output alphabet: every character is a safe character or `%`,
   * and every `%` is followed by two upper-case hex digits.
   */
  predicate WellEscaped(s: string) {
    && (forall i :: 0 <= i < |s| ==> IsSafeChar(s[i]) || s[i] == '%')
    && (forall i :: 0 <= i < |s| && s[i] == '%' ==> i + 2 < |s| && IsUpperHexDigit(s[i + 1]) && IsUpperHexDigit(s[i + 2]))
  }

  /** Quote's output is well escaped. */
  lemma {:induction false} QuoteBytesAlphabet(bs: seq<byte>)
    ensures WellEscaped(QuoteBytes(bs))
  {
    if bs != [] {
      QuoteBytesAlphabet(bs[1..]);
      EncodeByteAlphabet(bs[0]);
      WellEscapedAppend(EncodeByte(bs[0]), QuoteBytes(bs[1..]));
    } else {
      assert QuoteBytes(bs) == [];
    }
  }

  /** One byte's encoding is well escaped. */
  lemma EncodeByteAlphabet(b: byte)
    ensures WellEscaped(EncodeByte(b))
  {
    var e := EncodeByte(b);
    if IsSafe(b) {
      assert (b as int as char) as int as byte == b;
    } else {
      assert IsSafeChar(e[1]) && IsSafeChar(e[2]);
    }
  }

  /** Well-escaped texts stay well escaped when joined. */
  lemma WellEscapedAppend(a: string, b: string)
    requires WellEscaped(a) && WellEscaped(b)
    ensures WellEscaped(a + b)
  {
    forall i | 0 <= i < |a + b|
      ensures IsSafeChar((a + b)[i]) || (a + b)[i] == '%'
      ensures (a + b)[i] == '%' ==> i + 2 < |a + b| && IsUpperHexDigit((a + b)[i + 1]) && IsUpperHexDigit((a + b)[i + 2])
    {
      if i >= |a| {
        assert (a + b)[i] == b[i - |a|];
        if b[i - |a|] == '%' {
          assert (a + b)[i + 1] == b[i - |a| + 1] && (a + b)[i + 2] == b[i - |a| + 2];
        }
      } else {
        assert (a + b)[i] == a[i];
        if a[i] == '%' {
          assert (a + b)[i + 1] == a[i + 1] && (a + b)[i + 2] == a[i + 2];
        }
      }
    }
  }

  /**
   * The characters that delimit a URI query (`&`, `?`, `=`, `#`), a space and
   * `+` never occur in quote's output, so a quoted value cannot break the
   * structure of the query string it is placed in.
   */
  lemma QuoteHasNoDelimiters(s: string)
    ensures forall i :: 0 <= i < |Quote(s)| ==> Quote(s)[i] !in "&?=# +"
  {
    QuoteBytesAlphabet(Encode(s));
  }

  /** Decoding one escaped or safe byte, followed by anything, yields that byte first. */
  lemma UnquoteEncodeByte(b: byte, rest: string)
    ensures UnquoteToBytes(EncodeByte(b) + rest) == [b] + UnquoteToBytes(rest)
  {
    if IsSafe(b) {
      UnquoteSafeByte(b, rest);
    } else {
      UnquoteEscapedByte(b, rest);
    }
  }

  lemma UnquoteSafeByte(b: byte, rest: string)
    requires IsSafe(b)
    ensures UnquoteToBytes([b as int as char] + rest) == [b] + UnquoteToBytes(rest)
  {
    var c := b as int as char;
    var e := [c] + rest;
    assert e[0] == c && c != '%' && e[1..] == rest;
    assert EncodeChar(c) == [b];
  }

  lemma UnquoteEscapedByte(b: byte, rest: string)
    requires !IsSafe(b)
    ensures UnquoteToBytes(EncodeByte(b) + rest) == [b] + UnquoteToBytes(rest)
  {
    var e := EncodeByte(b);
    assert e == ['%', e[1], e[2]];
    UnquotePercent(e[1], e[2], rest);
  }

  /** `%` and two hex digits decode to the byte they spell. */
  lemma UnquotePercent(h: char, l: char, rest: string)
    requires HexValue(h) >= 0 && HexValue(l) >= 0
    ensures UnquoteToBytes(['%', h, l] + rest) == [(HexValue(h) * 16 + HexValue(l)) as byte] + UnquoteToBytes(rest)
  {
    var e := ['%', h, l] + rest;
    assert e[0] == '%' && e[1] == h && e[2] == l && e[3..] == rest;
  }

  /** Percent-decoding undoes quote_from_bytes. */
  lemma {:induction false} UnquoteQuoteBytes(bs: seq<byte>)
    ensures UnquoteToBytes(QuoteBytes(bs)) == bs
  {
    if bs != [] {
      UnquoteEncodeByte(bs[0], QuoteBytes(bs[1..]));
      UnquoteQuoteBytes(bs[1..]);
      assert [bs[0]] + bs[1..] == bs;
    }
  }

  /** `unquote(quote(s)) == s` for every string. */
  lemma UnquoteQuote(s: string)
    ensures Unquote(Quote(s)) == Some(s)
  {
    UnquoteQuoteBytes(Encode(s));
    DecodeEncode(s);
  }

  /** Text made only of safe ASCII characters is its own quote. */
  lemma {:induction false} QuoteSafeText(s: string)
    requires forall i :: 0 <= i < |s| ==> IsSafeChar(s[i])
    ensures Quote(s) == s
  {
    if s != [] {
      QuoteSafeText(s[1..]);
      QuoteAppend([s[0]], s[1..]);
      assert [s[0]] + s[1..] == s;
      assert (s[0] as int as byte) as int as char == s[0];
    }
  }

  /** An ASCII character is quoted as its single byte. */
  lemma QuoteAsciiChar(c: char)
    requires c as int < 0x80
    ensures Quote([c]) == EncodeByte(c as int as byte)
  {
    assert [c][1..] == [];
    assert Encode([c]) == [c as int as byte];
    var b := c as int as byte;
    assert [b][1..] == [];
    assert QuoteBytes([b]) == EncodeByte(b) + QuoteBytes([]);
  }

  /**
   * Quoting `a`, then the ASCII character `c`, then a run `b` of safe characters:
   * the quote of `a`, then `c` encoded alone, then `b` copied.
   */
  lemma QuoteThenSafeRun(a: string, c: char, b: string)
    requires c as int < 0x80
    requires forall i :: 0 <= i < |b| ==> IsSafeChar(b[i])
    ensures Quote(a + [c] + b) == Quote(a) + EncodeByte(c as int as byte) + b
  {
    QuoteAppend(a + [c], b);
    QuoteAppend(a, [c]);
    QuoteSafeText(b);
    QuoteAsciiChar(c);
  }
}
