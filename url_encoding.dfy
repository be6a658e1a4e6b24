/**
 * PHP's `http_build_query($args, null, '&', PHP_QUERY_RFC1738)` over string
 * keys and values: every key and value is UTF-8 encoded and then
 * `urlencode`d (the RFC 1738 form encoding: letters, digits and `-_.` are
 * kept, a space becomes `+`, every other byte becomes `%` and two
 * upper-case hex digits), and the `key=value` pairs are joined with `&`.
 *
 * Beside the encoder, a strict decoder for it and the round trip that makes
 * it faithful: parsing a built query gives back exactly the pairs it was
 * built from.
 */
module UrlEncoding {
  import opened Php

  type Byte = b: int | 0 <= b < 256

  // ---------------------------------------------------------------- UTF-8

  predicate IsContinuation(b: Byte) {
    0x80 <= b < 0xC0
  }

  /** The UTF-8 bytes of one character. */
  function Utf8Char(c: char): (r: seq<Byte>)
    ensures 1 <= |r| <= 4
  {
    var cp := c as int;
    if cp < 0x80 then [cp]
    else if cp < 0x800 then [0xC0 + cp / 64, 0x80 + cp % 64]
    else if cp < 0x10000 then [0xE0 + cp / 4096, 0x80 + (cp / 64) % 64, 0x80 + cp % 64]
    else [0xF0 + cp / 262144, 0x80 + (cp / 4096) % 64, 0x80 + (cp / 64) % 64, 0x80 + cp % 64]
  }

  /** The UTF-8 bytes of a string. */
  function Utf8(s: string): (r: seq<Byte>)
    ensures |r| >= |s|
  {
    if s == [] then [] else Utf8Char(s[0]) + Utf8(s[1..])
  }

  predicate IsScalar(cp: int) {
    0 <= cp < 0xD800 || 0xE000 <= cp < 0x11_0000
  }

  /** Decodes the character at the front of `bs`, with the number of bytes it takes. */
  function DecodeFirst(bs: seq<Byte>): (r: Option<(char, nat)>)
    ensures r.Some? ==> 1 <= r.value.1 <= |bs|
  {
    if bs == [] then None
    else
      var b0: int := bs[0];
      if b0 < 0x80 then Some((b0 as char, 1))
      else if 0xC0 <= b0 < 0xE0 && |bs| >= 2 && IsContinuation(bs[1]) then
        var cp := (b0 - 0xC0) * 64 + (bs[1] as int - 0x80);
        if 0x80 <= cp then Some((cp as char, 2)) else None
      else if 0xE0 <= b0 < 0xF0 && |bs| >= 3 && IsContinuation(bs[1]) && IsContinuation(bs[2]) then
        var cp := (b0 - 0xE0) * 4096 + (bs[1] as int - 0x80) * 64 + (bs[2] as int - 0x80);
        if 0x800 <= cp && IsScalar(cp) then Some((cp as char, 3)) else None
      else if 0xF0 <= b0 < 0xF8 && |bs| >= 4 && IsContinuation(bs[1]) && IsContinuation(bs[2]) && IsContinuation(bs[3]) then
        var cp := (b0 - 0xF0) * 262144 + (bs[1] as int - 0x80) * 4096 + (bs[2] as int - 0x80) * 64 + (bs[3] as int - 0x80);
        if 0x10000 <= cp && IsScalar(cp) then Some((cp as char, 4)) else None
      else None
  }

  /** Strict UTF-8 decoding. */
  function DecodeUtf8(bs: seq<Byte>): Option<string>
    decreases |bs|
  {
    if bs == [] then Some([])
    else match DecodeFirst(bs)
      case None => None
      case Some(first) =>
        match DecodeUtf8(bs[first.1..])
        case None => None
        case Some(rest) => Some([first.0] + rest)
  }

  lemma DecodeFirstChar(c: char, rest: seq<Byte>)
    ensures DecodeFirst(Utf8Char(c) + rest) == Some((c, |Utf8Char(c)|))
  {
    var cp := c as int;
    var e := Utf8Char(c);
    var bs := e + rest;
    if cp < 0x80 {
      assert bs[0] == cp;
    } else if cp < 0x800 {
      assert bs[0] == 0xC0 + cp / 64 && bs[1] == 0x80 + cp % 64;
      assert (cp / 64) * 64 + cp % 64 == cp;
    } else if cp < 0x10000 {
      assert bs[0] == 0xE0 + cp / 4096 && bs[1] == 0x80 + (cp / 64) % 64 && bs[2] == 0x80 + cp % 64;
      Split3(cp);
    } else {
      assert bs[0] == 0xF0 + cp / 262144 && bs[1] == 0x80 + (cp / 4096) % 64;
      assert bs[2] == 0x80 + (cp / 64) % 64 && bs[3] == 0x80 + cp % 64;
      Split4(cp);
    }
  }

  lemma Split3(cp: nat)
    requires cp < 0x10000
    ensures cp / 4096 < 16
    ensures (cp / 4096) * 4096 + ((cp / 64) % 64) * 64 + cp % 64 == cp
  {
    var q := cp / 64;
    assert cp == q * 64 + cp % 64;
    assert q == (q / 64) * 64 + q % 64;
    assert cp / 4096 == q / 64;
  }

  lemma Split4(cp: nat)
    requires cp < 0x11_0000
    ensures cp / 262144 < 5
    ensures (cp / 262144) * 262144 + ((cp / 4096) % 64) * 4096 + ((cp / 64) % 64) * 64 + cp % 64 == cp
  {
    var q := cp / 64;
    var q2 := q / 64;
    assert cp == q * 64 + cp % 64;
    assert q == q2 * 64 + q % 64;
    assert q2 == (q2 / 64) * 64 + q2 % 64;
    assert cp / 4096 == q2;
    assert cp / 262144 == q2 / 64;
  }

  /** Decoding the UTF-8 form of a string gives the string back. */
  lemma {:induction false} Utf8RoundTrip(s: string)
    ensures DecodeUtf8(Utf8(s)) == Some(s)
  {
    if s != [] {
      var e, t := Utf8Char(s[0]), Utf8(s[1..]);
      assert Utf8(s) == e + t;
      DecodeFirstChar(s[0], t);
      assert (e + t)[|e|..] == t;
      Utf8RoundTrip(s[1..]);
      assert DecodeUtf8(e + t) == Some([s[0]] + s[1..]);
      assert [s[0]] + s[1..] == s;
    }
  }

  /** Distinct strings have distinct UTF-8 forms. */
  lemma Utf8Injective(s: string, t: string)
    requires Utf8(s) == Utf8(t)
    ensures s == t
  {
    Utf8RoundTrip(s);
    Utf8RoundTrip(t);
  }

  // ------------------------------------------------------- form encoding

  /** The upper-case hex digit of a value below 16. */
  function UpperHexDigit(k: int): (c: char)
    requires 0 <= k < 16
    ensures IsUpperHex(c)
  {
    if k < 10 then ('0' as int + k) as char else ('A' as int + k - 10) as char
  }

  predicate IsUpperHex(c: char) {
    '0' <= c <= '9' || 'A' <= c <= 'F'
  }

  /** The bytes `urlencode` leaves as they are: ASCII letters, digits, `-`, `_` and `.`. */
  predicate IsUnreserved(b: int) {
    ('a' as int <= b <= 'z' as int) || ('A' as int <= b <= 'Z' as int) || ('0' as int <= b <= '9' as int)
    || b == '-' as int || b == '_' as int || b == '.' as int
  }

  /** `urlencode` of one byte. */
  function EncodeByte(b: Byte): (r: string)
    ensures 1 <= |r| <= 3
  {
    if IsUnreserved(b) then [b as char]
    else if b == ' ' as int then "+"
    else ['%', UpperHexDigit(b / 16), UpperHexDigit(b % 16)]
  }

  function EncodeBytes(bs: seq<Byte>): string {
    if bs == [] then [] else EncodeByte(bs[0]) + EncodeBytes(bs[1..])
  }

  /** PHP `urlencode` of a UTF-8 string: letters, digits, `-`, `_` and `.`
      stay, a space becomes `+`, every other byte becomes `%XX`. */
  function UrlEncode(s: string): (r: string)
    ensures forall i :: 0 <= i < |r| ==> IsEncodedChar(r[i])
  {
    EncodedAlphabet(Utf8(s));
    EncodeBytes(Utf8(s))
  }

  /** The characters an encoded string is made of. */
  predicate IsEncodedChar(c: char) {
    IsUnreserved(c as int) || c == '+' || c == '%'
  }

  lemma {:induction false} EncodedAlphabet(bs: seq<Byte>)
    ensures forall i :: 0 <= i < |EncodeBytes(bs)| ==> IsEncodedChar(EncodeBytes(bs)[i])
  {
    if bs != [] {
      EncodedAlphabet(bs[1..]);
      var h, t := EncodeByte(bs[0]), EncodeBytes(bs[1..]);
      assert forall i :: 0 <= i < |h| ==> IsEncodedChar(h[i]);
      forall i | 0 <= i < |h + t| ensures IsEncodedChar((h + t)[i]) {
        if i >= |h| { assert (h + t)[i] == t[i - |h|]; }
      }
    }
  }

  /** An encoded string never contains the separators `&` and `=`. */
  lemma NoSeparators(s: string)
    ensures '&' !in UrlEncode(s) && '=' !in UrlEncode(s)
  {
  }

  function UpperHexValue(c: char): (v: int)
    ensures IsUpperHex(c) ==> 0 <= v < 16 && UpperHexDigit(v) == c
  {
    if '0' <= c <= '9' then c as int - '0' as int
    else if 'A' <= c <= 'F' then c as int - 'A' as int + 10
    else -1
  }

  function Prepend(b: Byte, rest: Option<seq<Byte>>): Option<seq<Byte>> {
    match rest
    case None => None
    case Some(bs) => Some([b] + bs)
  }

  /** The strict inverse of `EncodeBytes`: `+` is a space, `%XX` is a byte,
      unreserved characters stand for themselves, anything else is refused. */
  function DecodeBytes(s: string): Option<seq<Byte>>
    decreases |s|
  {
    if s == [] then Some([])
    else if s[0] == '+' then Prepend(' ' as int, DecodeBytes(s[1..]))
    else if s[0] == '%' then
      if |s| >= 3 && IsUpperHex(s[1]) && IsUpperHex(s[2])
      then Prepend(UpperHexValue(s[1]) * 16 + UpperHexValue(s[2]), DecodeBytes(s[3..]))
      else None
    else if IsUnreserved(s[0] as int) then Prepend(s[0] as int, DecodeBytes(s[1..]))
    else None
  }

  lemma DecodeEncodeByte(b: Byte, t: string)
    ensures DecodeBytes(EncodeByte(b) + t) == Prepend(b, DecodeBytes(t))
  {
    var s := EncodeByte(b) + t;
    if IsUnreserved(b) {
      assert s[0] == b as char && s[1..] == t;
    } else if b == ' ' as int {
      assert s[0] == '+' && s[1..] == t;
    } else {
      var hi, lo := b / 16, b % 16;
      assert s[0] == '%' && s[1] == UpperHexDigit(hi) && s[2] == UpperHexDigit(lo) && s[3..] == t;
      assert UpperHexValue(s[1]) == hi && UpperHexValue(s[2]) == lo;
    }
  }

  lemma {:induction false} DecodeEncodeBytes(bs: seq<Byte>)
    ensures DecodeBytes(EncodeBytes(bs)) == Some(bs)
  {
    if bs != [] {
      DecodeEncodeByte(bs[0], EncodeBytes(bs[1..]));
      DecodeEncodeBytes(bs[1..]);
      assert [bs[0]] + bs[1..] == bs;
    }
  }

  /** Decoding a `urlencode`d string, then its UTF-8, gives the string back. */
  function UrlDecode(s: string): Option<string> {
    match DecodeBytes(s)
    case None => None
    case Some(bs) => DecodeUtf8(bs)
  }

  lemma UrlRoundTrip(s: string)
    ensures UrlDecode(UrlEncode(s)) == Some(s)
  {
    DecodeEncodeBytes(Utf8(s));
    Utf8RoundTrip(s);
  }

  // --------------------------------------------------------- query strings

  function EncodePair(p: (string, string)): string {
    UrlEncode(p.0) + "=" + UrlEncode(p.1)
  }

  /** `http_build_query($args, null, '&', PHP_QUERY_RFC1738)` for string values. */
  function BuildQuery(args: seq<(string, string)>): (r: string)
    ensures r == "" <==> args == []
  {
    if args == [] then ""
    else if |args| == 1 then EncodePair(args[0])
    else EncodePair(args[0]) + "&" + BuildQuery(args[1..])
  }

  /** Splits `s` at every occurrence of `sep`. */
  function Split(s: string, sep: char): (r: seq<string>)
    ensures |r| >= 1
    decreases |s|
  {
    var head := BeforeFirst(s, sep);
    if |head| == |s| then [s] else [head] + Split(s[|head| + 1..], sep)
  }

  lemma BeforeFirstJoin(a: string, sep: char, b: string)
    requires sep !in a
    ensures BeforeFirst(a + [sep] + b, sep) == a
  {
    var s := a + [sep] + b;
    var h := BeforeFirst(s, sep);
    assert forall i :: 0 <= i < |a| ==> s[i] == a[i] && a[i] != sep;
    assert s[|a|] == sep;
    assert |h| == |a|;
    assert h == s[..|h|] == a;
  }

  lemma BeforeFirstWhole(a: string, sep: char)
    requires sep !in a
    ensures BeforeFirst(a, sep) == a
  {
    var h := BeforeFirst(a, sep);
    assert forall i :: 0 <= i < |a| ==> a[i] != sep;
  }

  /** Splits one `key=value` piece and decodes both halves. */
  function ParsePair(p: string): Option<(string, string)> {
    var k := BeforeFirst(p, '=');
    if |k| == |p| then None
    else match (UrlDecode(k), UrlDecode(p[|k| + 1..]))
      case (Some(key), Some(value)) => Some((key, value))
      case _ => None
  }

  function ParsePairs(pieces: seq<string>): Option<seq<(string, string)>> {
    if pieces == [] then Some([])
    else match (ParsePair(pieces[0]), ParsePairs(pieces[1..]))
      case (Some(p), Some(rest)) => Some([p] + rest)
      case _ => None
  }

  /** Reads a query string back into its pairs. */
  function ParseQuery(q: string): Option<seq<(string, string)>> {
    if q == "" then Some([]) else ParsePairs(Split(q, '&'))
  }

  lemma ParseEncodedPair(p: (string, string))
    ensures '&' !in EncodePair(p)
    ensures ParsePair(EncodePair(p)) == Some(p)
  {
    NoSeparators(p.0);
    NoSeparators(p.1);
    var k, v := UrlEncode(p.0), UrlEncode(p.1);
    var s := EncodePair(p);
    assert s == k + ['='] + v;
    BeforeFirstJoin(k, '=', v);
    assert s[|k| + 1..] == v;
    assert '&' !in s by {
      assert forall i :: 0 <= i < |s| ==> (i < |k| && s[i] == k[i]) || i == |k| || s[i] == v[i - |k| - 1];
    }
    UrlRoundTrip(p.0);
    UrlRoundTrip(p.1);
  }

  lemma {:induction false} SplitBuilt(args: seq<(string, string)>)
    requires args != []
    ensures Split(BuildQuery(args), '&') == EncodedPieces(args)
  {
    ParseEncodedPair(args[0]);
    var h := EncodePair(args[0]);
    if |args| == 1 {
      BeforeFirstWhole(h, '&');
    } else {
      var t := BuildQuery(args[1..]);
      var s := h + ['&'] + t;
      assert BuildQuery(args) == s;
      BeforeFirstJoin(h, '&', t);
      assert s[|h| + 1..] == t;
      SplitBuilt(args[1..]);
    }
  }

  /** The encoded pieces of a query, one per pair. */
  function EncodedPieces(args: seq<(string, string)>): (r: seq<string>)
    ensures |r| == |args|
  {
    if args == [] then [] else [EncodePair(args[0])] + EncodedPieces(args[1..])
  }

  lemma {:induction false} ParsePieces(args: seq<(string, string)>)
    ensures ParsePairs(EncodedPieces(args)) == Some(args)
  {
    if args != [] {
      ParseEncodedPair(args[0]);
      ParsePieces(args[1..]);
      var m := EncodedPieces(args);
      assert m[0] == EncodePair(args[0]) && m[1..] == EncodedPieces(args[1..]);
      assert [args[0]] + args[1..] == args;
    }
  }

  /** A built query parses back to exactly the pairs it was built from, in order. */
  lemma QueryRoundTrip(args: seq<(string, string)>)
    ensures ParseQuery(BuildQuery(args)) == Some(args)
  {
    if args != [] {
      ParseEncodedPair(args[0]);
      assert BuildQuery(args) != "" by {
        assert '=' in EncodePair(args[0]);
        assert |BuildQuery(args)| >= |EncodePair(args[0])|;
      }
      SplitBuilt(args);
      ParsePieces(args);
    }
  }
}
