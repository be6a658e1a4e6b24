/**
 * `generate_unique_request_id`: a UUID-shaped identifier built by one
 * `sprintf` over eight pseudo-random draws. The draws are parameters here.
 *
 * The layout is `%04x%04x-%04x-%03x4-%04x-%04x%04x%04x`. It resembles a
 * version-4 UUID but is not one: the literal `4` is the LAST character of the
 * third group (index 17), and the forced bits `01` are bits 9 and 8 of the
 * fifth draw (characters 6 and 7 of its 16-character binary form), which makes
 * the second character of the fourth group (index 20) one of 1, 5, 9, d.
 */
module RequestId {

  const LowerHex: string := "0123456789abcdef"

  predicate IsLowerHex(c: char) {
    c in LowerHex
  }

  function Pow(b: nat, e: nat): (r: nat)
    requires b >= 1
    ensures r >= 1
  {
    if e == 0 then 1 else b * Pow(b, e - 1)
  }

  /** `sprintf('%0<w>x', n)` for an `n` that fits in `w` hex digits. */
  function HexPad(n: nat, w: nat): (r: string)
    requires n < Pow(16, w)
    ensures |r| == w
    ensures forall i :: 0 <= i < |r| ==> IsLowerHex(r[i])
  {
    if w == 0 then [] else HexPad(n / 16, w - 1) + [LowerHex[n % 16]]
  }

  /** The value of a lower-case hex digit (its index in `LowerHex`). */
  function HexValue(c: char): (v: nat)
    ensures IsLowerHex(c) ==> v < 16 && LowerHex[v] == c
  {
    if '0' <= c <= '9' then c as int - '0' as int
    else if 'a' <= c <= 'f' then c as int - 'a' as int + 10
    else 0
  }

  /** `hexdec()` over a string of lower-case hex digits. */
  function ParseHex(s: string): nat {
    if s == [] then 0 else ParseHex(s[..|s| - 1]) * 16 + HexValue(s[|s| - 1])
  }

  /** Reading a padded hex rendering back gives the number rendered. */
  lemma {:induction false} ParseHexPad(n: nat, w: nat)
    requires n < Pow(16, w)
    ensures ParseHex(HexPad(n, w)) == n
  {
    if w > 0 {
      var q, d := n / 16, n % 16;
      assert Pow(16, w) == 16 * Pow(16, w - 1);
      DivBelow(n, Pow(16, w - 1));
      var s := HexPad(n, w);
      assert s[..|s| - 1] == HexPad(q, w - 1) && s[|s| - 1] == LowerHex[d];
      HexValueOfDigit(d);
      ParseHexPad(q, w - 1);
    }
  }

  lemma HexValueOfDigit(d: nat)
    requires d < 16
    ensures HexValue(LowerHex[d]) == d
  {
    assert LowerHex == ['0', '1', '2', '3', '4', '5', '6', '7', '8', '9', 'a', 'b', 'c', 'd', 'e', 'f'];
  }

  lemma DivBelow(n: nat, p: nat)
    requires n < 16 * p
    ensures n / 16 < p && n == n / 16 * 16 + n % 16
  {
  }

  /** The digits of a four-digit rendering, most significant first. */
  lemma HexPad4Digits(n: nat)
    requires n < 65536
    ensures Pow(16, 4) == 65536
    ensures HexPad(n, 4)[1] == LowerHex[(n / 256) % 16]
  {
    assert Pow(16, 4) == 65536;
    assert HexPad(n, 4)[1] == HexPad(n / 16, 3)[1] == HexPad(n / 16 / 16, 2)[1];
    assert n / 16 / 16 == n / 256;
  }

  /** `sprintf('%016b', n)` for `n < 2^w`. */
  function BinPad(n: nat, w: nat): (r: string)
    requires n < Pow(2, w)
    ensures |r| == w
  {
    if w == 0 then [] else BinPad(n / 2, w - 1) + [if n % 2 == 1 then '1' else '0']
  }

  /** `bindec()` over a string of '0' and '1', most significant bit first. */
  function BinDec(s: string): (r: nat)
    ensures r < Pow(2, |s|)
  {
    if s == [] then 0 else BinDec(s[..|s| - 1]) * 2 + (if s[|s| - 1] == '1' then 1 else 0)
  }

  lemma {:induction false} BinDecPad(n: nat, w: nat)
    requires n < Pow(2, w)
    ensures BinDec(BinPad(n, w)) == n
  {
    if w > 0 {
      var s := BinPad(n, w);
      assert s[..|s| - 1] == BinPad(n / 2, w - 1);
      BinDecPad(n / 2, w - 1);
    }
  }

  lemma {:induction false} BinDecConcat(a: string, b: string)
    ensures BinDec(a + b) == BinDec(a) * Pow(2, |b|) + BinDec(b)
  {
    if b == [] {
      assert a + b == a;
    } else {
      var ab := a + b;
      var b' := b[..|b| - 1];
      assert ab[..|ab| - 1] == a + b';
      assert ab[|ab| - 1] == b[|b| - 1];
      BinDecConcat(a, b');
      var bit := if b[|b| - 1] == '1' then 1 else 0;
      var x, p, y := BinDec(a), Pow(2, |b'|), BinDec(b');
      assert BinDec(ab) == (x * p + y) * 2 + bit;
      assert BinDec(b) == y * 2 + bit;
      assert Pow(2, |b|) == 2 * p;
      Distribute(x, p, y, bit);
    }
  }

  lemma Distribute(x: nat, p: nat, y: nat, bit: nat)
    ensures (x * p + y) * 2 + bit == x * (2 * p) + (y * 2 + bit)
  {
  }

  /** PHP `substr_replace($s, $rep, $at, $len)` for an in-range window. */
  function SubstrReplace(s: string, rep: string, at: nat, len: nat): (r: string)
    requires at + len <= |s|
    ensures |r| == |s| - len + |rep|
    ensures r[..at] == s[..at] && r[at..at + |rep|] == rep && r[at + |rep|..] == s[at + len..]
  {
    s[..at] + rep + s[at + len..]
  }

  /** The fifth draw after its binary characters 6 and 7 are replaced by "01". */
  function Forced(n: nat): (r: nat)
    requires n < 65536
    ensures r < 65536
    ensures r % 256 == n % 256 && r / 1024 == n / 1024
    ensures (r / 256) % 4 == 1
  {
    assert Pow(2, 16) == 65536 by {
      assert Pow(2, 8) == 256;
    }
    var s := BinPad(n, 16);
    ForcedValue(s);
    BinDecPad(n, 16);
    BinDec(SubstrReplace(s, "01", 6, 2))
  }

  /** The value of a 16-character binary string once its characters 6 and 7
      read "01": only bits 9 and 8 differ from the string's own value. */
  lemma ForcedValue(s: string)
    requires |s| == 16
    ensures var v := BinDec(s); var r := BinDec(SubstrReplace(s, "01", 6, 2));
      r < 65536 && r % 256 == v % 256 && r / 1024 == v / 1024 && (r / 256) % 4 == 1
  {
    var hi, mid, lo := s[..6], s[6..8], s[8..];
    assert s == hi + mid + lo;
    var t := SubstrReplace(s, "01", 6, 2);
    assert t == hi + "01" + lo;
    BinDecThree(hi, mid, lo);
    BinDecThree(hi, "01", lo);
    BinDecBits01();
    assert Pow(2, 2) == 4 && Pow(2, 8) == 256 && Pow(2, 6) == 64;
    ForcedArith(BinDec(hi), BinDec(mid), BinDec(lo));
  }

  /** The value of three binary strings written one after another. */
  lemma BinDecThree(a: string, b: string, c: string)
    ensures BinDec(a + b + c) == (BinDec(a) * Pow(2, |b|) + BinDec(b)) * Pow(2, |c|) + BinDec(c)
  {
    BinDecConcat(a + b, c);
    BinDecConcat(a, b);
  }

  lemma BinDecBits01()
    ensures BinDec("01") == 1
  {
    assert "01"[..1] == "0";
    assert "0"[..0] == [];
  }

  lemma ForcedArith(A: nat, M: nat, L: nat)
    requires A < 64 && M < 4 && L < 256
    ensures var v, r := (A * 4 + M) * 256 + L, (A * 4 + 1) * 256 + L;
      r < 65536 && r % 256 == v % 256 && r / 1024 == v / 1024 && (r / 256) % 4 == 1
  {
    var v, r := A * 1024 + M * 256 + L, A * 1024 + 256 + L;
    assert v == (A * 4 + M) * 256 + L && r == (A * 4 + 1) * 256 + L;
    assert v / 1024 == A && v % 256 == L;
    assert r / 1024 == A && r % 256 == L;
    assert r / 256 == A * 4 + 1;
  }

  /** Each draw lies in the range its `mt_rand` call gives. */
  predicate DrawsInRange(d1: nat, d2: nat, d3: nat, d4: nat, d5: nat, d6: nat, d7: nat, d8: nat) {
    d1 < 65536 && d2 < 65536 && d3 < 65536 && d4 < 4096 &&
    d5 < 65536 && d6 < 65536 && d7 < 65536 && d8 < 65536
  }

  predicate AllHex(s: string) {
    forall i :: 0 <= i < |s| ==> IsLowerHex(s[i])
  }

  lemma AllHexConcat(s: string, t: string)
    requires AllHex(s) && AllHex(t)
    ensures AllHex(s + t)
  {
    forall i | 0 <= i < |s + t| ensures IsLowerHex((s + t)[i]) {
      if i >= |s| { assert (s + t)[i] == t[i - |s|]; }
    }
  }

  /** The forced group's second digit is 1, 5, 9 or d. */
  lemma ForcedDigit(f: nat)
    requires f < 65536 && (f / 256) % 4 == 1
    ensures Pow(16, 4) == 65536
    ensures HexPad(f, 4)[1] in "159d"
  {
    HexPad4Digits(f);
    var q := (f / 256) % 16;
    assert q % 4 == 1;
    assert q == 1 || q == 5 || q == 9 || q == 13;
  }

  /** The five dash-separated groups of an identifier, laid out as 8-4-4-4-12. */
  function Dashed(a: string, b: string, c: string, d: string, e: string): (r: string)
    requires |a| == 8 && |b| == 4 && |c| == 4 && |d| == 4 && |e| == 12
    ensures |r| == 36
    ensures r[8] == '-' && r[13] == '-' && r[18] == '-' && r[23] == '-'
    ensures r[0..8] == a && r[9..13] == b && r[14..18] == c && r[19..23] == d && r[24..36] == e
  {
    var r := a + "-" + b + "-" + c + "-" + d + "-" + e;
    assert r[0..8] == a;
    assert r[9..13] == b;
    assert r[14..18] == c;
    assert r[19..23] == d;
    assert r[24..36] == e;
    r
  }

  lemma DashedHex(a: string, b: string, c: string, d: string, e: string)
    requires |a| == 8 && |b| == 4 && |c| == 4 && |d| == 4 && |e| == 12
    requires AllHex(a) && AllHex(b) && AllHex(c) && AllHex(d) && AllHex(e)
    ensures var r := Dashed(a, b, c, d, e);
      forall i :: 0 <= i < 36 && i != 8 && i != 13 && i != 18 && i != 23 ==> IsLowerHex(r[i])
  {
    var r := Dashed(a, b, c, d, e);
    forall i | 0 <= i < 36 && i != 8 && i != 13 && i != 18 && i != 23
      ensures IsLowerHex(r[i])
    {
      if i < 8 { assert r[i] == r[0..8][i]; }
      else if i < 13 { assert r[i] == r[9..13][i - 9]; }
      else if i < 18 { assert r[i] == r[14..18][i - 14]; }
      else if i < 23 { assert r[i] == r[19..23][i - 19]; }
      else { assert r[i] == r[24..36][i - 24]; }
    }
  }

  /** `generate_unique_request_id()` with its eight draws as parameters. */
  function GenerateUniqueRequestId(d1: nat, d2: nat, d3: nat, d4: nat, d5: nat, d6: nat, d7: nat, d8: nat): (r: string)
    requires DrawsInRange(d1, d2, d3, d4, d5, d6, d7, d8)
    ensures |r| == 36
    ensures r[8] == '-' && r[13] == '-' && r[18] == '-' && r[23] == '-'
    ensures forall i :: 0 <= i < 36 && i != 8 && i != 13 && i != 18 && i != 23 ==> IsLowerHex(r[i])
    ensures r[17] == '4'
    ensures r[20] in "159d"
  {
    assert Pow(16, 4) == 65536 && Pow(16, 3) == 4096;
    var f := Forced(d5);
    ForcedDigit(f);
    var a, b, c, d, e := HexPad(d1, 4) + HexPad(d2, 4), HexPad(d3, 4), HexPad(d4, 3) + "4",
      HexPad(f, 4), HexPad(d6, 4) + HexPad(d7, 4) + HexPad(d8, 4);
    AllHexConcat(HexPad(d1, 4), HexPad(d2, 4));
    AllHexConcat(HexPad(d4, 3), "4");
    AllHexConcat(HexPad(d6, 4), HexPad(d7, 4));
    AllHexConcat(HexPad(d6, 4) + HexPad(d7, 4), HexPad(d8, 4));
    DashedHex(a, b, c, d, e);
    var r := Dashed(a, b, c, d, e);
    assert r[17] == r[14..18][3] && r[20] == r[19..23][1];
    r
  }

  /** Every unforced group reads back as its own draw, and the forced group
      reads back as the forced value: the identifier is a deterministic,
      recoverable function of the draws. */
  lemma GroupsRoundTrip(d1: nat, d2: nat, d3: nat, d4: nat, d5: nat, d6: nat, d7: nat, d8: nat)
    requires DrawsInRange(d1, d2, d3, d4, d5, d6, d7, d8)
    ensures var r := GenerateUniqueRequestId(d1, d2, d3, d4, d5, d6, d7, d8);
      && ParseHex(r[0..4]) == d1 && ParseHex(r[4..8]) == d2
      && ParseHex(r[9..13]) == d3 && ParseHex(r[14..17]) == d4
      && ParseHex(r[19..23]) == Forced(d5)
      && ParseHex(r[24..28]) == d6 && ParseHex(r[28..32]) == d7 && ParseHex(r[32..36]) == d8
  {
    assert Pow(16, 4) == 65536 && Pow(16, 3) == 4096;
    var r := GenerateUniqueRequestId(d1, d2, d3, d4, d5, d6, d7, d8);
    var f := Forced(d5);
    var a, b, c, d, e := HexPad(d1, 4) + HexPad(d2, 4), HexPad(d3, 4), HexPad(d4, 3) + "4",
      HexPad(f, 4), HexPad(d6, 4) + HexPad(d7, 4) + HexPad(d8, 4);
    assert r == Dashed(a, b, c, d, e);
    assert r[0..4] == a[0..4] == HexPad(d1, 4) && r[4..8] == a[4..8] == HexPad(d2, 4);
    assert r[14..17] == c[0..3] == HexPad(d4, 3);
    assert r[24..28] == e[0..4] == HexPad(d6, 4);
    assert r[28..32] == e[4..8] == HexPad(d7, 4);
    assert r[32..36] == e[8..12] == HexPad(d8, 4);
    ParseHexPad(d1, 4); ParseHexPad(d2, 4); ParseHexPad(d3, 4); ParseHexPad(d4, 3);
    ParseHexPad(f, 4); ParseHexPad(d6, 4); ParseHexPad(d7, 4); ParseHexPad(d8, 4);
  }

  /** Two identifiers are equal only when their draws agree, except for bits
      9 and 8 of the fifth draw, which the format overwrites. */
  lemma IdentifiesDraws(d1: nat, d2: nat, d3: nat, d4: nat, d5: nat, d6: nat, d7: nat, d8: nat,
                        e1: nat, e2: nat, e3: nat, e4: nat, e5: nat, e6: nat, e7: nat, e8: nat)
    requires DrawsInRange(d1, d2, d3, d4, d5, d6, d7, d8)
    requires DrawsInRange(e1, e2, e3, e4, e5, e6, e7, e8)
    ensures GenerateUniqueRequestId(d1, d2, d3, d4, d5, d6, d7, d8) == GenerateUniqueRequestId(e1, e2, e3, e4, e5, e6, e7, e8)
      <==> (d1, d2, d3, d4, d6, d7, d8) == (e1, e2, e3, e4, e6, e7, e8) && d5 % 256 == e5 % 256 && d5 / 1024 == e5 / 1024
  {
    GroupsRoundTrip(d1, d2, d3, d4, d5, d6, d7, d8);
    GroupsRoundTrip(e1, e2, e3, e4, e5, e6, e7, e8);
    var f, g := Forced(d5), Forced(e5);
    if d5 % 256 == e5 % 256 && d5 / 1024 == e5 / 1024 {
      ForcedDetermined(f, g);
    }
    if f == g {
      assert d5 % 256 == e5 % 256 && d5 / 1024 == e5 / 1024;
    }
  }

  lemma ForcedDetermined(f: nat, g: nat)
    requires f < 65536 && g < 65536
    requires f % 256 == g % 256 && f / 1024 == g / 1024 && (f / 256) % 4 == 1 && (g / 256) % 4 == 1
    ensures f == g
  {
    assert f == (f / 1024) * 1024 + ((f / 256) % 4) * 256 + f % 256;
    assert g == (g / 1024) * 1024 + ((g / 256) % 4) * 256 + g % 256;
  }
}
