/**
 * The few PHP language facilities the plugin's logic depends on, stated
 * precisely: the `empty()` test, `trim()`, the first piece of `explode()`,
 * `substr($s, 0, $n)`, scalar PHP values, and ordered key/value lists.
 */
module Php {

  datatype Option<+T> = None | Some(value: T)

  /** A scalar PHP value as the plugin handles it: decoded JSON fields and
      option values. Floats and arrays are not modelled. */
  datatype PhpValue =
    | PNull
    | PBool(b: bool)
    | PInt(i: int)
    | PStr(s: string)

  /** PHP `empty()` over a value that is either a string or null: true for
      null, for the empty string and for the string "0". */
  predicate IsEmpty(v: Option<string>) {
    v.None? || v.value == "" || v.value == "0"
  }

  /** A string that may be absent, as a PHP value (absent is null). */
  function StrOrNull(v: Option<string>): (r: PhpValue)
    ensures v.None? <==> r == PNull
    ensures v.Some? ==> r == PStr(v.value)
  {
    match v
    case None => PNull
    case Some(s) => PStr(s)
  }

  /** PHP string conversion of a value that is a string or null
      (null converts to the empty string). */
  function TextOf(v: Option<string>): string {
    match v
    case None => ""
    case Some(s) => s
  }

  /** The characters PHP's `trim()` strips by default:
      space, tab, line feed, carriage return, NUL and vertical tab. */
  predicate IsTrimmable(c: char) {
    c == ' ' || c == '\t' || c == '\n' || c == '\r' || c == '\0' || c == '\U{000B}'
  }

  predicate AllTrimmable(s: string) {
    forall i :: 0 <= i < |s| ==> IsTrimmable(s[i])
  }

  /** `ltrim()`: the longest suffix of `s` that does not start with a trimmable character. */
  function TrimLeft(s: string): (r: string)
    ensures |r| <= |s| && r == s[|s| - |r|..]
    ensures AllTrimmable(s[..|s| - |r|])
    ensures r != [] ==> !IsTrimmable(r[0])
  {
    if s != [] && IsTrimmable(s[0]) then TrimLeft(s[1..]) else s
  }

  /** `rtrim()`: the longest prefix of `s` that does not end with a trimmable character. */
  function TrimRight(s: string): (r: string)
    ensures |r| <= |s| && r == s[..|r|]
    ensures AllTrimmable(s[|r|..])
    ensures r != [] ==> !IsTrimmable(r[|r| - 1])
  {
    if s != [] && IsTrimmable(s[|s| - 1]) then TrimRight(s[..|s| - 1]) else s
  }

  /** `trim()`: strips trimmable characters at both ends. The result is the
      left-trimmed text cut before a tail of trimmable characters. */
  function Trim(s: string): (r: string)
    ensures r <= TrimLeft(s) && AllTrimmable(TrimLeft(s)[|r|..])
    ensures r != [] ==> !IsTrimmable(r[0]) && !IsTrimmable(r[|r| - 1])
    ensures r == [] <==> AllTrimmable(s)
  {
    var l := TrimLeft(s);
    var r := TrimRight(l);
    assert r != [] ==> r[0] == l[0];
    TrimmedEmpty(s);
    r
  }

  lemma TrimmedEmpty(s: string)
    ensures TrimRight(TrimLeft(s)) == [] <==> AllTrimmable(s)
  {
    var l := TrimLeft(s);
    var d := s[..|s| - |l|];
    assert s == d + l;
  }

  /** Trimming is idempotent. */
  lemma TrimIdempotent(s: string)
    ensures Trim(Trim(s)) == Trim(s)
  {
    var t := Trim(s);
    assert TrimLeft(t) == t;
    assert TrimRight(t) == t;
  }

  /** `explode($sep, $s)[0]`: the text before the first `sep`, or all of `s`
      when `sep` does not occur. */
  function BeforeFirst(s: string, sep: char): (r: string)
    ensures r <= s
    ensures sep !in r
    ensures |r| < |s| ==> s[|r|] == sep
  {
    if s == [] then []
    else if s[0] == sep then []
    else [s[0]] + BeforeFirst(s[1..], sep)
  }

  /** `substr($s, 0, $n)` for `$n >= 0`: the first `n` characters, or the
      whole string when it is shorter. */
  function Prefix(s: string, n: nat): (r: string)
    ensures r <= s
    ensures |r| == if |s| < n then |s| else n
  {
    if |s| < n then s else s[..n]
  }

  /** The value stored under key `k` in a PHP array, if any. */
  function Get<V>(entries: seq<(string, V)>, k: string): (r: Option<V>)
  {
    if entries == [] then None
    else if entries[0].0 == k then Some(entries[0].1)
    else Get(entries[1..], k)
  }

  /** The keys of a PHP array, in order. */
  function Keys<V>(entries: seq<(string, V)>): (r: seq<string>)
    ensures |r| == |entries|
    ensures forall i :: 0 <= i < |r| ==> r[i] == entries[i].0
  {
    if entries == [] then [] else [entries[0].0] + Keys(entries[1..])
  }

  /** A PHP array has each key at most once. */
  predicate DistinctKeys<V>(entries: seq<(string, V)>) {
    forall i, j :: 0 <= i < j < |entries| ==> entries[i].0 != entries[j].0
  }
}
