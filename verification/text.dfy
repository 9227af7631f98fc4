/** String operations the telemetry code relies on: hexadecimal encoding of
    random and hashed bytes, decimal rendering of numbers, `includes`,
    `endsWith`, `split` and `trim`. */
module Text {

  type Byte = x: int | 0 <= x < 256

  predicate IsHexChar(c: char) {
    '0' <= c <= '9' || 'a' <= c <= 'f'
  }

  predicate IsDigit(c: char) {
    '0' <= c <= '9'
  }

  function HexDigit(d: int): (c: char)
    requires 0 <= d < 16
    ensures IsHexChar(c)
  {
    if d < 10 then ('0' as int + d) as char else ('a' as int + d - 10) as char
  }

  function HexValue(c: char): (d: int)
    requires IsHexChar(c)
    ensures 0 <= d < 16
  {
    if c <= '9' then c as int - '0' as int else c as int - 'a' as int + 10
  }

  /** `buffer.toString('hex')`: two lower-case digits per byte. */
  function Hex(bs: seq<Byte>): (h: string)
    ensures |h| == 2 * |bs|
    ensures forall i :: 0 <= i < |h| ==> IsHexChar(h[i])
  {
    if bs == [] then "" else [HexDigit(bs[0] / 16), HexDigit(bs[0] % 16)] + Hex(bs[1..])
  }

  /** Reads back a string of hex digit pairs. */
  function UnHex(h: string): seq<Byte>
    requires |h| % 2 == 0
    requires forall i :: 0 <= i < |h| ==> IsHexChar(h[i])
  {
    if h == "" then [] else [HexValue(h[0]) * 16 + HexValue(h[1])] + UnHex(h[2..])
  }

  /** Hex encoding loses nothing: the bytes can be read back from it. */
  lemma {:induction false} HexRoundTrip(bs: seq<Byte>)
    ensures UnHex(Hex(bs)) == bs
  {
    if bs != [] {
      var h := Hex(bs);
      assert h[2..] == Hex(bs[1..]);
      HexRoundTrip(bs[1..]);
      assert HexValue(HexDigit(bs[0] / 16)) == bs[0] / 16;
      assert HexValue(HexDigit(bs[0] % 16)) == bs[0] % 16;
    }
  }

  /** The hex of a prefix is the prefix of the hex: the first `2k` digits
      encode the first `k` bytes. */
  lemma {:induction false} HexPrefix(bs: seq<Byte>, k: nat)
    requires k <= |bs|
    ensures Hex(bs)[..2 * k] == Hex(bs[..k])
  {
    if k > 0 {
      HexPrefix(bs[1..], k - 1);
      assert bs[..k][1..] == bs[1..][..k - 1];
      assert Hex(bs)[2..] == Hex(bs[1..]);
      assert Hex(bs[..k])[2..] == Hex(bs[..k][1..]);
    }
  }

  /** `String(n)` for a natural number: its decimal digits. */
  function Decimal(n: nat): (s: string)
    ensures |s| >= 1
    ensures forall i :: 0 <= i < |s| ==> IsDigit(s[i])
  {
    if n < 10 then [('0' as int + n) as char] else Decimal(n / 10) + [('0' as int + n % 10) as char]
  }

  /** The number a string of decimal digits denotes. */
  function DecimalValue(s: string): nat
    requires forall i :: 0 <= i < |s| ==> IsDigit(s[i])
  {
    if s == [] then 0
    else
      assert IsDigit(s[|s| - 1]);
      DecimalValue(s[..|s| - 1]) * 10 + (s[|s| - 1] as int - '0' as int)
  }

  /** Decimal rendering loses nothing: the number can be read back from it. */
  lemma {:induction false} DecimalRoundTrip(n: nat)
    ensures DecimalValue(Decimal(n)) == n
  {
    var s := Decimal(n);
    if n >= 10 {
      assert s[..|s| - 1] == Decimal(n / 10);
      DecimalRoundTrip(n / 10);
    }
  }

  /** `sub` occurs in `s` at index `i`. */
  predicate OccursAt(s: string, sub: string, i: int) {
    0 <= i && i + |sub| <= |s| && s[i..i + |sub|] == sub
  }

  /** `s.includes(sub)`. */
  predicate Contains(s: string, sub: string) {
    exists i | 0 <= i <= |s| :: OccursAt(s, sub, i)
  }

  predicate StartsWith(s: string, prefix: string) {
    |prefix| <= |s| && s[..|prefix|] == prefix
  }

  /** `s.endsWith(suffix)`. */
  predicate EndsWith(s: string, suffix: string) {
    |suffix| <= |s| && s[|s| - |suffix|..] == suffix
  }

  /** A string contains every string it ends with. */
  lemma EndsWithContains(s: string, suffix: string)
    requires EndsWith(s, suffix)
    ensures Contains(s, suffix)
  {
    assert OccursAt(s, suffix, |s| - |suffix|);
  }

  /** The text before the first `c`, or all of `s`: `s.split(c)[0]`. */
  function Before(s: string, c: char): (r: string)
    ensures c !in r
    ensures StartsWith(s, r)
    ensures |r| < |s| ==> s[|r|] == c
  {
    if s == [] then []
    else if s[0] == c then []
    else [s[0]] + Before(s[1..], c)
  }

  /** The text after the first `c`, or "" when there is none:
      `s.split(c).slice(1).join(c)`. */
  function After(s: string, c: char): (r: string)
    ensures c in s ==> s == Before(s, c) + [c] + r
    ensures c !in s ==> r == ""
  {
    var b := Before(s, c);
    if |b| < |s| then
      assert s == b + [c] + s[|b| + 1..];
      s[|b| + 1..]
    else
      assert b == s;
      ""
  }

  /** A first part free of `c`, then `c`: the part before is the first part. */
  lemma {:induction false} BeforeFirst(first: string, c: char, rest: string)
    requires c !in first
    ensures Before(first + [c] + rest, c) == first
  {
    if first != [] {
      assert (first + [c] + rest)[1..] == first[1..] + [c] + rest;
      BeforeFirst(first[1..], c, rest);
    }
  }

  /** The white space `String.prototype.trim` removes (the ASCII part). */
  predicate IsSpace(c: char) {
    c == ' ' || c == '\t' || c == '\n' || c == '\r' || c as int == 0x0C || c as int == 0x0B
  }

  function TrimStart(s: string): (r: string)
    ensures |r| <= |s| && r == s[|s| - |r|..]
    ensures r != [] ==> !IsSpace(r[0])
    ensures forall i :: 0 <= i < |s| - |r| ==> IsSpace(s[i])
  {
    if s != [] && IsSpace(s[0]) then TrimStart(s[1..]) else s
  }

  function TrimEnd(s: string): (r: string)
    ensures |r| <= |s| && r == s[..|r|]
    ensures r != [] ==> !IsSpace(r[|r| - 1])
    ensures forall i :: |r| <= i < |s| ==> IsSpace(s[i])
  {
    if s != [] && IsSpace(s[|s| - 1]) then TrimEnd(s[..|s| - 1]) else s
  }

  /** `s.trim()`: neither end of the result is white space, the result is a
      piece of `s`, and it is empty exactly when `s` is all white space. */
  function Trim(s: string): (r: string)
    ensures r != [] ==> !IsSpace(r[0]) && !IsSpace(r[|r| - 1])
    ensures Contains(s, r)
    ensures r == [] <==> forall i :: 0 <= i < |s| ==> IsSpace(s[i])
  {
    var t := TrimStart(s);
    var r := TrimEnd(t);
    assert OccursAt(s, r, |s| - |t|);
    r
  }
}
