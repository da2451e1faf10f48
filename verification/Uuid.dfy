/** The textual form of UUIDs: 32 hexadecimal digits in five groups (section 3 of RFC 4122). */
module Uuid {
  import opened Wrappers

  function Pow16(n: nat): nat {
    if n == 0 then 1 else 16 * Pow16(n - 1)
  }

  /** A 128-bit identifier. */
  predicate IsUuid(n: nat) {
    n < Pow16(32)
  }

  function DigitOf(c: char): Option<nat> {
    if '0' <= c <= '9' then Some((c - '0') as nat)
    else if 'a' <= c <= 'f' then Some((c - 'a') as nat + 10)
    else if 'A' <= c <= 'F' then Some((c - 'A') as nat + 10)
    else None
  }

  function Digit(d: nat): (c: char)
    requires d < 16
    ensures DigitOf(c) == Some(d)
    ensures c != ':' && c != '-' && c != '"' && c != '\\' && c as int < 128
  {
    if d < 10 then '0' + d as char else 'a' + (d - 10) as char
  }

  function Hex(n: nat, width: nat): (s: string)
    ensures |s| == width
    ensures forall i :: 0 <= i < width ==>
              DigitOf(s[i]).Some? && s[i] != ':' && s[i] != '-' && s[i] != '"' && s[i] != '\\' && s[i] as int < 128
  {
    if width == 0 then "" else Hex(n / 16, width - 1) + [Digit(n % 16)]
  }

  function HexValue(s: string): Option<nat> {
    if s == "" then Some(0)
    else
      var high, low := HexValue(s[..|s| - 1]), DigitOf(s[|s| - 1]);
      if high.None? || low.None? then None else Some(16 * high.value + low.value)
  }

  lemma {:induction false} HexRoundTrip(n: nat, width: nat)
    requires n < Pow16(width)
    ensures HexValue(Hex(n, width)) == Some(n)
    decreases width
  {
    if width > 0 {
      HexRoundTrip(n / 16, width - 1);
      var s := Hex(n, width);
      assert s[..|s| - 1] == Hex(n / 16, width - 1);
    }
  }

  function Group(a: string, rest: string): string {
    a + "-" + rest
  }

  /** `str(uuid)` */
  function Print(u: nat): (s: string)
    ensures |s| == 36
    ensures forall c :: c in s ==> c != ':' && c != '"' && c != '\\' && c != ' ' && c as int < 128
  {
    var h := Hex(u, 32);
    Group(h[..8], Group(h[8..12], Group(h[12..16], Group(h[16..20], h[20..]))))
  }

  function WithoutHyphens(s: string): string {
    if s == "" then "" else (if s[0] == '-' then "" else [s[0]]) + WithoutHyphens(s[1..])
  }

  /** `uuid.UUID(text)`: hyphens are dropped, and exactly 32 hexadecimal digits must remain. */
  function Parse(s: string): Option<nat> {
    var h := WithoutHyphens(s);
    if |h| != 32 then None else HexValue(h)
  }

  lemma {:induction false} HyphensDropped(a: string, b: string)
    requires '-' !in a
    ensures WithoutHyphens(a + b) == a + WithoutHyphens(b)
    decreases |a|
  {
    if a == "" {
      assert a + b == b;
    } else {
      assert (a + b)[1..] == a[1..] + b;
      HyphensDropped(a[1..], b);
    }
  }

  lemma DropHyphen(a: string, b: string)
    requires '-' !in a
    ensures WithoutHyphens(Group(a, b)) == a + WithoutHyphens(b)
  {
    HyphensDropped(a, "-" + b);
    assert ("-" + b)[1..] == b;
    assert Group(a, b) == a + ("-" + b);
  }

  lemma GroupsRejoin(h: string)
    requires |h| == 32 && '-' !in h
    ensures WithoutHyphens(Group(h[..8], Group(h[8..12], Group(h[12..16], Group(h[16..20], h[20..]))))) == h
  {
    HyphensDropped(h[20..], "");
    assert h[20..] + "" == h[20..];
    var d := Group(h[16..20], h[20..]);
    assert WithoutHyphens(d) == h[16..] by {
      DropHyphen(h[16..20], h[20..]);
      assert h[16..20] + h[20..] == h[16..];
    }
    var c := Group(h[12..16], d);
    assert WithoutHyphens(c) == h[12..] by {
      DropHyphen(h[12..16], d);
      assert h[12..16] + h[16..] == h[12..];
    }
    var b := Group(h[8..12], c);
    assert WithoutHyphens(b) == h[8..] by {
      DropHyphen(h[8..12], c);
      assert h[8..12] + h[12..] == h[8..];
    }
    DropHyphen(h[..8], b);
    assert h[..8] + h[8..] == h;
  }

  /** Printing and parsing a UUID gives it back; in particular no two UUIDs print alike. */
  lemma PrintRoundTrip(u: nat)
    requires IsUuid(u)
    ensures Parse(Print(u)) == Some(u)
  {
    var h := Hex(u, 32);
    assert '-' !in h;
    GroupsRejoin(h);
    HexRoundTrip(u, 32);
  }

  lemma PrintIsInjective(u: nat, v: nat)
    requires IsUuid(u) && IsUuid(v)
    requires Print(u) == Print(v)
    ensures u == v
  {
    PrintRoundTrip(u);
    PrintRoundTrip(v);
  }

  /** Most significant digit first, in lower case. */
  lemma LastDigit(n: nat, width: nat)
    requires width > 0
    ensures Hex(n, width) == Hex(n / 16, width - 1) + [Digit(n % 16)]
    ensures forall d: nat :: d < 10 ==> Digit(d) as int == 48 + d
    ensures forall d: nat :: 10 <= d < 16 ==> Digit(d) as int == 87 + d
  {
  }

  /** Five groups of 8, 4, 4, 4 and 12 digits. */
  lemma PrintHasGroups(u: nat)
    ensures var s, h := Print(u), Hex(u, 32);
            && s[8] == s[13] == s[18] == s[23] == '-'
            && s[..8] == h[..8] && s[9..13] == h[8..12] && s[14..18] == h[12..16] && s[19..23] == h[16..20] && s[24..] == h[20..]
  {
  }
}
