/** Python string helpers that the services apply to their input. */
module Text {
  /** `str.isspace()` of one character, with the Unicode spaces. */
  predicate IsSpace(c: char) {
    var code := c as int;
    || 0x09 <= code <= 0x0D || 0x1C <= code <= 0x20 || code == 0x85 || code == 0xA0 || code == 0x1680
    || 0x2000 <= code <= 0x200A || code == 0x2028 || code == 0x2029 || code == 0x202F || code == 0x205F || code == 0x3000
  }

  function StripLeft(s: string): (r: string)
    ensures r == [] || !IsSpace(r[0])
    ensures |r| <= |s|
  {
    if s != [] && IsSpace(s[0]) then StripLeft(s[1..]) else s
  }

  function StripRight(s: string): (r: string)
    ensures r <= s
    ensures r == [] || !IsSpace(r[|r| - 1])
  {
    if s != [] && IsSpace(s[|s| - 1]) then StripRight(s[..|s| - 1]) else s
  }

  /** `str.strip()` */
  function Strip(s: string): string {
    StripRight(StripLeft(s))
  }

  predicate Trimmed(s: string) {
    s == [] || (!IsSpace(s[0]) && !IsSpace(s[|s| - 1]))
  }

  lemma StripKeepsTrimmed(s: string)
    requires Trimmed(s)
    ensures Strip(s) == s
  {
  }

  ghost predicate AllSpace(s: string) {
    forall c :: c in s ==> IsSpace(c)
  }

  lemma {:induction false} StripLeftSplits(s: string) returns (front: string)
    ensures s == front + StripLeft(s) && AllSpace(front)
    decreases |s|
  {
    if s != [] && IsSpace(s[0]) {
      var more := StripLeftSplits(s[1..]);
      front := [s[0]] + more;
      assert s == [s[0]] + s[1..];
    } else {
      front := [];
    }
  }

  lemma {:induction false} StripRightSplits(s: string) returns (back: string)
    ensures s == StripRight(s) + back && AllSpace(back)
    decreases |s|
  {
    if s != [] && IsSpace(s[|s| - 1]) {
      var less := StripRightSplits(s[..|s| - 1]);
      back := less + [s[|s| - 1]];
      assert s == s[..|s| - 1] + [s[|s| - 1]];
    } else {
      back := [];
    }
  }

  /** Stripping takes white space off both ends, all of it and nothing else. */
  lemma StripTakesEnds(s: string) returns (front: string, back: string)
    ensures s == front + Strip(s) + back
    ensures AllSpace(front) && AllSpace(back) && Trimmed(Strip(s))
  {
    front := StripLeftSplits(s);
    back := StripRightSplits(StripLeft(s));
    assert s == front + (Strip(s) + back);
    var t := Strip(s);
    assert t <= StripLeft(s) && (t != [] ==> t[0] == StripLeft(s)[0]);
  }
}
