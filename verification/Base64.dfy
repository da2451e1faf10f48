/** The URL-safe base64 encoding (section 5 of RFC 4648), and Python's lenient reader of it. */
module Base64 {
  import opened Wrappers

  type Byte = n: nat | n < 256

  /** The value of a character; the reader also takes the ordinary alphabet's last two. */
  function SextetOf(c: char): Option<nat> {
    if 'A' <= c <= 'Z' then Some((c - 'A') as nat)
    else if 'a' <= c <= 'z' then Some((c - 'a') as nat + 26)
    else if '0' <= c <= '9' then Some((c - '0') as nat + 52)
    else if c == '-' || c == '+' then Some(62)
    else if c == '_' || c == '/' then Some(63)
    else None
  }

  function Sextet(v: nat): (c: char)
    requires v < 64
    ensures SextetOf(c) == Some(v) && c != '+' && c != '/' && c != '='
  {
    if v < 26 then 'A' + v as char
    else if v < 52 then 'a' + (v - 26) as char
    else if v < 62 then '0' + (v - 52) as char
    else if v == 62 then '-' else '_'
  }

  function Triple(a: Byte, b: Byte, c: Byte): string {
    [Sextet(a / 4), Sextet(a % 4 * 16 + b / 16), Sextet(b % 16 * 4 + c / 64), Sextet(c % 64)]
  }

  function LastTwo(a: Byte, b: Byte): string {
    [Sextet(a / 4), Sextet(a % 4 * 16 + b / 16), Sextet(b % 16 * 4), '=']
  }

  function LastOne(a: Byte): string {
    [Sextet(a / 4), Sextet(a % 4 * 16), '=', '=']
  }

  /** Three bytes as four characters; a last group of one or two bytes is padded. */
  function Encode(bytes: seq<Byte>): string {
    if bytes == [] then ""
    else if |bytes| == 1 then LastOne(bytes[0])
    else if |bytes| == 2 then LastTwo(bytes[0], bytes[1])
    else Triple(bytes[0], bytes[1], bytes[2]) + Encode(bytes[3..])
  }

  /** The reader: its place within a group of four, the bits left over, and the padding just seen. */
  datatype Reader = Reader(quad: nat, left: nat, pads: nat)

  predicate ValidReader(r: Reader) {
    r.quad < 4 && r.left < (if r.quad == 0 then 1 else if r.quad == 1 then 64 else if r.quad == 2 then 16 else 4)
  }

  /** What a sextet yields: nothing at the start of a group, else one byte. */
  function Yield(r: Reader, v: nat): (b: seq<Byte>)
    requires ValidReader(r) && v < 64
  {
    if r.quad == 0 then []
    else if r.quad == 1 then [r.left * 4 + v / 16]
    else if r.quad == 2 then [r.left * 16 + v / 4]
    else [r.left * 64 + v]
  }

  function After(r: Reader, v: nat): (r': Reader)
    requires ValidReader(r) && v < 64
    ensures ValidReader(r')
  {
    Reader((r.quad + 1) % 4, if r.quad == 0 then v else if r.quad == 1 then v % 16 else if r.quad == 2 then v % 4 else 0, 0)
  }

  /** Characters outside the alphabet are skipped; enough padding ends the text, whatever follows. */
  function Read(s: string, r: Reader): Option<seq<Byte>>
    requires ValidReader(r)
    decreases |s|
  {
    if s == "" then (if r.quad == 0 then Some([]) else None)
    else if s[0] == '=' then
      if r.quad >= 2 && r.quad + r.pads + 1 >= 4 then Some([])
      else Read(s[1..], if r.quad >= 2 then r.(pads := r.pads + 1) else r)
    else
      var v := SextetOf(s[0]);
      if v.None? then Read(s[1..], r)
      else
        var rest := Read(s[1..], After(r, v.value));
        if rest.None? then None else Some(Yield(r, v.value) + rest.value)
  }

  const START := Reader(0, 0, 0)

  function Decode(s: string): Option<seq<Byte>> {
    Read(s, START)
  }

  lemma ReadSextet(s: string, r: Reader, v: nat, rest: seq<Byte>)
    requires ValidReader(r) && v < 64 && Read(s, After(r, v)) == Some(rest)
    ensures Read([Sextet(v)] + s, r) == Some(Yield(r, v) + rest)
  {
    assert ([Sextet(v)] + s)[1..] == s;
  }

  lemma ReadFirst(s: string, a: Byte, rest: seq<Byte>)
    requires Read(s, Reader(1, a / 4, 0)) == Some(rest)
    ensures Read([Sextet(a / 4)] + s, START) == Some(rest)
  {
    ReadSextet(s, START, a / 4, rest);
    assert [] + rest == rest;
  }

  /** The second character completes the first byte and starts the next one with `h`. */
  lemma ReadSecond(s: string, a: Byte, h: nat, rest: seq<Byte>)
    requires h < 16 && Read(s, Reader(2, h, 0)) == Some(rest)
    ensures Read([Sextet(a % 4 * 16 + h)] + s, Reader(1, a / 4, 0)) == Some([a] + rest)
  {
    var hi := a % 4;
    assert (hi * 16 + h) / 16 == hi && (hi * 16 + h) % 16 == h && a / 4 * 4 + hi == a;
    ReadSextet(s, Reader(1, a / 4, 0), hi * 16 + h, rest);
    assert Yield(Reader(1, a / 4, 0), a % 4 * 16 + h) == [a];
  }

  lemma ReadThird(s: string, b: Byte, h: nat, rest: seq<Byte>)
    requires h < 4 && Read(s, Reader(3, h, 0)) == Some(rest)
    ensures Read([Sextet(b % 16 * 4 + h)] + s, Reader(2, b / 16, 0)) == Some([b] + rest)
  {
    var hi := b % 16;
    assert (hi * 4 + h) / 4 == hi && (hi * 4 + h) % 4 == h && b / 16 * 16 + hi == b;
    ReadSextet(s, Reader(2, b / 16, 0), hi * 4 + h, rest);
    assert Yield(Reader(2, b / 16, 0), b % 16 * 4 + h) == [b];
  }

  lemma ReadFourth(s: string, c: Byte, rest: seq<Byte>)
    requires Read(s, START) == Some(rest)
    ensures Read([Sextet(c % 64)] + s, Reader(3, c / 64, 0)) == Some([c] + rest)
  {
    ReadSextet(s, Reader(3, c / 64, 0), c % 64, rest);
    assert Yield(Reader(3, c / 64, 0), c % 64) == [c];
  }

  lemma ReadOne(a: Byte)
    ensures Decode(LastOne(a)) == Some([a])
  {
    assert "=="[1..] == "=";
    assert Read("=", Reader(2, 0, 1)) == Some([]);
    assert Read("==", Reader(2, 0, 0)) == Some([]);
    ReadSecond("==", a, 0, []);
    assert [a] + [] == [a];
    ReadFirst([Sextet(a % 4 * 16 + 0)] + "==", a, [a]);
    assert LastOne(a) == [Sextet(a / 4)] + ([Sextet(a % 4 * 16 + 0)] + "==");
  }

  lemma ReadTwo(a: Byte, b: Byte)
    ensures Decode(LastTwo(a, b)) == Some([a, b])
  {
    assert Read("=", Reader(3, 0, 0)) == Some([]);
    ReadThird("=", b, 0, []);
    assert [b] + [] == [b] && [a] + [b] == [a, b];
    ReadSecond([Sextet(b % 16 * 4 + 0)] + "=", a, b / 16, [b]);
    ReadFirst([Sextet(a % 4 * 16 + b / 16)] + ([Sextet(b % 16 * 4 + 0)] + "="), a, [a] + [b]);
    assert LastTwo(a, b) == [Sextet(a / 4)] + ([Sextet(a % 4 * 16 + b / 16)] + ([Sextet(b % 16 * 4 + 0)] + "="));
  }

  lemma TripleSplits(a: Byte, b: Byte, c: Byte, s: string)
    ensures [Sextet(a / 4)] + ([Sextet(a % 4 * 16 + b / 16)] + ([Sextet(b % 16 * 4 + c / 64)] + ([Sextet(c % 64)] + s)))
         == Triple(a, b, c) + s
  {
  }

  lemma BytesJoin(a: Byte, b: Byte, c: Byte, rest: seq<Byte>)
    ensures [a] + ([b] + ([c] + rest)) == [a, b, c] + rest
  {
  }

  lemma ReadThree(a: Byte, b: Byte, c: Byte, s: string, rest: seq<Byte>)
    requires Decode(s) == Some(rest)
    ensures Decode(Triple(a, b, c) + s) == Some([a, b, c] + rest)
  {
    var s3 := [Sextet(c % 64)] + s;
    var s2 := [Sextet(b % 16 * 4 + c / 64)] + s3;
    var s1 := [Sextet(a % 4 * 16 + b / 16)] + s2;
    ReadFourth(s, c, rest);
    ReadThird(s3, b, c / 64, [c] + rest);
    ReadSecond(s2, a, b / 16, [b] + ([c] + rest));
    ReadFirst(s1, a, [a] + ([b] + ([c] + rest)));
    TripleSplits(a, b, c, s);
    BytesJoin(a, b, c, rest);
  }

  lemma EncodeGroup(bytes: seq<Byte>)
    requires |bytes| >= 3
    ensures Encode(bytes) == Triple(bytes[0], bytes[1], bytes[2]) + Encode(bytes[3..])
  {
  }

  lemma FirstThree<T>(s: seq<T>)
    requires |s| >= 3
    ensures [s[0], s[1], s[2]] + s[3..] == s
  {
  }

  lemma DecodeGroup(bytes: seq<Byte>, text: string)
    requires |bytes| >= 3 && Decode(text) == Some(bytes[3..])
    ensures Decode(Triple(bytes[0], bytes[1], bytes[2]) + text) == Some([bytes[0], bytes[1], bytes[2]] + bytes[3..])
  {
    ReadThree(bytes[0], bytes[1], bytes[2], text, bytes[3..]);
  }

  /** The round trip, at all three lengths of the padding. */
  lemma {:induction false} DecodeEncode(bytes: seq<Byte>)
    ensures Decode(Encode(bytes)) == Some(bytes)
    decreases |bytes|
  {
    if |bytes| == 1 {
      ReadOne(bytes[0]);
      assert bytes == [bytes[0]];
    } else if |bytes| == 2 {
      ReadTwo(bytes[0], bytes[1]);
      assert bytes == [bytes[0], bytes[1]];
    } else if |bytes| >= 3 {
      DecodeEncode(bytes[3..]);
      DecodeGroup(bytes, Encode(bytes[3..]));
      EncodeGroup(bytes);
      FirstThree(bytes);
    }
  }

  lemma KnownGroups()
    ensures LastOne(102) == "Zg==" && LastTwo(102, 111) == "Zm8=" && Triple(102, 111, 111) == "Zm9v"
  {
  }

  /** The test vectors of section 10 of RFC 4648: the letters f, fo and foo. */
  lemma KnownVectors(f: seq<Byte>, fo: seq<Byte>, foo: seq<Byte>)
    requires f == [102] && fo == [102, 111] && foo == [102, 111, 111]
    ensures Encode(f) == "Zg==" && Encode(fo) == "Zm8=" && Encode(foo) == "Zm9v"
  {
    KnownGroups();
    EncodeGroup(foo);
    assert foo[3..] == [] && Encode(foo[3..]) == "";
  }

  /** The two characters that the URL-safe alphabet changes. */
  lemma UrlSafeCharacters()
    ensures LastTwo(251, 255) == "-_8="
    ensures SextetOf('+') == SextetOf('-') == Some(62) && SextetOf('/') == SextetOf('_') == Some(63)
  {
  }
}
