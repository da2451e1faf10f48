/** Cache keys: `namespace:part1:part2`, and when two of them are the same key. */
module CacheKey {
  import opened Wrappers
  import opened Text

  function Join(parts: seq<string>): string
    requires parts != []
  {
    if |parts| == 1 then parts[0] else parts[0] + ":" + Join(parts[1..])
  }

  /** Parts that are not `None`, trimmed. */
  function Clean(parts: seq<Option<string>>): seq<string> {
    if parts == [] then []
    else (if parts[0].Some? then [Strip(parts[0].value)] else []) + Clean(parts[1..])
  }

  function BuildKey(namespace: string, parts: seq<Option<string>>): string {
    var clean := Clean(parts);
    namespace + ":" + (if clean == [] then "" else Join(clean))
  }

  ghost predicate ColonFree(parts: seq<string>) {
    forall i :: 0 <= i < |parts| ==> ':' !in parts[i]
  }

  lemma JoinSplits(parts: seq<string>)
    requires parts != [] && ':' !in parts[0]
    ensures |Join(parts)| >= |parts[0]| && Join(parts)[..|parts[0]|] == parts[0]
    ensures |parts| == 1 <==> |Join(parts)| == |parts[0]|
    ensures |parts| > 1 ==> Join(parts)[|parts[0]|] == ':' && Join(parts)[|parts[0]| + 1..] == Join(parts[1..])
  {
  }

  lemma SameHead(a: string, b: string, s: string)
    requires ':' !in a && ':' !in b
    requires a <= s && b <= s
    requires |a| == |s| || s[|a|] == ':'
    requires |b| == |s| || s[|b|] == ':'
    ensures a == b
  {
    assert forall i :: 0 <= i < |a| ==> s[i] == a[i] && a[i] in a;
    assert forall i :: 0 <= i < |b| ==> s[i] == b[i] && b[i] in b;
  }

  /** Joining with colons loses nothing on non-empty lists of colon-free parts. */
  lemma {:induction false} JoinIsInjective(a: seq<string>, b: seq<string>)
    requires a != [] && b != []
    requires ColonFree(a) && ColonFree(b)
    requires Join(a) == Join(b)
    ensures a == b
    decreases |a|
  {
    JoinSplits(a);
    JoinSplits(b);
    SameHead(a[0], b[0], Join(a));
    if |a| > 1 {
      JoinIsInjective(a[1..], b[1..]);
      assert a == [a[0]] + a[1..] && b == [b[0]] + b[1..];
    }
  }

  /** The list of parts that a key really shows: an empty list looks like one empty part. */
  function Seen(parts: seq<Option<string>>): seq<string> {
    if Clean(parts) == [] then [""] else Clean(parts)
  }

  /**
   For colon-free namespaces and trimmed parts, two keys are equal exactly when their namespaces
   are and their trimmed parts are, except that no part at all and one blank part look the same.
   */
  lemma KeysCollideOnlyWhenEqual(ns: string, parts: seq<Option<string>>, ns': string, parts': seq<Option<string>>)
    requires ':' !in ns && ':' !in ns'
    requires ColonFree(Clean(parts)) && ColonFree(Clean(parts'))
    ensures BuildKey(ns, parts) == BuildKey(ns', parts') <==> ns == ns' && Seen(parts) == Seen(parts')
  {
    KeyIsJoin(ns, parts);
    KeyIsJoin(ns', parts');
    if BuildKey(ns, parts) == BuildKey(ns', parts') {
      JoinIsInjective([ns] + Seen(parts), [ns'] + Seen(parts'));
      assert ([ns] + Seen(parts))[0] == ns && ([ns] + Seen(parts))[1..] == Seen(parts);
      assert ([ns'] + Seen(parts'))[0] == ns' && ([ns'] + Seen(parts'))[1..] == Seen(parts');
    }
  }

  lemma KeyIsJoin(ns: string, parts: seq<Option<string>>)
    ensures BuildKey(ns, parts) == Join([ns] + Seen(parts))
  {
    assert ([ns] + Seen(parts))[1..] == Seen(parts);
    assert Join([""]) == "";
  }

  /** Colons inside parts do make keys collide, so the condition is needed. */
  lemma ColonsCollide(ns: string)
    ensures BuildKey(ns, [Some("a:b")]) == BuildKey(ns, [Some("a"), Some("b")])
  {
    assert [Some("a"), Some("b")][1..] == [Some("b")];
    assert [Some("a:b")][1..] == [] && [Some("b")][1..] == [];
    assert Strip("a:b") == "a:b" && Strip("a") == "a" && Strip("b") == "b";
    assert Clean([Some("a:b")]) == ["a:b"];
    assert Clean([Some("b")]) == ["b"];
    assert Clean([Some("a"), Some("b")]) == ["a", "b"];
    assert ["a", "b"][1..] == ["b"];
    assert Join(["a", "b"]) == "a" + ":" + "b" == "a:b";
  }

  /** What a key looks like: namespace and trimmed parts with colons between them, `None` left out. */
  lemma KeyText(ns: string, a: string, b: string)
    ensures BuildKey(ns, [Some(a), None, Some(b)]) == ns + ":" + Strip(a) + ":" + Strip(b)
  {
    var parts := [Some(a), None, Some(b)];
    assert parts[1..] == [None, Some(b)] && [None, Some(b)][1..] == [Some(b)] && [Some(b)][1..] == [];
    assert Clean([Some(b)]) == [Strip(b)];
    assert Clean(parts[1..]) == [Strip(b)];
    assert Clean(parts) == [Strip(a), Strip(b)];
    assert [Strip(a), Strip(b)][1..] == [Strip(b)];
    assert Join([Strip(a), Strip(b)]) == Strip(a) + ":" + Strip(b);
  }
}
