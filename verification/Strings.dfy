/** The parts of Go's strings package that the keys are built and taken apart with. */
module Strings {
  import opened Options

  predicate Plain(s: string, c: char) {
    c !in s
  }

  lemma NotBefore(a: string, c: char, x: string, i: int)
    requires Plain(a, c) && 0 <= i < |a|
    ensures (a + [c] + x)[i] != c
  {
    assert (a + [c] + x)[i] == a[i];
  }

  /** A string is cut at its first separator in one way only. */
  lemma UniqueCut(a: string, x: string, a': string, x': string, c: char)
    requires a + [c] + x == a' + [c] + x' && Plain(a, c) && Plain(a', c)
    ensures a == a' && x == x'
  {
    var s := a + [c] + x;
    assert s[|a|] == c && s[|a'|] == c;
    if |a| < |a'| {
      NotBefore(a', c, x', |a|);
    } else if |a'| < |a| {
      NotBefore(a, c, x, |a'|);
    }
    assert s[..|a|] == a && s[..|a'|] == a';
    assert s[|a| + 1..] == x && s[|a'| + 1..] == x';
  }

  /** strings.Split for a one-character separator. */
  function Split(s: string, c: char): (parts: seq<string>)
    ensures parts != []
    ensures forall i :: 0 <= i < |parts| ==> Plain(parts[i], c)
    ensures Plain(s, c) <==> |parts| == 1
  {
    if s == "" then [""]
    else
      var rest := Split(s[1..], c);
      if s[0] == c then [""] + rest else [[s[0]] + rest[0]] + rest[1..]
  }

  /** strings.Join for a one-character separator. */
  function Join(parts: seq<string>, c: char): string {
    if parts == [] then ""
    else if |parts| == 1 then parts[0]
    else parts[0] + [c] + Join(parts[1..], c)
  }

  lemma {:induction false} SplitPlain(s: string, c: char)
    requires Plain(s, c)
    ensures Split(s, c) == [s]
  {
    if s != "" {
      SplitPlain(s[1..], c);
      assert [s[0]] + s[1..] == s;
    }
  }

  lemma SplitChar(d: char, s: string, c: char)
    requires d != c
    ensures Split([d] + s, c) == [[d] + Split(s, c)[0]] + Split(s, c)[1..]
  {
    assert ([d] + s)[1..] == s;
  }

  lemma HeadAndTail<T>(a: T, s: seq<T>)
    ensures ([a] + s)[0] == a && ([a] + s)[1..] == s
  {
  }

  lemma Regroup<T>(a: seq<T>, b: seq<T>, x: seq<T>)
    requires a != []
    ensures a == [a[0]] + a[1..] && a + b + x == [a[0]] + (a[1..] + b + x)
  {
  }

  /** Splitting a plain prefix off. */
  lemma {:induction false} SplitPrefix(a: string, c: char, x: string)
    requires Plain(a, c)
    ensures Split(a + [c] + x, c) == [a] + Split(x, c)
  {
    if a == "" {
      assert (a + [c] + x)[1..] == x;
    } else {
      SplitPrefix(a[1..], c, x);
      SplitChar(a[0], a[1..] + [c] + x, c);
      HeadAndTail(a[1..], Split(x, c));
      Regroup(a, [c], x);
    }
  }

  lemma {:induction false} SplitJoin(parts: seq<string>, c: char)
    requires parts != [] && forall i :: 0 <= i < |parts| ==> Plain(parts[i], c)
    ensures Split(Join(parts, c), c) == parts
  {
    if |parts| == 1 {
      SplitPlain(parts[0], c);
    } else {
      SplitJoin(parts[1..], c);
      SplitPrefix(parts[0], c, Join(parts[1..], c));
    }
  }

  lemma {:induction false} JoinSplit(s: string, c: char)
    ensures Join(Split(s, c), c) == s
  {
    if s != "" {
      var rest := Split(s[1..], c);
      JoinSplit(s[1..], c);
      if s[0] == c {
        assert ([""] + rest)[1..] == rest;
      } else {
        var head := [s[0]] + rest[0];
        assert ([head] + rest[1..])[1..] == rest[1..];
        if |rest| > 1 {
          assert head + [c] + Join(rest[1..], c) == [s[0]] + (rest[0] + [c] + Join(rest[1..], c));
        }
      }
    }
  }

  /** strings.SplitN(s, c, 2): the two parts around the first separator. */
  function Cut(s: string, c: char): (r: Option<(string, string)>)
    ensures r.None? <==> Plain(s, c)
    ensures r.Some? ==> Plain(r.value.0, c) && s == r.value.0 + [c] + r.value.1
  {
    if s == "" then None
    else if s[0] == c then Some(("", s[1..]))
    else
      match Cut(s[1..], c)
      case None => None
      case Some(p) => assert s == [s[0]] + s[1..]; Some(([s[0]] + p.0, p.1))
  }

  lemma CutPrefix(a: string, c: char, x: string)
    requires Plain(a, c)
    ensures Cut(a + [c] + x, c) == Some((a, x))
  {
    var s := a + [c] + x;
    assert s[|a|] == c;
    var p := Cut(s, c).value;
    UniqueCut(p.0, p.1, a, x, c);
  }

  /** strings.Replace(s, c, "", -1). */
  function Without(s: string, c: char): (r: string)
    ensures Plain(r, c)
    ensures forall x :: x in r ==> x in s
    ensures Plain(s, c) ==> r == s
  {
    if s == "" then "" else if s[0] == c then Without(s[1..], c) else [s[0]] + Without(s[1..], c)
  }

  /** Each character is kept or dropped on its own. */
  lemma {:induction false} WithoutConcat(a: string, b: string, c: char)
    ensures Without(a + b, c) == Without(a, c) + Without(b, c)
    ensures |a| == 1 ==> Without(a, c) == if a[0] == c then "" else a
  {
    if a == "" {
      assert a + b == b;
    } else {
      assert (a + b)[1..] == a[1..] + b;
      WithoutConcat(a[1..], b, c);
    }
  }
}
