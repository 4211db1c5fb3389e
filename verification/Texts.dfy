/** Finding, splitting and joining text. */
module Texts {
  import opened Basics

  /** Where `mark` first occurs in `s`. */
  function Find(s: string, mark: string): (at: Option<nat>)
    requires mark != ""
    ensures at.Some? ==> at.value + |mark| <= |s| && s[at.value..][..|mark|] == mark && s[at.value] == mark[0]
    ensures at.Some? ==> forall i :: 0 <= i < at.value ==> !(mark <= s[i..])
    ensures at.None? ==> forall i :: 0 <= i <= |s| ==> !(mark <= s[i..])
  {
    if mark <= s then
      Some(0)
    else if s == "" then
      None
    else
      var rest := Find(s[1..], mark);
      assert forall i :: 0 < i <= |s| ==> s[i..] == s[1..][i - 1..];
      if rest.None? then None else Some(rest.value + 1)
  }

  /** Split at the first occurrence of `mark`. */
  function SplitOnce(s: string, mark: string): (r: Option<(string, string)>)
    requires mark != ""
    ensures r.Some? ==> s == r.value.0 + mark + r.value.1
  {
    match Find(s, mark)
    case None => None
    case Some(i) => Some((s[..i], s[i + |mark|..]))
  }

  lemma NotFound(s: string, mark: string)
    requires mark != "" && forall i :: 0 <= i < |s| ==> s[i] != mark[0]
    ensures Find(s, mark).None? && SplitOnce(s, mark).None?
  {
  }

  /** A mark is found after text without its first character. */
  lemma FindAfter(before: string, mark: string, rest: string)
    requires mark != "" && forall i :: 0 <= i < |before| ==> before[i] != mark[0]
    ensures Find(before + mark + rest, mark) == Some(|before|)
    ensures SplitOnce(before + mark + rest, mark) == Some((before, rest))
  {
    var s := before + mark + rest;
    assert s[|before|..][..|mark|] == mark;
    assert mark <= s[|before|..];
    forall i | 0 <= i < |before|
      ensures !(mark <= s[i..])
    {
      assert s[i..][0] == before[i];
    }
    assert s[..|before|] == before && s[|before| + |mark|..] == rest;
  }

  predicate NoSlash(s: string)
  {
    '/' !in s
  }

  predicate Segments(parts: seq<string>)
  {
    parts != [] && forall i :: 0 <= i < |parts| ==> NoSlash(parts[i])
  }

  function Split(s: string): (parts: seq<string>)
    ensures Segments(parts)
  {
    if s == "" then [""]
    else
      var rest := Split(s[1..]);
      if s[0] == '/' then [""] + rest else [[s[0]] + rest[0]] + rest[1..]
  }

  function Join(parts: seq<string>, separator: string): string
  {
    if parts == [] then "" else if |parts| == 1 then parts[0]
    else parts[0] + separator + Join(parts[1..], separator)
  }

  lemma {:induction false} JoinOfSplit(s: string)
    ensures Join(Split(s), "/") == s
  {
    if s != "" {
      JoinOfSplit(s[1..]);
      var rest := Split(s[1..]);
      assert s == [s[0]] + s[1..];
      if s[0] == '/' {
        assert ([""] + rest)[1..] == rest;
      } else {
        assert ([[s[0]] + rest[0]] + rest[1..])[1..] == rest[1..];
      }
    }
  }

  /** Splitting at a slash splits on either side of it. */
  lemma {:induction false} SplitAt(a: string, b: string)
    ensures Split(a + "/" + b) == Split(a) + Split(b)
  {
    if a == "" {
      assert a + "/" + b == "/" + b && (a + "/" + b)[1..] == b;
    } else {
      assert (a + "/" + b)[1..] == a[1..] + "/" + b && (a + "/" + b)[0] == a[0];
      SplitAt(a[1..], b);
    }
  }

  lemma {:induction false} SplitOne(a: string)
    requires NoSlash(a)
    ensures Split(a) == [a]
  {
    if a != "" {
      assert NoSlash(a[1..]) && a[0] in a;
      SplitOne(a[1..]);
      assert a == [a[0]] + a[1..];
    }
  }

  lemma {:induction false} SplitOfJoin(parts: seq<string>)
    requires Segments(parts)
    ensures Split(Join(parts, "/")) == parts
  {
    SplitOne(parts[0]);
    if |parts| > 1 {
      SplitAt(parts[0], Join(parts[1..], "/"));
      SplitOfJoin(parts[1..]);
      assert parts == [parts[0]] + parts[1..];
    }
  }

  lemma {:induction false} JoinAppend(a: seq<string>, b: seq<string>, separator: string)
    requires a != [] && b != []
    ensures Join(a + b, separator) == Join(a, separator) + separator + Join(b, separator)
  {
    assert (a + b)[0] == a[0] && (a + b)[1..] == a[1..] + b;
    if |a| > 1 {
      JoinAppend(a[1..], b, separator);
    } else {
      assert a[1..] + b == b;
    }
  }

  lemma JoinSingle(s: string)
    ensures Join([s], "/") == s
  {}
}
