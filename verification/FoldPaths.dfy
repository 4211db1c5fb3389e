/** Request paths: a repository name of several segments is folded into one before routing. */
module FoldPaths {
  import opened Basics
  import opened Texts
  import Names

  const ROOT := "/v2/"

  /** How many of the last segments are not part of the repository name. */
  function TailLength(segments: seq<string>): (tail: Option<nat>)
    ensures tail.Some? ==> 2 <= tail.value <= |segments|
  {
    var n := |segments|;
    if n >= 3 && segments[n - 3] == "blobs" && segments[n - 2] == "uploads" then Some(3)
    else if n >= 2 && segments[n - 2] == "blobs" && segments[n - 1] == "uploads" then Some(2)
    else if n >= 2 && segments[n - 2] == "blobs" then Some(2)
    else if n >= 2 && segments[n - 2] == "manifests" then Some(2)
    else if n >= 2 && segments[n - 2] == "tags" && segments[n - 1] == "list" then Some(2)
    else None
  }

  /** The suffixes that are recognised, behind any name at all, and whatever `x` is. */
  lemma RecognisedTails(name: seq<string>, x: string)
    ensures TailLength(name + ["blobs", "uploads", x]) == Some(3)
    ensures TailLength(name + ["blobs", "uploads"]) == Some(2)
    ensures TailLength(name + ["blobs", x]) == Some(2)
    ensures TailLength(name + ["manifests", x]) == Some(2)
    ensures TailLength(name + ["tags", "list"]) == Some(2)
  {}

  /** And no others: a recognised tail is one of these. */
  lemma OnlyTheseTails(segments: seq<string>, tail: nat)
    requires TailLength(segments) == Some(tail)
    ensures var last := segments[|segments| - tail..];
            || (tail == 3 && last == ["blobs", "uploads", last[2]])
            || (tail == 2 && (last[0] in {"blobs", "manifests"} || last == ["tags", "list"]))
  {}

  predicate EndsWithSlash(s: string)
  {
    s != "" && s[|s| - 1] == '/'
  }

  /** A path that folds: its segments after the root, how many of them are the tail, and a slash at the end. */
  datatype Route = Route(segments: seq<string>, tail: nat, trailing: bool)

  function RecogniseRest(rest: string): (r: Option<Route>)
    ensures r.Some? ==> r.value.tail < |r.value.segments|
  {
    var trailing := EndsWithSlash(rest);
    var trimmed := if trailing then rest[..|rest| - 1] else rest;
    if trimmed == "" then None
    else
      var segments := Split(trimmed);
      var recognised := TailLength(segments);
      var tail := if recognised.Some? then recognised else if trailing then Some(0) else None;
      if tail.None? || |segments| - tail.value < 1 then None else Some(Route(segments, tail.value, trailing))
  }

  function Recognise(path: string): (r: Option<Route>)
    ensures r.Some? ==> r.value.tail < |r.value.segments|
  {
    if ROOT <= path then RecogniseRest(path[|ROOT|..]) else None
  }

  function NameSegments(r: Route): seq<string>
    requires r.tail < |r.segments|
  {
    r.segments[..|r.segments| - r.tail]
  }

  function FoldedName(r: Route): string
    requires r.tail < |r.segments|
  {
    Join(NameSegments(r), Names.ESCAPED_SEPARATOR)
  }

  function TailSegments(r: Route): seq<string>
    requires r.tail < |r.segments|
  {
    r.segments[|r.segments| - r.tail..]
  }

  function Slash(r: Route): string
  {
    if r.trailing then "/" else ""
  }

  /** What follows the repository name. */
  function Suffix(r: Route): string
    requires r.tail < |r.segments|
  {
    if TailSegments(r) == [] then "/" else "/" + Join(TailSegments(r), "/") + Slash(r)
  }

  function FoldPath(path: string): string
  {
    match Recognise(path)
    case None => path
    case Some(r) => ROOT + (FoldedName(r) + Suffix(r))
  }

  lemma {:induction false} JoinHasNoSlash(parts: seq<string>)
    requires Segments(parts)
    ensures NoSlash(Join(parts, Names.ESCAPED_SEPARATOR))
  {
    if |parts| > 1 {
      JoinHasNoSlash(parts[1..]);
    }
  }

  lemma JoinNameAndTail(name: seq<string>, tail: seq<string>)
    requires name != []
    ensures Join(name + tail, "/") == Join(name, "/") + if tail == [] then "" else "/" + Join(tail, "/")
  {
    if tail == [] {
      assert name + tail == name;
    } else {
      JoinAppend(name, tail, "/");
    }
  }

  lemma RootFirst(rest: string)
    ensures ROOT <= ROOT + rest && (ROOT + rest)[|ROOT|..] == rest
  {}

  lemma RouteSegments(path: string)
    requires Recognise(path).Some?
    ensures var r := Recognise(path).value;
            && path == ROOT + (Join(r.segments, "/") + Slash(r))
            && Join(r.segments, "/") != "" && (!r.trailing ==> !EndsWithSlash(Join(r.segments, "/")))
            && Segments(r.segments)
            && (TailLength(r.segments) == Some(r.tail) || (TailLength(r.segments).None? && r.tail == 0 && r.trailing))
  {
    hide Split, Join, TailLength;
    var rest := path[|ROOT|..];
    assert path == ROOT + rest;
    JoinOfSplit(if EndsWithSlash(rest) then rest[..|rest| - 1] else rest);
  }

  /** A name of any number of segments, and the tail and the last slash after it. */
  lemma JoinRoute(r: Route, name: seq<string>)
    requires name != [] && r.tail < |r.segments| && (r.tail == 0 ==> r.trailing)
    ensures Join(name + TailSegments(r), "/") + Slash(r) == Join(name, "/") + Suffix(r)
  {
    hide Join;
    JoinNameAndTail(name, TailSegments(r));
  }

  /** The path, and the folded path, in terms of the route. */
  lemma RoutePath(path: string)
    requires Recognise(path).Some?
    ensures var r := Recognise(path).value;
            && path == ROOT + (Join(NameSegments(r), "/") + Suffix(r))
            && FoldPath(path) == ROOT + (Join([FoldedName(r)] + TailSegments(r), "/") + Slash(r))
  {
    hide Recognise, Split, Join, TailLength, FoldedName, Suffix;
    var r := Recognise(path).value;
    RouteSegments(path);
    assert r.segments == NameSegments(r) + TailSegments(r);
    JoinRoute(r, NameSegments(r));
    JoinRoute(r, [FoldedName(r)]);
    JoinSingle(FoldedName(r));
  }

  lemma {:induction false} EndOfJoin(parts: seq<string>)
    requires |parts| >= 2 && Segments(parts)
    ensures Join(parts, "/") != ""
    ensures EndsWithSlash(Join(parts, "/")) <==> parts[|parts| - 1] == ""
  {
    var rest := Join(parts[1..], "/");
    var whole := Join(parts, "/");
    assert whole == parts[0] + "/" + rest;
    if |parts| > 2 {
      EndOfJoin(parts[1..]);
      assert whole[|whole| - 1] == rest[|rest| - 1];
    } else {
      assert rest == parts[1];
      if rest != "" {
        assert whole[|whole| - 1] == rest[|rest| - 1] && rest[|rest| - 1] in rest;
      }
    }
  }

  /** A name of one segment in front of a tail is recognised with that tail again. */
  lemma TailOfFolded(segments: seq<string>, tail: nat, name: string)
    requires TailLength(segments) == Some(tail) && tail < |segments|
    ensures TailLength([name] + segments[|segments| - tail..]) == Some(tail)
  {
    var n := |segments|;
    var folded := [name] + segments[n - tail..];
    assert forall i :: 1 <= i <= tail ==> folded[i] == segments[n - tail + i - 1];
  }

  lemma NameIsNotEmpty(segments: seq<string>)
    requires segments != [] && Join(segments, "/") != ""
    ensures Join(segments, Names.ESCAPED_SEPARATOR) != ""
  {}

  lemma RouteOf(segments: seq<string>, tail: nat, trailing: bool)
    requires tail < |segments| && Segments(segments)
    requires Join(segments, "/") != "" && (!trailing ==> !EndsWithSlash(Join(segments, "/")))
    requires TailLength(segments) == Some(tail) || (TailLength(segments).None? && tail == 0 && trailing)
    ensures Recognise(ROOT + (Join(segments, "/") + if trailing then "/" else ""))
         == Some(Route(segments, tail, trailing))
  {
    hide Split, Join, TailLength;
    var joined := Join(segments, "/");
    var rest := joined + if trailing then "/" else "";
    RootFirst(rest);
    SplitOfJoin(segments);
    if trailing {
      assert rest[|rest| - 1] == '/' && rest[..|rest| - 1] == joined;
    } else {
      assert rest == joined;
    }
    assert RecogniseRest(rest) == Some(Route(segments, tail, trailing));
  }

  /** Folding leaves exactly one segment in front of the tail, and the tail and the last slash as they were. */
  lemma FoldedHasOneNameSegment(path: string)
    requires Recognise(path).Some?
    ensures var r := Recognise(path).value;
            Recognise(FoldPath(path)) == Some(Route([FoldedName(r)] + TailSegments(r), r.tail, r.trailing))
  {
    hide Recognise, FoldPath, EndsWithSlash;
    var r := Recognise(path).value;
    var folded := [FoldedName(r)] + TailSegments(r);
    RouteSegments(path);
    RoutePath(path);
    JoinHasNoSlash(NameSegments(r));
    if r.tail > 0 {
      TailOfFolded(r.segments, r.tail, FoldedName(r));
      EndOfJoin(folded);
      EndOfJoin(r.segments);
      assert folded[|folded| - 1] == r.segments[|r.segments| - 1];
    } else {
      NameIsNotEmpty(r.segments);
      assert NameSegments(r) == r.segments && folded == [FoldedName(r)];
    }
    RouteOf(folded, r.tail, r.trailing);
  }

  /** Folding twice is folding once, for every path. */
  lemma FoldIsIdempotent(path: string)
    ensures FoldPath(FoldPath(path)) == FoldPath(path)
  {
    if Recognise(path).Some? {
      hide Recognise, FoldPath, Suffix;
      var r, folded := Recognise(path).value, FoldPath(path);
      FoldedHasOneNameSegment(path);
      var r' := Recognise(folded).value;
      RoutePath(path);
      RoutePath(folded);
      assert NameSegments(r') == [FoldedName(r)];
      assert TailSegments(r') == TailSegments(r);
    } else {
      assert FoldPath(path) == path;
    }
  }

  predicate StartsWithMark(s: string)
  {
    |s| >= 3 && s[0] == '%' && s[1] == '2' && s[2] == 'F'
  }

  predicate HasMark(s: string)
  {
    exists i :: 0 <= i <= |s| && StartsWithMark(s[i..])
  }

  /** Every escaped separator, from left to right, replaced by a slash. */
  function Unescape(s: string): string
  {
    if s == "" then ""
    else if StartsWithMark(s) then "/" + Unescape(s[3..])
    else [s[0]] + Unescape(s[1..])
  }

  lemma NoMarkInside(a: string, b: string, c: string)
    requires !HasMark(a + b + c)
    ensures !HasMark(b)
  {
    forall i | 0 <= i <= |b|
      ensures !StartsWithMark(b[i..])
    {
      var whole := (a + b + c)[|a| + i..];
      assert !StartsWithMark(whole);
      assert whole == b[i..] + c;
    }
  }

  /** Text without marks stays, in front of a mark and anywhere else. */
  lemma {:induction false} UnescapeBefore(a: string, b: string)
    requires !HasMark(a)
    ensures Unescape(a + Names.ESCAPED_SEPARATOR + b) == a + "/" + Unescape(b)
    ensures Unescape(a) == a
  {
    var mark := Names.ESCAPED_SEPARATOR;
    var s := a + mark + b;
    if a == "" {
      assert s == mark + b && s[3..] == b;
    } else {
      assert a[0..] == a && !StartsWithMark(a);
      assert !StartsWithMark(s);
      assert s[1..] == a[1..] + mark + b;
      assert a == [a[0]] + a[1..] + "";
      NoMarkInside([a[0]], a[1..], "");
      UnescapeBefore(a[1..], b);
    }
  }

  /** Joining with marks and unescaping is joining with slashes, when no mark was there before. */
  lemma {:induction false} UnescapeJoin(parts: seq<string>, suffix: string)
    requires parts != [] && !HasMark(Join(parts, "/") + suffix)
    ensures Unescape(Join(parts, Names.ESCAPED_SEPARATOR) + suffix) == Join(parts, "/") + suffix
  {
    var mark := Names.ESCAPED_SEPARATOR;
    if |parts| == 1 {
      UnescapeBefore(parts[0] + suffix, "");
    } else {
      var rest := Join(parts[1..], "/") + suffix;
      var marked := Join(parts[1..], mark) + suffix;
      assert Join(parts, "/") + suffix == "" + parts[0] + ("/" + rest) == parts[0] + "/" + rest + "";
      NoMarkInside("", parts[0], "/" + rest);
      NoMarkInside(parts[0] + "/", rest, "");
      UnescapeJoin(parts[1..], suffix);
      UnescapeBefore(parts[0], marked);
      assert Join(parts, mark) + suffix == parts[0] + mark + marked;
    }
  }

  lemma UnescapePlain(c: char, s: string)
    requires c != '%'
    ensures Unescape([c] + s) == [c] + Unescape(s)
  {
    assert ([c] + s)[1..] == s;
  }

  lemma UnescapeRoot(s: string)
    ensures Unescape(ROOT + s) == ROOT + Unescape(s)
  {
    hide Unescape;
    var last := ['/'] + s;
    UnescapePlain('/', s);
    UnescapePlain('2', last);
    UnescapePlain('v', ['2'] + last);
    UnescapePlain('/', ['v'] + (['2'] + last));
    assert ROOT + s == ['/'] + (['v'] + (['2'] + last));
  }

  lemma FirstUnescaped(s: string)
    ensures var u := Unescape(s);
            u != "" ==> s != "" && (u[0] == '/' || (u[0] == s[0] && u[1..] == Unescape(s[1..])))
  {}

  lemma UnescapedStart(s: string)
    ensures !StartsWithMark(Unescape(s))
  {
    FirstUnescaped(s);
    if s != "" && !StartsWithMark(s) {
      var u, v := Unescape(s), Unescape(s[1..]);
      assert u == [s[0]] + v && (|v| >= 2 ==> u[2] == v[1..][0]);
      FirstUnescaped(s[1..]);
      if |s| >= 2 {
        FirstUnescaped(s[1..][1..]);
        assert |s| >= 3 ==> s[1..][1..][0] == s[2];
      }
    }
  }

  /** Unescaped text holds no mark: none appears where a slash was put. */
  lemma {:induction false} UnescapedHasNoMark(s: string)
    ensures !HasMark(Unescape(s))
    decreases |s|
  {
    var u := Unescape(s);
    UnescapedStart(s);
    assert u[0..] == u;
    if s != "" {
      var rest := if StartsWithMark(s) then s[3..] else s[1..];
      UnescapedHasNoMark(rest);
      forall i | 0 < i <= |u|
        ensures !StartsWithMark(u[i..])
      {
        assert u[i..] == Unescape(rest)[i - 1..];
      }
    }
  }

  /** A folded path can be unfolded by replacing the marks exactly when the path had no mark of its own. */
  lemma UnfoldingExactlyWhen(path: string)
    ensures Unescape(FoldPath(path)) == path <==> !HasMark(path)
  {
    UnescapedHasNoMark(FoldPath(path));
    if !HasMark(path) {
      if Recognise(path).None? {
        UnescapeBefore(path, "");
      } else {
        UnfoldRoute(path);
      }
    }
  }

  lemma UnfoldRoute(path: string)
    requires Recognise(path).Some? && !HasMark(path)
    ensures Unescape(FoldPath(path)) == path
  {
    hide Recognise, HasMark, Unescape, Suffix, Join;
    var r := Recognise(path).value;
    var rest := Join(NameSegments(r), "/") + Suffix(r);
    RoutePath(path);
    assert path == ROOT + rest + "";
    NoMarkInside(ROOT, rest, "");
    UnescapeJoin(NameSegments(r), Suffix(r));
    UnescapeRoot(FoldedName(r) + Suffix(r));
  }

  lemma OneSegment(s: string)
    requires NoSlash(s)
    ensures Segments([s])
  {}

  lemma ManifestTail(name: seq<string>, reference: string)
    requires Segments(name) && NoSlash(reference)
    ensures Segments(name + ["manifests", reference])
    ensures Join(name + ["manifests", reference], "/") == Join(name, "/") + ("/manifests/" + reference)
    ensures TailLength(name + ["manifests", reference]) == Some(2)
  {
    var tail := ["manifests", reference];
    assert tail[1..] == [reference];
    assert "/" + Join(tail, "/") == "/manifests/" + reference;
    JoinNameAndTail(name, tail);
  }

  /** However many segments a repository name has, it is routed as one. */
  lemma FoldsAnyName(name: seq<string>, reference: string)
    requires Segments(name) && NoSlash(reference) && reference != ""
    ensures FoldPath(ROOT + (Join(name, "/") + ("/manifests/" + reference)))
         == ROOT + (Join(name, Names.ESCAPED_SEPARATOR) + ("/manifests/" + reference))
  {
    assert name != [];
    hide Recognise, Join, TailLength, Segments;
    var segments := name + ["manifests", reference];
    var rest := Join(name, "/") + ("/manifests/" + reference);
    ManifestTail(name, reference);
    EndOfJoin(segments);
    assert rest + "" == rest;
    RouteOf(segments, 2, false);
    var r := Recognise(ROOT + rest).value;
    assert NameSegments(r) == name;
    JoinHasNoSlash(name);
    OneSegment(FoldedName(r));
    ManifestTail([FoldedName(r)], reference);
    JoinSingle(FoldedName(r));
    RoutePath(ROOT + rest);
    assert [FoldedName(r)] + TailSegments(r) == [FoldedName(r)] + ["manifests", reference];
    var folded := FoldedName(r) + ("/manifests/" + reference);
    assert folded + "" == folded;
  }

  /** A local repository is routed under its folder name. */
  lemma FoldsToTheFolderName(n: Names.Name, reference: string)
    requires Names.Valid(n) && NoSlash(reference) && reference != ""
    ensures FoldPath(ROOT + (Names.Display(n) + ("/manifests/" + reference)))
         == ROOT + (Names.FsSafe(n) + ("/manifests/" + reference))
  {
    hide FoldPath;
    ComponentHasNoSlash(n.name);
    if n.namespace.Some? {
      ComponentHasNoSlash(n.namespace.value);
      var name := [n.namespace.value, n.name];
      assert name[1..] == [n.name];
      FoldsAnyName(name, reference);
    } else {
      FoldsAnyName([n.name], reference);
    }
  }

  lemma ComponentHasNoSlash(s: string)
    requires Names.MatchesComponent(s)
    ensures NoSlash(s)
  {
    forall i | 0 <= i < |s|
      ensures s[i] != '/'
    {
      assert Names.IsAlphanumeric(s[i]) || Names.IsJoiner(s[i]);
    }
  }

  /** A name of several segments in front of a slash that ends the path is folded too. */
  lemma FoldsBeforeTheLastSlash(name: seq<string>)
    requires Segments(name) && Join(name, "/") != "" && TailLength(name).None?
    ensures FoldPath("/v2/" + (Join(name, "/") + "/")) == "/v2/" + (Join(name, "%2F") + "/")
  {
    hide Recognise, Join, TailLength;
    RouteOf(name, 0, true);
    var path := ROOT + (Join(name, "/") + "/");
    var r := Recognise(path).value;
    assert NameSegments(r) == name && TailSegments(r) == [];
    RoutePath(path);
    JoinSingle(FoldedName(r));
    assert [FoldedName(r)] + [] == [FoldedName(r)];
  }

  /** A path without a known tail or a last slash stays, and so does one outside the root. */
  lemma OtherPathsStay(path: string, name: seq<string>)
    requires Segments(name) && TailLength(name).None? && name[|name| - 1] != ""
    ensures FoldPath("/v2/" + Join(name, "/")) == "/v2/" + Join(name, "/")
    ensures !("/v2/" <= path) ==> FoldPath(path) == path
  {
    hide Join, TailLength;
    var rest := Join(name, "/");
    SplitOfJoin(name);
    RootFirst(rest);
    if |name| > 1 {
      EndOfJoin(name);
    } else {
      JoinSingle(name[0]);
      assert name == [name[0]] && name[0][|name[0]| - 1] in name[0];
    }
  }
}
