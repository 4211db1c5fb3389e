/** Repositories: local ones, and those cached from an upstream registry; where each is stored. */
module Repositories {
  import opened Basics
  import opened Texts
  import Names

  datatype UpstreamHost = DockerHub | Other(registry: string)

  datatype Repository = Local(name: Names.Name) | Upstream(host: UpstreamHost, path: seq<string>)

  /** A path below the storage root, component by component. */
  type Path = seq<string>

  const LOCAL := "local"
  const UPSTREAM := "upstream"

  function CanonicalHost(host: UpstreamHost): string
  {
    if host.DockerHub? then "docker.io" else host.registry
  }

  /** The repositories parsing hands out: every spelling of Docker Hub is `DockerHub`. */
  predicate Valid(r: Repository)
  {
    match r
    case Local(name) => Names.Valid(name)
    case Upstream(host, path) =>
      && (host.Other? ==> host.registry != CanonicalHost(DockerHub))
      && path != [] && forall i :: 0 <= i < |path| ==> Names.MatchesComponent(path[i])
  }

  function StoragePath(r: Repository): Path
  {
    match r
    case Local(name) => [LOCAL, Names.FsSafe(name)]
    case Upstream(host, path) => [UPSTREAM, CanonicalHost(host), Join(path, Names.ESCAPED_SEPARATOR)]
  }

  lemma NoMark(component: string)
    requires Names.MatchesComponent(component)
    ensures forall i :: 0 <= i < |component| ==> component[i] != '%'
  {
    forall i | 0 <= i < |component|
      ensures component[i] != '%'
    {
      assert Names.IsAlphanumeric(component[i]) || Names.IsJoiner(component[i]);
    }
  }

  /** Where a joined path is cut next: at the first mark, if it has more than one component. */
  lemma FirstComponent(path: seq<string>)
    requires path != [] && forall i :: 0 <= i < |path| ==> Names.MatchesComponent(path[i])
    ensures SplitOnce(Join(path, Names.ESCAPED_SEPARATOR), Names.ESCAPED_SEPARATOR)
         == if |path| == 1 then None else Some((path[0], Join(path[1..], Names.ESCAPED_SEPARATOR)))
  {
    NoMark(path[0]);
    if |path| == 1 {
      NotFound(path[0], Names.ESCAPED_SEPARATOR);
    } else {
      FindAfter(path[0], Names.ESCAPED_SEPARATOR, Join(path[1..], Names.ESCAPED_SEPARATOR));
    }
  }

  lemma {:induction false} JoinInjective(p: seq<string>, q: seq<string>)
    requires p != [] && forall i :: 0 <= i < |p| ==> Names.MatchesComponent(p[i])
    requires q != [] && forall i :: 0 <= i < |q| ==> Names.MatchesComponent(q[i])
    requires Join(p, Names.ESCAPED_SEPARATOR) == Join(q, Names.ESCAPED_SEPARATOR)
    ensures p == q
  {
    FirstComponent(p);
    FirstComponent(q);
    if |p| > 1 {
      JoinInjective(p[1..], q[1..]);
      assert p == [p[0]] + p[1..] && q == [q[0]] + q[1..];
    }
  }

  /** Different repositories, local or cached, are stored in different folders. */
  lemma StoragePathInjective(r: Repository, s: Repository)
    requires Valid(r) && Valid(s) && StoragePath(r) == StoragePath(s)
    ensures r == s
  {
    var p, q := StoragePath(r), StoragePath(s);
    assert |p| == if r.Local? then 2 else 3;
    assert |q| == if s.Local? then 2 else 3;
    assert p[1] == q[1];
    if r.Local? {
      Names.FsSafeInjective(r.name, s.name);
    } else {
      assert p[2] == q[2];
      JoinInjective(r.path, s.path);
    }
  }
}
