/** Release metadata: which upgrades may start, what differs, and how metadata travels with a binary. */
module Releases {
  import opened Basics

  datatype Entry = Entry(seedling: string, version: nat)

  /** `core` lists a map's entries in key order, so no seedling is listed twice. */
  datatype Metadata = Metadata(format: nat, core: seq<Entry>)

  predicate Distinct(core: seq<Entry>)
  {
    forall i, j :: 0 <= i < j < |core| ==> core[i].seedling != core[j].seedling
  }

  predicate Valid(m: Metadata)
  {
    Distinct(m.core)
  }

  function Get(core: seq<Entry>, seedling: string): (v: Option<nat>)
    ensures v.Some? ==> Entry(seedling, v.value) in core
    ensures v.None? ==> forall e :: e in core ==> e.seedling != seedling
  {
    if core == [] then None
    else if core[0].seedling == seedling then Some(core[0].version)
    else Get(core[1..], seedling)
  }

  lemma {:induction false} GetEntry(core: seq<Entry>, e: Entry)
    requires Distinct(core) && e in core
    ensures Get(core, e.seedling) == Some(e.version)
  {
    if core[0] != e {
      assert e in core[1..];
      var i :| 1 <= i < |core| && core[i] == e;
      assert core[0].seedling != core[i].seedling;
      GetEntry(core[1..], e);
    }
  }

  datatype Conflict =
    | FormatNewer(installed: nat, running: nat)
    | CoreNewer(seedling: string, installed: nat, running: nat)
    | CoreUnknown(seedling: string, installed: nat)

  datatype Difference =
    | Format(from: nat, to: nat)
    | CoreVersion(seedling: string, from: nat, to: nat)
    | CoreAdded(seedling: string, version: nat)
    | CoreRemoved(seedling: string, version: nat)

  /** What one installed entry contributes, against the core that is about to run. */
  function EntryConflicts(e: Entry, running: seq<Entry>): seq<Conflict>
  {
    match Get(running, e.seedling)
    case None => [CoreUnknown(e.seedling, e.version)]
    case Some(v) => if e.version > v then [CoreNewer(e.seedling, e.version, v)] else []
  }

  function EntryDifferences(e: Entry, to: seq<Entry>): seq<Difference>
  {
    match Get(to, e.seedling)
    case None => [CoreRemoved(e.seedling, e.version)]
    case Some(v) => if v != e.version then [CoreVersion(e.seedling, e.version, v)] else []
  }

  function AddedDifferences(e: Entry, from: seq<Entry>): seq<Difference>
  {
    if Get(from, e.seedling).None? then [CoreAdded(e.seedling, e.version)] else []
  }

  /** `f` of each element, one after the other. */
  function FlatMap<T, U>(xs: seq<T>, f: T -> seq<U>): seq<U>
  {
    if xs == [] then [] else FlatMap(xs[..|xs| - 1], f) + f(xs[|xs| - 1])
  }

  lemma FlatMapSnoc<T, U>(xs: seq<T>, n: nat, f: T -> seq<U>)
    requires n < |xs|
    ensures FlatMap(xs[..n + 1], f) == FlatMap(xs[..n], f) + f(xs[n])
  {
    assert xs[..n + 1][..n] == xs[..n];
  }

  lemma FlatMapLast<T, U>(xs: seq<T>, f: T -> seq<U>)
    ensures xs != [] ==> FlatMap(xs, f) == FlatMap(xs[..|xs| - 1], f) + f(xs[|xs| - 1])
    ensures xs == [] ==> FlatMap(xs, f) == []
  {}

  function ConflictsWith(running: seq<Entry>): Entry -> seq<Conflict>
  {
    e => EntryConflicts(e, running)
  }

  function DifferencesTo(to: seq<Entry>): Entry -> seq<Difference>
  {
    e => EntryDifferences(e, to)
  }

  function AddedTo(from: seq<Entry>): Entry -> seq<Difference>
  {
    e => AddedDifferences(e, from)
  }

  function Conflicts(installed: Metadata, running: Metadata): seq<Conflict>
  {
    (if installed.format > running.format then [FormatNewer(installed.format, running.format)] else [])
    + FlatMap(installed.core, ConflictsWith(running.core))
  }

  function AllDifferences(from: Metadata, to: Metadata): seq<Difference>
  {
    (if from.format != to.format then [Format(from.format, to.format)] else [])
    + FlatMap(from.core, DifferencesTo(to.core)) + FlatMap(to.core, AddedTo(from.core))
  }

  method StartConflicts(installed: Metadata, running: Metadata) returns (conflicts: seq<Conflict>)
    ensures conflicts == Conflicts(installed, running)
  {
    hide FlatMap, Get;
    FlatMapLast(installed.core[..0], ConflictsWith(running.core));
    conflicts := [];
    if installed.format > running.format {
      conflicts := conflicts + [FormatNewer(installed.format, running.format)];
    }
    ghost var before := conflicts;
    for i := 0 to |installed.core|
      invariant conflicts == before + FlatMap(installed.core[..i], ConflictsWith(running.core))
    {
      var e := installed.core[i];
      FlatMapSnoc(installed.core, i, ConflictsWith(running.core));
      match Get(running.core, e.seedling) {
        case None => conflicts := conflicts + [CoreUnknown(e.seedling, e.version)];
        case Some(v) =>
          if e.version > v {
            conflicts := conflicts + [CoreNewer(e.seedling, e.version, v)];
          }
      }
    }
    assert installed.core[..|installed.core|] == installed.core;
  }

  method Differences(from: Metadata, to: Metadata) returns (result: seq<Difference>)
    ensures result == AllDifferences(from, to)
  {
    hide FlatMap, Get;
    FlatMapLast(from.core[..0], DifferencesTo(to.core));
    FlatMapLast(to.core[..0], AddedTo(from.core));
    result := [];
    if from.format != to.format {
      result := result + [Format(from.format, to.format)];
    }
    ghost var before := result;
    for i := 0 to |from.core|
      invariant result == before + FlatMap(from.core[..i], DifferencesTo(to.core))
    {
      var e := from.core[i];
      FlatMapSnoc(from.core, i, DifferencesTo(to.core));
      match Get(to.core, e.seedling) {
        case None => result := result + [CoreRemoved(e.seedling, e.version)];
        case Some(v) =>
          if v != e.version {
            result := result + [CoreVersion(e.seedling, e.version, v)];
          }
      }
    }
    assert from.core[..|from.core|] == from.core;
    ghost var removed := result;
    for i := 0 to |to.core|
      invariant result == removed + FlatMap(to.core[..i], AddedTo(from.core))
    {
      var e := to.core[i];
      FlatMapSnoc(to.core, i, AddedTo(from.core));
      if Get(from.core, e.seedling).None? {
        result := result + [CoreAdded(e.seedling, e.version)];
      }
    }
    assert to.core[..|to.core|] == to.core;
  }

  lemma {:induction false} FlatMapHolds<T, U>(xs: seq<T>, f: T -> seq<U>, y: U)
    ensures y in FlatMap(xs, f) <==> exists i :: 0 <= i < |xs| && y in f(xs[i])
  {
    if xs != [] {
      var n := |xs| - 1;
      FlatMapHolds(xs[..n], f, y);
      if y in FlatMap(xs[..n], f) {
        var i :| 0 <= i < n && y in f(xs[..n][i]);
        assert y in f(xs[i]);
      }
      if i :| 0 <= i < |xs| && y in f(xs[i]) {
        assert i < n ==> y in f(xs[..n][i]);
      }
    }
  }

  /** The version of a seedling is that of the entry that lists it. */
  lemma GetExactly(core: seq<Entry>, seedling: string, version: nat)
    requires Distinct(core)
    ensures Get(core, seedling) == Some(version)
        <==> exists i :: 0 <= i < |core| && core[i] == Entry(seedling, version)
  {
    if i :| 0 <= i < |core| && core[i] == Entry(seedling, version) {
      GetEntry(core, core[i]);
    }
  }

  /** What each conflict says, and that no conflict of these kinds is missing. */
  lemma ConflictsExactly(installed: Metadata, running: Metadata, c: Conflict)
    requires Valid(installed)
    ensures c in Conflicts(installed, running) <==>
              match c
              case FormatNewer(i, r) => i == installed.format && r == running.format && i > r
              case CoreNewer(s, i, r) => Get(installed.core, s) == Some(i) && Get(running.core, s) == Some(r) && i > r
              case CoreUnknown(s, i) => Get(installed.core, s) == Some(i) && Get(running.core, s).None?
  {
    hide FlatMap, Get;
    var core, f := installed.core, ConflictsWith(running.core);
    FlatMapHolds(core, f, c);
    if !c.FormatNewer? {
      GetExactly(core, c.seedling, c.installed);
      if i :| 0 <= i < |core| && core[i] == Entry(c.seedling, c.installed) {
        assert c in f(core[i]) <==> c in EntryConflicts(core[i], running.core);
      }
    }
  }

  /** What each difference says, and that no difference of these kinds is missing. */
  lemma DifferencesExactly(from: Metadata, to: Metadata, d: Difference)
    requires Valid(from) && Valid(to)
    ensures d in AllDifferences(from, to) <==>
              match d
              case Format(f, t) => f == from.format && t == to.format && f != t
              case CoreVersion(s, f, t) => Get(from.core, s) == Some(f) && Get(to.core, s) == Some(t) && f != t
              case CoreAdded(s, v) => Get(from.core, s).None? && Get(to.core, s) == Some(v)
              case CoreRemoved(s, v) => Get(from.core, s) == Some(v) && Get(to.core, s).None?
  {
    hide FlatMap, Get;
    FlatMapHolds(from.core, DifferencesTo(to.core), d);
    FlatMapHolds(to.core, AddedTo(from.core), d);
    match d
    case Format(_, _) =>
    case CoreVersion(s, f, _) => GetExactly(from.core, s, f);
    case CoreAdded(s, v) => GetExactly(to.core, s, v);
    case CoreRemoved(s, v) => GetExactly(from.core, s, v);
  }

  function SeedlingOf(d: Difference): string
  {
    if d.Format? then "" else d.seedling
  }

  function Seedling(e: Entry): string
  {
    e.seedling
  }

  /** The entries that differ in another core, and those it does not list. */
  function Differs(other: seq<Entry>): Entry -> bool
  {
    (e: Entry) => Get(other, e.seedling) != Some(e.version)
  }

  function Unlisted(other: seq<Entry>): Entry -> bool
  {
    (e: Entry) => Get(other, e.seedling).None?
  }

  lemma {:induction false} InOrder(core: seq<Entry>, f: Entry -> seq<Difference>, keep: Entry -> bool)
    requires forall e :: f(e) == [] <==> !keep(e)
    requires forall e :: keep(e) ==> |f(e)| == 1 && SeedlingOf(f(e)[0]) == e.seedling
    ensures Map(FlatMap(core, f), SeedlingOf) == Map(Filter(core, keep), Seedling)
  {
    if core != [] {
      var n := |core| - 1;
      InOrder(core[..n], f, keep);
      FilterSnoc(core, n, keep);
      assert core[..n + 1] == core;
      MapAppend(FlatMap(core[..n], f), f(core[n]), SeedlingOf);
    }
  }

  lemma EntriesInOrder(core: seq<Entry>, other: seq<Entry>)
    ensures Map(FlatMap(core, DifferencesTo(other)), SeedlingOf) == Map(Filter(core, Differs(other)), Seedling)
    ensures Map(FlatMap(core, AddedTo(other)), SeedlingOf) == Map(Filter(core, Unlisted(other)), Seedling)
  {
    hide FlatMap, Filter, Map, Get;
    InOrder(core, DifferencesTo(other), Differs(other));
    InOrder(core, AddedTo(other), Unlisted(other));
  }

  lemma DropFirst<T>(a: seq<T>, b: seq<T>)
    ensures |a + b| >= |a| && (a + b)[|a|..] == b && (a != [] ==> (a + b)[0] == a[0])
  {}

  /** The format first, then what changed or went in the old order, then what came in the new; each once. */
  lemma DifferencesInOrder(from: Metadata, to: Metadata)
    ensures var format := if from.format != to.format then 1 else 0;
            var ds := AllDifferences(from, to);
            && |ds| >= format && (format == 1 ==> ds[0].Format?)
            && Map(ds[format..], SeedlingOf)
               == Map(Filter(from.core, Differs(to.core)), Seedling)
                  + Map(Filter(to.core, Unlisted(from.core)), Seedling)
  {
    hide FlatMap, Filter, Map, SeedlingOf, Seedling, DifferencesTo, AddedTo, Differs, Unlisted;
    var format := if from.format != to.format then [Format(from.format, to.format)] else [];
    var entries, added := FlatMap(from.core, DifferencesTo(to.core)), FlatMap(to.core, AddedTo(from.core));
    EntriesInOrder(from.core, to.core);
    EntriesInOrder(to.core, from.core);
    assert AllDifferences(from, to) == format + (entries + added);
    DropFirst(format, entries + added);
    MapAppend(entries, added, SeedlingOf);
  }

  /** The conflict a difference amounts to, if it goes downward. */
  function Downward(d: Difference): seq<Conflict>
  {
    match d
    case Format(from, to) => if from > to then [FormatNewer(from, to)] else []
    case CoreVersion(s, from, to) => if from > to then [CoreNewer(s, from, to)] else []
    case CoreRemoved(s, version) => [CoreUnknown(s, version)]
    case CoreAdded(_, _) => []
  }

  lemma {:induction false} FlatMapAppend<T, U>(xs: seq<T>, ys: seq<T>, f: T -> seq<U>)
    ensures FlatMap(xs + ys, f) == FlatMap(xs, f) + FlatMap(ys, f)
    decreases |ys|
  {
    if ys == [] {
      assert xs + ys == xs;
    } else {
      assert (xs + ys)[..|xs + ys| - 1] == xs + ys[..|ys| - 1];
      FlatMapAppend(xs, ys[..|ys| - 1], f);
    }
  }

  lemma FlatMapOne<T, U>(xs: seq<T>, f: T -> seq<U>)
    requires |xs| <= 1
    ensures FlatMap(xs, f) == if xs == [] then [] else f(xs[0])
  {
    if |xs| == 1 {
      assert FlatMap(xs[..0], f) == [];
    }
  }

  lemma {:induction false} EntriesDownward(core: seq<Entry>, to: seq<Entry>)
    ensures FlatMap(FlatMap(core, DifferencesTo(to)), Downward) == FlatMap(core, ConflictsWith(to))
  {
    hide FlatMap;
    FlatMapLast(core, DifferencesTo(to));
    FlatMapLast(core, ConflictsWith(to));
    if core == [] {
      FlatMapOne<Difference, Conflict>([], Downward);
    } else {
      var n := |core| - 1;
      EntriesDownward(core[..n], to);
      FlatMapAppend(FlatMap(core[..n], DifferencesTo(to)), EntryDifferences(core[n], to), Downward);
      FlatMapOne(EntryDifferences(core[n], to), Downward);
    }
  }

  lemma {:induction false} AddedNeverDownward(core: seq<Entry>, from: seq<Entry>)
    ensures FlatMap(FlatMap(core, AddedTo(from)), Downward) == []
  {
    hide FlatMap;
    FlatMapLast(core, AddedTo(from));
    if core == [] {
      FlatMapOne<Difference, Conflict>([], Downward);
    } else {
      var n := |core| - 1;
      AddedNeverDownward(core[..n], from);
      FlatMapAppend(FlatMap(core[..n], AddedTo(from)), AddedDifferences(core[n], from), Downward);
      FlatMapOne(AddedDifferences(core[n], from), Downward);
    }
  }

  /** What keeps a release from starting is exactly what would go downward, in the same order. */
  lemma ConflictsAreTheDownwardDifferences(installed: Metadata, running: Metadata)
    ensures Conflicts(installed, running) == FlatMap(AllDifferences(installed, running), Downward)
  {
    hide FlatMap;
    var format := if installed.format != running.format then [Format(installed.format, running.format)] else [];
    var entries := FlatMap(installed.core, DifferencesTo(running.core));
    var added := FlatMap(running.core, AddedTo(installed.core));
    FlatMapAppend(format + entries, added, Downward);
    FlatMapAppend(format, entries, Downward);
    FlatMapOne(format, Downward);
    EntriesDownward(installed.core, running.core);
    AddedNeverDownward(running.core, installed.core);
  }

  /** The metadata as a map from seedling to version. */
  datatype Contents = Contents(format: nat, core: map<string, nat>)

  function CoreMap(core: seq<Entry>): (m: map<string, nat>)
    ensures forall s :: s in m <==> Get(core, s).Some?
    ensures forall s :: s in m ==> Get(core, s) == Some(m[s])
  {
    if core == [] then map[] else CoreMap(core[1..])[core[0].seedling := core[0].version]
  }

  function ContentsOf(m: Metadata): Contents
  {
    Contents(m.format, CoreMap(m.core))
  }

  function Replay(c: Contents, d: Difference): Contents
  {
    match d
    case Format(_, to) => c.(format := to)
    case CoreVersion(s, _, to) => c.(core := c.core[s := to])
    case CoreAdded(s, version) => c.(core := c.core[s := version])
    case CoreRemoved(s, _) => c.(core := c.core - {s})
  }

  function ReplayAll(c: Contents, ds: seq<Difference>): Contents
  {
    if ds == [] then c else Replay(ReplayAll(c, ds[..|ds| - 1]), ds[|ds| - 1])
  }

  lemma {:induction false} ReplayAppend(c: Contents, ds: seq<Difference>, es: seq<Difference>)
    ensures ReplayAll(c, ds + es) == ReplayAll(ReplayAll(c, ds), es)
    decreases |es|
  {
    if es == [] {
      assert ds + es == ds;
    } else {
      assert (ds + es)[..|ds + es| - 1] == ds + es[..|es| - 1];
      ReplayAppend(c, ds, es[..|es| - 1]);
    }
  }

  lemma ReplayOne(c: Contents, ds: seq<Difference>)
    requires |ds| <= 1
    ensures ReplayAll(c, ds) == if ds == [] then c else Replay(c, ds[0])
  {
    if |ds| == 1 {
      assert ReplayAll(c, ds[..0]) == c;
    }
  }

  function At(c: Contents, seedling: string): Option<nat>
  {
    if seedling in c.core then Some(c.core[seedling]) else None
  }

  /** Replaying an entry's differences gives its seedling the version it has in `to`, and touches no other. */
  lemma ReplayEntry(c: Contents, e: Entry, to: seq<Entry>, s: string)
    requires e.seedling == s ==> At(c, s) == Some(e.version)
    ensures var c' := ReplayAll(c, EntryDifferences(e, to));
            At(c', s) == (if e.seedling == s then Get(to, s) else At(c, s)) && c'.format == c.format
  {
    ReplayOne(c, EntryDifferences(e, to));
  }

  predicate Listed(core: seq<Entry>, seedling: string)
  {
    exists i :: 0 <= i < |core| && core[i].seedling == seedling
  }

  lemma {:induction false} ReplayEntries(c: Contents, core: seq<Entry>, to: seq<Entry>, s: string)
    requires Distinct(core)
    requires forall i :: 0 <= i < |core| && core[i].seedling == s ==> At(c, s) == Some(core[i].version)
    ensures var c' := ReplayAll(c, FlatMap(core, DifferencesTo(to)));
            At(c', s) == (if Listed(core, s) then Get(to, s) else At(c, s)) && c'.format == c.format
  {
    hide FlatMap, ReplayAll, EntryDifferences;
    FlatMapLast(core, DifferencesTo(to));
    if core == [] {
      ReplayOne(c, []);
    } else {
      var n := |core| - 1;
      var c1 := ReplayAll(c, FlatMap(core[..n], DifferencesTo(to)));
      ReplayEntries(c, core[..n], to, s);
      ReplayAppend(c, FlatMap(core[..n], DifferencesTo(to)), EntryDifferences(core[n], to));
      if core[n].seedling == s {
        assert !Listed(core[..n], s);
      } else {
        assert Listed(core, s) <==> Listed(core[..n], s) by {
          if i :| 0 <= i < |core| && core[i].seedling == s {
            assert core[..n][i] == core[i];
          }
        }
      }
      ReplayEntry(c1, core[n], to, s);
    }
  }

  lemma {:induction false} ReplayAdded(c: Contents, core: seq<Entry>, from: seq<Entry>, s: string)
    requires Distinct(core)
    ensures var c' := ReplayAll(c, FlatMap(core, AddedTo(from)));
            && c'.format == c.format
            && (Get(from, s).Some? || !Listed(core, s) ==> At(c', s) == At(c, s))
            && (Get(from, s).None? ==>
                 forall i :: 0 <= i < |core| && core[i].seedling == s ==> At(c', s) == Some(core[i].version))
  {
    hide FlatMap, ReplayAll;
    FlatMapLast(core, AddedTo(from));
    if core == [] {
      ReplayOne(c, []);
    } else {
      var n := |core| - 1;
      var c1 := ReplayAll(c, FlatMap(core[..n], AddedTo(from)));
      ReplayAdded(c, core[..n], from, s);
      ReplayAppend(c, FlatMap(core[..n], AddedTo(from)), AddedDifferences(core[n], from));
      ReplayOne(c1, AddedDifferences(core[n], from));
      assert Listed(core[..n], s) ==> Listed(core, s) by {
        if i :| 0 <= i < n && core[..n][i].seedling == s {
          assert core[i].seedling == s;
        }
      }
      assert core[n].seedling == s ==> Listed(core, s);
    }
  }

  lemma ListedIsGet(core: seq<Entry>, s: string)
    requires Distinct(core)
    ensures Listed(core, s) <==> Get(core, s).Some?
    ensures forall i :: 0 <= i < |core| && core[i].seedling == s ==> Get(core, s) == Some(core[i].version)
  {
    forall i | 0 <= i < |core| && core[i].seedling == s
      ensures Get(core, s) == Some(core[i].version)
    {
      GetEntry(core, core[i]);
    }
    if Get(core, s).Some? {
      var i :| 0 <= i < |core| && core[i] == Entry(s, Get(core, s).value);
    }
  }

  lemma ReplayedAt(from: Metadata, to: Metadata, s: string)
    requires Valid(from) && Valid(to)
    ensures var c := ReplayAll(ContentsOf(from), AllDifferences(from, to));
            c.format == to.format && At(c, s) == Get(to.core, s)
  {
    hide FlatMap, ReplayAll, Get;
    var format := if from.format != to.format then [Format(from.format, to.format)] else [];
    var entries, added := FlatMap(from.core, DifferencesTo(to.core)), FlatMap(to.core, AddedTo(from.core));
    var c0 := ContentsOf(from);
    var c1 := ReplayAll(c0, format);
    var c2 := ReplayAll(c1, entries);
    ReplayOne(c0, format);
    ReplayAppend(c0, format + entries, added);
    ReplayAppend(c0, format, entries);
    ListedIsGet(from.core, s);
    ListedIsGet(to.core, s);
    ReplayEntries(c1, from.core, to.core, s);
    ReplayAdded(c2, to.core, from.core, s);
  }

  /** The differences are complete: replayed on what is there, they give what comes. */
  lemma ReplayReaches(from: Metadata, to: Metadata)
    requires Valid(from) && Valid(to)
    ensures ReplayAll(ContentsOf(from), AllDifferences(from, to)) == ContentsOf(to)
  {
    hide AllDifferences, ReplayAll;
    var c := ReplayAll(ContentsOf(from), AllDifferences(from, to));
    ReplayedAt(from, to, "");
    forall s: string
      ensures At(c, s) == Get(to.core, s)
    {
      ReplayedAt(from, to, s);
    }
    assert forall s ::
        (s in c.core <==> s in CoreMap(to.core)) && (s in c.core ==> c.core[s] == CoreMap(to.core)[s]) by {
      assert forall s :: s in c.core <==> At(c, s).Some?;
    }
    assert c.core == CoreMap(to.core);
  }

  /** Nothing differs exactly when both releases hold the same. */
  lemma NoDifferencesExactlyWhenSame(from: Metadata, to: Metadata)
    requires Valid(from) && Valid(to)
    ensures AllDifferences(from, to) == [] <==> ContentsOf(from) == ContentsOf(to)
  {
    if AllDifferences(from, to) == [] {
      ReplayReaches(from, to);
    }
    if ContentsOf(from) == ContentsOf(to) {
      var a, b := CoreMap(from.core), CoreMap(to.core);
      forall s: string
        ensures Get(from.core, s) == Get(to.core, s)
      {
        assert s in a <==> s in b;
      }
      forall e | e in from.core
        ensures EntryDifferences(e, to.core) == []
      {
        GetEntry(from.core, e);
      }
      forall e | e in to.core
        ensures AddedDifferences(e, from.core) == []
      {
        GetEntry(to.core, e);
      }
      FlatMapEmpty(from.core, DifferencesTo(to.core));
      FlatMapEmpty(to.core, AddedTo(from.core));
    }
  }

  lemma {:induction false} FlatMapEmpty<T, U>(xs: seq<T>, f: T -> seq<U>)
    ensures FlatMap(xs, f) == [] <==> forall i :: 0 <= i < |xs| ==> f(xs[i]) == []
  {
    if xs != [] {
      FlatMapEmpty(xs[..|xs| - 1], f);
    }
  }

  /** The rule the conflicts stand for: nothing goes down and nothing disappears. */
  predicate MayStart(installed: Metadata, running: Metadata)
  {
    && installed.format <= running.format
    && forall i :: 0 <= i < |installed.core| ==>
         var v := Get(running.core, installed.core[i].seedling); v.Some? && installed.core[i].version <= v.value
  }

  lemma NoConflictsExactlyWhen(installed: Metadata, running: Metadata)
    ensures Conflicts(installed, running) == [] <==> MayStart(installed, running)
  {
    FlatMapEmpty(installed.core, ConflictsWith(running.core));
  }

  /** A release always starts over itself. */
  lemma StartsOverItself(m: Metadata)
    requires Valid(m)
    ensures Conflicts(m, m) == []
  {
    forall e | e in m.core
      ensures Get(m.core, e.seedling) == Some(e.version)
    {
      GetEntry(m.core, e);
    }
    NoConflictsExactlyWhen(m, m);
  }

  lemma MayStartTransitive(a: Metadata, b: Metadata, c: Metadata)
    requires MayStart(a, b) && MayStart(b, c)
    ensures MayStart(a, c)
  {
    forall i | 0 <= i < |a.core|
      ensures var v := Get(c.core, a.core[i].seedling); v.Some? && a.core[i].version <= v.value
    {
      var e := Entry(a.core[i].seedling, Get(b.core, a.core[i].seedling).value);
      var j :| 0 <= j < |b.core| && b.core[j] == e;
    }
  }

  /** If each release in a chain starts over the one before, the last starts over the first. */
  lemma {:induction false} UpgradeChains(releases: seq<Metadata>)
    requires releases != [] && forall i :: 0 <= i < |releases| ==> Valid(releases[i])
    requires forall i :: 0 < i < |releases| ==> Conflicts(releases[i - 1], releases[i]) == []
    ensures Conflicts(releases[0], releases[|releases| - 1]) == []
  {
    hide Conflicts, MayStart;
    var n := |releases| - 1;
    if n == 0 {
      StartsOverItself(releases[0]);
    } else {
      UpgradeChains(releases[..n]);
      NoConflictsExactlyWhen(releases[0], releases[n - 1]);
      NoConflictsExactlyWhen(releases[n - 1], releases[n]);
      MayStartTransitive(releases[0], releases[n - 1], releases[n]);
      NoConflictsExactlyWhen(releases[0], releases[n]);
    }
  }
}
