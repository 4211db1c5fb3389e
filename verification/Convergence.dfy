/** Rounds of discover, plan and execute: what one round reaches, when it takes two, and what none touches. */
module Convergence {
  import opened Basics
  import opened Modes
  import opened Worlds
  import opened Bootstrap

  ghost predicate Owned(d: Definition, path: Path)
  {
    exists mode :: (path, mode) in d.ownedFolders
  }

  /** What a definition asks of the machine. */
  ghost predicate Meets(d: Definition, w: World)
  {
    && d.group in w.groups
    && (d.user.Managed? ==> d.user.name in w.users && IsMember(w, d.group, d.user.name))
    && (forall group :: group in d.additionalGroups ==> IsMember(w, group, d.user.name))
    && (forall path, mode :: (path, mode) in d.ownedFolders ==> FolderMeets(d, w, path, mode))
  }

  predicate FolderMeets(d: Definition, w: World, path: Path, mode: Mode)
  {
    && path in w.folders
    && w.folders[path].owner == Some(d.user.name)
    && w.folders[path].group == Some(d.group)
    && GetMode(w.folders[path].word) == mode
  }

  function PlanFor(d: Definition, w: World): seq<Command>
  {
    PlanUpTo(d, StateOf(d, w, d.additionalGroups, d.ownedFolders), PHASES)
  }

  /** The commands each phase of the plan consists of. */
  ghost predicate InPhase(d: Definition, w: World, c: Command, i: nat)
  {
    match i
    case 0 => c == CreateGroup(d.group) && d.group !in w.groups
    case 1 =>
      || (c == CreateUser(d.user.name, d.group) && AccountStateIn(d, w) == AccountState.Missing)
      || (c == AddUserToGroup(d.user.name, d.group) && AccountStateIn(d, w) == MissingGroupMembership)
    case 2 => c.CreateGroup? && c.group in d.additionalGroups && c.group !in w.groups
    case 3 =>
      c.AddUserToGroup? && c.user == d.user.name && c.group in d.additionalGroups && !IsMember(w, c.group, c.user)
    case 4 => c.CreateFolder? && Owned(d, c.path) && c.path !in w.folders
    case 5 =>
      && c.SetOwnership? && c.user == d.user.name && c.group == d.group && Owned(d, c.path)
      && !Achieved(c, w)
    case 6 =>
      && c.SetMode? && (c.path, c.mode) in d.ownedFolders
      && !(c.path in w.folders && GetMode(w.folders[c.path].word) == c.mode)
    case _ => false
  }

  /** What comes out of discovering a list and then turning it into steps. */
  lemma InSteps<T(!new), U>(xs: seq<T>, keep: T -> bool, f: T -> U, step: U -> Command, c: Command)
    ensures c in Map(Map(Filter(xs, keep), f), step) <==> exists x :: x in xs && keep(x) && step(f(x)) == c
  {
    var kept := Filter(xs, keep);
    if x :| x in xs && keep(x) && step(f(x)) == c {
      var i :| 0 <= i < |kept| && kept[i] == x;
      assert Map(Map(kept, f), step)[i] == c;
    }
    if c in Map(Map(kept, f), step) {
      var i :| 0 <= i < |kept| && Map(Map(kept, f), step)[i] == c;
      assert kept[i] in kept && step(f(kept[i])) == c;
    }
  }

  lemma GroupPhase(d: Definition, w: World, c: Command)
    ensures c in Phase(d, StateOf(d, w, d.additionalGroups, d.ownedFolders), 2) <==> InPhase(d, w, c, 2)
  {
    var missing := Filter(d.additionalGroups, GroupMissing(w));
    if c in Map(missing, GroupStep) {
      var i :| 0 <= i < |missing| && GroupStep(missing[i]) == c;
      assert missing[i] in missing;
    }
    if c.CreateGroup? && c.group in missing {
      var i :| 0 <= i < |missing| && missing[i] == c.group;
      assert Map(missing, GroupStep)[i] == c;
    }
  }

  lemma MembershipPhase(d: Definition, w: World, c: Command)
    ensures c in Phase(d, StateOf(d, w, d.additionalGroups, d.ownedFolders), 3) <==> InPhase(d, w, c, 3)
  {
    hide Filter, Map;
    var keep, f := NotMember(w, d.user.name), ToMembership(d.user.name);
    InSteps(d.additionalGroups, keep, f, JoinStep, c);
    if InPhase(d, w, c, 3) {
      assert keep(c.group) && JoinStep(f(c.group)) == c;
    }
  }

  lemma FolderPhase(d: Definition, w: World, c: Command)
    ensures c in Phase(d, StateOf(d, w, d.additionalGroups, d.ownedFolders), 4) <==> InPhase(d, w, c, 4)
  {
    hide Filter, Map;
    var keep := FolderMissing(w);
    InSteps(d.ownedFolders, keep, ToPath, FolderStep, c);
    if InPhase(d, w, c, 4) {
      var mode :| (c.path, mode) in d.ownedFolders;
      assert keep((c.path, mode)) && FolderStep(ToPath((c.path, mode))) == c;
    }
    if owned :| owned in d.ownedFolders && keep(owned) && FolderStep(ToPath(owned)) == c {
      assert (c.path, owned.1) in d.ownedFolders;
    }
  }

  lemma OwnershipPhase(d: Definition, w: World, c: Command)
    ensures c in Phase(d, StateOf(d, w, d.additionalGroups, d.ownedFolders), 5) <==> InPhase(d, w, c, 5)
  {
    hide Filter, Map;
    var keep, f := WronglyOwned(d, w), ToOwnership(d);
    InSteps(d.ownedFolders, keep, f, OwnershipStep, c);
    if InPhase(d, w, c, 5) {
      var mode :| (c.path, mode) in d.ownedFolders;
      assert keep((c.path, mode)) && OwnershipStep(f((c.path, mode))) == c;
    }
    if owned :| owned in d.ownedFolders && keep(owned) && OwnershipStep(f(owned)) == c {
      assert (c.path, owned.1) in d.ownedFolders;
    }
  }

  lemma ModePhase(d: Definition, w: World, c: Command)
    ensures c in Phase(d, StateOf(d, w, d.additionalGroups, d.ownedFolders), 6) <==> InPhase(d, w, c, 6)
  {
    hide Filter, Map, GetMode;
    var keep := WrongMode(w);
    InSteps(d.ownedFolders, keep, ToMode, ModeStep, c);
    if InPhase(d, w, c, 6) {
      assert keep((c.path, c.mode)) && ModeStep(ToMode((c.path, c.mode))) == c;
    }
    if owned :| owned in d.ownedFolders && keep(owned) && ModeStep(ToMode(owned)) == c {
      assert (c.path, c.mode) == owned;
    }
  }

  /** Each phase holds exactly the commands for what is missing. */
  lemma PhaseHolds(d: Definition, w: World, c: Command, i: nat)
    ensures c in Phase(d, StateOf(d, w, d.additionalGroups, d.ownedFolders), i) <==> InPhase(d, w, c, i)
  {
    match i
    case 2 => GroupPhase(d, w, c);
    case 3 => MembershipPhase(d, w, c);
    case 4 => FolderPhase(d, w, c);
    case 5 => OwnershipPhase(d, w, c);
    case 6 => ModePhase(d, w, c);
    case _ =>
  }

  lemma {:induction false} PlanHolds(d: Definition, w: World, c: Command, n: nat)
    ensures c in PlanUpTo(d, StateOf(d, w, d.additionalGroups, d.ownedFolders), n)
        <==> exists i :: 0 <= i < n && InPhase(d, w, c, i)
  {
    hide Phase, InPhase, StateOf;
    if n > 0 {
      PlanHolds(d, w, c, n - 1);
      PhaseHolds(d, w, c, n - 1);
    }
  }

  lemma InPlan(d: Definition, w: World, c: Command)
    ensures c in PlanFor(d, w) <==> exists i :: 0 <= i < PHASES && InPhase(d, w, c, i)
  {
    PlanHolds(d, w, c, PHASES);
  }

  predicate Distinct<T(==)>(xs: seq<T>)
  {
    forall i, j :: 0 <= i < j < |xs| ==> xs[i] != xs[j]
  }

  lemma {:induction false} FilterDistinct<T(!new)>(xs: seq<T>, keep: T -> bool)
    requires Distinct(xs)
    ensures Distinct(Filter(xs, keep))
  {
    if xs != [] {
      var n := |xs| - 1;
      FilterDistinct(xs[..n], keep);
      assert xs[n] !in xs[..n];
    }
  }

  lemma StepsDistinct<T(!new), U>(xs: seq<T>, keep: T -> bool, f: T -> U, step: U -> Command)
    requires Distinct(xs)
    requires forall x, y :: x in xs && y in xs && step(f(x)) == step(f(y)) ==> x == y
    ensures Distinct(Map(Map(Filter(xs, keep), f), step))
  {
    FilterDistinct(xs, keep);
    var kept := Filter(xs, keep);
    assert forall i :: 0 <= i < |kept| ==> kept[i] in kept;
  }

  /** A definition that names every group and every folder once. */
  predicate NamesOnce(d: Definition)
  {
    && Distinct(d.additionalGroups) && d.group !in d.additionalGroups
    && forall i, j :: 0 <= i < j < |d.ownedFolders| ==> d.ownedFolders[i].0 != d.ownedFolders[j].0
  }

  lemma OncePerFolder(d: Definition, x: (Path, Mode), y: (Path, Mode))
    requires NamesOnce(d) && x in d.ownedFolders && y in d.ownedFolders && x.0 == y.0
    ensures x == y
  {}

  lemma PhaseDistinct(d: Definition, w: World, i: nat)
    requires NamesOnce(d)
    ensures Distinct(Phase(d, StateOf(d, w, d.additionalGroups, d.ownedFolders), i))
  {
    hide Filter, Map;
    var groups, folders := d.additionalGroups, d.ownedFolders;
    forall x, y | x in folders && y in folders && x.0 == y.0
      ensures x == y
    {
      OncePerFolder(d, x, y);
    }
    match i
    case 2 =>
      StepsDistinct(groups, GroupMissing(w), group => group, GroupStep);
      MapSame(Filter(groups, GroupMissing(w)));
    case 3 => StepsDistinct(groups, NotMember(w, d.user.name), ToMembership(d.user.name), JoinStep);
    case 4 => StepsDistinct(folders, FolderMissing(w), ToPath, FolderStep);
    case 5 => StepsDistinct(folders, WronglyOwned(d, w), ToOwnership(d), OwnershipStep);
    case 6 => StepsDistinct(folders, WrongMode(w), ToMode, ModeStep);
    case _ =>
  }

  lemma MapSame(groups: seq<string>)
    ensures Map(groups, group => group) == groups
  {}

  lemma PhasesDisjoint(d: Definition, w: World, c: Command, i: nat, j: nat)
    requires i < j && InPhase(d, w, c, i) && InPhase(d, w, c, j)
    ensures d.group in d.additionalGroups
  {}

  /** If a definition names nothing twice, no step is planned twice. */
  lemma {:induction false} NoStepTwice(d: Definition, w: World, n: nat)
    requires NamesOnce(d)
    ensures Distinct(PlanUpTo(d, StateOf(d, w, d.additionalGroups, d.ownedFolders), n))
  {
    hide Phase, StateOf, InPhase;
    if n > 0 {
      var s := StateOf(d, w, d.additionalGroups, d.ownedFolders);
      var before, phase := PlanUpTo(d, s, n - 1), Phase(d, s, n - 1);
      NoStepTwice(d, w, n - 1);
      PhaseDistinct(d, w, n - 1);
      forall c | c in before && c in phase
        ensures false
      {
        PlanHolds(d, w, c, n - 1);
        PhaseHolds(d, w, c, n - 1);
        var i :| 0 <= i < n - 1 && InPhase(d, w, c, i);
        PhasesDisjoint(d, w, c, i, n - 1);
      }
      DistinctAppend(before, phase);
    }
  }

  lemma DistinctAppend<T>(xs: seq<T>, ys: seq<T>)
    requires Distinct(xs) && Distinct(ys) && forall x :: x in xs ==> x !in ys
    ensures Distinct(xs + ys)
  {
    forall i, j | 0 <= i < j < |xs + ys|
      ensures (xs + ys)[i] != (xs + ys)[j]
    {
      if i < |xs| <= j {
        assert xs[i] in xs && ys[j - |xs|] in ys;
      }
    }
  }

  /** Discovery succeeds with nothing to do exactly when the machine meets the definition. */
  lemma PlanIsEmptyExactlyWhenMet(d: Definition, w: World)
    ensures Meets(d, w) <==> Discoverable(d, w) && PlanFor(d, w) == []
  {
    if Meets(d, w) {
      forall i | 0 <= i < |d.ownedFolders|
        ensures !Unresolved(w, d.ownedFolders[i].0)
      {
        assert (d.ownedFolders[i].0, d.ownedFolders[i].1) in d.ownedFolders;
        assert FolderMeets(d, w, d.ownedFolders[i].0, d.ownedFolders[i].1);
      }
      if PlanFor(d, w) != [] {
        var c := PlanFor(d, w)[0];
        InPlan(d, w, c);
        var i :| 0 <= i < PHASES && InPhase(d, w, c, i);
        NothingWanted(d, w, c, i);
      }
    } else if PlanFor(d, w) == [] {
      SomethingWanted(d, w);
      var c, i :| 0 <= i < PHASES && InPhase(d, w, c, i);
      InPlan(d, w, c);
    }
  }

  lemma NothingWanted(d: Definition, w: World, c: Command, i: nat)
    requires Meets(d, w)
    ensures !InPhase(d, w, c, i)
  {}

  lemma SomethingWanted(d: Definition, w: World)
    requires !Meets(d, w)
    ensures exists c: Command, i :: 0 <= i < PHASES && InPhase(d, w, c, i)
  {
    var name := d.user.name;
    if d.group !in w.groups {
      assert InPhase(d, w, CreateGroup(d.group), 0);
    } else if d.user.Managed? && name !in w.users {
      assert InPhase(d, w, CreateUser(name, d.group), 1);
    } else if d.user.Managed? && !IsMember(w, d.group, name) {
      assert InPhase(d, w, AddUserToGroup(name, d.group), 1);
    } else if group :| group in d.additionalGroups && !IsMember(w, group, name) {
      assert InPhase(d, w, AddUserToGroup(name, group), 3);
    } else {
      var path, mode :| (path, mode) in d.ownedFolders && !FolderMeets(d, w, path, mode);
      if path !in w.folders {
        assert InPhase(d, w, CreateFolder(path), 4);
      } else if GetMode(w.folders[path].word) != mode {
        assert InPhase(d, w, SetMode(path, mode), 6);
      } else {
        assert InPhase(d, w, SetOwnership(path, name, d.group), 5);
      }
    }
  }

  /**
   What a definition and a machine have to agree on beforehand: one mode per owned folder, no plain file in
   its way, the system account already there, and a name for the owner of every owned folder that exists.
   */
  ghost predicate WellFormed(d: Definition, w: World)
  {
    && (forall path, m, n :: (path, m) in d.ownedFolders && (path, n) in d.ownedFolders ==> m == n)
    && (forall path, i :: Owned(d, path) && 0 <= i <= |path| ==> path[..i] !in w.files)
    && (d.user.System? ==> d.user.name in w.users)
    && Discoverable(d, w)
  }

  /** Discover, plan and execute. */
  function Round(env: Env, d: Definition, w: World): (World, bool)
  {
    if Discoverable(d, w) then Exec(env, w, PlanFor(d, w)) else (w, false)
  }

  /**
   Nothing on the machine stops a round: no plain file is in the way of an owned folder yet to be created, and
   a system account that does not exist has nothing left to be given.
   */
  ghost predicate Unobstructed(d: Definition, w: World)
  {
    && (forall path, i :: Owned(d, path) && path !in w.folders && 0 <= i <= |path| ==> path[..i] !in w.files)
    && (d.user.System? && d.user.name !in w.users ==>
         && (forall group :: group in d.additionalGroups ==> IsMember(w, group, d.user.name))
         && (forall path, mode :: (path, mode) in d.ownedFolders ==>
              && path in w.folders
              && w.folders[path].owner == Some(d.user.name) && w.folders[path].group == Some(d.group)))
  }

  /** The commands before phase `i` supply what phase `i` needs. */
  lemma PhaseSupplied(d: Definition, w: World, c: Command, i: nat)
    requires Unobstructed(d, w) && InPhase(d, w, c, i)
    ensures Supplied(c, w, PlanUpTo(d, StateOf(d, w, d.additionalGroups, d.ownedFolders), i))
  {
    hide PlanUpTo, StateOf;
    PlanHolds(d, w, CreateGroup(d.group), i);
    PlanHolds(d, w, CreateUser(d.user.name, d.group), i);
    assert InPhase(d, w, CreateGroup(d.group), 0) || d.group in w.groups;
    assert InPhase(d, w, CreateUser(d.user.name, d.group), 1) || d.user.name in w.users || d.user.System?;
    if c.AddUserToGroup? {
      PlanHolds(d, w, CreateGroup(c.group), i);
      assert InPhase(d, w, CreateGroup(c.group), 2) || c.group in w.groups || i == 1;
    } else if c.SetOwnership? || c.SetMode? {
      PlanHolds(d, w, CreateFolder(c.path), i);
      assert InPhase(d, w, CreateFolder(c.path), 4) || c.path in w.folders;
    }
  }

  lemma {:induction false} PlanSupplied(d: Definition, w: World, n: nat)
    requires Unobstructed(d, w)
    ensures AllSupplied(PlanUpTo(d, StateOf(d, w, d.additionalGroups, d.ownedFolders), n), w)
  {
    hide Phase, StateOf, Unobstructed, InPhase, Supplied;
    if n > 0 {
      PlanSupplied(d, w, n - 1);
      var s := StateOf(d, w, d.additionalGroups, d.ownedFolders);
      var before, phase := PlanUpTo(d, s, n - 1), Phase(d, s, n - 1);
      forall c | c in phase
        ensures Supplied(c, w, before)
      {
        PhaseHolds(d, w, c, n - 1);
        PhaseSupplied(d, w, c, n - 1);
      }
      PhaseAppended(w, before, phase);
    }
  }

  lemma PhaseAppended(w: World, before: seq<Command>, phase: seq<Command>)
    requires AllSupplied(before, w)
    requires forall c :: c in phase ==> Supplied(c, w, before)
    ensures AllSupplied(before + phase, w)
  {
    var all := before + phase;
    forall i | 0 <= i < |all|
      ensures Supplied(all[i], w, all[..i])
    {
      if i < |before| {
        assert all[..i] == before[..i];
      } else {
        assert all[i] in phase;
        forall c | c in before ensures c in all[..i] {
          var k :| 0 <= k < |before| && before[k] == c;
          assert all[..i][k] == c;
        }
      }
    }
  }

  /** The commands a definition can ever give rise to. */
  ghost predicate Scoped(d: Definition, c: Command)
  {
    match c
    case CreateGroup(group) => group == d.group || group in d.additionalGroups
    case CreateUser(user, group) => d.user == Managed(user) && group == d.group
    case AddUserToGroup(user, group) =>
      user == d.user.name && ((d.user.Managed? && group == d.group) || group in d.additionalGroups)
    case CreateFolder(path) => Owned(d, path)
    case SetOwnership(path, user, group) => Owned(d, path) && user == d.user.name && group == d.group
    case SetMode(path, mode) => (path, mode) in d.ownedFolders
  }

  lemma PlanIsScoped(d: Definition, w: World)
    ensures forall c :: c in PlanFor(d, w) ==> Scoped(d, c)
  {
    hide PlanFor;
    forall c | c in PlanFor(d, w)
      ensures Scoped(d, c)
    {
      InPlan(d, w, c);
    }
  }

  /** A command of a run that succeeds found what it needs, which the run itself can only have supplied in part. */
  lemma {:induction false} ExecNeeds(env: Env, w: World, cs: seq<Command>, c: Command)
    requires Exec(env, w, cs).1 && c in cs
    ensures c.CreateFolder? ==> Needs(c, w)
    ensures c.AddUserToGroup? || c.SetOwnership? ==>
              c.user in w.users || exists group :: CreateUser(c.user, group) in cs
    decreases cs
  {
    if cs[0] != c {
      var w1 := Effect(env, cs[0], w);
      assert c in cs[1..] && w1.files == w.files;
      ExecNeeds(env, w1, cs[1..], c);
      assert forall e :: e in cs[1..] ==> e in cs;
      assert forall u :: u in w1.users ==> u in w.users || (cs[0].CreateUser? && cs[0].user == u);
      assert cs[0].CreateUser? ==> CreateUser(cs[0].user, cs[0].group) in cs;
    }
  }

  lemma SomethingObstructed(d: Definition, w: World) returns (c: Command, i: nat)
    requires !Unobstructed(d, w)
    ensures i < PHASES && InPhase(d, w, c, i)
    ensures (c.CreateFolder? && !Needs(c, w))
         || ((c.AddUserToGroup? || c.SetOwnership?) && d.user == System(c.user) && c.user !in w.users)
  {
    if path, k :| Owned(d, path) && path !in w.folders && 0 <= k <= |path| && path[..k] in w.files {
      return CreateFolder(path), 4;
    }
    var name := d.user.name;
    if group :| group in d.additionalGroups && !IsMember(w, group, name) {
      return AddUserToGroup(name, group), 3;
    }
    var path, mode :| (path, mode) in d.ownedFolders && !Achieved(SetOwnership(path, name, d.group), w);
    assert Owned(d, path);
    return SetOwnership(path, name, d.group), 5;
  }

  /** Every planned step finds what it needs when it is reached, exactly if nothing obstructs the round. */
  lemma RoundSucceedsExactlyWhen(env: Env, d: Definition, w: World)
    requires Discoverable(d, w)
    ensures Round(env, d, w).1 <==> Unobstructed(d, w)
  {
    if Unobstructed(d, w) {
      hide AllSupplied, PlanUpTo, StateOf, Unobstructed;
      PlanSupplied(d, w, PHASES);
      ExecSucceeds(env, w, PlanFor(d, w));
    } else {
      var c, i := SomethingObstructed(d, w);
      hide PlanFor, Unobstructed, Exec, Needs, InPhase;
      InPlan(d, w, c);
      PlanIsScoped(d, w);
      if Round(env, d, w).1 {
        ExecNeeds(env, w, PlanFor(d, w), c);
      }
    }
  }

  /** So on a well-formed machine a round succeeds. */
  lemma RoundSucceeds(env: Env, d: Definition, w: World)
    requires WellFormed(d, w)
    ensures Round(env, d, w).1
  {
    hide Round;
    RoundSucceedsExactlyWhen(env, d, w);
  }

  /** A goal of the definition that is met, or planned for, is met after the round. */
  lemma GoalReached(env: Env, d: Definition, w: World, goal: Command)
    requires WellFormed(d, w) && Scoped(d, goal)
    requires Achieved(goal, w) || (goal in PlanFor(d, w) && (goal.CreateUser? ==> goal.user !in w.users))
    ensures Achieved(goal, Round(env, d, w).0)
  {
    hide PlanFor, Exec, Achieved;
    RoundSucceeds(env, d, w);
    PlanIsScoped(d, w);
    if Achieved(goal, w) {
      ExecKeeps(env, w, PlanFor(d, w), goal);
    } else {
      ExecAchieves(env, w, PlanFor(d, w), goal);
    }
  }

  ghost predicate AllObservable(d: Definition)
  {
    forall path, mode :: (path, mode) in d.ownedFolders ==> Observable(mode)
  }

  /** Everything but the modes a folder can be read back with, and the managed user's own group. */
  lemma RoundReaches(env: Env, d: Definition, w: World)
    requires WellFormed(d, w)
    ensures var w' := Round(env, d, w).0;
            && d.group in w'.groups
            && (d.user.Managed? ==> d.user.name in w'.users)
            && (forall group :: group in d.additionalGroups ==> IsMember(w', group, d.user.name))
            && (forall path, mode :: (path, mode) in d.ownedFolders ==>
                 Achieved(SetOwnership(path, d.user.name, d.group), w') && Achieved(SetMode(path, mode), w'))
  {
    hide Round, WellFormed, PlanFor;
    var w' := Round(env, d, w).0;
    var name := d.user.name;
    GroupReached(env, d, w);
    if d.user.Managed? {
      UserReached(env, d, w);
    }
    forall group | group in d.additionalGroups
      ensures IsMember(w', group, name)
    {
      MembershipReached(env, d, w, group);
    }
    forall path, mode | (path, mode) in d.ownedFolders
      ensures Achieved(SetOwnership(path, name, d.group), w') && Achieved(SetMode(path, mode), w')
    {
      FolderReached(env, d, w, path, mode);
    }
  }

  lemma GroupReached(env: Env, d: Definition, w: World)
    requires WellFormed(d, w)
    ensures d.group in Round(env, d, w).0.groups
  {
    hide PlanFor, Round;
    var goal := CreateGroup(d.group);
    InPlan(d, w, goal);
    assert InPhase(d, w, goal, 0) || Achieved(goal, w);
    GoalReached(env, d, w, goal);
  }

  lemma UserReached(env: Env, d: Definition, w: World)
    requires WellFormed(d, w) && d.user.Managed?
    ensures d.user.name in Round(env, d, w).0.users
  {
    var goal := CreateUser(d.user.name, d.group);
    if d.user.name in w.users {
      hide PlanFor;
      ExecGrows(env, w, PlanFor(d, w));
    } else {
      InPlan(d, w, goal);
      assert InPhase(d, w, goal, 1);
      GoalReached(env, d, w, goal);
    }
  }

  lemma MembershipReached(env: Env, d: Definition, w: World, group: string)
    requires WellFormed(d, w) && group in d.additionalGroups
    ensures IsMember(Round(env, d, w).0, group, d.user.name)
  {
    hide PlanFor, Round;
    var goal := AddUserToGroup(d.user.name, group);
    InPlan(d, w, goal);
    assert InPhase(d, w, goal, 3) || Achieved(goal, w);
    GoalReached(env, d, w, goal);
  }

  lemma FolderReached(env: Env, d: Definition, w: World, path: Path, mode: Mode)
    requires WellFormed(d, w) && (path, mode) in d.ownedFolders
    ensures Achieved(SetOwnership(path, d.user.name, d.group), Round(env, d, w).0)
    ensures Achieved(SetMode(path, mode), Round(env, d, w).0)
  {
    hide PlanFor, Round;
    var ownership, setMode := SetOwnership(path, d.user.name, d.group), SetMode(path, mode);
    InPlan(d, w, ownership);
    InPlan(d, w, setMode);
    assert InPhase(d, w, ownership, 5) || Achieved(ownership, w);
    if path in w.folders {
      ReadsBack(w.folders[path].word, mode);
    }
    assert InPhase(d, w, setMode, 6) || Achieved(setMode, w);
    GoalReached(env, d, w, ownership);
    GoalReached(env, d, w, setMode);
  }

  /** The one case discovery overlooks: the account is there, its group is not. */
  predicate NeedsSecondPass(env: Env, d: Definition, w: World)
  {
    && d.user.Managed? && d.user.name in w.users
    && d.group !in w.groups && d.group !in d.additionalGroups
    && w.users[d.user.name] != env.newGid(w.groups)
  }

  lemma {:induction false} PlanStartsWithTheGroup(d: Definition, s: ServiceState, n: nat)
    requires s.group == GroupPresence.Missing && n > 0
    ensures PlanUpTo(d, s, n) != [] && PlanUpTo(d, s, n)[0] == CreateGroup(d.group)
  {
    if n > 1 {
      PlanStartsWithTheGroup(d, s, n - 1);
    }
  }

  /** Nobody joins a group behind the plan's back. */
  lemma {:induction false} ExecNeverJoins(env: Env, w: World, cs: seq<Command>, user: string, group: string)
    requires group in w.groups && user in w.users && !IsMember(w, group, user)
    requires AddUserToGroup(user, group) !in cs
    ensures !IsMember(Exec(env, w, cs).0, group, user)
    decreases cs
  {
    if cs != [] && Needs(cs[0], w) {
      var w1 := Effect(env, cs[0], w);
      assert cs[0] in cs && forall c :: c in cs[1..] ==> c in cs;
      ExecNeverJoins(env, w1, cs[1..], user, group);
    }
  }

  lemma NewGroupMember(env: Env, d: Definition, w: World)
    requires WellFormed(d, w) && d.user.Managed? && d.user.name in w.users
    requires d.group !in w.groups && d.group !in d.additionalGroups
    ensures IsMember(Round(env, d, w).0, d.group, d.user.name) <==> w.users[d.user.name] == env.newGid(w.groups)
  {
    hide PlanUpTo, StateOf;
    var plan, join := PlanFor(d, w), AddUserToGroup(d.user.name, d.group);
    StartOfPlan(d, w);
    InPlan(d, w, join);
    var w1 := Effect(env, plan[0], w);
    assert Exec(env, w, plan) == Exec(env, w1, plan[1..]);
    if w.users[d.user.name] == env.newGid(w.groups) {
      ExecKeeps(env, w1, plan[1..], join);
    } else {
      assert forall c :: c in plan[1..] ==> c in plan;
      ExecNeverJoins(env, w1, plan[1..], d.user.name, d.group);
    }
  }

  lemma StartOfPlan(d: Definition, w: World)
    requires d.group !in w.groups
    ensures PlanFor(d, w) != [] && PlanFor(d, w)[0] == CreateGroup(d.group)
  {
    PlanStartsWithTheGroup(d, StateOf(d, w, d.additionalGroups, d.ownedFolders), PHASES);
  }

  lemma ServiceMember(env: Env, d: Definition, w: World)
    requires WellFormed(d, w) && d.user.Managed?
    ensures IsMember(Round(env, d, w).0, d.group, d.user.name) <==> !NeedsSecondPass(env, d, w)
  {
    hide PlanFor, WellFormed, Round;
    var name := d.user.name;
    var create, join := CreateUser(name, d.group), AddUserToGroup(name, d.group);
    InPlan(d, w, create);
    InPlan(d, w, join);
    if name !in w.users {
      assert InPhase(d, w, create, 1);
      GoalReached(env, d, w, create);
    } else if d.group in w.groups {
      assert InPhase(d, w, join, 1) || Achieved(join, w);
      GoalReached(env, d, w, join);
    } else if d.group in d.additionalGroups {
      MembershipReached(env, d, w, d.group);
    } else {
      NewGroupMember(env, d, w);
    }
  }

  /**
   One round is enough exactly when the second pass is not needed and every mode asked for can be read
   back: the plan after it is then empty (`PlanIsEmptyExactlyWhenMet`).
   */
  lemma OneRoundIsEnoughExactlyWhen(env: Env, d: Definition, w: World)
    requires WellFormed(d, w)
    ensures Meets(d, Round(env, d, w).0) <==> !NeedsSecondPass(env, d, w) && AllObservable(d)
  {
    hide WellFormed, Round, NeedsSecondPass, GetMode, Observable;
    var w' := Round(env, d, w).0;
    RoundReaches(env, d, w);
    if d.user.Managed? {
      ServiceMember(env, d, w);
    } else {
      SystemNeedsOnePass(env, d, w);
    }
    forall path, mode | (path, mode) in d.ownedFolders
      ensures FolderMeets(d, w', path, mode) <==> Observable(mode)
    {
      assert Achieved(SetOwnership(path, d.user.name, d.group), w') && Achieved(SetMode(path, mode), w');
      ReadsBack(w'.folders[path].word, mode);
    }
  }

  /** A machine that needs it: the account is there, with a primary group that is not the new one. */
  lemma SecondPassIsNeeded(env: Env)
    ensures var d := Definition(Managed("u"), "g", [], []);
            var w := World(map[], map["u" := env.newGid(map[]) + 1], map[], {});
            && WellFormed(d, w) && NeedsSecondPass(env, d, w)
            && !Meets(d, Round(env, d, w).0)
  {
    var d := Definition(Managed("u"), "g", [], []);
    var w := World(map[], map["u" := env.newGid(map[]) + 1], map[], {});
    assert WellFormed(d, w) && NeedsSecondPass(env, d, w);
    hide WellFormed, Round, Meets;
    OneRoundIsEnoughExactlyWhen(env, d, w);
  }

  lemma SystemNeedsOnePass(env: Env, d: Definition, w: World)
    requires d.user.System?
    ensures !NeedsSecondPass(env, d, w)
  {}

  lemma RoundStaysWellFormed(env: Env, d: Definition, w: World)
    requires WellFormed(d, w)
    ensures WellFormed(d, Round(env, d, w).0)
  {
    hide PlanFor;
    var w' := Round(env, d, w).0;
    RoundReaches(env, d, w);
    ExecGrows(env, w, PlanFor(d, w));
    forall i | 0 <= i < |d.ownedFolders|
      ensures !Unresolved(w', d.ownedFolders[i].0)
    {
      var owned := d.ownedFolders[i];
      assert (owned.0, owned.1) in d.ownedFolders;
      assert Achieved(SetOwnership(owned.0, d.user.name, d.group), w');
    }
  }

  /** A round for each environment in turn. */
  function Rounds(envs: seq<Env>, d: Definition, w: World): World
  {
    if envs == [] then w else Round(envs[|envs| - 1], d, Rounds(envs[..|envs| - 1], d, w)).0
  }

  lemma {:induction false} RoundsStayWellFormed(envs: seq<Env>, d: Definition, w: World)
    requires WellFormed(d, w)
    ensures WellFormed(d, Rounds(envs, d, w))
    ensures envs != [] ==> d.group in Rounds(envs, d, w).groups
  {
    hide WellFormed, Round;
    if envs != [] {
      var before := Rounds(envs[..|envs| - 1], d, w);
      RoundsStayWellFormed(envs[..|envs| - 1], d, w);
      RoundStaysWellFormed(envs[|envs| - 1], d, before);
      RoundReaches(envs[|envs| - 1], d, before);
    }
  }

  /**
   Convergence: from any well-formed machine every round succeeds, and after two or more of them the
   definition is met exactly when each mode it asks for can be read back. What is met stays met.
   */
  lemma TwoRoundsConverge(envs: seq<Env>, d: Definition, w: World)
    requires WellFormed(d, w)
    ensures forall i :: 0 <= i < |envs| ==> Round(envs[i], d, Rounds(envs[..i], d, w)).1
    ensures |envs| >= 2 ==> (Meets(d, Rounds(envs, d, w)) <==> AllObservable(d))
  {
    hide WellFormed, Round, Meets, AllObservable;
    forall i | 0 <= i < |envs|
      ensures Round(envs[i], d, Rounds(envs[..i], d, w)).1
    {
      RoundsStayWellFormed(envs[..i], d, w);
      RoundSucceeds(envs[i], d, Rounds(envs[..i], d, w));
    }
    if |envs| >= 2 {
      var before := envs[..|envs| - 1];
      RoundsStayWellFormed(before, d, w);
      OneRoundIsEnoughExactlyWhen(envs[|envs| - 1], d, Rounds(before, d, w));
    }
  }

  /** On a machine that meets the definition a round succeeds and does nothing. */
  lemma MetIsStable(env: Env, d: Definition, w: World)
    requires Meets(d, w)
    ensures Round(env, d, w) == (w, true)
  {
    PlanIsEmptyExactlyWhenMet(d, w);
  }

  /** A definition with mode 440 or 700 is never met: its plan sets the mode again in every round, for ever. */
  lemma UnreadableModesAreSetForEver(d: Definition, w: World, path: Path, mode: Mode)
    requires mode == OwnerReadGroupRead || mode == OwnerReadWriteExecute
    requires (path, mode) in d.ownedFolders
    ensures SetMode(path, mode) in PlanFor(d, w)
  {
    hide PlanFor, GetMode;
    InPlan(d, w, SetMode(path, mode));
    if path in w.folders { ReadsBack(w.folders[path].word, mode); }
    assert InPhase(d, w, SetMode(path, mode), 6);
  }

  /**
   After any number of rounds an owned folder grants what the name of its mode promises, to owner, group and
   others, and nothing else: with a named mode, others can never read or write it.
   */
  lemma FoldersGrantExactly(envs: seq<Env>, d: Definition, w: World, path: Path, mode: Mode, c: Class, r: Right)
    requires WellFormed(d, w) && envs != [] && (path, mode) in d.ownedFolders && !mode.Other?
    ensures path in Rounds(envs, d, w).folders
    ensures var bits := Rounds(envs, d, w).folders[path].word % PERMISSION_BITS;
            && (Grants(bits, c, r) <==> Promises(mode, c, r))
            && (c == OtherClass && r != MayExecute ==> !Grants(bits, c, r))
            && (bits / SETGID % 2 == 1 <==> PromisesInheritance(mode)) && bits / STICKY % 2 == 0 && bits < SETUID
  {
    hide WellFormed, Round, Bits, Grants, Promises;
    var before := envs[..|envs| - 1];
    var last := Rounds(before, d, w);
    RoundsStayWellFormed(before, d, w);
    RoundReaches(envs[|envs| - 1], d, last);
    assert Achieved(SetMode(path, mode), Rounds(envs, d, w));
    NamedModesGrantExactly(mode, c, r);
    NamedModesKeepOthersOut(mode, r);
  }

  /** What bootstrapping one service leaves alone on a machine that others share. */
  ghost predicate Framed(d: Definition, w: World, w': World)
  {
    && Grown(w, w')
    && (forall g :: g in w'.groups ==> g in w.groups || g == d.group || g in d.additionalGroups)
    && (forall g, u :: g in w'.groups && u in w'.groups[g].members ==>
         || (g in w.groups && u in w.groups[g].members)
         || (u == d.user.name && ((d.user.Managed? && g == d.group) || g in d.additionalGroups)))
    && (forall u :: u in w'.users ==> u in w.users || d.user == Managed(u))
    && (forall p :: p in w.folders && !Owned(d, p) ==> w'.folders[p] == w.folders[p])
    && (forall p :: p in w'.folders ==> p in w.folders || exists path :: Owned(d, path) && p <= path)
  }

  lemma EffectFramed(env: Env, d: Definition, w: World, c: Command)
    requires Needs(c, w) && Scoped(d, c)
    ensures Framed(d, w, Effect(env, c, w))
  {}

  lemma NothingFramed(d: Definition, w: World)
    ensures Framed(d, w, w)
  {}

  lemma FramedTwice(d: Definition, w: World, w1: World, w2: World)
    requires Framed(d, w, w1) && Framed(d, w1, w2)
    ensures Framed(d, w, w2)
  {}

  lemma {:induction false} ExecFramed(env: Env, d: Definition, w: World, cs: seq<Command>)
    requires forall c :: c in cs ==> Scoped(d, c)
    ensures Framed(d, w, Exec(env, w, cs).0)
    decreases cs
  {
    hide Framed, Effect, Scoped, Needs;
    if cs == [] || !Needs(cs[0], w) {
      NothingFramed(d, w);
    } else {
      var w1 := Effect(env, cs[0], w);
      EffectFramed(env, d, w, cs[0]);
      ExecFramed(env, d, w1, cs[1..]);
      FramedTwice(d, w, w1, Exec(env, w1, cs[1..]).0);
    }
  }

  /**
   Executing any plan, however much of it and however stale, removes no group, member, user or folder, and
   changes no folder outside the definition; what it adds is named by the definition.
   */
  lemma PlansKeepTheRest(env: Env, d: Definition, seen: World, w: World, n: nat)
    requires n <= |PlanFor(d, seen)|
    ensures Framed(d, w, Exec(env, w, PlanFor(d, seen)[..n]).0)
  {
    PlanIsScoped(d, seen);
    ExecFramed(env, d, w, PlanFor(d, seen)[..n]);
  }
}
