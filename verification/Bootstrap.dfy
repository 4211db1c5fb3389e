/** Service bootstrap: compare a definition with the machine, plan the missing steps, and converge. */
module Bootstrap {
  import opened Basics
  import opened Modes
  import opened Worlds

  datatype ServiceUser = Managed(name: string) | System(name: string)

  datatype Definition = Definition(
    user: ServiceUser, group: string, ownedFolders: seq<(Path, Mode)>, additionalGroups: seq<string>)

  datatype GroupPresence = Present | Missing

  datatype AccountState = Ready | Unmanaged | Missing | MissingGroupMembership

  datatype Membership = Membership(group: string, user: string)

  datatype Ownership = Ownership(path: Path, user: string, group: string)

  datatype ModeRequirement = ModeRequirement(path: Path, mode: Mode)

  datatype ServiceState = ServiceState(
    group: GroupPresence,
    user: AccountState,
    groupsMissing: seq<string>,
    membershipsMissing: seq<Membership>,
    foldersMissing: seq<Path>,
    ownershipMissing: seq<Ownership>,
    modeMissing: seq<ModeRequirement>)

  datatype Error = UserNotFound

  function AccountStateIn(d: Definition, w: World): AccountState
  {
    if d.user.System? then Unmanaged
    else if d.user.name !in w.users then AccountState.Missing
    else if d.group in w.groups && !IsMember(w, d.group, d.user.name) then MissingGroupMembership
    else Ready
  }

  /** The tests discovery applies to each additional group and each owned folder. */
  function GroupMissing(w: World): string -> bool
  {
    group => group !in w.groups
  }

  function NotMember(w: World, user: string): string -> bool
  {
    group => !IsMember(w, group, user)
  }

  function FolderMissing(w: World): ((Path, Mode)) -> bool
  {
    (owned: (Path, Mode)) => owned.0 !in w.folders
  }

  function WronglyOwned(d: Definition, w: World): ((Path, Mode)) -> bool
  {
    (owned: (Path, Mode)) => !(
      && owned.0 in w.folders
      && w.folders[owned.0].owner == Some(d.user.name)
      && w.folders[owned.0].group == Some(d.group))
  }

  function WrongMode(w: World): ((Path, Mode)) -> bool
  {
    (owned: (Path, Mode)) => !(owned.0 in w.folders && GetMode(w.folders[owned.0].word) == owned.1)
  }

  /** An existing folder whose owner or group id has no name stops discovery. */
  predicate Unresolved(w: World, path: Path)
  {
    path in w.folders && (w.folders[path].owner.None? || w.folders[path].group.None?)
  }

  function ToMembership(user: string): string -> Membership
  {
    group => Membership(group, user)
  }

  function ToPath(owned: (Path, Mode)): Path
  {
    owned.0
  }

  function ToOwnership(d: Definition): ((Path, Mode)) -> Ownership
  {
    (owned: (Path, Mode)) => Ownership(owned.0, d.user.name, d.group)
  }

  function ToMode(owned: (Path, Mode)): ModeRequirement
  {
    ModeRequirement(owned.0, owned.1)
  }

  /** Everything that is missing, list by list in the definition's order. */
  function StateOf(d: Definition, w: World, groups: seq<string>, folders: seq<(Path, Mode)>): ServiceState
  {
    ServiceState(
      if d.group in w.groups then Present else GroupPresence.Missing,
      AccountStateIn(d, w),
      Filter(groups, GroupMissing(w)),
      Map(Filter(groups, NotMember(w, d.user.name)), ToMembership(d.user.name)),
      Map(Filter(folders, FolderMissing(w)), ToPath),
      Map(Filter(folders, WronglyOwned(d, w)), ToOwnership(d)),
      Map(Filter(folders, WrongMode(w)), ToMode))
  }

  predicate Discoverable(d: Definition, w: World)
  {
    forall i :: 0 <= i < |d.ownedFolders| ==> !Unresolved(w, d.ownedFolders[i].0)
  }

  method DiscoverFolderState(d: Definition, w: World, state: ServiceState, path: Path, mode: Mode)
    returns (r: Result<ServiceState, Error>)
    ensures r.Err? <==> Unresolved(w, path)
    ensures r.Ok? ==>
      r.value == state.(
        foldersMissing :=
          state.foldersMissing + if FolderMissing(w)((path, mode)) then [path] else [],
        ownershipMissing :=
          state.ownershipMissing
          + if WronglyOwned(d, w)((path, mode)) then [Ownership(path, d.user.name, d.group)] else [],
        modeMissing :=
          state.modeMissing + if WrongMode(w)((path, mode)) then [ModeRequirement(path, mode)] else [])
  {
    var s := state;
    if path !in w.folders {
      s := s.(foldersMissing := s.foldersMissing + [path]);
      s := s.(ownershipMissing := s.ownershipMissing + [Ownership(path, d.user.name, d.group)]);
      s := s.(modeMissing := s.modeMissing + [ModeRequirement(path, mode)]);
      return Ok(s);
    }
    var folder := w.folders[path];
    if folder.owner.None? || folder.group.None? {
      return Err(UserNotFound);
    }
    if folder.owner.value != d.user.name || folder.group.value != d.group {
      s := s.(ownershipMissing := s.ownershipMissing + [Ownership(path, d.user.name, d.group)]);
    }
    if GetMode(folder.word) != mode {
      s := s.(modeMissing := s.modeMissing + [ModeRequirement(path, mode)]);
    }
    return Ok(s);
  }

  lemma GroupsSnoc(d: Definition, w: World, n: nat)
    requires n < |d.additionalGroups|
    ensures var before := StateOf(d, w, d.additionalGroups[..n], []);
            var group := d.additionalGroups[n];
            StateOf(d, w, d.additionalGroups[..n + 1], []) == before.(
              groupsMissing := before.groupsMissing + if group !in w.groups then [group] else [],
              membershipsMissing :=
                before.membershipsMissing
                + if !IsMember(w, group, d.user.name) then [Membership(group, d.user.name)] else [])
  {
    FilterSnoc(d.additionalGroups, n, GroupMissing(w));
    FilterSnoc(d.additionalGroups, n, NotMember(w, d.user.name));
    MapFilterSnoc(d.additionalGroups, n, NotMember(w, d.user.name), ToMembership(d.user.name));
  }

  lemma MapFilterSnoc<T(!new), U>(xs: seq<T>, n: nat, keep: T -> bool, f: T -> U)
    requires n < |xs|
    ensures Map(Filter(xs[..n + 1], keep), f)
         == Map(Filter(xs[..n], keep), f) + if keep(xs[n]) then [f(xs[n])] else []
  {
    FilterSnoc(xs, n, keep);
  }

  lemma FoldersSnoc(d: Definition, w: World, n: nat)
    requires n < |d.ownedFolders|
    ensures var before := StateOf(d, w, d.additionalGroups, d.ownedFolders[..n]);
            var owned := d.ownedFolders[n];
            StateOf(d, w, d.additionalGroups, d.ownedFolders[..n + 1]) == before.(
              foldersMissing := before.foldersMissing + if FolderMissing(w)(owned) then [owned.0] else [],
              ownershipMissing :=
                before.ownershipMissing
                + if WronglyOwned(d, w)(owned) then [Ownership(owned.0, d.user.name, d.group)] else [],
              modeMissing :=
                before.modeMissing + if WrongMode(w)(owned) then [ModeRequirement(owned.0, owned.1)] else [])
  {
    MapFilterSnoc(d.ownedFolders, n, FolderMissing(w), ToPath);
    MapFilterSnoc(d.ownedFolders, n, WronglyOwned(d, w), ToOwnership(d));
    MapFilterSnoc(d.ownedFolders, n, WrongMode(w), ToMode);
  }

  lemma NothingSeen(d: Definition, w: World)
    ensures StateOf(d, w, d.additionalGroups[..0], []) == ServiceState(
      if d.group in w.groups then Present else GroupPresence.Missing, AccountStateIn(d, w), [], [], [], [], [])
  {}

  /** Discovery lists exactly what is missing, or stops at a folder whose owner or group has no name. */
  method DiscoverServiceState(d: Definition, w: World) returns (r: Result<ServiceState, Error>)
    ensures r.Ok? <==> Discoverable(d, w)
    ensures r.Ok? <==>
              forall path, mode :: (path, mode) in d.ownedFolders && path in w.folders ==>
                w.folders[path].owner.Some? && w.folders[path].group.Some?
    ensures r.Ok? ==> r.value == StateOf(d, w, d.additionalGroups, d.ownedFolders)
  {
    hide StateOf, AccountStateIn, GroupMissing, FolderMissing, WronglyOwned, WrongMode, Filter, Map;
    var groups, folders := d.additionalGroups, d.ownedFolders;
    NothingSeen(d, w);
    var state := ServiceState(
      if d.group in w.groups then Present else GroupPresence.Missing, AccountStateIn(d, w), [], [], [], [], []);
    for i := 0 to |groups|
      invariant state == StateOf(d, w, groups[..i], [])
    {
      GroupsSnoc(d, w, i);
      var isMember := false;
      if groups[i] in w.groups {
        isMember := IsMember(w, groups[i], d.user.name);
      } else {
        state := state.(groupsMissing := state.groupsMissing + [groups[i]]);
      }
      if !isMember {
        state := state.(membershipsMissing := state.membershipsMissing + [Membership(groups[i], d.user.name)]);
      }
    }
    assert groups[..|groups|] == groups;
    for i := 0 to |folders|
      invariant state == StateOf(d, w, groups, folders[..i])
      invariant forall k :: 0 <= k < i ==> !Unresolved(w, folders[k].0)
    {
      assert (folders[i].0, folders[i].1) in folders;
      FoldersSnoc(d, w, i);
      var found := DiscoverFolderState(d, w, state, folders[i].0, folders[i].1);
      if found.Err? {
        return found;
      }
      state := found.value;
    }
    assert folders[..|folders|] == folders;
    return Ok(state);
  }

  function JoinStep(m: Membership): Command
  {
    AddUserToGroup(m.user, m.group)
  }

  function GroupStep(group: string): Command
  {
    CreateGroup(group)
  }

  function FolderStep(path: Path): Command
  {
    CreateFolder(path)
  }

  function OwnershipStep(o: Ownership): Command
  {
    SetOwnership(o.path, o.user, o.group)
  }

  function ModeStep(m: ModeRequirement): Command
  {
    SetMode(m.path, m.mode)
  }

  /** The seven kinds of step, in the order they run. */
  function Phase(d: Definition, s: ServiceState, i: nat): seq<Command>
  {
    match i
    case 0 => if s.group == GroupPresence.Missing then [CreateGroup(d.group)] else []
    case 1 =>
      (match s.user
       case Missing => [CreateUser(d.user.name, d.group)]
       case MissingGroupMembership => [AddUserToGroup(d.user.name, d.group)]
       case _ => [])
    case 2 => Map(s.groupsMissing, GroupStep)
    case 3 => Map(s.membershipsMissing, JoinStep)
    case 4 => Map(s.foldersMissing, FolderStep)
    case 5 => Map(s.ownershipMissing, OwnershipStep)
    case 6 => Map(s.modeMissing, ModeStep)
    case _ => []
  }

  const PHASES := 7

  function PlanUpTo(d: Definition, s: ServiceState, n: nat): seq<Command>
  {
    if n == 0 then [] else PlanUpTo(d, s, n - 1) + Phase(d, s, n - 1)
  }

  /** The loops that turn one list of requirements into steps. */
  method AddSteps<T>(steps: seq<Command>, requirements: seq<T>, step: T -> Command) returns (all: seq<Command>)
    ensures all == steps + Map(requirements, step)
  {
    all := steps;
    for i := 0 to |requirements|
      invariant all == steps + Map(requirements[..i], step)
    {
      MapSnoc(requirements, i, step);
      all := all + [step(requirements[i])];
    }
    assert requirements[..|requirements|] == requirements;
  }

  method PlanServiceBootstrap(d: Definition, s: ServiceState) returns (steps: seq<Command>)
    ensures steps == PlanUpTo(d, s, PHASES)
  {
    steps := [];
    if s.group == GroupPresence.Missing {
      steps := steps + [CreateGroup(d.group)];
    }
    assert steps == PlanUpTo(d, s, 1);
    match s.user {
      case Missing => steps := steps + [CreateUser(d.user.name, d.group)];
      case MissingGroupMembership => steps := steps + [AddUserToGroup(d.user.name, d.group)];
      case Ready =>
      case Unmanaged =>
    }
    assert steps == PlanUpTo(d, s, 2);
    steps := AddSteps(steps, s.groupsMissing, GroupStep);
    assert steps == PlanUpTo(d, s, 3);
    steps := AddSteps(steps, s.membershipsMissing, JoinStep);
    assert steps == PlanUpTo(d, s, 4);
    steps := AddSteps(steps, s.foldersMissing, FolderStep);
    assert steps == PlanUpTo(d, s, 5);
    steps := AddSteps(steps, s.ownershipMissing, OwnershipStep);
    assert steps == PlanUpTo(d, s, 6);
    steps := AddSteps(steps, s.modeMissing, ModeStep);
  }
}
