/** The accounts and folders of a machine, and what each bootstrap command does to them. */
module Worlds {
  import opened Basics
  import opened Modes

  /** A normalized absolute path, as its components. */
  type Path = seq<string>

  datatype Group = Group(gid: nat, members: set<string>)

  /** `owner` and `group` are the names behind the numeric ids, where there are any. */
  datatype Folder = Folder(owner: Option<string>, group: Option<string>, word: nat)

  /** `users` maps each user to its primary group id; `files` are the paths of plain files. */
  datatype World = World(
    groups: map<string, Group>, users: map<string, nat>, folders: map<Path, Folder>, files: set<Path>)

  /** What the operating system chooses: the id of a new group, and a new folder's first metadata. */
  datatype Env = Env(newGid: map<string, Group> -> nat, newFolder: Path -> Folder)

  datatype Command =
    | CreateGroup(group: string)
    | CreateUser(user: string, group: string)
    | AddUserToGroup(user: string, group: string)
    | CreateFolder(path: Path)
    | SetOwnership(path: Path, user: string, group: string)
    | SetMode(path: Path, mode: Mode)

  /** Whether the user is in the group, as a listed member or through its primary group. */
  predicate IsMember(w: World, group: string, user: string)
  {
    && group in w.groups
    && (user in w.groups[group].members || (user in w.users && w.groups[group].gid == w.users[user]))
  }

  /** Whether the command succeeds. */
  predicate Needs(c: Command, w: World)
  {
    match c
    case CreateGroup(_) => true
    case CreateUser(user, group) => user in w.users || group in w.groups
    case AddUserToGroup(user, group) => group in w.groups && user in w.users
    case CreateFolder(path) => forall i :: 0 <= i <= |path| ==> path[..i] !in w.files
    case SetOwnership(path, user, group) => group in w.groups && user in w.users && path in w.folders
    case SetMode(path, _) => path in w.folders
  }

  /** `folders` with `path` and all its missing ancestors. */
  function WithAncestors(env: Env, folders: map<Path, Folder>, path: Path): (all: map<Path, Folder>)
    ensures path in all
    ensures forall p :: p in folders ==> p in all && all[p] == folders[p]
    ensures forall p :: p in all && p !in folders ==> p <= path
    decreases |path|
  {
    if path in folders then folders
    else
      var above := if path == [] then folders else WithAncestors(env, folders, path[..|path| - 1]);
      above[path := env.newFolder(path)]
  }

  /** A tree of folders: the parent of each is one too. */
  predicate Tree(folders: map<Path, Folder>)
  {
    forall p :: p in folders && p != [] ==> p[..|p| - 1] in folders
  }

  lemma {:induction false} TreeHasAncestors(folders: map<Path, Folder>, path: Path, n: nat)
    requires Tree(folders) && path in folders && n <= |path|
    ensures path[..n] in folders
    decreases |path|
  {
    if n < |path| {
      var parent := path[..|path| - 1];
      TreeHasAncestors(folders, parent, n);
      assert parent[..n] == path[..n];
    } else {
      assert path[..n] == path;
    }
  }

  /** `all` is `folders` with `path` and its ancestors added, each as the system makes new ones, and no other. */
  ghost predicate Completed(env: Env, folders: map<Path, Folder>, path: Path, all: map<Path, Folder>)
  {
    && Tree(all)
    && (forall p :: p in folders ==> p in all && all[p] == folders[p])
    && (forall p :: p in all && p !in folders ==> p <= path && all[p] == env.newFolder(p))
    && (forall n :: 0 <= n <= |path| ==> path[..n] in all)
  }

  lemma PrefixOfParent(p: Path, path: Path, n: nat)
    requires n <= |path| && p <= path[..n]
    ensures p <= path
  {}

  lemma GrownTree(folders: map<Path, Folder>, path: Path, folder: Folder)
    requires Tree(folders) && (path == [] || path[..|path| - 1] in folders)
    ensures Tree(folders[path := folder])
  {}

  lemma CompletedBelow(env: Env, folders: map<Path, Folder>, path: Path, above: map<Path, Folder>)
    requires path !in folders && path != [] && Completed(env, folders, path[..|path| - 1], above)
    ensures Completed(env, folders, path, above[path := env.newFolder(path)])
  {
    var n := |path| - 1;
    var all := above[path := env.newFolder(path)];
    forall m | 0 <= m <= |path|
      ensures path[..m] in all
    {
      assert m <= n ==> path[..n][..m] == path[..m];
      assert m == |path| ==> path[..m] == path;
    }
    assert path[..n][..n] == path[..n];
    GrownTree(above, path, env.newFolder(path));
    hide Tree;
    forall p | p in all && p !in folders
      ensures p <= path && all[p] == env.newFolder(p)
    {
      if p != path {
        PrefixOfParent(p, path, n);
      }
    }
  }

  /** Creating a folder in a tree adds exactly it and its missing ancestors, and the result is a tree. */
  lemma {:induction false} AncestorsExactly(env: Env, folders: map<Path, Folder>, path: Path)
    requires Tree(folders)
    ensures Completed(env, folders, path, WithAncestors(env, folders, path))
    decreases |path|
  {
    if path in folders {
      forall n | 0 <= n <= |path|
        ensures path[..n] in folders
      {
        TreeHasAncestors(folders, path, n);
      }
    } else if path == [] {
      assert path[..0] == path;
    } else {
      hide Completed;
      AncestorsExactly(env, folders, path[..|path| - 1]);
      CompletedBelow(env, folders, path, WithAncestors(env, folders, path[..|path| - 1]));
    }
  }

  /** What a successful command does. */
  function Effect(env: Env, c: Command, w: World): World
    requires Needs(c, w)
  {
    match c
    case CreateGroup(group) =>
      if group in w.groups then w else w.(groups := w.groups[group := Group(env.newGid(w.groups), {})])
    case CreateUser(user, group) =>
      if user in w.users then w else w.(users := w.users[user := w.groups[group].gid])
    case AddUserToGroup(user, group) =>
      var g := w.groups[group];
      w.(groups := w.groups[group := g.(members := g.members + {user})])
    case CreateFolder(path) => w.(folders := WithAncestors(env, w.folders, path))
    case SetOwnership(path, user, group) =>
      w.(folders := w.folders[path := w.folders[path].(owner := Some(user), group := Some(group))])
    case SetMode(path, mode) =>
      w.(folders := w.folders[path := w.folders[path].(word := Bits(mode) % PERMISSION_BITS)])
  }

  /** Run `cs` in order, up to the first that fails. */
  function Exec(env: Env, w: World, cs: seq<Command>): (World, bool)
    decreases cs
  {
    if cs == [] then (w, true)
    else if Needs(cs[0], w) then Exec(env, Effect(env, cs[0], w), cs[1..])
    else (w, false)
  }

  /** What the command is for. */
  predicate Achieved(c: Command, w: World)
  {
    match c
    case CreateGroup(group) => group in w.groups
    case CreateUser(user, group) => user in w.users && IsMember(w, group, user)
    case AddUserToGroup(user, group) => IsMember(w, group, user)
    case CreateFolder(path) => path in w.folders
    case SetOwnership(path, user, group) =>
      path in w.folders && w.folders[path].owner == Some(user) && w.folders[path].group == Some(group)
    case SetMode(path, mode) =>
      path in w.folders && w.folders[path].word % PERMISSION_BITS == Bits(mode) % PERMISSION_BITS
  }

  /** Two commands that want different things of one folder. */
  predicate Conflict(c: Command, d: Command)
  {
    || (c.SetOwnership? && d.SetOwnership? && c.path == d.path && c != d)
    || (c.SetMode? && d.SetMode? && c.path == d.path && c != d)
  }

  /** A command reaches its goal, except that an existing user is not moved to another primary group. */
  lemma EffectAchieves(env: Env, c: Command, w: World)
    requires Needs(c, w) && (c.CreateUser? ==> c.user !in w.users)
    ensures Achieved(c, Effect(env, c, w))
  {}

  lemma EffectKeeps(env: Env, c: Command, goal: Command, w: World)
    requires Needs(c, w) && Achieved(goal, w) && !Conflict(goal, c)
    ensures Achieved(goal, Effect(env, c, w))
  {
    var w' := Effect(env, c, w);
    assert forall g, u :: IsMember(w, g, u) ==> IsMember(w', g, u);
  }

  lemma {:induction false} ExecKeeps(env: Env, w: World, cs: seq<Command>, goal: Command)
    requires Achieved(goal, w) && forall c :: c in cs ==> !Conflict(goal, c)
    ensures Achieved(goal, Exec(env, w, cs).0)
    decreases cs
  {
    if cs != [] && Needs(cs[0], w) {
      EffectKeeps(env, cs[0], goal, w);
      ExecKeeps(env, Effect(env, cs[0], w), cs[1..], goal);
    }
  }

  /** `c` is the only command in `cs` to create its user, and that user does not exist yet. */
  predicate OnlyCreator(c: Command, w: World, cs: seq<Command>)
  {
    c.CreateUser? ==> c.user !in w.users && forall d :: d in cs && d.CreateUser? && d.user == c.user ==> d == c
  }

  /** A command of a run that succeeds has reached its goal at the end. */
  lemma {:induction false} ExecAchieves(env: Env, w: World, cs: seq<Command>, goal: Command)
    requires Exec(env, w, cs).1 && goal in cs && OnlyCreator(goal, w, cs)
    requires forall c :: c in cs ==> !Conflict(goal, c)
    ensures Achieved(goal, Exec(env, w, cs).0)
    decreases cs
  {
    var w1 := Effect(env, cs[0], w);
    if cs[0] == goal {
      EffectAchieves(env, goal, w);
      ExecKeeps(env, w1, cs[1..], goal);
    } else {
      ExecAchieves(env, w1, cs[1..], goal);
    }
  }

  lemma {:induction false} ExecAppend(env: Env, w: World, cs: seq<Command>, ds: seq<Command>)
    requires Exec(env, w, cs).1
    ensures Exec(env, w, cs + ds) == Exec(env, Exec(env, w, cs).0, ds)
    decreases cs
  {
    if cs == [] {
      assert cs + ds == ds;
    } else {
      assert (cs + ds)[1..] == cs[1..] + ds;
      ExecAppend(env, Effect(env, cs[0], w), cs[1..], ds);
    }
  }

  /** Nothing is ever removed, and ids never change. */
  predicate Grown(w: World, w': World)
  {
    && (forall g :: g in w.groups ==>
         g in w'.groups && w'.groups[g].gid == w.groups[g].gid && w.groups[g].members <= w'.groups[g].members)
    && (forall u :: u in w.users ==> u in w'.users && w'.users[u] == w.users[u])
    && (forall p :: p in w.folders ==> p in w'.folders)
    && w'.files == w.files
  }

  lemma {:induction false} ExecGrows(env: Env, w: World, cs: seq<Command>)
    ensures Grown(w, Exec(env, w, cs).0)
    decreases cs
  {
    if cs != [] && Needs(cs[0], w) {
      ExecGrows(env, Effect(env, cs[0], w), cs[1..]);
    }
  }

  /** Who is there once the commands in `before` have run. */
  ghost predicate Supplied(c: Command, w: World, before: seq<Command>)
  {
    match c
    case CreateGroup(_) => true
    case CreateUser(user, group) => user in w.users || group in w.groups || CreateGroup(group) in before
    case AddUserToGroup(user, group) => HasGroup(group, w, before) && HasUser(user, w, before)
    case CreateFolder(path) => Needs(c, w)
    case SetOwnership(path, user, group) =>
      HasGroup(group, w, before) && HasUser(user, w, before) && HasFolder(path, w, before)
    case SetMode(path, _) => HasFolder(path, w, before)
  }

  predicate HasGroup(group: string, w: World, before: seq<Command>)
  {
    group in w.groups || CreateGroup(group) in before
  }

  ghost predicate HasUser(user: string, w: World, before: seq<Command>)
  {
    user in w.users || exists group :: CreateUser(user, group) in before
  }

  predicate HasFolder(path: Path, w: World, before: seq<Command>)
  {
    path in w.folders || CreateFolder(path) in before
  }

  ghost predicate AllSupplied(cs: seq<Command>, w: World)
  {
    forall i :: 0 <= i < |cs| ==> Supplied(cs[i], w, cs[..i])
  }

  lemma {:induction false} ExecProvides(env: Env, w: World, cs: seq<Command>, c: Command)
    requires Exec(env, w, cs).1 && Supplied(c, w, cs)
    ensures Needs(c, Exec(env, w, cs).0)
    decreases cs
  {
    if cs != [] {
      var w1 := Effect(env, cs[0], w);
      assert forall d :: d in cs ==> d == cs[0] || d in cs[1..];
      ExecProvides(env, w1, cs[1..], c);
    }
  }

  /** A list whose every command finds its needs in the world or in an earlier command succeeds. */
  lemma {:induction false} ExecSucceeds(env: Env, w: World, cs: seq<Command>)
    requires AllSupplied(cs, w)
    ensures Exec(env, w, cs).1
    decreases |cs|
  {
    if cs != [] {
      var n := |cs| - 1;
      assert forall i :: 0 <= i < n ==> cs[..n][i] == cs[i] && cs[..n][..i] == cs[..i];
      ExecSucceeds(env, w, cs[..n]);
      ExecProvides(env, w, cs[..n], cs[n]);
      ExecAppend(env, w, cs[..n], [cs[n]]);
      assert cs == cs[..n] + [cs[n]];
    }
  }
}
