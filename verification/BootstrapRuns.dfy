/** Bootstrapping a service with the journaling executor: a round of `Convergence`, rollback included. */
module BootstrapRuns {
  import opened Basics
  import opened Modes
  import opened Worlds
  import opened Bootstrap
  import opened Convergence
  import opened Executor

  function NameOf(c: Command): string
  {
    match c
    case CreateGroup(_) => "Create group"
    case CreateUser(_, _) => "Create user"
    case AddUserToGroup(_, _) => "Add user to group"
    case CreateFolder(_) => "Create folder"
    case SetOwnership(_, _, _) => "Set ownership"
    case SetMode(_, _) => "Set mode"
  }

  /** The name of a step that failed says which kind of step it was. */
  lemma NamesTellTheKind(c: Command, e: Command)
    ensures NameOf(c) == NameOf(e) <==>
              || (c.CreateGroup? && e.CreateGroup?) || (c.CreateUser? && e.CreateUser?)
              || (c.AddUserToGroup? && e.AddUserToGroup?) || (c.CreateFolder? && e.CreateFolder?)
              || (c.SetOwnership? && e.SetOwnership?) || (c.SetMode? && e.SetMode?)
  {
    var group, folder := "Create group", "Create folder";
    assert |group| == 12 && |folder| == 13 && |"Create user"| == 11 && |"Set mode"| == 8;
    assert |"Add user to group"| == 17 && "Set ownership"[0] != folder[0];
  }

  function RunCommand(env: Env): (Command, World) -> (Command, World, Option<Command>)
  {
    (c, w) => if Needs(c, w) then (c, Effect(env, c, w), Option.None) else (c, w, Some(c))
  }

  /** None of these commands ever skips, and none of them implements a rollback. */
  function BootstrapCommands(env: Env): Commands<World, Command, Command>
  {
    Commands(NameOf, (c, w) => false, RunCommand(env), (c, w) => (w, Option.None))
  }

  lemma {:induction false} ExecSnoc(env: Env, w: World, cs: seq<Command>, c: Command)
    ensures Exec(env, w, cs + [c])
         == if Exec(env, w, cs).1 then Exec(env, Exec(env, w, cs).0, [c]) else Exec(env, w, cs)
    decreases cs
  {
    if cs == [] {
      assert cs + [c] == [c];
    } else {
      assert (cs + [c])[1..] == cs[1..] + [c];
      if Needs(cs[0], w) {
        ExecSnoc(env, Effect(env, cs[0], w), cs[1..], c);
      }
    }
  }

  /** The executor's steps are the execution of the plan. */
  lemma {:induction false} StepsExecute(env: Env, journal: seq<Command>, cs: seq<Command>, w: World)
    ensures var p := Steps(BootstrapCommands(env), journal, cs, w);
            p.context == Exec(env, w, cs).0 && (p.error.None? <==> Exec(env, w, cs).1)
    decreases |cs|
  {
    if cs != [] {
      var n := |cs| - 1;
      StepsExecute(env, journal, cs[..n], w);
      ExecSnoc(env, w, cs[..n], cs[n]);
      assert cs == cs[..n] + [cs[n]];
    }
  }

  /** A failed bootstrap keeps the work of the steps before the failure: its rollbacks do nothing. */
  lemma {:induction false} RollbackUndoesNothing(env: Env, journal: seq<Command>, w: World)
    ensures Undone(BootstrapCommands(env), journal, w).0 == w
  {
    if journal != [] {
      RollbackUndoesNothing(env, journal[..|journal| - 1], w);
    }
  }

  /** Discover, plan and run: one round, whether it succeeds or stops half way. */
  method BootstrapService(env: Env, d: Definition, w: World) returns (ok: bool, after: World)
    ensures (after, ok) == Round(env, d, w)
  {
    hide StateOf, PlanUpTo, Exec, Discoverable, Steps, Undone;
    var found := DiscoverServiceState(d, w);
    if found.Err? {
      return false, w;
    }
    var plan := PlanServiceBootstrap(d, found.value);
    var executor := new JournalingExecutor(BootstrapCommands(env));
    StepsExecute(env, [], plan, w);
    RollbackUndoesNothing(
      env, Steps(BootstrapCommands(env), [], plan, w).journal, Steps(BootstrapCommands(env), [], plan, w).context);
    var outcome, reached, messages := executor.Run(w, plan);
    return outcome.Success?, reached;
  }

  /** The plan up to the last phase, which sets the modes. */
  function Preparation(d: Definition, w: World): seq<Command>
  {
    PlanUpTo(d, StateOf(d, w, d.additionalGroups, d.ownedFolders), 6)
  }

  lemma {:induction false} ModeStepsSucceed(env: Env, w: World, cs: seq<Command>)
    requires forall c :: c in cs ==> c.SetMode? && c.path in w.folders
    ensures Exec(env, w, cs).1
    decreases cs
  {
    if cs != [] {
      assert cs[0] in cs;
      assert cs[0].SetMode? && Needs(cs[0], w);
      ModeStepsSucceed(env, Effect(env, cs[0], w), cs[1..]);
    }
  }

  lemma {:induction false} ExecFails(env: Env, w: World, cs: seq<Command>, ds: seq<Command>)
    requires !Exec(env, w, cs).1
    ensures Exec(env, w, cs + ds) == Exec(env, w, cs)
    decreases cs
  {
    assert (cs + ds)[0] == cs[0] && (cs + ds)[1..] == cs[1..] + ds;
    if Needs(cs[0], w) {
      ExecFails(env, Effect(env, cs[0], w), cs[1..], ds);
    }
  }

  /** Every folder whose mode is to be set exists by then, so a round that fails does so before. */
  lemma RoundFailsInPreparation(env: Env, d: Definition, w: World)
    ensures Exec(env, w, Preparation(d, w)).1 ==> Exec(env, w, PlanFor(d, w)).1
    ensures !Exec(env, w, Preparation(d, w)).1 ==> Exec(env, w, PlanFor(d, w)) == Exec(env, w, Preparation(d, w))
  {
    hide Phase, StateOf, InPhase, Exec;
    var before := Preparation(d, w);
    var modes := Phase(d, StateOf(d, w, d.additionalGroups, d.ownedFolders), 6);
    assert PlanFor(d, w) == before + modes;
    if Exec(env, w, before).1 {
      var w1 := Exec(env, w, before).0;
      forall c | c in modes
        ensures c.SetMode? && c.path in w1.folders
      {
        PhaseHolds(d, w, c, 6);
        ModeIsPrepared(env, d, w, c);
      }
      ExecAppend(env, w, before, modes);
      ModeStepsSucceed(env, w1, modes);
    } else {
      ExecFails(env, w, before, modes);
    }
  }

  lemma ModeIsPrepared(env: Env, d: Definition, w: World, c: Command)
    requires InPhase(d, w, c, 6) && Exec(env, w, Preparation(d, w)).1
    ensures c.SetMode? && c.path in Exec(env, w, Preparation(d, w)).0.folders
  {
    hide PlanUpTo, StateOf, Exec;
    if c.path !in w.folders {
      var create := CreateFolder(c.path);
      assert Owned(d, c.path) && InPhase(d, w, create, 4);
      PlanHolds(d, w, create, 6);
    }
    ExecProvides(env, w, Preparation(d, w), c);
  }

  /** What a command before the last phase is for is not reached yet, and no mode. */
  lemma PreparationIsNeeded(d: Definition, w: World, c: Command)
    requires c in Preparation(d, w)
    ensures !Achieved(c, w) && Scoped(d, c) && !c.SetMode? && (c.CreateUser? ==> c.user !in w.users)
  {
    hide PlanUpTo, StateOf;
    PlanHolds(d, w, c, 6);
  }

  /**
   A bootstrap that fails has left the machine as it was exactly when its very first step could not run.
   Otherwise the work of the steps before the failure stays, since nothing rolls it back.
   */
  lemma FailureLeavesNothingExactlyWhen(env: Env, d: Definition, w: World)
    requires Discoverable(d, w) && !Round(env, d, w).1
    ensures PlanFor(d, w) != []
    ensures Round(env, d, w).0 == w <==> !Needs(PlanFor(d, w)[0], w)
  {
    FirstStep(d, w);
    hide PlanFor, Preparation, Achieved, Effect, Needs, Scoped;
    RoundFailsInPreparation(env, d, w);
    var before := Preparation(d, w);
    assert before != [];
    var first := before[0];
    PreparationIsNeeded(d, w, first);
    if Needs(first, w) {
      var w1 := Effect(env, first, w);
      EffectAchieves(env, first, w);
      forall c | c in before[1..]
        ensures !Conflict(first, c)
      {
        PreparationIsNeeded(d, w, c);
        SameWishes(d, first, c);
      }
      ExecKeeps(env, w1, before[1..], first);
    }
  }

  lemma FirstStep(d: Definition, w: World)
    ensures Preparation(d, w) <= PlanFor(d, w)
    ensures Preparation(d, w) != [] ==> PlanFor(d, w) != [] && PlanFor(d, w)[0] == Preparation(d, w)[0]
  {
    hide Phase, StateOf;
    var s := StateOf(d, w, d.additionalGroups, d.ownedFolders);
    assert PlanFor(d, w) == Preparation(d, w) + Phase(d, s, 6);
  }

  lemma SameWishes(d: Definition, c: Command, e: Command)
    requires Scoped(d, c) && Scoped(d, e) && !c.SetMode?
    ensures !Conflict(c, e)
  {}

  /** A definition whose system user does not exist, on a machine with its group and without its folder. */
  const HOMELESS: Definition := Definition(System("ghost"), "users", [(["srv"], OwnerReadWrite)], [])
  const BARE: World := World(map["users" := Group(1, {})], map[], map[], {})

  lemma FilterOne<T(!new)>(x: T, keep: T -> bool)
    ensures Filter([x], keep) == if keep(x) then [x] else []
  {
    assert [x][..0] == [];
  }

  lemma HomelessState()
    ensures StateOf(HOMELESS, BARE, HOMELESS.additionalGroups, HOMELESS.ownedFolders) ==
            ServiceState(Present, Unmanaged, [], [], [["srv"]], [Ownership(["srv"], "ghost", "users")],
                         [ModeRequirement(["srv"], OwnerReadWrite)])
  {
    var owned := (["srv"], OwnerReadWrite);
    FilterOne(owned, FolderMissing(BARE));
    FilterOne(owned, WronglyOwned(HOMELESS, BARE));
    FilterOne(owned, WrongMode(BARE));
    MapOne(owned, ToPath);
    MapOne(owned, ToOwnership(HOMELESS));
    MapOne(owned, ToMode);
  }

  lemma PlanStep(d: Definition, s: ServiceState, n: nat)
    ensures PlanUpTo(d, s, 0) == []
    ensures PlanUpTo(d, s, n + 1) == PlanUpTo(d, s, n) + Phase(d, s, n)
  {}

  /** A plan of three steps: one of each of the last three phases. */
  lemma FolderPlan(d: Definition, s: ServiceState, path: Path, o: Ownership, m: ModeRequirement)
    requires s == ServiceState(Present, Unmanaged, [], [], [path], [o], [m])
    ensures PlanUpTo(d, s, PHASES) == [FolderStep(path), OwnershipStep(o), ModeStep(m)]
  {
    hide PlanUpTo;
    MapOne(path, FolderStep);
    MapOne(o, OwnershipStep);
    MapOne(m, ModeStep);
    PlanStep(d, s, 0);
    PlanStep(d, s, 1);
    PlanStep(d, s, 2);
    PlanStep(d, s, 3);
    assert PlanUpTo(d, s, 4) == [];
    PlanStep(d, s, 4);
    PlanStep(d, s, 5);
    PlanStep(d, s, 6);
  }

  lemma HomelessPlan()
    ensures PlanFor(HOMELESS, BARE)
         == [CreateFolder(["srv"]), SetOwnership(["srv"], "ghost", "users"), SetMode(["srv"], OwnerReadWrite)]
  {
    hide StateOf, PlanUpTo;
    var s := StateOf(HOMELESS, BARE, HOMELESS.additionalGroups, HOMELESS.ownedFolders);
    HomelessState();
    FolderPlan(HOMELESS, s, ["srv"], Ownership(["srv"], "ghost", "users"), ModeRequirement(["srv"], OwnerReadWrite));
  }

  /** Its bootstrap creates the folder, cannot give it an owner, fails, and leaves the folder behind. */
  lemma FailedBootstrapLeavesItsFolder(env: Env)
    ensures !Round(env, HOMELESS, BARE).1
    ensures ["srv"] !in BARE.folders && ["srv"] in Round(env, HOMELESS, BARE).0.folders
  {
    HomelessPlan();
    var plan := PlanFor(HOMELESS, BARE);
    hide PlanFor;
    var w1 := Effect(env, plan[0], BARE);
    assert "ghost" !in w1.users;
    assert Exec(env, BARE, plan) == Exec(env, w1, plan[1..]) && !Needs(plan[1..][0], w1);
  }
}
