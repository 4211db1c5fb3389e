/** The journaling executor: run commands in order, and undo the whole journal when one fails. */
module Executor {
  import opened Basics

  /**
   Commands are values `C` that change when they run (they may note what to undo); contexts are values `S`.
   `run` and `rollback` give the command and context afterwards, and the error, if any.
   */
  datatype Commands<!S, !C, E> = Commands(
    name: C -> string,
    skip: (C, S) -> bool,
    run: (C, S) -> (C, S, Option<E>),
    rollback: (C, S) -> (S, Option<E>))

  /** What the executor reports, of which command; the text of a report is made from the command's name. */
  datatype Message<C> =
    | Skipping(command: C)
    | Running(command: C)
    | Failed(name: string)
    | RollingBack(command: C)
    | RollbackFailed(command: C)

  datatype Outcome<E> =
    | Success
    | Failure(failedAtStep: nat, failedAtStepName: string, performError: E, rollbackErrors: seq<E>)

  function Listed<E>(error: Option<E>): seq<E>
  {
    if error.Some? then [error.value] else []
  }

  function Announced<C, E>(c: C, error: Option<E>): seq<Message<C>>
  {
    if error.Some? then [RollingBack(c), RollbackFailed(c)] else [RollingBack(c)]
  }

  /** What rolling back `journal` does, last command first: the context, the errors, and the messages. */
  function Undone<S, C, E>(ops: Commands<S, C, E>, journal: seq<C>, s: S): (S, seq<E>, seq<Message<C>>)
  {
    if journal == [] then (s, [], [])
    else
      var c := journal[|journal| - 1];
      var (s1, error) := ops.rollback(c, s);
      var (s2, errors, messages) := Undone(ops, journal[..|journal| - 1], s1);
      (s2, Listed(error) + errors, Announced(c, error) + messages)
  }

  lemma UndoneLast<S, C, E>(ops: Commands<S, C, E>, journal: seq<C>, i: nat, s: S)
    requires i < |journal|
    ensures var (s1, error) := ops.rollback(journal[i], s);
            var (s2, errors, messages) := Undone(ops, journal[..i], s1);
            Undone(ops, journal[..i + 1], s)
              == (s2, Listed(error) + errors, Announced(journal[i], error) + messages)
  {
    assert journal[..i + 1][..i] == journal[..i];
  }

  lemma NothingUndone<S, C, E>(ops: Commands<S, C, E>, s: S)
    ensures Undone(ops, [], s) == (s, [], [])
  {}

  /** What running commands does before anything fails. */
  datatype Progress<S, C, E> = Progress(journal: seq<C>, context: S, messages: seq<Message<C>>, error: Option<E>)

  /** One command: skipped and journaled, run and journaled, or failed and not journaled. */
  function Step<S, C, E>(ops: Commands<S, C, E>, p: Progress<S, C, E>, c: C): Progress<S, C, E>
  {
    if p.error.Some? then p
    else if ops.skip(c, p.context) then
      p.(journal := p.journal + [c], messages := p.messages + [Skipping(c)])
    else
      var (c', s', error) := ops.run(c, p.context);
      if error.Some? then
        Progress(p.journal, s', p.messages + [Running(c), Failed(ops.name(c))], error)
      else
        Progress(p.journal + [c'], s', p.messages + [Running(c)], None)
  }

  /** `commands` in order, up to the first that fails. */
  function Steps<S, C, E>(ops: Commands<S, C, E>, journal: seq<C>, commands: seq<C>, s: S): Progress<S, C, E>
  {
    if commands == [] then Progress(journal, s, [], None)
    else Step(ops, Steps(ops, journal, commands[..|commands| - 1], s), commands[|commands| - 1])
  }

  lemma StepsSnoc<S, C, E>(ops: Commands<S, C, E>, journal: seq<C>, commands: seq<C>, n: nat, s: S)
    requires n < |commands|
    ensures Steps(ops, journal, commands[..n + 1], s) == Step(ops, Steps(ops, journal, commands[..n], s), commands[n])
  {
    assert commands[..n + 1][..n] == commands[..n];
  }

  /** Nothing runs after a failure. */
  lemma {:induction false} StepsStop<S, C, E>(ops: Commands<S, C, E>, journal: seq<C>, commands: seq<C>, n: nat, s: S)
    requires n <= |commands| && Steps(ops, journal, commands[..n], s).error.Some?
    ensures Steps(ops, journal, commands, s) == Steps(ops, journal, commands[..n], s)
    decreases |commands|
  {
    if n < |commands| {
      var most := commands[..|commands| - 1];
      assert most[..n] == commands[..n];
      StepsStop(ops, journal, most, n, s);
    } else {
      assert commands[..n] == commands;
    }
  }

  class JournalingExecutor<S, C, E> {
    const ops: Commands<S, C, E>
    var journal: seq<C>

    constructor (ops: Commands<S, C, E>)
      ensures this.ops == ops && journal == []
    {
      this.ops := ops;
      journal := [];
    }

    method Run(context: S, commands: seq<C>) returns (outcome: Outcome<E>, after: S, messages: seq<Message<C>>)
      modifies this
      ensures var p := Steps(ops, old(journal), commands, context);
              var (s, errors, undoing) := Undone(ops, p.journal, p.context);
              if p.error.None?
              then outcome == Success && after == p.context && messages == p.messages && journal == p.journal
              else
                && outcome.Failure? && after == s && messages == p.messages + undoing && journal == []
                && outcome.performError == p.error.value && outcome.rollbackErrors == errors
                && outcome.failedAtStep < |commands|
                && outcome.failedAtStepName == ops.name(commands[outcome.failedAtStep])
                && Steps(ops, old(journal), commands[..outcome.failedAtStep], context).error.None?
                && Steps(ops, old(journal), commands[..outcome.failedAtStep + 1], context).error.Some?
    {
      hide Undone;
      after, messages := context, [];
      for i := 0 to |commands|
        invariant Steps(ops, old(journal), commands[..i], context) == Progress(journal, after, messages, None)
      {
        StepsSnoc(ops, old(journal), commands, i, context);
        var command := commands[i];
        var stepName := ops.name(command);
        if ops.skip(command, after) {
          messages := messages + [Skipping(command)];
          journal := journal + [command];
          continue;
        }
        messages := messages + [Running(command)];
        var (ran, s, error) := ops.run(command, after);
        after := s;
        if error.Some? {
          messages := messages + [Failed(stepName)];
          StepsStop(ops, old(journal), commands, i + 1, context);
          assert Steps(ops, old(journal), commands, context) == Progress(journal, after, messages, error);
          var undone, errors, undoing := Rollback(after);
          after, messages := undone, messages + undoing;
          outcome := Failure(i, stepName, error.value, errors);
          return;
        }
        journal := journal + [ran];
      }
      assert commands[..|commands|] == commands;
      outcome := Success;
    }

    method Rollback(context: S) returns (after: S, errors: seq<E>, messages: seq<Message<C>>)
      modifies this
      ensures after == Undone(ops, old(journal), context).0
      ensures errors == Undone(ops, old(journal), context).1
      ensures messages == Undone(ops, old(journal), context).2
      ensures journal == []
    {
      hide Undone;
      var drained := journal;
      journal := [];
      after, errors, messages := context, [], [];
      var i := |drained|;
      assert drained[..i] == drained;
      while i > 0
        invariant 0 <= i <= |drained| && journal == []
        invariant Undone(ops, drained, context).0 == Undone(ops, drained[..i], after).0
        invariant Undone(ops, drained, context).1 == errors + Undone(ops, drained[..i], after).1
        invariant Undone(ops, drained, context).2 == messages + Undone(ops, drained[..i], after).2
      {
        i := i - 1;
        var cmd := drained[i];
        UndoneLast(ops, drained, i, after);
        messages := messages + [RollingBack(cmd)];
        var (s, error) := ops.rollback(cmd, after);
        after := s;
        if error.Some? {
          messages := messages + [RollbackFailed(cmd)];
          errors := errors + [error.value];
        }
      }
      NothingUndone(ops, after);
      assert drained[..0] == [] && errors + Undone(ops, [], after).1 == errors;
      assert messages + Undone(ops, [], after).2 == messages;
    }
  }

  function Reversed<T>(xs: seq<T>): (ys: seq<T>)
  {
    if xs == [] then [] else [xs[|xs| - 1]] + Reversed(xs[..|xs| - 1])
  }

  /** The commands that a list of messages says are rolled back. */
  function RolledBack<C>(messages: seq<Message<C>>): seq<C>
  {
    if messages == [] then []
    else (if messages[0].RollingBack? then [messages[0].command] else []) + RolledBack(messages[1..])
  }

  /** Every journaled command is rolled back once, in reverse order, whatever fails on the way. */
  lemma {:induction false} UndoneInReverse<S, C, E>(ops: Commands<S, C, E>, journal: seq<C>, s: S)
    ensures RolledBack(Undone(ops, journal, s).2) == Reversed(journal)
  {
    if journal != [] {
      var n := |journal| - 1;
      var (s1, error) := ops.rollback(journal[n], s);
      UndoneInReverse(ops, journal[..n], s1);
      AnnouncedOnce(journal[n], error, Undone(ops, journal[..n], s1).2);
    }
  }

  lemma AnnouncedOnce<C, E>(c: C, error: Option<E>, rest: seq<Message<C>>)
    ensures RolledBack(Announced(c, error) + rest) == [c] + RolledBack(rest)
  {
    var all := Announced(c, error) + rest;
    if error.Some? {
      assert all[1..][1..] == rest;
    } else {
      assert all[1..] == rest;
    }
  }

  /** The context in which a run reaches its i-th command, if none before it fails. */
  function Reached<S, C, E>(ops: Commands<S, C, E>, commands: seq<C>, i: nat, s: S): S
    requires i <= |commands|
  {
    if i == 0 then s
    else
      var before := Reached(ops, commands, i - 1, s);
      if ops.skip(commands[i - 1], before) then before else ops.run(commands[i - 1], before).1
  }

  predicate FailsAt<S, C, E>(ops: Commands<S, C, E>, commands: seq<C>, i: nat, s: S)
    requires i < |commands|
  {
    var before := Reached(ops, commands, i, s);
    !ops.skip(commands[i], before) && ops.run(commands[i], before).2.Some?
  }

  /** The i-th command is journaled as it was given if skipped, and otherwise as it ran, and reported as that. */
  predicate JournaledAt<S, C(==), E>(
    ops: Commands<S, C, E>, journal: seq<C>, commands: seq<C>, s: S, p: Progress<S, C, E>, i: nat)
    requires i < |commands| && |journal| + i < |p.journal| && i < |p.messages|
  {
    var before := Reached(ops, commands, i, s);
    if ops.skip(commands[i], before) then
      p.journal[|journal| + i] == commands[i] && p.messages[i] == Skipping(commands[i])
    else
      p.journal[|journal| + i] == ops.run(commands[i], before).0 && p.messages[i] == Running(commands[i])
  }

  lemma {:induction false} ReachedInFront<S, C, E>(ops: Commands<S, C, E>, commands: seq<C>, n: nat, i: nat, s: S)
    requires i <= n <= |commands|
    ensures Reached(ops, commands[..n], i, s) == Reached(ops, commands, i, s)
  {
    if i > 0 {
      ReachedInFront(ops, commands, n, i - 1, s);
    }
  }

  /** What a run none of whose commands fails leaves and reports. */
  lemma {:induction false} StepsJournal<S, C, E>(ops: Commands<S, C, E>, journal: seq<C>, commands: seq<C>, s: S)
    requires forall i :: 0 <= i < |commands| ==> !FailsAt(ops, commands, i, s)
    ensures var p := Steps(ops, journal, commands, s);
            && p.error.None? && p.context == Reached(ops, commands, |commands|, s)
            && |p.journal| == |journal| + |commands| && journal <= p.journal && |p.messages| == |commands|
            && forall i :: 0 <= i < |commands| ==> JournaledAt(ops, journal, commands, s, p, i)
  {
    if commands != [] {
      var n := |commands| - 1;
      var before, after := Steps(ops, journal, commands[..n], s), Steps(ops, journal, commands, s);
      forall i | 0 <= i < n
        ensures !FailsAt(ops, commands[..n], i, s)
      {
        ReachedInFront(ops, commands, n, i, s);
        assert !FailsAt(ops, commands, i, s);
      }
      StepsJournal(ops, journal, commands[..n], s);
      ReachedInFront(ops, commands, n, n, s);
      assert !FailsAt(ops, commands, n, s) && after == Step(ops, before, commands[n]);
      forall i | 0 <= i < |commands|
        ensures JournaledAt(ops, journal, commands, s, after, i)
      {
        if i < n {
          ReachedInFront(ops, commands, n, i, s);
          assert JournaledAt(ops, journal, commands[..n], s, before, i);
        }
      }
    }
  }

  /** What the first failing command leaves: its own context and error, and the journal of those before it. */
  lemma StepsFail<S, C, E>(ops: Commands<S, C, E>, journal: seq<C>, commands: seq<C>, k: nat, s: S)
    requires k < |commands| && FailsAt(ops, commands, k, s)
    requires forall i :: 0 <= i < k ==> !FailsAt(ops, commands, i, s)
    ensures var p := Steps(ops, journal, commands, s);
            var before := Steps(ops, journal, commands[..k], s);
            var (_, context, error) := ops.run(commands[k], Reached(ops, commands, k, s));
            && before.error.None? && p.error == error && p.context == context && p.journal == before.journal
            && p.messages == before.messages + [Running(commands[k]), Message.Failed(ops.name(commands[k]))]
  {
    forall i | 0 <= i < k
      ensures !FailsAt(ops, commands[..k], i, s)
    {
      ReachedInFront(ops, commands, k, i, s);
      assert !FailsAt(ops, commands, i, s);
    }
    StepsJournal(ops, journal, commands[..k], s);
    ReachedInFront(ops, commands, k, k, s);
    StepsSnoc(ops, journal, commands, k, s);
    StepsStop(ops, journal, commands, k + 1, s);
  }

  /** The context in which `journal[i]` is rolled back: the one that the rollbacks of the later commands leave. */
  function Undoing<S, C, E>(ops: Commands<S, C, E>, journal: seq<C>, i: nat, s: S): S
    requires i < |journal|
    decreases |journal| - i
  {
    if i + 1 == |journal| then s else ops.rollback(journal[i + 1], Undoing(ops, journal, i + 1, s)).0
  }

  /** The error of each rollback that fails, from the last command down to the i-th. */
  function Errors<S, C, E>(ops: Commands<S, C, E>, journal: seq<C>, i: nat, s: S): seq<E>
    requires i <= |journal|
    decreases |journal| - i
  {
    if i == |journal| then []
    else
      var later := Errors(ops, journal, i + 1, s);
      match ops.rollback(journal[i], Undoing(ops, journal, i, s)).1
      case None => later
      case Some(e) => later + [e]
  }

  /** What is reported meanwhile: each command rolled back, and behind it that its rollback failed, if it did. */
  function Reports<S, C, E>(ops: Commands<S, C, E>, journal: seq<C>, i: nat, s: S): seq<Message<C>>
    requires i <= |journal|
    decreases |journal| - i
  {
    if i == |journal| then []
    else
      Reports(ops, journal, i + 1, s) + [RollingBack(journal[i])]
      + match ops.rollback(journal[i], Undoing(ops, journal, i, s)).1
        case None => []
        case Some(_) => [RollbackFailed(journal[i])]
  }

  lemma {:induction false} UndoingInFront<S, C, E>(ops: Commands<S, C, E>, journal: seq<C>, i: nat, s: S)
    requires i + 1 < |journal|
    ensures var n := |journal| - 1;
            Undoing(ops, journal, i, s) == Undoing(ops, journal[..n], i, ops.rollback(journal[n], s).0)
    decreases |journal| - i
  {
    if i + 2 < |journal| {
      UndoingInFront(ops, journal, i + 1, s);
    }
  }

  lemma {:induction false} ErrorsInFront<S, C, E>(ops: Commands<S, C, E>, journal: seq<C>, i: nat, s: S)
    requires i < |journal|
    ensures var n := |journal| - 1;
            var (s1, error) := ops.rollback(journal[n], s);
            && Errors(ops, journal, i, s)
               == (if error.Some? then [error.value] else []) + Errors(ops, journal[..n], i, s1)
            && Reports(ops, journal, i, s)
               == [RollingBack(journal[n])] + (if error.Some? then [RollbackFailed(journal[n])] else [])
                  + Reports(ops, journal[..n], i, s1)
    decreases |journal| - i
  {
    if i + 1 < |journal| {
      ErrorsInFront(ops, journal, i + 1, s);
      UndoingInFront(ops, journal, i, s);
    }
  }

  /**
   A rollback loses no error: it gives those of exactly the rollbacks that failed, last command first, each in
   the context that the later rollbacks left, and reports every one.
   */
  lemma {:induction false} RollbackReportsEveryError<S, C, E>(ops: Commands<S, C, E>, journal: seq<C>, s: S)
    ensures Undone(ops, journal, s).1 == Errors(ops, journal, 0, s)
    ensures Undone(ops, journal, s).2 == Reports(ops, journal, 0, s)
    ensures journal != [] ==> Undone(ops, journal, s).0 == ops.rollback(journal[0], Undoing(ops, journal, 0, s)).0
  {
    if journal != [] {
      var n := |journal| - 1;
      var (s1, error) := ops.rollback(journal[n], s);
      RollbackReportsEveryError(ops, journal[..n], s1);
      ErrorsInFront(ops, journal, 0, s);
      if n > 0 {
        UndoingInFront(ops, journal, 0, s);
      }
    }
  }

  /** There is no error exactly when every rollback works. */
  lemma {:induction false} NoErrorsExactlyWhen<S, C, E>(ops: Commands<S, C, E>, journal: seq<C>, i: nat, s: S)
    requires i <= |journal|
    ensures Errors(ops, journal, i, s) == []
        <==> forall k :: i <= k < |journal| ==> ops.rollback(journal[k], Undoing(ops, journal, k, s)).1.None?
    decreases |journal| - i
  {
    if i < |journal| {
      NoErrorsExactlyWhen(ops, journal, i + 1, s);
    }
  }

  /**
   On a failure exactly the commands before the failing one are undone, together with whatever earlier runs
   journaled: their rollbacks come last to first, starting in the context the failing command left, and the
   failing command's is not among them.
   */
  lemma FailureRollsBackTheJournal<S, C, E>(
    ops: Commands<S, C, E>, journal: seq<C>, commands: seq<C>, s: S, k: nat)
    requires k < |commands| && FailsAt(ops, commands, k, s)
    requires forall i :: 0 <= i < k ==> !FailsAt(ops, commands, i, s)
    ensures var p := Steps(ops, journal, commands, s);
            && p.journal == Steps(ops, journal, commands[..k], s).journal
            && |p.journal| == |journal| + k && journal <= p.journal
            && p.context == ops.run(commands[k], Reached(ops, commands, k, s)).1
            && RolledBack(Undone(ops, p.journal, p.context).2) == Reversed(p.journal)
  {
    hide Undone, Steps, RolledBack, Reversed;
    StepsFail(ops, journal, commands, k, s);
    forall i | 0 <= i < k
      ensures !FailsAt(ops, commands[..k], i, s)
    {
      ReachedInFront(ops, commands, k, i, s);
      assert !FailsAt(ops, commands, i, s);
    }
    StepsJournal(ops, journal, commands[..k], s);
    var p := Steps(ops, journal, commands, s);
    UndoneInReverse(ops, p.journal, p.context);
  }

  /** The contract a command has to keep for a failed run to leave no trace. */
  ghost predicate Reversible<S(!new), C, E>(ops: Commands<S, C, E>, c: C)
  {
    forall s ::
      if ops.skip(c, s) then ops.rollback(c, s).0 == s
      else
        var (c', s', error) := ops.run(c, s);
        if error.Some? then s' == s else ops.rollback(c', s').0 == s
  }

  /** Undoing everything journaled so far leads back to `origin`. */
  predicate LeadsBack<S(==), C, E>(ops: Commands<S, C, E>, journal: seq<C>, s: S, origin: S)
  {
    Undone(ops, journal, s).0 == origin
  }

  lemma StepLeadsBack<S(!new), C, E>(ops: Commands<S, C, E>, p: Progress<S, C, E>, c: C, origin: S)
    requires LeadsBack(ops, p.journal, p.context, origin) && Reversible(ops, c)
    ensures var p' := Step(ops, p, c); LeadsBack(ops, p'.journal, p'.context, origin)
  {
    var p' := Step(ops, p, c);
    if p'.journal != p.journal {
      assert p'.journal[..|p.journal|] == p.journal;
      assert ops.rollback(p'.journal[|p.journal|], p'.context).0 == p.context;
    }
  }

  lemma {:induction false} StepsLeadBack<S(!new), C, E>(
    ops: Commands<S, C, E>, journal: seq<C>, commands: seq<C>, s: S, origin: S)
    requires LeadsBack(ops, journal, s, origin) && forall c :: c in commands ==> Reversible(ops, c)
    ensures var p := Steps(ops, journal, commands, s); LeadsBack(ops, p.journal, p.context, origin)
  {
    hide Step, Reversible, LeadsBack;
    if commands != [] {
      var n := |commands| - 1;
      StepsLeadBack(ops, journal, commands[..n], s, origin);
      StepLeadsBack(ops, Steps(ops, journal, commands[..n], s), commands[n], origin);
    }
  }

  /** Any number of runs with one executor, up to and including the first that fails. */
  function Runs<S, C, E>(ops: Commands<S, C, E>, journal: seq<C>, batches: seq<seq<C>>, s: S): Progress<S, C, E>
  {
    if batches == [] then Progress(journal, s, [], None)
    else
      var p := Runs(ops, journal, batches[..|batches| - 1], s);
      if p.error.Some? then p else Steps(ops, p.journal, batches[|batches| - 1], p.context)
  }

  /** With reversible commands, a failing run takes the context back to before the first journaled command. */
  lemma {:induction false} FailureRestoresTheContext<S(!new), C, E>(
    ops: Commands<S, C, E>, batches: seq<seq<C>>, s: S)
    requires forall batch, c :: batch in batches && c in batch ==> Reversible(ops, c)
    ensures var p := Runs(ops, [], batches, s); Undone(ops, p.journal, p.context).0 == s
  {
    if batches != [] {
      var n := |batches| - 1;
      FailureRestoresTheContext(ops, batches[..n], s);
      var p := Runs(ops, [], batches[..n], s);
      assert batches[n] in batches;
      if p.error.None? {
        StepsLeadBack(ops, p.journal, batches[n], p.context, s);
      }
    }
  }
}
