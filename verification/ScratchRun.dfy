/**
 * The runner, its cleaner and the command it starts: three processes, two pipes, and a
 * SIGKILL for the runner, or for its whole process group, at any step.
 *
 * Nobody kills the cleaner by itself, and what the command starts stays in its process group.
 */
module ScratchRun {
  import Decimal

  datatype Process = Runner | Cleaner | Command

  datatype RunnerAt =
    | Forking
    | ClosingRead
    | ClosingStarted
    | AwaitingCleaner
    | Launching
    | Waiting
    | Releasing
    | Reaping
    | RunnerGone

  datatype CleanerAt =
    | Unborn
    | DroppingWriteEnd
    | LeavingGroup
    | ReleasingStarted
    | Reading
    | Signalling
    | Removing(tries: nat)
    | CleanerDone
    | CleanerKilled

  datatype CommandAt =
    | Unforked
    | Forked
    | InOwnSession
    | Named
    | Executing
    | CommandGone

  /**
   * `writers` and `startedWriters` hold a pipe's write end open. `members` lives in the
   * command's process group, and `executed` says whether the command has ever started.
   */
  datatype State = State(
    pid: nat,
    runner: RunnerAt,
    cleaner: CleanerAt,
    command: CommandAt,
    writers: set<Process>,
    startedWriters: set<Process>,
    runnerGroup: set<Process>,
    pipe: string,
    received: string,
    members: set<nat>,
    executed: bool,
    signalled: set<nat>,
    directory: bool)

  datatype Action =
    | StepRunner
    | StepCleaner(amount: nat, removed: bool)
    | StepCommand(fails: bool)
    | Interrupt
    | Spawn(parent: nat, id: nat)
    | Exit(id: nat)
    | KillRunner
    | KillGroup

  /** The scratch directory exists, both pipes are open, and the runner is about to fork. */
  function Start(pid: nat): State {
    State(pid, Forking, Unborn, Unforked, {Runner}, {Runner}, {Runner}, "", "", {}, false, {}, true)
  }

  /** A dead process holds no pipe and belongs to no group. */
  function Without(s: State, p: Process): State {
    s.(writers := s.writers - {p}, startedWriters := s.startedWriters - {p}, runnerGroup := s.runnerGroup - {p})
  }

  function RunnerDies(s: State): State {
    Without(s, Runner).(runner := RunnerGone)
  }

  function CleanerDies(s: State): State {
    Without(s, Cleaner).(cleaner := CleanerKilled)
  }

  function CommandDies(s: State): State {
    Without(s, Command).(command := CommandGone, members := s.members - {s.pid})
  }

  function StepOfRunner(s: State): State {
    match s.runner
    case Forking =>
      // The child shares the group and both write ends.
      s.(runner := ClosingRead, cleaner := DroppingWriteEnd, writers := s.writers + {Cleaner},
         startedWriters := s.startedWriters + {Cleaner}, runnerGroup := s.runnerGroup + {Cleaner})
    case ClosingRead => s.(runner := ClosingStarted)
    case ClosingStarted => s.(runner := AwaitingCleaner, startedWriters := s.startedWriters - {Runner})
    case AwaitingCleaner => if s.startedWriters == {} then s.(runner := Launching) else s
    case Launching =>
      if s.command.Unforked? then
        s.(command := Forked, writers := s.writers + {Command}, runnerGroup := s.runnerGroup + {Command})
      // Popen returns when its child has executed, or failed to.
      else if s.command.Executing? then s.(runner := Waiting)
      else if s.command.CommandGone? then s.(runner := if s.executed then Waiting else Releasing)
      else s
    case Waiting => if s.command.CommandGone? then s.(runner := Releasing) else s
    case Releasing => s.(runner := Reaping, writers := s.writers - {Runner})
    case Reaping => if s.cleaner.CleanerDone? || s.cleaner.CleanerKilled? then RunnerDies(s) else s
    case RunnerGone => s
  }

  function Least(a: nat, b: nat): nat {
    if a < b then a else b
  }

  /** A read blocks while the pipe is empty and someone can still write to it. */
  function ReadPipe(s: State, amount: nat): State {
    if s.pipe != "" then
      var n := Least(if amount == 0 then 1 else Least(amount, 64), |s.pipe|);
      s.(received := s.received + s.pipe[..n], pipe := s.pipe[n..])
    else if s.writers == {} then s.(cleaner := if s.received == "" then Removing(25) else Signalling)
    else s
  }

  /** SIGKILL reaches every member of the group at once. */
  function KillMembers(s: State, group: nat): State {
    var s := s.(signalled := s.signalled + {group});
    if group != s.pid then s
    else (if s.command.InOwnSession? || s.command.Named? || s.command.Executing? then CommandDies(s) else s).(members := {})
  }

  function StepOfCleaner(s: State, amount: nat, removed: bool): State {
    match s.cleaner
    case DroppingWriteEnd => s.(cleaner := LeavingGroup, writers := s.writers - {Cleaner})
    case LeavingGroup => s.(cleaner := ReleasingStarted, runnerGroup := s.runnerGroup - {Cleaner})
    case ReleasingStarted => s.(cleaner := Reading, startedWriters := s.startedWriters - {Cleaner})
    case Reading => ReadPipe(s, amount)
    case Signalling => KillMembers(s, Decimal.Value(s.received)).(cleaner := Removing(25))
    case Removing(tries) =>
      if tries == 0 then s.(cleaner := CleanerDone)
      else if removed then s.(cleaner := CleanerDone, directory := false)
      else s.(cleaner := Removing(tries - 1))
    case _ => s
  }

  /** What the forked child does on its way to the command; executing closes the pipe. */
  function StepOfCommand(s: State, fails: bool): State {
    match s.command
    case Forked =>
      s.(command := InOwnSession, runnerGroup := s.runnerGroup - {Command}, members := s.members + {s.pid})
    case InOwnSession => s.(command := Named, pipe := s.pipe + Decimal.Text(s.pid))
    case Named =>
      if fails then CommandDies(s)
      else s.(command := Executing, writers := s.writers - {Command}, executed := true)
    case _ => s
  }

  function KilledWithGroup(s: State): State {
    var s := if Cleaner in s.runnerGroup then CleanerDies(s) else s;
    var s := if Command in s.runnerGroup then CommandDies(s) else s;
    RunnerDies(s)
  }

  /** An action that cannot happen in a state leaves it as it is. */
  function Step(s: State, a: Action): State {
    match a
    case StepRunner => StepOfRunner(s)
    case StepCleaner(amount, removed) => StepOfCleaner(s, amount, removed)
    case StepCommand(fails) => StepOfCommand(s, fails)
    // SystemExit from the handler, while Popen has not returned. Earlier a signal is KillRunner;
    // later it is forwarded, and the members it ends leave by Exit.
    case Interrupt => if s.runner.Launching? then s.(runner := Releasing) else s
    case Spawn(parent, id) =>
      if s.command.Executing? || s.command.CommandGone? then
        if parent in s.members && id != s.pid then s.(members := s.members + {id}) else s
      else s
    case Exit(id) =>
      if id !in s.members then s
      else if id == s.pid then CommandDies(s)
      else s.(members := s.members - {id})
    case KillRunner => RunnerDies(s)
    case KillGroup => if Runner in s.runnerGroup then KilledWithGroup(s) else s
  }

  function Run(s: State, actions: seq<Action>): State
    decreases |actions|
  {
    if actions == [] then s else Run(Step(s, actions[0]), actions[1..])
  }

  predicate RunnerMayLaunch(r: RunnerAt) {
    r.Launching? || r.Waiting? || r.Releasing? || r.Reaping?
  }

  predicate CleanerIsFree(c: CleanerAt) {
    c.Reading? || AfterEof(c)
  }

  predicate AfterEof(c: CleanerAt) {
    c.Signalling? || AfterSignal(c)
  }

  predicate AfterSignal(c: CleanerAt) {
    c.Removing? || c.CleanerDone?
  }

  predicate BeforeExec(c: CommandAt) {
    c.Forked? || c.InOwnSession? || c.Named?
  }

  /** Exactly who holds the write ends. */
  predicate EndsAreHeld(s: State) {
    && (Runner in s.writers <==> !s.runner.Reaping? && !s.runner.RunnerGone?)
    && (Cleaner in s.writers <==> s.cleaner.DroppingWriteEnd?)
    && (Command in s.writers <==> BeforeExec(s.command))
    && (Runner in s.startedWriters <==> s.runner.Forking? || s.runner.ClosingRead? || s.runner.ClosingStarted?)
    && (Cleaner in s.startedWriters <==> s.cleaner.DroppingWriteEnd? || s.cleaner.LeavingGroup? || s.cleaner.ReleasingStarted?)
    && Command !in s.startedWriters
  }

  predicate GroupIsKept(s: State) {
    && (Runner in s.runnerGroup <==> !s.runner.RunnerGone?)
    && (Cleaner in s.runnerGroup <==> s.cleaner.DroppingWriteEnd? || s.cleaner.LeavingGroup?)
    && (Command in s.runnerGroup <==> s.command.Forked?)
  }

  /** Nothing is launched while the cleaner can still die with the runner's group. */
  predicate CleanerLeftFirst(s: State) {
    && (s.runner.Forking? ==> s.cleaner.Unborn?)
    && (s.cleaner.Unborn? ==> s.runner.Forking? || s.runner.RunnerGone?)
    && (s.cleaner.CleanerKilled? ==> s.runner.RunnerGone?)
    && (RunnerMayLaunch(s.runner) || !s.command.Unforked? ==> CleanerIsFree(s.cleaner))
  }

  /** The pid is in the pipe or read, from when the child names itself. */
  predicate PidIsUnderWay(s: State) {
    && (s.received + s.pipe == "" || s.received + s.pipe == Decimal.Text(s.pid))
    && (s.command.Named? || s.command.Executing? || s.executed ==> s.received + s.pipe == Decimal.Text(s.pid))
    && (s.command.Unforked? || s.command.Forked? || s.command.InOwnSession? ==> s.received + s.pipe == "")
    && (AfterEof(s.cleaner) ==> s.pipe == "" && s.writers == {})
  }

  predicate MembersAreKnown(s: State) {
    && (s.command.Unforked? || s.command.Forked? ==> s.members == {})
    && (s.command.Executing? ==> s.executed)
    && (s.executed ==> s.command.Executing? || s.command.CommandGone?)
    && (s.pid in s.members <==> s.command.InOwnSession? || s.command.Named? || s.command.Executing?)
    && (!s.executed ==> s.members <= {s.pid})
    && s.signalled <= {s.pid}
    && (AfterSignal(s.cleaner) ==> s.members == {} && (s.received != "" ==> s.pid in s.signalled))
    && (s.cleaner.Signalling? ==> s.received != "")
    && (!s.directory ==> s.cleaner.CleanerDone?)
    && (!AfterSignal(s.cleaner) ==> s.signalled == {})
  }

  predicate Invariant(s: State) {
    EndsAreHeld(s) && GroupIsKept(s) && CleanerLeftFirst(s) && PidIsUnderWay(s) && MembersAreKnown(s)
  }

  lemma StartIsInvariant(pid: nat)
    ensures Invariant(Start(pid))
  {
  }

  lemma LaunchKeeps(s: State)
    requires Invariant(s) && (s.runner.Launching? || s.runner.AwaitingCleaner?)
    ensures Invariant(StepOfRunner(s))
  {
  }

  lemma RunnerKeeps(s: State)
    requires Invariant(s)
    ensures Invariant(StepOfRunner(s))
  {
    if s.runner.Launching? || s.runner.AwaitingCleaner? {
      LaunchKeeps(s);
    }
  }

  lemma ReadKeeps(s: State, amount: nat)
    requires Invariant(s) && s.cleaner.Reading?
    ensures Invariant(ReadPipe(s, amount))
  {
    var s' := ReadPipe(s, amount);
    if s.pipe != "" {
      assert s'.received + s'.pipe == s.received + s.pipe;
      assert s' == s.(received := s'.received, pipe := s'.pipe);
    } else {
      assert s.received == s.received + s.pipe;
    }
  }

  lemma KillKeeps(s: State)
    requires Invariant(s) && s.cleaner.Signalling?
    ensures Invariant(KillMembers(s, s.pid).(cleaner := Removing(25)))
  {
    assert Command !in s.writers;
  }

  lemma SignalsThePid(s: State)
    requires Invariant(s) && s.cleaner.Signalling?
    ensures Decimal.Value(s.received) == s.pid
  {
    assert s.received == s.received + s.pipe;
    Decimal.ValueOfText(s.pid);
  }

  lemma CleanerKeeps(s: State, amount: nat, removed: bool)
    requires Invariant(s)
    ensures Invariant(StepOfCleaner(s, amount, removed))
  {
    if s.cleaner.Reading? {
      ReadKeeps(s, amount);
    } else if s.cleaner.Signalling? {
      SignalsThePid(s);
      KillKeeps(s);
    }
  }

  lemma CommandKeeps(s: State, fails: bool)
    requires Invariant(s)
    ensures Invariant(StepOfCommand(s, fails))
  {
    if s.command.InOwnSession? {
      assert s.received == "" && s.pipe == "";
      assert StepOfCommand(s, fails).received + StepOfCommand(s, fails).pipe == Decimal.Text(s.pid);
    }
  }

  lemma SignalKeeps(s: State, a: Action)
    requires Invariant(s) && (a.KillRunner? || a.KillGroup?)
    ensures Invariant(Step(s, a))
  {
  }

  lemma InterruptKeeps(s: State)
    requires Invariant(s)
    ensures Invariant(Step(s, Interrupt))
  {
  }

  lemma SpawnKeeps(s: State, parent: nat, id: nat)
    requires Invariant(s)
    ensures Invariant(Step(s, Spawn(parent, id)))
  {
  }

  lemma ExitKeeps(s: State, id: nat)
    requires Invariant(s)
    ensures Invariant(Step(s, Exit(id)))
  {
  }

  lemma StepKeeps(s: State, a: Action)
    requires Invariant(s)
    ensures Invariant(Step(s, a))
  {
    match a
    case StepRunner => RunnerKeeps(s);
    case StepCleaner(amount, removed) => CleanerKeeps(s, amount, removed);
    case StepCommand(fails) => CommandKeeps(s, fails);
    case KillRunner => SignalKeeps(s, a);
    case KillGroup => SignalKeeps(s, a);
    case Interrupt => InterruptKeeps(s);
    case Spawn(parent, id) => SpawnKeeps(s, parent, id);
    case Exit(id) => ExitKeeps(s, id);
  }

  lemma {:induction false} RunKeeps(s: State, actions: seq<Action>)
    requires Invariant(s)
    ensures Invariant(Run(s, actions))
    decreases |actions|
  {
    if actions != [] {
      StepKeeps(s, actions[0]);
      RunKeeps(Step(s, actions[0]), actions[1..]);
    }
  }

  /**
   * The protocol's promise. Whatever is killed and when: if the command ever executed, the
   * cleaner had left the runner's group and lives; past end of file it has read exactly the
   * command's pid; once it starts removing, it has signalled that group and no other, and
   * nothing of the command is left.
   */
  lemma CommandNeverOutlivesItsDirectory(pid: nat, actions: seq<Action>)
    ensures var s := Run(Start(pid), actions);
      && (s.executed ==> Cleaner !in s.runnerGroup && !s.cleaner.CleanerKilled? && !s.cleaner.Unborn?)
      && (s.executed && AfterEof(s.cleaner) ==> s.received == Decimal.Text(pid))
      && (s.executed && (AfterSignal(s.cleaner) || !s.directory) ==> pid in s.signalled && s.members == {})
      && s.signalled <= {pid}
  {
    StartIsInvariant(pid);
    RunKeeps(Start(pid), actions);
    PidIsFixed(Start(pid), actions);
    var s := Run(Start(pid), actions);
    assert s.pipe == "" ==> s.received + s.pipe == s.received;
  }

  lemma PidStays(s: State, a: Action)
    ensures Step(s, a).pid == s.pid
  {
  }

  lemma {:induction false} PidIsFixed(s: State, actions: seq<Action>)
    ensures Run(s, actions).pid == s.pid
    decreases |actions|
  {
    if actions != [] {
      PidStays(s, actions[0]);
      PidIsFixed(Step(s, actions[0]), actions[1..]);
    }
  }

  /** The command's group never has a member again once removal has begun. */
  lemma {:induction false} NothingStartsDuringRemoval(s: State, actions: seq<Action>)
    requires Invariant(s) && AfterSignal(s.cleaner)
    ensures AfterSignal(Run(s, actions).cleaner)
    ensures Run(s, actions).executed == s.executed && Run(s, actions).members == {}
    decreases |actions|
  {
    if actions != [] {
      StepKeeps(s, actions[0]);
      NothingStartsDuringRemoval(Step(s, actions[0]), actions[1..]);
    }
  }

  /** The cleaner by itself, each removal succeeding. */
  function CleanUp(s: State, steps: nat): State
    decreases steps
  {
    if steps == 0 then s else CleanUp(StepOfCleaner(s, 64, true), steps - 1)
  }

  /** Alive, in its own way to removal, with a try left. */
  predicate CanRemove(c: CleanerAt) {
    !c.Unborn? && !c.CleanerKilled? && !c.CleanerDone? && (c.Removing? ==> c.tries > 0)
  }

  function StepsLeft(s: State): nat {
    match s.cleaner
    case DroppingWriteEnd => 6 + |s.pipe|
    case LeavingGroup => 5 + |s.pipe|
    case ReleasingStarted => 4 + |s.pipe|
    case Reading => 3 + |s.pipe|
    case Signalling => 2
    case _ => 1
  }

  lemma EndOfFileIsSeen(s: State)
    requires Invariant(s) && Runner !in s.writers && !BeforeExec(s.command) && s.cleaner.Reading?
    ensures s.writers == {}
  {
    forall p: Process ensures p !in s.writers {
      assert p == Runner || p == Cleaner || p == Command;
    }
  }

  /** Once the runner has let go of the pipe, the cleaner alone gets the directory removed. */
  lemma {:induction false} CleanerFinishes(s: State) returns (steps: nat)
    requires Invariant(s) && Runner !in s.writers && !BeforeExec(s.command) && CanRemove(s.cleaner)
    ensures steps <= StepsLeft(s)
    ensures CleanUp(s, steps).cleaner.CleanerDone? && !CleanUp(s, steps).directory
    decreases StepsLeft(s)
  {
    var next := StepOfCleaner(s, 64, true);
    CleanerKeeps(s, 64, true);
    if s.cleaner.Removing? {
      assert CleanUp(s, 1) == CleanUp(next, 0);
      return 1;
    }
    if s.cleaner.Reading? {
      EndOfFileIsSeen(s);
    }
    var rest := CleanerFinishes(next);
    steps := rest + 1;
  }

  predicate NeverHadACleaner(s: State) {
    s.cleaner.Unborn? || s.cleaner.CleanerKilled?
  }

  /** A group killed before the cleaner left it: nothing ever starts, and the directory stays. */
  lemma {:induction false} StaysForever(s: State, later: seq<Action>)
    requires Invariant(s) && s.runner.RunnerGone? && NeverHadACleaner(s)
    ensures Run(s, later).directory && !Run(s, later).executed
    decreases |later|
  {
    if later != [] {
      StepKeeps(s, later[0]);
      StaysForever(Step(s, later[0]), later[1..]);
    }
  }

  /**
   * After the runner's end the directory can still go exactly when the cleaner got out of the
   * runner's group in time, and otherwise the command was never started.
   */
  lemma RemovedExactlyWhen(pid: nat, actions: seq<Action>)
    requires var s := Run(Start(pid), actions); s.runner.RunnerGone? && s.directory && !AfterSignal(s.cleaner)
    ensures var s := Run(Start(pid), actions);
      (exists later :: !Run(s, later).directory) <==> !NeverHadACleaner(s)
    ensures var s := Run(Start(pid), actions); NeverHadACleaner(s) ==> !s.executed
  {
    var s := Run(Start(pid), actions);
    StartIsInvariant(pid);
    RunKeeps(Start(pid), actions);
    if NeverHadACleaner(s) {
      forall later ensures Run(s, later).directory && !s.executed {
        StaysForever(s, later);
        StaysForever(s, []);
      }
    } else {
      var ready := CommandGetsOn(s);
      var m := Run(s, ready);
      RunKeeps(s, ready);
      var steps := CleanerFinishes(m);
      CleanUpIsARun(m, steps);
      RunConcat(s, ready, Alone(steps));
      assert !Run(s, ready + Alone(steps)).directory;
    }
  }

  /** The child, left alone, executes the command. */
  lemma CommandGetsOn(s: State) returns (ready: seq<Action>)
    requires Invariant(s) && s.runner.RunnerGone? && CanRemove(s.cleaner)
    ensures var m := Run(s, ready); m.runner == s.runner && !BeforeExec(m.command) && m.cleaner == s.cleaner
  {
    var one := StepCommand(false);
    var a := Step(s, one);
    var b := Step(a, one);
    ready := if s.command.Forked? then [one, one, one] else if s.command.InOwnSession? then [one, one] else [one];
    assert Run(s, [one]) == Run(a, []);
    assert [one, one][1..] == [one] && Run(s, [one, one]) == Run(a, [one]);
    assert [one, one, one][1..] == [one, one] && Run(s, [one, one, one]) == Run(a, [one, one]);
    assert Run(a, [one]) == Run(b, []);
    assert Run(a, [one, one]) == Run(b, [one]);
    assert Run(b, [one]) == Run(Step(b, one), []);
  }

  function Alone(steps: nat): seq<Action> {
    seq(steps, _ => StepCleaner(64, true))
  }

  lemma {:induction false} CleanUpIsARun(s: State, steps: nat)
    ensures Run(s, Alone(steps)) == CleanUp(s, steps)
    decreases steps
  {
    if steps > 0 {
      assert Alone(steps)[1..] == Alone(steps - 1);
      CleanUpIsARun(StepOfCleaner(s, 64, true), steps - 1);
    }
  }

  lemma {:induction false} RunConcat(s: State, a: seq<Action>, b: seq<Action>)
    ensures Run(s, a + b) == Run(Run(s, a), b)
    decreases |a|
  {
    if a == [] {
      assert a + b == b;
    } else {
      assert (a + b)[1..] == a[1..] + b;
      RunConcat(Step(s, a[0]), a[1..], b);
    }
  }

  /** The window is real: the group killed between the fork and the cleaner's setsid. */
  lemma LeakWindow(pid: nat)
    ensures var s := Run(Start(pid), [StepRunner, KillGroup]);
      s.runner.RunnerGone? && NeverHadACleaner(s) && s.directory
  {
    var a := Step(Start(pid), StepRunner);
    assert [StepRunner, KillGroup][1..] == [KillGroup];
    assert Run(a, [KillGroup]) == Run(Step(a, KillGroup), []);
  }
}
