/**
 * Any number of processes loading the account key of a CA directory from one shared directory,
 * each of which may fail or end between any two calls. A hard link publishes the key.
 */
module AccountKeyFile {
  import opened Options

  type Pid = nat
  type Key = nat

  /** The account file of a CA directory, and the temporary files. */
  datatype Path = Account(directory: string) | Temporary(serial: nat)

  /** A key as PEM, a part of one, or anything else. */
  datatype Contents = Pem(key: Key) | Cut(key: Key) | Other(text: string)

  datatype Phase =
    | Reading
    | Creating(key: Key)
    | Writing(key: Key, serial: nat)
    | Linking(key: Key, serial: nat)
    | Rereading
    | Loaded(key: Key)
    | Refused
    | Failed

  datatype Loader = Loader(directory: string, phase: Phase)

  datatype System = System(files: map<Path, Contents>, loaders: map<Pid, Loader>)

  datatype Action =
    | Start(pid: Pid, directory: string)
    | Read(pid: Pid, generated: Key)
    | Create(pid: Pid, serial: nat)
    | WritePart(pid: Pid)
    | Write(pid: Pid)
    | Link(pid: Pid)
    | Fail(pid: Pid)
    | Remove(serial: nat)
    | Crash(pid: Pid)

  function At(s: System, pid: Pid, p: Phase): System
    requires pid in s.loaders
  {
    s.(loaders := s.loaders[pid := s.loaders[pid].(phase := p)])
  }

  /** What reading the account file comes to: the key, a refusal, or that there is none. */
  function ReadKey(s: System, directory: string): Option<Phase> {
    if Account(directory) !in s.files then None
    else if s.files[Account(directory)].Pem? then Some(Loaded(s.files[Account(directory)].key))
    else Some(Refused)
  }

  /** A temporary file that some loader still writes or links. */
  predicate InUse(s: System, serial: nat) {
    exists pid | pid in s.loaders :: Uses(s.loaders[pid].phase, serial)
  }

  predicate Uses(p: Phase, serial: nat) {
    (p.Writing? || p.Linking?) && p.serial == serial
  }

  /** An action that cannot happen in a state leaves it as it is. */
  function Step(s: System, a: Action): System {
    match a
    case Start(pid, directory) =>
      if pid in s.loaders then s else s.(loaders := s.loaders[pid := Loader(directory, Reading)])
    // Only its own loader removes a temporary file, when it is done; a crash leaves it behind.
    case Remove(serial) => if InUse(s, serial) then s else s.(files := s.files - {Temporary(serial)})
    case Crash(pid) => s.(loaders := s.loaders - {pid})
    case _ => if a.pid in s.loaders then LoaderStep(s, a) else s
  }

  function LoaderStep(s: System, a: Action): System
    requires a.Read? || a.Create? || a.WritePart? || a.Write? || a.Link? || a.Fail?
    requires a.pid in s.loaders
  {
    var Loader(directory, phase) := s.loaders[a.pid];
    match (a, phase)
    case (Read(pid, generated), Reading) =>
      if ReadKey(s, directory).Some? then At(s, pid, ReadKey(s, directory).value) else At(s, pid, Creating(generated))
    case (Read(pid, _), Rereading) =>
      At(s, pid, if ReadKey(s, directory).Some? then ReadKey(s, directory).value else Failed)
    // O_EXCL: a name that is taken, by anyone, is not taken again.
    case (Create(pid, serial), Creating(key)) =>
      if Temporary(serial) in s.files then s
      else At(s.(files := s.files[Temporary(serial) := Cut(key)]), pid, Writing(key, serial))
    case (WritePart(pid), Writing(key, serial)) => s.(files := s.files[Temporary(serial) := Cut(key)])
    case (Write(pid), Writing(key, serial)) => At(s.(files := s.files[Temporary(serial) := Pem(key)]), pid, Linking(key, serial))
    case (Link(pid), Linking(key, serial)) =>
      if Account(directory) in s.files then At(s, pid, Rereading)
      else if Temporary(serial) in s.files then
        At(s.(files := s.files[Account(directory) := s.files[Temporary(serial)]]), pid, Loaded(key))
      else At(s, pid, Failed)
    case (Fail(pid), _) => if phase.Loaded? then s else At(s, pid, Failed)
    case _ => s
  }

  function Run(s: System, actions: seq<Action>): System
    decreases |actions|
  {
    if actions == [] then s else Run(Step(s, actions[0]), actions[1..])
  }

  /** Each loader past writing has a whole key in a file that is its own. */
  ghost predicate TemporariesAreOwn(s: System) {
    && (forall pid :: pid in s.loaders && (s.loaders[pid].phase.Writing? || s.loaders[pid].phase.Linking?) ==> OwnFile(s, s.loaders[pid].phase))
    && (forall p, q, serial :: p in s.loaders && q in s.loaders && Uses(s.loaders[p].phase, serial) && Uses(s.loaders[q].phase, serial) ==> p == q)
  }

  predicate OwnFile(s: System, p: Phase)
    requires p.Writing? || p.Linking?
  {
    Temporary(p.serial) in s.files && s.files[Temporary(p.serial)] == if p.Linking? then Pem(p.key) else Cut(p.key)
  }

  /** Whoever has a key has the one that is stored. */
  ghost predicate LoadedIsStored(s: System) {
    forall pid :: pid in s.loaders && s.loaders[pid].phase.Loaded? ==>
      Account(s.loaders[pid].directory) in s.files && s.files[Account(s.loaders[pid].directory)] == Pem(s.loaders[pid].phase.key)
  }

  ghost predicate Invariant(s: System) {
    TemporariesAreOwn(s) && LoadedIsStored(s)
  }

  /** A file that is there stays as it is; one that appears is a whole key. */
  ghost predicate WriteOnce(a: System, b: System) {
    && (forall d :: Account(d) in a.files ==> Account(d) in b.files && b.files[Account(d)] == a.files[Account(d)])
    && (forall d :: Account(d) in b.files && Account(d) !in a.files ==> b.files[Account(d)].Pem?)
  }

  predicate FileStep(s: System, a: Action) {
    (a.Create? || a.WritePart? || a.Write?) && a.pid in s.loaders
  }

  lemma OthersKeepTheirFiles(s: System, a: Action)
    requires FileStep(s, a) && TemporariesAreOwn(s)
    ensures forall p :: p in s.loaders && p != a.pid && (s.loaders[p].phase.Writing? || s.loaders[p].phase.Linking?) ==>
      OwnFile(LoaderStep(s, a), s.loaders[p].phase)
  {
    var phase := s.loaders[a.pid].phase;
    forall p | p in s.loaders && p != a.pid && (s.loaders[p].phase.Writing? || s.loaders[p].phase.Linking?)
      ensures OwnFile(LoaderStep(s, a), s.loaders[p].phase)
    {
      var serial := s.loaders[p].phase.serial;
      assert OwnFile(s, s.loaders[p].phase) && Uses(s.loaders[p].phase, serial);
      assert !Uses(phase, serial);
    }
  }

  lemma FileStepKeeps(s: System, a: Action)
    requires FileStep(s, a) && Invariant(s)
    ensures Invariant(LoaderStep(s, a)) && WriteOnce(s, LoaderStep(s, a))
  {
    var s' := LoaderStep(s, a);
    OthersKeepTheirFiles(s, a);
    assert forall p :: p in s'.loaders && p != a.pid ==> p in s.loaders && s'.loaders[p] == s.loaders[p];
    if a.Create? && s.loaders[a.pid].phase.Creating? && Temporary(a.serial) !in s.files {
      forall p | p in s.loaders ensures !Uses(s.loaders[p].phase, a.serial) {
        if s.loaders[p].phase.Writing? || s.loaders[p].phase.Linking? {
          assert OwnFile(s, s.loaders[p].phase);
        }
      }
    }
  }

  lemma LinkKeeps(s: System, a: Action)
    requires a.Link? && Invariant(s) && a.pid in s.loaders
    ensures Invariant(LoaderStep(s, a)) && WriteOnce(s, LoaderStep(s, a))
  {
    var s' := LoaderStep(s, a);
    assert forall p :: p in s'.loaders && p != a.pid ==> s'.loaders[p] == s.loaders[p];
    assert forall serial :: Temporary(serial) in s.files ==> Temporary(serial) in s'.files && s'.files[Temporary(serial)] == s.files[Temporary(serial)];
  }

  lemma LoaderStepKeeps(s: System, a: Action)
    requires a.Read? || a.Create? || a.WritePart? || a.Write? || a.Link? || a.Fail?
    requires Invariant(s) && a.pid in s.loaders
    ensures Invariant(LoaderStep(s, a)) && WriteOnce(s, LoaderStep(s, a))
  {
    if FileStep(s, a) {
      FileStepKeeps(s, a);
    } else if a.Link? {
      LinkKeeps(s, a);
    } else {
      var s' := LoaderStep(s, a);
      assert s'.files == s.files && forall p :: p in s'.loaders && p != a.pid ==> s'.loaders[p] == s.loaders[p];
    }
  }

  lemma StepKeeps(s: System, a: Action)
    requires Invariant(s)
    ensures Invariant(Step(s, a)) && WriteOnce(s, Step(s, a))
  {
    match a
    case Start(_, _) =>
    case Remove(serial) =>
    case Crash(_) =>
    case _ =>
      if a.pid in s.loaders {
        LoaderStepKeeps(s, a);
      }
  }

  lemma {:induction false} RunKeeps(s: System, actions: seq<Action>)
    requires Invariant(s)
    ensures Invariant(Run(s, actions)) && WriteOnce(s, Run(s, actions))
    decreases |actions|
  {
    if actions != [] {
      StepKeeps(s, actions[0]);
      RunKeeps(Step(s, actions[0]), actions[1..]);
    }
  }

  /**
   * Every load of a CA directory's key that ever succeeds returns the same one, the stored key,
   * which was whole when it appeared and is never replaced.
   */
  lemma EveryLoadAgrees(s: System, actions: seq<Action>, more: seq<Action>, p: Pid, q: Pid)
    requires s.loaders == map[]
    requires var a := Run(s, actions); p in a.loaders && a.loaders[p].phase.Loaded?
    requires var b := Run(Run(s, actions), more); q in b.loaders && b.loaders[q].phase.Loaded?
    requires Run(s, actions).loaders[p].directory == Run(Run(s, actions), more).loaders[q].directory
    ensures Run(s, actions).loaders[p].phase.key == Run(Run(s, actions), more).loaders[q].phase.key
    ensures WriteOnce(s, Run(s, actions)) && WriteOnce(Run(s, actions), Run(Run(s, actions), more))
  {
    RunKeeps(s, actions);
    RunKeeps(Run(s, actions), more);
  }

  /** A stored file that is no key is refused by everyone, for ever, and stays. */
  lemma UnreadableIsRefused(s: System, actions: seq<Action>, pid: Pid)
    requires s.loaders == map[]
    requires pid in Run(s, actions).loaders
    requires var account := Account(Run(s, actions).loaders[pid].directory); account in s.files && !s.files[account].Pem?
    ensures !Run(s, actions).loaders[pid].phase.Loaded?
    ensures var account := Account(Run(s, actions).loaders[pid].directory);
      account in Run(s, actions).files && Run(s, actions).files[account] == s.files[account]
  {
    RunKeeps(s, actions);
  }
}
