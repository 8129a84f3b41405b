/**
 * The database form of the same agreement: insert or ignore, and read back the winner, under
 * whatever master key each process has been given. A value sealed under one master key never
 * opens under another.
 */
module AccountKeyRow {
  import opened Options

  type Pid = nat
  type Key = nat
  type MasterKey = nat

  datatype Pem = Pem(key: Key) | Broken(text: string)

  datatype Stored = Plain(pem: Pem) | Sealed(master: MasterKey, pem: Pem)

  datatype Phase = Loading | Inserting(key: Key) | Reloading | Loaded(key: Key) | Refused | Failed

  datatype Loader = Loader(directory: string, master: Option<MasterKey>, phase: Phase)

  datatype System = System(rows: map<string, Stored>, loaders: map<Pid, Loader>)

  datatype Action =
    | Start(pid: Pid, directory: string, master: Option<MasterKey>)
    | Load(pid: Pid, generated: Key)
    | Insert(pid: Pid)
    | InsertFails(pid: Pid, stored: bool)
    | Fail(pid: Pid)
    | Crash(pid: Pid)

  /** With a master key the value must open under it; without one it must be PEM as it stands. */
  function Opened(value: Stored, master: Option<MasterKey>): Option<Key> {
    match value
    case Plain(Pem(key)) => if master.None? then Some(key) else None
    case Sealed(m, Pem(key)) => if master == Some(m) then Some(key) else None
    case _ => None
  }

  function Encoded(key: Key, master: Option<MasterKey>): Stored {
    if master.Some? then Sealed(master.value, Pem(key)) else Plain(Pem(key))
  }

  function Loads(rows: map<string, Stored>, l: Loader): Phase
    requires l.directory in rows
  {
    match Opened(rows[l.directory], l.master)
    case Some(key) => Loaded(key)
    case None => Refused
  }

  function At(s: System, pid: Pid, p: Phase): System
    requires pid in s.loaders
  {
    s.(loaders := s.loaders[pid := s.loaders[pid].(phase := p)])
  }

  /** ON CONFLICT DO NOTHING. */
  function InsertOrIgnore(rows: map<string, Stored>, directory: string, value: Stored): map<string, Stored> {
    if directory in rows then rows else rows[directory := value]
  }

  function Step(s: System, a: Action): System {
    match a
    case Start(pid, directory, master) =>
      if pid in s.loaders then s else s.(loaders := s.loaders[pid := Loader(directory, master, Loading)])
    case Crash(pid) => s.(loaders := s.loaders - {pid})
    case _ => if a.pid in s.loaders then LoaderStep(s, a, s.loaders[a.pid]) else s
  }

  function LoaderStep(s: System, a: Action, l: Loader): System
    requires a.Load? || a.Insert? || a.InsertFails? || a.Fail?
    requires a.pid in s.loaders && s.loaders[a.pid] == l
  {
    match (a, l.phase)
    case (Load(pid, generated), Loading) => At(s, pid, if l.directory in s.rows then Loads(s.rows, l) else Inserting(generated))
    case (Load(pid, _), Reloading) => At(s, pid, if l.directory in s.rows then Loads(s.rows, l) else Failed)
    case (Insert(pid), Inserting(key)) =>
      At(s.(rows := InsertOrIgnore(s.rows, l.directory, Encoded(key, l.master))), pid, Reloading)
    // The call may fail with the row stored all the same.
    case (InsertFails(pid, stored), Inserting(key)) =>
      At(if stored then s.(rows := InsertOrIgnore(s.rows, l.directory, Encoded(key, l.master))) else s, pid, Failed)
    case (Fail(pid), _) => if l.phase.Loaded? then s else At(s, pid, Failed)
    case _ => s
  }

  function Run(s: System, actions: seq<Action>): System
    decreases |actions|
  {
    if actions == [] then s else Run(Step(s, actions[0]), actions[1..])
  }

  ghost predicate LoadedIsStored(s: System) {
    forall pid :: pid in s.loaders && s.loaders[pid].phase.Loaded? ==>
      var l := s.loaders[pid]; l.directory in s.rows && Opened(s.rows[l.directory], l.master) == Some(l.phase.key)
  }

  /** The key in a stored value, whoever can open it. */
  function KeyIn(value: Stored): Option<Key> {
    if value.pem.Pem? then Some(value.pem.key) else None
  }

  ghost predicate WriteOnce(a: System, b: System) {
    && (forall d :: d in a.rows ==> d in b.rows && b.rows[d] == a.rows[d])
    && (forall d :: d in b.rows && d !in a.rows ==> KeyIn(b.rows[d]).Some?)
  }

  lemma StepKeeps(s: System, a: Action)
    requires LoadedIsStored(s)
    ensures LoadedIsStored(Step(s, a)) && WriteOnce(s, Step(s, a))
  {
    var s' := Step(s, a);
    assert WriteOnce(s, s');
    forall pid | pid in s'.loaders && s'.loaders[pid].phase.Loaded?
      ensures var l := s'.loaders[pid]; l.directory in s'.rows && Opened(s'.rows[l.directory], l.master) == Some(l.phase.key)
    {
      if pid in s.loaders && s.loaders[pid] == s'.loaders[pid] {
        assert s.loaders[pid].directory in s.rows;
      }
    }
  }

  lemma {:induction false} RunKeeps(s: System, actions: seq<Action>)
    requires LoadedIsStored(s)
    ensures LoadedIsStored(Run(s, actions)) && WriteOnce(s, Run(s, actions))
    decreases |actions|
  {
    if actions != [] {
      StepKeeps(s, actions[0]);
      RunKeeps(Step(s, actions[0]), actions[1..]);
    }
  }

  /** All successful loads of a directory agree, even under different master keys: only one opens it. */
  lemma EveryLoadAgrees(s: System, actions: seq<Action>, more: seq<Action>, p: Pid, q: Pid)
    requires s.loaders == map[]
    requires var a := Run(s, actions); p in a.loaders && a.loaders[p].phase.Loaded?
    requires var b := Run(Run(s, actions), more); q in b.loaders && b.loaders[q].phase.Loaded?
    requires Run(s, actions).loaders[p].directory == Run(Run(s, actions), more).loaders[q].directory
    ensures Run(s, actions).loaders[p].phase.key == Run(Run(s, actions), more).loaders[q].phase.key
    ensures Run(s, actions).loaders[p].master == Run(Run(s, actions), more).loaders[q].master
    ensures WriteOnce(s, Run(s, actions)) && WriteOnce(Run(s, actions), Run(Run(s, actions), more))
  {
    RunKeeps(s, actions);
    RunKeeps(Run(s, actions), more);
  }

  /** A stored value that does not open is refused, never replaced. */
  lemma UnreadableIsRefused(s: System, actions: seq<Action>, pid: Pid)
    requires s.loaders == map[]
    requires pid in Run(s, actions).loaders
    requires var l := Run(s, actions).loaders[pid]; l.directory in s.rows && Opened(s.rows[l.directory], l.master).None?
    ensures !Run(s, actions).loaders[pid].phase.Loaded?
    ensures var l := Run(s, actions).loaders[pid]; l.directory in Run(s, actions).rows && Run(s, actions).rows[l.directory] == s.rows[l.directory]
  {
    RunKeeps(s, actions);
  }
}
