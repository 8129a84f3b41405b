/**
 * Any number of issuers on one certs volume, taking turns by an advisory lock on a file that
 * is never removed, each of which may crash between any two calls.
 */
module ServingRuns {
  import opened Options
  import opened ServingVolume

  type Pid = nat

  /** `HasFile` has the lock file open; `Holds` has its lock as well. */
  datatype Phase = Starting | HasFile(inode: nat) | Holds(inode: nat, work: Work)

  datatype Issuer = Issuer(job: Job, phase: Phase)

  datatype System = System(volume: Volume, last: Ledger, lockFile: Option<nat>, issuers: map<Pid, Issuer>)

  datatype Action =
    | Start(pid: Pid, job: Job)
    | Open(pid: Pid, inode: nat)
    | Flock(pid: Pid)
    | Call(pid: Pid, outcome: Outcome)
    | Crash(pid: Pid)

  predicate InPhase(s: System, pid: Pid, p: Phase) {
    pid in s.issuers && s.issuers[pid].phase == p
  }

  predicate Locked(s: System, inode: nat) {
    exists pid | pid in s.issuers :: s.issuers[pid].phase.Holds? && s.issuers[pid].phase.inode == inode
  }

  /** An action that cannot happen in a state leaves it as it is. */
  function Step(s: System, a: Action): System {
    match a
    case Start(pid, job) =>
      if pid in s.issuers then s else s.(issuers := s.issuers[pid := Issuer(job, Starting)])
    case Open(pid, inode) =>
      if !InPhase(s, pid, Starting) then s
      else
        // O_CREATE makes the file the first time only.
        var file := if s.lockFile.Some? then s.lockFile.value else inode;
        s.(lockFile := Some(file), issuers := s.issuers[pid := s.issuers[pid].(phase := HasFile(file))])
    case Flock(pid) =>
      if pid !in s.issuers || !s.issuers[pid].phase.HasFile? then s
      else
        var inode := s.issuers[pid].phase.inode;
        if Locked(s, inode) then s.(issuers := s.issuers - {pid})
        else s.(issuers := s.issuers[pid := s.issuers[pid].(phase := Holds(inode, Recover))])
    case Call(pid, o) =>
      if pid !in s.issuers || !s.issuers[pid].phase.Holds? then s
      else
        var Issuer(job, Holds(inode, work)) := s.issuers[pid];
        var m := Advance(s.volume, job, work, o);
        s.(volume := m.volume, last := Recorded(s.last, job, m),
           issuers := if m.work.Some? then s.issuers[pid := Issuer(job, Holds(inode, m.work.value))] else s.issuers - {pid})
    case Crash(pid) => s.(issuers := s.issuers - {pid})
  }

  function Run(s: System, actions: seq<Action>): System
    decreases |actions|
  {
    if actions == [] then s else Run(Step(s, actions[0]), actions[1..])
  }

  lemma {:induction false} RunConcat(s: System, a: seq<Action>, b: seq<Action>)
    ensures Run(s, a + b) == Run(Run(s, a), b)
    decreases |a|
  {
    if a == [] {
      assert a + b == b;
    } else {
      assert (a + b)[1..] == a[1..] + b;
      RunConcat(Step(s, a[0]), a[1..], b);
    }
  }

  /** Nobody is running, and each name has a matching pair or no certificate at all. */
  ghost predicate Initial(s: System) {
    && s.issuers == map[]
    && (forall n :: ServingCert(n) in s.volume.files <==> n in s.last)
    && (forall n :: n in s.last ==> s.volume.files[ServingCert(n)] == CertPem(s.last[n]) && KeyServed(s.volume, s.last, n))
  }

  predicate HoldsLock(s: System, pid: Pid) {
    pid in s.issuers && s.issuers[pid].phase.Holds?
  }

  ghost predicate OneFile(s: System) {
    forall pid :: pid in s.issuers && !s.issuers[pid].phase.Starting? ==> s.lockFile == Some(s.issuers[pid].phase.inode)
  }

  ghost predicate OneHolder(s: System) {
    forall p, q :: HoldsLock(s, p) && HoldsLock(s, q) ==> p == q
  }

  ghost predicate SoundVolume(s: System) {
    && (forall p :: HoldsLock(s, p) ==> Sound(s.volume, s.last, Busy(s.issuers[p].job, s.issuers[p].phase.work)))
    && ((forall p :: !HoldsLock(s, p)) ==> Sound(s.volume, s.last, Nobody))
  }

  ghost predicate Invariant(s: System) {
    OneFile(s) && OneHolder(s) && SoundVolume(s)
  }

  lemma InitialIsInvariant(s: System)
    requires Initial(s)
    ensures Invariant(s)
  {
    forall n | n in s.last ensures Recoverable(s.volume, s.last, Nobody, n) {
    }
  }

  lemma HoldersShow(s: System)
    requires OneFile(s)
    ensures forall q :: HoldsLock(s, q) ==> s.lockFile.Some? && Locked(s, s.lockFile.value)
  {
    forall q | HoldsLock(s, q) ensures s.lockFile.Some? && Locked(s, s.lockFile.value) {
      assert s.issuers[q].phase.inode == s.lockFile.value;
    }
  }

  lemma StepKeepsLock(s: System, a: Action)
    requires OneFile(s) && OneHolder(s)
    ensures OneFile(Step(s, a)) && OneHolder(Step(s, a))
  {
    var s' := Step(s, a);
    if a.Flock? && HoldsLock(s', a.pid) && !HoldsLock(s, a.pid) {
      HoldersShow(s);
    } else {
      assert forall q :: HoldsLock(s', q) ==> HoldsLock(s, q);
    }
  }

  lemma StepKeepsVolume(s: System, a: Action)
    requires Invariant(s)
    ensures SoundVolume(Step(s, a))
  {
    var s' := Step(s, a);
    match a
    case Start(_, _) =>
      assert forall q :: HoldsLock(s', q) == HoldsLock(s, q);
    case Open(_, _) =>
      assert forall q :: HoldsLock(s', q) == HoldsLock(s, q);
    case Flock(pid) =>
      if HoldsLock(s', pid) && !HoldsLock(s, pid) {
        HoldersShow(s);
        AcquireIsSound(s.volume, s.last, s.issuers[pid].job);
      } else {
        assert forall q :: HoldsLock(s', q) == HoldsLock(s, q);
      }
    case Call(pid, o) =>
      if HoldsLock(s, pid) {
        AdvanceIsSound(s.volume, s.last, s.issuers[pid].job, s.issuers[pid].phase.work, o);
        forall q | HoldsLock(s', q) ensures q == pid {
          assert HoldsLock(s, q);
        }
      }
    case Crash(pid) =>
      if HoldsLock(s, pid) {
        CrashIsSound(s.volume, s.last, Busy(s.issuers[pid].job, s.issuers[pid].phase.work));
      } else {
        assert forall q :: HoldsLock(s', q) == HoldsLock(s, q);
      }
  }

  lemma {:induction false} RunKeepsInvariant(s: System, actions: seq<Action>)
    requires Invariant(s)
    ensures Invariant(Run(s, actions))
    decreases |actions|
  {
    if actions == [] {
    } else {
      StepKeepsLock(s, actions[0]);
      StepKeepsVolume(s, actions[0]);
      RunKeepsInvariant(Step(s, actions[0]), actions[1..]);
    }
  }

  /** At most one issuer is ever between lock and close, crashes included. */
  lemma IssuersExclude(s: System, actions: seq<Action>, p: Pid, q: Pid)
    requires Initial(s)
    requires HoldsLock(Run(s, actions), p) && HoldsLock(Run(s, actions), q)
    ensures p == q
  {
    InitialIsInvariant(s);
    RunKeepsInvariant(s, actions);
  }

  ghost predicate BackedUp(s: System, n: Name) {
    && ServingCert(n) in s.volume.files
    && exists stage :: BackupMatches(s.volume, n, stage)
  }

  /**
   * At every point of every run a name shows the certificate published last, beside its key
   * or, between two renames or after a crash there, with that key still in a backup.
   */
  lemma LastPairIsNeverLost(s: System, actions: seq<Action>, n: Name)
    requires Initial(s) && n in Run(s, actions).last
    ensures var t := Run(s, actions);
            && ServingCert(n) in t.volume.files && t.volume.files[ServingCert(n)] == CertPem(t.last[n])
            && ServingKey(n) in t.volume.files
            && (PairServed(t.volume.files, n) || BackedUp(t, n))
  {
    InitialIsInvariant(s);
    RunKeepsInvariant(s, actions);
    var t := Run(s, actions);
    var h := HolderOf(t);
    assert Recoverable(t.volume, t.last, h, n);
    if !KeyServed(t.volume, t.last, n) {
      var stage :| KeyKeptIn(t.volume, t.last, n, stage) && Lasting(h, n, stage);
      assert BackupMatches(t.volume, n, stage);
    }
  }

  ghost function HolderOf(s: System): (h: Holder)
    requires Invariant(s)
    ensures Sound(s.volume, s.last, h)
  {
    if exists p :: HoldsLock(s, p) then
      var p :| HoldsLock(s, p);
      Busy(s.issuers[p].job, s.issuers[p].phase.work)
    else Nobody
  }

  /** A new certificate appears only when its key is already there: never with the old one. */
  lemma NewCertificateComesWithItsKey(s: System, actions: seq<Action>, a: Action, n: Name)
    requires Initial(s)
    requires var t, t' := Run(s, actions).volume.files, Run(s, actions + [a]).volume.files;
             ServingCert(n) in t' && (ServingCert(n) in t ==> t'[ServingCert(n)] != t[ServingCert(n)])
    ensures PairServed(Run(s, actions + [a]).volume.files, n)
  {
    InitialIsInvariant(s);
    RunKeepsInvariant(s, actions);
    RunConcat(s, actions, [a]);
    var t := Run(s, actions);
    var t' := Step(t, a);
    assert Run(t, [a]) == t';
    StepKeepsLock(t, a);
    StepKeepsVolume(t, a);
    assert t'.volume != t.volume;
    var job, w := t.issuers[a.pid].job, t.issuers[a.pid].phase.work;
    assert Sound(t.volume, t.last, Busy(job, w));
    OnlyTheRenamePublishes(t.volume, job, w, a.outcome, n);
  }

  lemma OnlyTheRenamePublishes(v: Volume, job: Job, w: Work, o: Outcome, n: Name)
    ensures var m := Advance(v, job, w, o);
            (ServingCert(n) in m.volume.files && (ServingCert(n) in v.files ==> m.volume.files[ServingCert(n)] != v.files[ServingCert(n)]))
            ==> n == job.name && w.Publish? && w.step.RenameCert? && StagedCert(w.stage) in v.files && o.Succeeds?
  {
  }

  /** An issuer that has recovered finds the last published certificate with its own key. */
  lemma RecoveredPairIsTheLast(s: System, actions: seq<Action>, p: Pid)
    requires Initial(s) && HoldsLock(Run(s, actions), p)
    requires Run(s, actions).issuers[p].phase.work.Decide?
    ensures var t := Run(s, actions);
            var n := t.issuers[p].job.name;
            if n in t.last then PairServed(t.volume.files, n) && t.volume.files[ServingCert(n)] == CertPem(t.last[n])
            else ServingCert(n) !in t.volume.files
  {
    InitialIsInvariant(s);
    RunKeepsInvariant(s, actions);
    var t := Run(s, actions);
    assert Held(t.volume, t.last, t.issuers[p].job, t.issuers[p].phase.work);
  }

  // ---- Recovery gets there ----

  /** The calls of one issuer's recovery, when none fails: scan, and if need be restore. */
  function Recovery(pid: Pid, stage: nat, temp: nat): seq<Action> {
    [Call(pid, Succeeds(stage)), Call(pid, Succeeds(temp)), Call(pid, Succeeds(0)), Call(pid, Succeeds(0))]
  }

  /**
   * Whatever crashes came before, an issuer that starts with the lock free and whose calls
   * succeed has the last published pair back in place, its certificate untouched, in four
   * calls at most.
   */
  lemma RecoverySucceeds(s: System, actions: seq<Action>, pid: Pid, n: Name) returns (calls: seq<Action>)
    requires Initial(s)
    requires var t := Run(s, actions);
             && n in t.last && HoldsLock(t, pid)
             && t.issuers[pid].job.name == n && t.issuers[pid].phase.work.Recover?
    ensures |calls| <= 4 && forall c :: c in calls ==> c.Call? && c.pid == pid && c.outcome.Succeeds?
    ensures var t, u := Run(s, actions), Run(s, actions + calls);
            && u.last == t.last
            && PairServed(u.volume.files, n) && u.volume.files[ServingCert(n)] == CertPem(t.last[n])
            && HoldsLock(u, pid) && u.issuers[pid].phase.work.Decide?
  {
    InitialIsInvariant(s);
    RunKeepsInvariant(s, actions);
    var t := Run(s, actions);
    LastPairIsNeverLost(s, actions, n);
    if PairServed(t.volume.files, n) {
      calls := [Call(pid, Succeeds(0))];
      RunConcat(s, actions, calls);
      assert Run(t, calls) == Step(t, calls[0]) by { assert calls[1..] == []; }
    } else {
      var stage :| BackupMatches(t.volume, n, stage);
      var temp := FreshTemp(t.volume.files);
      calls := Recovery(pid, stage, temp);
      RunConcat(s, actions, calls);
      RunFour(t, calls);
      RestoreInFourCalls(t, pid, n, stage, temp);
    }
  }

  lemma Calls(s: System, pid: Pid, o: Outcome, m: Move)
    requires HoldsLock(s, pid) && m == Advance(s.volume, s.issuers[pid].job, s.issuers[pid].phase.work, o)
    requires m.work.Some? && m.published.None?
    ensures var t := Step(s, Call(pid, o));
            && t.volume == m.volume && t.last == s.last
            && HoldsLock(t, pid) && t.issuers[pid].job == s.issuers[pid].job && t.issuers[pid].phase.work == m.work.value
  {
  }

  lemma RestoreInFourCalls(t: System, pid: Pid, n: Name, stage: nat, temp: nat)
    requires HoldsLock(t, pid) && t.issuers[pid].job.name == n && t.issuers[pid].phase.work.Recover?
    requires ServingCert(n) in t.volume.files && !PairServed(t.volume.files, n)
    requires BackupMatches(t.volume, n, stage) && Temp(temp) !in t.volume.files
    ensures var c := Recovery(pid, stage, temp);
            var u := Step(Step(Step(Step(t, c[0]), c[1]), c[2]), c[3]);
            && u.last == t.last
            && PairServed(u.volume.files, n) && u.volume.files[ServingCert(n)] == t.volume.files[ServingCert(n)]
            && HoldsLock(u, pid) && u.issuers[pid].phase.work.Decide?
  {
    var v := t.volume;
    var job := t.issuers[pid].job;
    var key := v.files[Previous(stage)].key;
    Calls(t, pid, Succeeds(stage), Stay(v, Restore(key)));
    var t1 := Step(t, Call(pid, Succeeds(stage)));
    var v2 := v.(files := Write(v.files, Temp(temp), Torn));
    Calls(t1, pid, Succeeds(temp), Stay(v2, RestoreTemp(key, temp)));
    var t2 := Step(t1, Call(pid, Succeeds(temp)));
    var v3 := v2.(files := Write(v2.files, Temp(temp), KeyPem(key)));
    Calls(t2, pid, Succeeds(0), Stay(v3, RestoreFull(key, temp)));
    var t3 := Step(t2, Call(pid, Succeeds(0)));
    Calls(t3, pid, Succeeds(0), Stay(v3.(files := Rename(v3.files, Temp(temp), ServingKey(n))), Decide));
  }

  lemma RunFour(s: System, c: seq<Action>)
    requires |c| == 4
    ensures Run(s, c) == Step(Step(Step(Step(s, c[0]), c[1]), c[2]), c[3])
  {
    assert c[1..][0] == c[1] && c[1..][1..] == c[2..];
    assert c[2..][0] == c[2] && c[2..][1..] == c[3..];
    assert c[3..][0] == c[3] && c[3..][1..] == [];
    var s1 := Step(s, c[0]);
    assert Run(s, c) == Run(s1, c[1..]);
    var s2 := Step(s1, c[1]);
    assert Run(s1, c[1..]) == Run(s2, c[2..]);
    var s3 := Step(s2, c[2]);
    assert Run(s2, c[2..]) == Run(s3, c[3..]);
    assert Run(s3, c[3..]) == Run(Step(s3, c[3]), []);
  }

  // ---- The served key does not change ----

  predicate OwnKeyOnly(actions: seq<Action>) {
    forall a :: a in actions && a.Start? ==> a.job.given.None?
  }

  predicate NoneGiven(s: System) {
    forall pid :: pid in s.issuers ==> s.issuers[pid].job.given.None?
  }

  lemma StepKeepsKey(s: System, a: Action)
    requires Invariant(s) && NoneGiven(s) && (a.Start? ==> a.job.given.None?)
    ensures NoneGiven(Step(s, a))
    ensures forall n :: n in s.last ==> n in Step(s, a).last && Step(s, a).last[n].publicKey == s.last[n].publicKey
  {
    if a.Call? && HoldsLock(s, a.pid) {
      var job, w := s.issuers[a.pid].job, s.issuers[a.pid].phase.work;
      assert Held(s.volume, s.last, job, w);
      OnlyRenamePublishes(s.volume, job, w, a.outcome);
    }
  }

  lemma OnlyRenamePublishes(v: Volume, job: Job, w: Work, o: Outcome)
    ensures var m := Advance(v, job, w, o);
            m.published.Some? ==> w.Publish? && w.step.RenameCert? && m.published.value == w.cert
  {
  }

  lemma {:induction false} KeyIsKeptFrom(s: System, actions: seq<Action>, n: Name)
    requires Invariant(s) && NoneGiven(s) && OwnKeyOnly(actions) && n in s.last
    ensures n in Run(s, actions).last && Run(s, actions).last[n].publicKey == s.last[n].publicKey
    decreases |actions|
  {
    if actions == [] {
    } else {
      StepKeepsKey(s, actions[0]);
      StepKeepsLock(s, actions[0]);
      StepKeepsVolume(s, actions[0]);
      KeyIsKeptFrom(Step(s, actions[0]), actions[1..], n);
    }
  }

  lemma {:induction false} NoneGivenFrom(s: System, actions: seq<Action>)
    requires Invariant(s) && NoneGiven(s) && OwnKeyOnly(actions)
    ensures Invariant(Run(s, actions)) && NoneGiven(Run(s, actions))
    decreases |actions|
  {
    if actions == [] {
    } else {
      StepKeepsKey(s, actions[0]);
      StepKeepsLock(s, actions[0]);
      StepKeepsVolume(s, actions[0]);
      NoneGivenFrom(Step(s, actions[0]), actions[1..]);
    }
  }

  /**
   * Once a name has a published certificate, no interleaving of issuers that are given no key
   * of their own, crashes included, ever serves it under another public key.
   */
  lemma ServedKeyNeverChanges(s: System, before: seq<Action>, later: seq<Action>, n: Name)
    requires Initial(s) && OwnKeyOnly(before + later)
    requires ServingCert(n) in Run(s, before).volume.files
    ensures var t, u := Run(s, before).volume.files, Run(s, before + later).volume.files;
            && ServingCert(n) in u && u[ServingCert(n)].CertPem? && t[ServingCert(n)].CertPem?
            && u[ServingCert(n)].cert.publicKey == t[ServingCert(n)].cert.publicKey
  {
    InitialIsInvariant(s);
    forall a | a in before || a in later ensures a in before + later {
    }
    NoneGivenFrom(s, before);
    RunConcat(s, before, later);
    var t := Run(s, before);
    assert Sound(t.volume, t.last, HolderOf(t));
    KeyIsKeptFrom(t, later, n);
    RunKeepsInvariant(t, later);
    assert Sound(Run(t, later).volume, Run(t, later).last, HolderOf(Run(t, later)));
  }

  // ---- The one state recovery does not repair ----

  predicate NotPastDecision(i: Issuer) {
    i.job.given.None? && (i.phase.Holds? ==> i.phase.work.Recover? || i.phase.work.Decide?)
  }

  /** A key without a certificate, and nobody past the point where that is refused. */
  predicate Stuck(s: System, n: Name) {
    && ServingKey(n) in s.volume.files && ServingCert(n) !in s.volume.files
    && (forall pid :: pid in s.issuers && s.issuers[pid].job.name == n ==> NotPastDecision(s.issuers[pid]))
  }

  lemma OthersLeaveItAlone(v: Volume, job: Job, w: Work, o: Outcome, n: Name)
    requires job.name != n
    ensures var f := Advance(v, job, w, o).volume.files;
            && (ServingKey(n) in f <==> ServingKey(n) in v.files)
            && (ServingCert(n) in f <==> ServingCert(n) in v.files)
  {
  }

  lemma StepStaysStuck(s: System, a: Action, n: Name)
    requires Stuck(s, n) && (a.Start? ==> a.job.given.None?)
    ensures Stuck(Step(s, a), n)
  {
    if a.Call? && HoldsLock(s, a.pid) && s.issuers[a.pid].job.name != n {
      OthersLeaveItAlone(s.volume, s.issuers[a.pid].job, s.issuers[a.pid].phase.work, a.outcome, n);
    }
  }

  /** From there no run of issuers without a key of their own ever gets the name a certificate. */
  lemma {:induction false} StuckForever(s: System, actions: seq<Action>, n: Name)
    requires Stuck(s, n) && OwnKeyOnly(actions)
    ensures Stuck(Run(s, actions), n)
    decreases |actions|
  {
    if actions == [] {
    } else {
      StepStaysStuck(s, actions[0], n);
      StuckForever(Step(s, actions[0]), actions[1..], n);
    }
  }

  /** A crash between the two renames of any first issuance leads there. */
  lemma CrashBetweenFirstRenames(s: System, actions: seq<Action>, p: Pid)
    requires Initial(s) && OwnKeyOnly(actions) && HoldsLock(Run(s, actions), p)
    requires var w := Run(s, actions).issuers[p].phase.work; w.Publish? && w.step.RenameCert?
    requires Run(s, actions).issuers[p].job.name !in Run(s, actions).last
    ensures Stuck(Run(s, actions + [Crash(p)]), Run(s, actions).issuers[p].job.name)
  {
    InitialIsInvariant(s);
    NoneGivenFrom(s, actions);
    RunConcat(s, actions, [Crash(p)]);
    var t := Run(s, actions);
    assert Held(t.volume, t.last, t.issuers[p].job, t.issuers[p].phase.work);
    assert Run(t, [Crash(p)]) == Step(t, Crash(p));
    forall q | q in t.issuers && q != p ensures NotPastDecision(t.issuers[q]) {
      assert HoldsLock(t, q) ==> q == p;
    }
  }

  /**
   * An issuer without a key of its own refuses to go on exactly when the volume has a serving
   * key and no certificate: damage of any other kind does not come from a crash.
   */
  lemma RefusesExactlyWhen(s: System, actions: seq<Action>, p: Pid)
    requires Initial(s) && HoldsLock(Run(s, actions), p)
    requires Run(s, actions).issuers[p].phase.work.Decide?
    ensures var t := Run(s, actions);
            var n := t.issuers[p].job.name;
            ExistingServingKey(t.volume.files, n) == Refused
            <==> ServingCert(n) !in t.volume.files && ServingKey(n) in t.volume.files
  {
    RecoveredPairIsTheLast(s, actions, p);
    InitialIsInvariant(s);
    RunKeepsInvariant(s, actions);
    var t := Run(s, actions);
    assert Sound(t.volume, t.last, Busy(t.issuers[p].job, t.issuers[p].phase.work));
  }

  const EMPTY: System := System(Volume(map[], {}), map[], None, map[])

  lemma Extended(actions: seq<Action>, s: System, a: Action)
    requires Run(EMPTY, actions) == s
    ensures Run(EMPTY, actions + [a]) == Step(s, a)
  {
    RunConcat(EMPTY, actions, [a]);
    assert Run(s, [a]) == Step(s, a) by {
      assert [a][1..] == [];
    }
  }

  function Holding(files: map<Path, Content>, stages: set<nat>, n: Name, work: Work): System {
    System(Volume(files, stages), map[], Some(0), map[0 := Issuer(Job(n, None), Holds(0, work))])
  }

  lemma LockTaken(n: Name) returns (actions: seq<Action>)
    ensures OwnKeyOnly(actions) && Run(EMPTY, actions) == Holding(map[], {}, n, Recover)
  {
    var job := Job(n, None);
    Extended([], EMPTY, Start(0, job));
    var s := System(Volume(map[], {}), map[], None, map[0 := Issuer(job, Starting)]);
    assert Step(EMPTY, Start(0, job)) == s;
    Extended([Start(0, job)], s, Open(0, 0));
    var s' := System(Volume(map[], {}), map[], Some(0), map[0 := Issuer(job, HasFile(0))]);
    assert Step(s, Open(0, 0)) == s';
    Extended([Start(0, job)] + [Open(0, 0)], s', Flock(0));
    actions := [Start(0, job)] + [Open(0, 0)] + [Flock(0)];
    assert Step(s', Flock(0)) == Holding(map[], {}, n, Recover);
  }

  lemma Called(actions: seq<Action>, v: Volume, n: Name, w: Work, pick: nat, v': Volume, w': Work) returns (longer: seq<Action>)
    requires OwnKeyOnly(actions) && Run(EMPTY, actions) == Holding(v.files, v.stages, n, w)
    requires Advance(v, Job(n, None), w, Succeeds(pick)) == Move(v', Some(w'), None)
    ensures OwnKeyOnly(longer) && Run(EMPTY, longer) == Holding(v'.files, v'.stages, n, w')
  {
    longer := actions + [Call(0, Succeeds(pick))];
    Extended(actions, Holding(v.files, v.stages, n, w), Call(0, Succeeds(pick)));
  }

  function NewKey(key: Key): map<Path, Content> {
    map[StagedKey(0) := KeyPem(key)]
  }

  function NewPair(key: Key): map<Path, Content> {
    map[StagedKey(0) := KeyPem(key), StagedCert(0) := CertPem(Certificate(key, 0))]
  }

  lemma Ordered(n: Name, key: Key) returns (actions: seq<Action>)
    ensures OwnKeyOnly(actions)
    ensures Run(EMPTY, actions) == Holding(map[], {0}, n, Publish(0, Certificate(key, 0), StageKey))
  {
    var v0 := Volume(map[], {});
    var cert := Certificate(key, 0);
    actions := LockTaken(n);
    actions := Called(actions, v0, n, Recover, 0, v0, Decide);
    actions := Called(actions, v0, n, Decide, key, v0, Order(key));
    actions := Called(actions, v0, n, Order(key), 0, v0, MakeStage(cert));
    actions := Called(actions, v0, n, MakeStage(cert), 0, Volume(map[], {0}), Publish(0, cert, StageKey));
  }

  lemma KeyStaged(n: Name, key: Key) returns (actions: seq<Action>)
    ensures OwnKeyOnly(actions)
    ensures Run(EMPTY, actions) == Holding(NewKey(key), {0}, n, Publish(0, Certificate(key, 0), StageCert))
  {
    var cert := Certificate(key, 0);
    var v1 := Volume(map[], {0});
    var v2 := Volume(map[Temp(0) := Torn], {0});
    var v3 := Volume(map[Temp(0) := KeyPem(key)], {0});
    actions := Ordered(n, key);
    actions := Called(actions, v1, n, Publish(0, cert, StageKey), 0, v2, Publish(0, cert, StageKeyTemp(0)));
    actions := Called(actions, v2, n, Publish(0, cert, StageKeyTemp(0)), 0, v3, Publish(0, cert, StageKeyFull(0)));
    assert Rename(v3.files, Temp(0), StagedKey(0)) == NewKey(key);
    actions := Called(actions, v3, n, Publish(0, cert, StageKeyFull(0)), 0, Volume(NewKey(key), {0}), Publish(0, cert, StageCert));
  }

  lemma CertCreated(n: Name, key: Key) returns (actions: seq<Action>)
    ensures OwnKeyOnly(actions)
    ensures Run(EMPTY, actions) == Holding(NewKey(key)[Temp(0) := Torn], {0}, n, Publish(0, Certificate(key, 0), StageCertTemp(0)))
  {
    var cert := Certificate(key, 0);
    var v4, v5 := Volume(NewKey(key), {0}), Volume(NewKey(key)[Temp(0) := Torn], {0});
    actions := KeyStaged(n, key);
    actions := Called(actions, v4, n, Publish(0, cert, StageCert), 0, v5, Publish(0, cert, StageCertTemp(0)));
  }

  lemma PairStaged(n: Name, key: Key) returns (actions: seq<Action>)
    ensures OwnKeyOnly(actions)
    ensures Run(EMPTY, actions) == Holding(NewPair(key), {0}, n, Publish(0, Certificate(key, 0), Backup))
  {
    var cert := Certificate(key, 0);
    var v5 := Volume(NewKey(key)[Temp(0) := Torn], {0});
    var v6 := Volume(NewKey(key)[Temp(0) := CertPem(cert)], {0});
    actions := CertCreated(n, key);
    assert Write(v5.files, Temp(0), CertPem(cert)) == v6.files;
    actions := Called(actions, v5, n, Publish(0, cert, StageCertTemp(0)), 0, v6, Publish(0, cert, StageCertFull(0)));
    assert Rename(v6.files, Temp(0), StagedCert(0)) == NewPair(key);
    actions := Called(actions, v6, n, Publish(0, cert, StageCertFull(0)), 0, Volume(NewPair(key), {0}), Publish(0, cert, Backup));
  }

  /** And such a crash can happen: here is one, on an empty volume. */
  lemma FirstIssuanceCanStick(n: Name, key: Key) returns (actions: seq<Action>)
    ensures Initial(EMPTY) && OwnKeyOnly(actions) && Stuck(Run(EMPTY, actions), n)
  {
    var cert := Certificate(key, 0);
    var v7 := Volume(NewPair(key), {0});
    var v8 := Volume(Rename(v7.files, StagedKey(0), ServingKey(n)), {0});
    actions := PairStaged(n, key);
    actions := Called(actions, v7, n, Publish(0, cert, Backup), 0, v7, Publish(0, cert, RenameKey(false)));
    actions := Called(actions, v7, n, Publish(0, cert, RenameKey(false)), 0, v8, Publish(0, cert, RenameCert(false)));
    Extended(actions, Holding(v8.files, v8.stages, n, Publish(0, cert, RenameCert(false))), Crash(0));
    actions := actions + [Crash(0)];
  }
}
