/**
 * The certs volume one ACME issuer at a time writes: what a recovery and a publication do to
 * it, one filesystem call at a time, any of which may fail or be the last before a crash.
 */
module ServingVolume {
  import opened Options

  type Name = string
  type Key = nat

  /** A certificate determines one public key; `Key` names a private key and its public half. */
  datatype Certificate = Certificate(publicKey: Key, serial: nat)

  datatype Content = KeyPem(key: Key) | CertPem(cert: Certificate) | Torn

  datatype Path =
    | ServingKey(name: Name)
    | ServingCert(name: Name)
    | StagedKey(stage: nat)
    | StagedCert(stage: nat)
    | Previous(stage: nat)
    | Temp(id: nat)

  /** `stages` are the private staging directories that exist. */
  datatype Volume = Volume(files: map<Path, Content>, stages: set<nat>)

  /** One issuer: its first domain, and the serving key it was told to use, if any. */
  datatype Job = Job(name: Name, given: Option<Key>)

  datatype Work =
    | Recover
    | Restore(key: Key)
    | RestoreTemp(key: Key, id: nat)
    | RestoreFull(key: Key, id: nat)
    | Decide
    | Order(key: Key)
    | MakeStage(cert: Certificate)
    | Publish(stage: nat, cert: Certificate, step: PublishStep)
    | DropTemp(id: nat, next: Option<Work>)

  datatype PublishStep =
    | StageKey
    | StageKeyTemp(id: nat)
    | StageKeyFull(id: nat)
    | StageCert
    | StageCertTemp(id: nat)
    | StageCertFull(id: nat)
    | Backup
    | RenameKey(hadKey: bool)
    | RenameCert(hadKey: bool)
    | Rollback(hadKey: bool)
    | Cleanup

  /** How the environment lets one call end; `pick` is a name, key or serial drawn in it. */
  datatype Outcome = Succeeds(pick: nat) | Current | Fails

  /** `work` is what comes next, none once the issuer has returned. */
  datatype Move = Move(volume: Volume, work: Option<Work>, published: Option<Certificate>)

  // ---- Filesystem calls ----

  function Write(files: map<Path, Content>, path: Path, content: Content): map<Path, Content> {
    files[path := content]
  }

  function Remove(files: map<Path, Content>, path: Path): map<Path, Content> {
    files - {path}
  }

  /** One atomic step: `to` now names what `from` named. */
  function Rename(files: map<Path, Content>, from: Path, to: Path): map<Path, Content>
    requires from in files
  {
    if from == to then files else files[to := files[from]] - {from}
  }

  /** A hard link: a second name for the same, never rewritten, file. */
  function Link(files: map<Path, Content>, from: Path, to: Path): map<Path, Content>
    requires from in files
  {
    files[to := files[from]]
  }

  /** What tls.X509KeyPair accepts. */
  predicate Matches(cert: Content, key: Content) {
    cert.CertPem? && key.KeyPem? && cert.cert.publicKey == key.key
  }

  predicate PairServed(files: map<Path, Content>, name: Name) {
    && ServingCert(name) in files
    && ServingKey(name) in files
    && Matches(files[ServingCert(name)], files[ServingKey(name)])
  }

  predicate BackupMatches(v: Volume, name: Name, stage: nat)
    requires ServingCert(name) in v.files
  {
    stage in v.stages && Previous(stage) in v.files && Matches(v.files[ServingCert(name)], v.files[Previous(stage)])
  }

  // ---- Decisions ----

  datatype KeyChoice = FirstIssuance | Reuse(key: Key) | Refused

  /** Both files absent is a first issuance; anything short of a matching pair is refused. */
  function ExistingServingKey(files: map<Path, Content>, name: Name): KeyChoice {
    if ServingCert(name) !in files && ServingKey(name) !in files then FirstIssuance
    else if ServingCert(name) !in files || ServingKey(name) !in files then Refused
    else if Matches(files[ServingCert(name)], files[ServingKey(name)]) then Reuse(files[ServingKey(name)].key)
    else Refused
  }

  // ---- One call of the issuer that holds the lock ----

  function Stay(v: Volume, w: Work): Move {
    Move(v, Some(w), None)
  }

  function Return(v: Volume): Move {
    Move(v, None, None)
  }

  function Advance(v: Volume, job: Job, w: Work, o: Outcome): Move {
    match w
    case Recover => AdvanceRecover(v, job, o)
    case Restore(_) | RestoreTemp(_, _) | RestoreFull(_, _) => AdvanceRestore(v, job, w, o)
    case Decide => AdvanceDecide(v, job, o)
    case Order(key) =>
      if o.Succeeds? then Stay(v, MakeStage(Certificate(key, o.pick))) else Return(v)
    case MakeStage(cert) =>
      if !o.Succeeds? then Return(v)
      else if o.pick in v.stages then Stay(v, w)
      else Stay(v.(stages := v.stages + {o.pick}), Publish(o.pick, cert, StageKey))
    case Publish(stage, cert, step) =>
      if step.Backup? || step.RenameKey? || step.RenameCert? || step.Rollback? || step.Cleanup?
      then AdvancePublish(v, job, stage, cert, step, o)
      else AdvanceStaging(v, stage, cert, step, o)
    case DropTemp(id, next) =>
      Move(if o.Succeeds? then v.(files := Remove(v.files, Temp(id))) else v, next, None)
  }

  /** The reads of the recovery scan; `pick` is the staging directory it stops at. */
  function AdvanceRecover(v: Volume, job: Job, o: Outcome): Move {
    if !o.Succeeds? then Return(v)
    else if ServingCert(job.name) !in v.files || PairServed(v.files, job.name) then Stay(v, Decide)
    else if BackupMatches(v, job.name, o.pick) then Stay(v, Restore(v.files[Previous(o.pick)].key))
    else if exists stage | stage in v.stages :: BackupMatches(v, job.name, stage) then Stay(v, Recover)
    else Stay(v, Decide)
  }

  /** The recovered key is written to a temporary file and renamed into place. */
  function AdvanceRestore(v: Volume, job: Job, w: Work, o: Outcome): Move
    requires w.Restore? || w.RestoreTemp? || w.RestoreFull?
  {
    match w
    case Restore(key) =>
      if !o.Succeeds? then Return(v)
      else if Temp(o.pick) in v.files then Stay(v, w)
      else Stay(v.(files := Write(v.files, Temp(o.pick), Torn)), RestoreTemp(key, o.pick))
    case RestoreTemp(key, id) =>
      if !o.Succeeds? then Stay(v, DropTemp(id, None))
      else Stay(v.(files := Write(v.files, Temp(id), KeyPem(key))), RestoreFull(key, id))
    case RestoreFull(key, id) =>
      if !o.Succeeds? || Temp(id) !in v.files then Stay(v, DropTemp(id, None))
      else Stay(v.(files := Rename(v.files, Temp(id), ServingKey(job.name))), Decide)
  }

  function AdvanceDecide(v: Volume, job: Job, o: Outcome): Move {
    match o
    case Fails => Return(v)
    case Current => if PairServed(v.files, job.name) then Return(v) else Stay(v, Decide)
    case Succeeds(pick) =>
      if job.given.Some? then Stay(v, Order(job.given.value))
      else
        match ExistingServingKey(v.files, job.name)
        case FirstIssuance => Stay(v, Order(pick))
        case Reuse(key) => Stay(v, Order(key))
        case Refused => Return(v)
  }

  /** Both new files are completed in the staging directory, each by its own rename. */
  function AdvanceStaging(v: Volume, stage: nat, cert: Certificate, step: PublishStep, o: Outcome): Move {
    var fail := Stay(v, Publish(stage, cert, Cleanup));
    match step
    case StageKey =>
      if !o.Succeeds? then fail
      else if Temp(o.pick) in v.files then Stay(v, Publish(stage, cert, step))
      else Stay(v.(files := Write(v.files, Temp(o.pick), Torn)), Publish(stage, cert, StageKeyTemp(o.pick)))
    case StageKeyTemp(id) =>
      if !o.Succeeds? then Stay(v, DropTemp(id, Some(Publish(stage, cert, Cleanup))))
      else Stay(v.(files := Write(v.files, Temp(id), KeyPem(cert.publicKey))), Publish(stage, cert, StageKeyFull(id)))
    case StageKeyFull(id) =>
      if !o.Succeeds? || Temp(id) !in v.files then Stay(v, DropTemp(id, Some(Publish(stage, cert, Cleanup))))
      else Stay(v.(files := Rename(v.files, Temp(id), StagedKey(stage))), Publish(stage, cert, StageCert))
    case StageCert =>
      if !o.Succeeds? then fail
      else if Temp(o.pick) in v.files then Stay(v, Publish(stage, cert, step))
      else Stay(v.(files := Write(v.files, Temp(o.pick), Torn)), Publish(stage, cert, StageCertTemp(o.pick)))
    case StageCertTemp(id) =>
      if !o.Succeeds? then Stay(v, DropTemp(id, Some(Publish(stage, cert, Cleanup))))
      else Stay(v.(files := Write(v.files, Temp(id), CertPem(cert))), Publish(stage, cert, StageCertFull(id)))
    case StageCertFull(id) =>
      if !o.Succeeds? || Temp(id) !in v.files then Stay(v, DropTemp(id, Some(Publish(stage, cert, Cleanup))))
      else Stay(v.(files := Rename(v.files, Temp(id), StagedCert(stage))), Publish(stage, cert, Backup))
    case _ => fail
  }

  /** Back up the serving key, rename the key, rename the certificate, and undo on failure. */
  function AdvancePublish(v: Volume, job: Job, stage: nat, cert: Certificate, step: PublishStep, o: Outcome): Move {
    var key, crt := ServingKey(job.name), ServingCert(job.name);
    match step
    case Backup =>
      if !o.Succeeds? then Stay(v, Publish(stage, cert, Cleanup))
      else if key !in v.files then Stay(v, Publish(stage, cert, RenameKey(false)))
      else Stay(v.(files := Link(v.files, key, Previous(stage))), Publish(stage, cert, RenameKey(true)))
    case RenameKey(hadKey) =>
      if !o.Succeeds? || StagedKey(stage) !in v.files then Stay(v, Publish(stage, cert, Cleanup))
      else Stay(v.(files := Rename(v.files, StagedKey(stage), key)), Publish(stage, cert, RenameCert(hadKey)))
    case RenameCert(hadKey) =>
      if !o.Succeeds? || StagedCert(stage) !in v.files then Stay(v, Publish(stage, cert, Rollback(hadKey)))
      else Move(v.(files := Rename(v.files, StagedCert(stage), crt)), Some(Publish(stage, cert, Cleanup)), Some(cert))
    case Rollback(hadKey) =>
      if hadKey then
        // The only backup outlives a rollback that fails.
        if !o.Succeeds? || Previous(stage) !in v.files then Return(v)
        else Stay(v.(files := Rename(v.files, Previous(stage), key)), Publish(stage, cert, Cleanup))
      else
        Stay(if o.Succeeds? then v.(files := Remove(v.files, key)) else v, Publish(stage, cert, Cleanup))
    case _ =>
      if !o.Succeeds? then Return(v)
      else if o.pick == 0 then Stay(v.(files := Remove(v.files, StagedKey(stage))), Publish(stage, cert, Cleanup))
      else if o.pick == 1 then Stay(v.(files := Remove(v.files, StagedCert(stage))), Publish(stage, cert, Cleanup))
      else if o.pick == 2 then Stay(v.(files := Remove(v.files, Previous(stage))), Publish(stage, cert, Cleanup))
      else if {StagedKey(stage), StagedCert(stage), Previous(stage)} !! v.files.Keys then Return(v.(stages := v.stages - {stage}))
      else Stay(v, Publish(stage, cert, Cleanup))
  }

  // ---- What every call keeps ----

  datatype Holder = Nobody | Busy(job: Job, work: Work)

  /** The certificates published last, by name. */
  type Ledger = map<Name, Certificate>

  predicate KeyServed(v: Volume, last: Ledger, n: Name)
    requires n in last
  {
    ServingKey(n) in v.files && v.files[ServingKey(n)] == KeyPem(last[n].publicKey)
  }

  predicate KeyKeptIn(v: Volume, last: Ledger, n: Name, stage: nat)
    requires n in last
  {
    stage in v.stages && Previous(stage) in v.files && v.files[Previous(stage)] == KeyPem(last[n].publicKey)
  }

  /** A staging directory its issuer may still empty holds nothing another name depends on. */
  predicate Lasting(h: Holder, n: Name, stage: nat) {
    h.Busy? && Stage(h.work) == Some(stage) ==> h.job.name == n && AwaitsCert(h.work)
  }

  function Stage(w: Work): Option<nat> {
    match w
    case Publish(stage, _, _) => Some(stage)
    case DropTemp(_, Some(next)) => if next.Publish? then Some(next.stage) else None
    case _ => None
  }

  predicate AwaitsCert(w: Work) {
    w.Publish? && (w.step.RenameCert? || w.step.Rollback?)
  }

  ghost predicate Recoverable(v: Volume, last: Ledger, h: Holder, n: Name)
    requires n in last
  {
    KeyServed(v, last, n) || exists stage :: KeyKeptIn(v, last, n, stage) && Lasting(h, n, stage)
  }

  /** Files and ledger agree, and no last published key is lost. */
  ghost predicate Safe(v: Volume, last: Ledger, h: Holder) {
    && (forall n :: ServingCert(n) in v.files <==> n in last)
    && (forall n :: n in last ==> v.files[ServingCert(n)] == CertPem(last[n]))
    && (forall n :: n in last ==> Recoverable(v, last, h, n))
    && (forall n :: n in last ==> ServingKey(n) in v.files)
  }

  /** What the issuer holding the lock has done and not done yet. */
  ghost predicate Held(v: Volume, last: Ledger, job: Job, w: Work) {
    var n := job.name;
    match w
    case Recover => true
    case Restore(key) => n in last && last[n].publicKey == key
    case RestoreTemp(key, id) => n in last && last[n].publicKey == key
    case RestoreFull(key, id) => n in last && last[n].publicKey == key && (Temp(id) in v.files ==> v.files[Temp(id)] == KeyPem(key))
    case Decide => n in last ==> KeyServed(v, last, n)
    case Order(key) => (n in last ==> KeyServed(v, last, n)) && KeyKept(last, job, key)
    case MakeStage(cert) => (n in last ==> KeyServed(v, last, n)) && KeyKept(last, job, cert.publicKey)
    case Publish(stage, cert, step) =>
      && stage in v.stages
      && (step.Cleanup? || KeyKept(last, job, cert.publicKey))
      && (n in last && !AwaitsCert(w) ==> KeyServed(v, last, n))
      && HeldStep(v, last, n, stage, cert, step)
    case DropTemp(_, next) =>
      next.Some? ==> next.value.Publish? && next.value.step.Cleanup? && next.value.stage in v.stages && (n in last ==> KeyServed(v, last, n))
  }

  /** Without a key of its own to use, an issuer keeps the one published. */
  predicate KeyKept(last: Ledger, job: Job, key: Key) {
    job.given.None? && job.name in last ==> last[job.name].publicKey == key
  }

  predicate Staged(v: Volume, stage: nat, cert: Certificate) {
    StagedCert(stage) in v.files ==> v.files[StagedCert(stage)] == CertPem(cert)
  }

  predicate HeldStep(v: Volume, last: Ledger, n: Name, stage: nat, cert: Certificate, step: PublishStep) {
    var keyStaged := StagedKey(stage) in v.files ==> v.files[StagedKey(stage)] == KeyPem(cert.publicKey);
    match step
    case StageKeyFull(id) => Temp(id) in v.files ==> v.files[Temp(id)] == KeyPem(cert.publicKey)
    case StageCert => keyStaged
    case StageCertTemp(id) => keyStaged
    case StageCertFull(id) => keyStaged && (Temp(id) in v.files ==> v.files[Temp(id)] == CertPem(cert))
    case Backup => keyStaged && Staged(v, stage, cert)
    case RenameKey(hadKey) =>
      keyStaged && Staged(v, stage, cert) && (n in last ==> hadKey && KeyKeptIn(v, last, n, stage))
    case RenameCert(hadKey) =>
      && Staged(v, stage, cert)
      && ServingKey(n) in v.files && v.files[ServingKey(n)] == KeyPem(cert.publicKey)
      && (n in last ==> hadKey && KeyKeptIn(v, last, n, stage))
    case Rollback(hadKey) => n in last ==> hadKey && KeyKeptIn(v, last, n, stage)
    case _ => true
  }

  ghost predicate Sound(v: Volume, last: Ledger, h: Holder) {
    Safe(v, last, h) && (h.Busy? ==> Held(v, last, h.job, h.work))
  }

  function After(m: Move, job: Job): Holder {
    if m.work.Some? then Busy(job, m.work.value) else Nobody
  }

  function Recorded(last: Ledger, job: Job, m: Move): Ledger {
    if m.published.Some? then last[job.name := m.published.value] else last
  }

  /** A crash leaves the volume as it is, and what it left behind is enough to recover. */
  lemma CrashIsSound(v: Volume, last: Ledger, h: Holder)
    requires Sound(v, last, h)
    ensures Sound(v, last, Nobody)
  {
    forall n | n in last ensures Recoverable(v, last, Nobody, n) {
      assert Recoverable(v, last, h, n);
      if !KeyServed(v, last, n) {
        var stage :| KeyKeptIn(v, last, n, stage) && Lasting(h, n, stage);
        assert Lasting(Nobody, n, stage);
      }
    }
  }

  lemma AcquireIsSound(v: Volume, last: Ledger, job: Job)
    requires Sound(v, last, Nobody)
    ensures Sound(v, last, Busy(job, Recover))
  {
    forall n | n in last ensures Recoverable(v, last, Busy(job, Recover), n) {
      assert Recoverable(v, last, Nobody, n);
      if !KeyServed(v, last, n) {
        var stage :| KeyKeptIn(v, last, n, stage) && Lasting(Nobody, n, stage);
        assert Lasting(Busy(job, Recover), n, stage);
      }
    }
  }

  /** Other names' backups survive a change that leaves their directories alone. */
  lemma StillRecoverable(v: Volume, last: Ledger, h: Holder, v': Volume, h': Holder, n: Name)
    requires n in last && Recoverable(v, last, h, n)
    requires ServingKey(n) in v.files && ServingKey(n) in v'.files && v'.files[ServingKey(n)] == v.files[ServingKey(n)]
    requires forall stage :: Lasting(h, n, stage) ==> Lasting(h', n, stage)
    requires forall stage :: Lasting(h, n, stage) && stage in v.stages && Previous(stage) in v.files
                        ==> stage in v'.stages && Previous(stage) in v'.files && v'.files[Previous(stage)] == v.files[Previous(stage)]
    ensures Recoverable(v', last, h', n)
  {
    if !KeyServed(v, last, n) {
      var stage :| KeyKeptIn(v, last, n, stage) && Lasting(h, n, stage);
      assert KeyKeptIn(v', last, n, stage);
    }
  }

  lemma RecoverIsSound(v: Volume, last: Ledger, job: Job, o: Outcome)
    requires Sound(v, last, Busy(job, Recover))
    ensures var m := AdvanceRecover(v, job, o); Sound(m.volume, last, After(m, job)) && m.published.None?
  {
    var h := Busy(job, Recover);
    var m := AdvanceRecover(v, job, o);
    forall n | n in last ensures Recoverable(v, last, After(m, job), n) {
      StillRecoverable(v, last, h, v, After(m, job), n);
    }
    if job.name in last && !KeyServed(v, last, job.name) {
      assert Recoverable(v, last, h, job.name);
      var stage :| KeyKeptIn(v, last, job.name, stage) && Lasting(h, job.name, stage);
      assert BackupMatches(v, job.name, stage);
    }
  }

  lemma RestoreIsSound(v: Volume, last: Ledger, job: Job, w: Work, o: Outcome)
    requires w.Restore? || w.RestoreTemp? || w.RestoreFull?
    requires Sound(v, last, Busy(job, w))
    ensures var m := AdvanceRestore(v, job, w, o); Sound(m.volume, last, After(m, job)) && m.published.None?
  {
    var h := Busy(job, w);
    var m := AdvanceRestore(v, job, w, o);
    forall n | n in last ensures Recoverable(m.volume, last, After(m, job), n) {
      if n == job.name && m.work == Some(Decide) {
        assert KeyServed(m.volume, last, n);
      } else {
        StillRecoverable(v, last, h, m.volume, After(m, job), n);
      }
    }
  }

  lemma DecideIsSound(v: Volume, last: Ledger, job: Job, o: Outcome)
    requires Sound(v, last, Busy(job, Decide))
    ensures var m := AdvanceDecide(v, job, o); Sound(m.volume, last, After(m, job)) && m.published.None?
  {
    var m := AdvanceDecide(v, job, o);
    forall n | n in last ensures Recoverable(v, last, After(m, job), n) {
      StillRecoverable(v, last, Busy(job, Decide), v, After(m, job), n);
    }
  }

  predicate Stages(step: PublishStep) {
    !(step.Backup? || step.RenameKey? || step.RenameCert? || step.Rollback? || step.Cleanup?)
  }

  lemma StagingIsRecoverable(v: Volume, last: Ledger, job: Job, stage: nat, cert: Certificate, step: PublishStep, o: Outcome, n: Name)
    requires Stages(step) && n in last && Sound(v, last, Busy(job, Publish(stage, cert, step)))
    ensures var m := AdvanceStaging(v, stage, cert, step, o); Recoverable(m.volume, last, After(m, job), n)
  {
    var m := AdvanceStaging(v, stage, cert, step, o);
    StillRecoverable(v, last, Busy(job, Publish(stage, cert, step)), m.volume, After(m, job), n);
  }

  lemma StagingIsSafe(v: Volume, last: Ledger, job: Job, stage: nat, cert: Certificate, step: PublishStep, o: Outcome)
    requires Stages(step) && Sound(v, last, Busy(job, Publish(stage, cert, step)))
    ensures var m := AdvanceStaging(v, stage, cert, step, o); Safe(m.volume, last, After(m, job))
  {
    forall n | n in last ensures var m := AdvanceStaging(v, stage, cert, step, o); Recoverable(m.volume, last, After(m, job), n) {
      StagingIsRecoverable(v, last, job, stage, cert, step, o, n);
    }
  }

  lemma StagingIsHeld(v: Volume, last: Ledger, job: Job, stage: nat, cert: Certificate, step: PublishStep, o: Outcome)
    requires Stages(step) && Sound(v, last, Busy(job, Publish(stage, cert, step)))
    ensures var m := AdvanceStaging(v, stage, cert, step, o); m.work.Some? && Held(m.volume, last, job, m.work.value) && m.published.None?
  {
  }

  lemma StagingIsSound(v: Volume, last: Ledger, job: Job, stage: nat, cert: Certificate, step: PublishStep, o: Outcome)
    requires Stages(step) && Sound(v, last, Busy(job, Publish(stage, cert, step)))
    ensures var m := AdvanceStaging(v, stage, cert, step, o); Sound(m.volume, last, After(m, job)) && m.published.None?
  {
    StagingIsSafe(v, last, job, stage, cert, step, o);
    StagingIsHeld(v, last, job, stage, cert, step, o);
  }

  lemma BackupIsSound(v: Volume, last: Ledger, job: Job, stage: nat, cert: Certificate, step: PublishStep, o: Outcome)
    requires step.Backup?
    requires Sound(v, last, Busy(job, Publish(stage, cert, step)))
    ensures var m := AdvancePublish(v, job, stage, cert, step, o); Sound(m.volume, Recorded(last, job, m), After(m, job))
  {
    var h := Busy(job, Publish(stage, cert, step));
    var m := AdvancePublish(v, job, stage, cert, step, o);
    var h' := After(m, job);
    forall n | n in last ensures Recoverable(m.volume, last, h', n) {
      if n == job.name {
        assert KeyServed(m.volume, last, n);
      } else {
        StillRecoverable(v, last, h, m.volume, h', n);
      }
    }
  }

  lemma RenameKeyIsSound(v: Volume, last: Ledger, job: Job, stage: nat, cert: Certificate, step: PublishStep, o: Outcome)
    requires step.RenameKey?
    requires Sound(v, last, Busy(job, Publish(stage, cert, step)))
    ensures var m := AdvancePublish(v, job, stage, cert, step, o); Sound(m.volume, Recorded(last, job, m), After(m, job))
  {
    var h := Busy(job, Publish(stage, cert, step));
    var m := AdvancePublish(v, job, stage, cert, step, o);
    var h' := After(m, job);
    forall n | n in last ensures Recoverable(m.volume, last, h', n) {
      if n == job.name && AwaitsCert(h'.work) {
        assert KeyKeptIn(m.volume, last, n, stage) && Lasting(h', n, stage);
      } else {
        StillRecoverable(v, last, h, m.volume, h', n);
      }
    }
  }

  lemma RenameCertIsSound(v: Volume, last: Ledger, job: Job, stage: nat, cert: Certificate, step: PublishStep, o: Outcome)
    requires step.RenameCert?
    requires Sound(v, last, Busy(job, Publish(stage, cert, step)))
    ensures var m := AdvancePublish(v, job, stage, cert, step, o); Sound(m.volume, Recorded(last, job, m), After(m, job))
  {
    var h := Busy(job, Publish(stage, cert, step));
    var m := AdvancePublish(v, job, stage, cert, step, o);
    var h' := After(m, job);
    var last' := Recorded(last, job, m);
    forall n | n in last' ensures Recoverable(m.volume, last', h', n) {
      if n != job.name {
        StillRecoverable(v, last, h, m.volume, h', n);
        if !KeyServed(m.volume, last, n) {
          var kept :| KeyKeptIn(m.volume, last, n, kept) && Lasting(h', n, kept);
          assert KeyKeptIn(m.volume, last', n, kept);
        }
      } else if m.published.Some? {
        assert KeyServed(m.volume, last', n);
      } else {
        assert KeyKeptIn(m.volume, last, n, stage) && Lasting(h', n, stage);
      }
    }
  }

  lemma RollbackIsRecoverable(v: Volume, last: Ledger, job: Job, stage: nat, cert: Certificate, step: PublishStep, o: Outcome, n: Name)
    requires step.Rollback? && n in last && Sound(v, last, Busy(job, Publish(stage, cert, step)))
    ensures var m := AdvancePublish(v, job, stage, cert, step, o); Recoverable(m.volume, last, After(m, job), n)
  {
    var h := Busy(job, Publish(stage, cert, step));
    var m := AdvancePublish(v, job, stage, cert, step, o);
    var h' := After(m, job);
    if n != job.name {
      StillRecoverable(v, last, h, m.volume, h', n);
    } else if h' == Nobody {
      assert KeyKeptIn(m.volume, last, n, stage) && Lasting(h', n, stage);
    } else {
      assert KeyServed(m.volume, last, n);
    }
  }

  lemma RollbackIsSound(v: Volume, last: Ledger, job: Job, stage: nat, cert: Certificate, step: PublishStep, o: Outcome)
    requires step.Rollback?
    requires Sound(v, last, Busy(job, Publish(stage, cert, step)))
    ensures var m := AdvancePublish(v, job, stage, cert, step, o); Sound(m.volume, Recorded(last, job, m), After(m, job))
  {
    var m := AdvancePublish(v, job, stage, cert, step, o);
    forall n | n in last ensures Recoverable(m.volume, last, After(m, job), n) {
      RollbackIsRecoverable(v, last, job, stage, cert, step, o, n);
    }
  }

  lemma CleanupIsSound(v: Volume, last: Ledger, job: Job, stage: nat, cert: Certificate, step: PublishStep, o: Outcome)
    requires step.Cleanup?
    requires Sound(v, last, Busy(job, Publish(stage, cert, step)))
    ensures var m := AdvancePublish(v, job, stage, cert, step, o); Sound(m.volume, Recorded(last, job, m), After(m, job))
  {
    var h := Busy(job, Publish(stage, cert, step));
    var m := AdvancePublish(v, job, stage, cert, step, o);
    var h' := After(m, job);
    forall n | n in last ensures Recoverable(m.volume, last, h', n) {
      StillRecoverable(v, last, h, m.volume, h', n);
    }
  }

  lemma OtherWorkIsSound(v: Volume, last: Ledger, job: Job, w: Work, o: Outcome)
    requires w.Order? || w.MakeStage? || w.DropTemp?
    requires Sound(v, last, Busy(job, w))
    ensures var m := Advance(v, job, w, o); Sound(m.volume, last, After(m, job)) && m.published.None?
  {
    var m := Advance(v, job, w, o);
    forall n | n in last ensures Recoverable(m.volume, last, After(m, job), n) {
      if w.MakeStage? && m.work.Some? && m.work.value.Publish? {
        if !KeyServed(v, last, n) {
          assert Recoverable(v, last, Busy(job, w), n);
          var kept :| KeyKeptIn(v, last, n, kept) && Lasting(Busy(job, w), n, kept);
          assert KeyKeptIn(m.volume, last, n, kept) && Lasting(After(m, job), n, kept);
        }
      } else {
        StillRecoverable(v, last, Busy(job, w), m.volume, After(m, job), n);
      }
    }
  }

  /** Every call of an issuer that holds the lock, however it ends, keeps the volume sound. */
  lemma AdvanceIsSound(v: Volume, last: Ledger, job: Job, w: Work, o: Outcome)
    requires Sound(v, last, Busy(job, w))
    ensures var m := Advance(v, job, w, o); Sound(m.volume, Recorded(last, job, m), After(m, job))
  {
    match w
    case Recover => RecoverIsSound(v, last, job, o);
    case Restore(_) => RestoreIsSound(v, last, job, w, o);
    case RestoreTemp(_, _) => RestoreIsSound(v, last, job, w, o);
    case RestoreFull(_, _) => RestoreIsSound(v, last, job, w, o);
    case Decide => DecideIsSound(v, last, job, o);
    case Order(_) => OtherWorkIsSound(v, last, job, w, o);
    case MakeStage(_) => OtherWorkIsSound(v, last, job, w, o);
    case DropTemp(_, _) => OtherWorkIsSound(v, last, job, w, o);
    case Publish(stage, cert, step) =>
      match step {
        case Backup => BackupIsSound(v, last, job, stage, cert, step, o);
        case RenameKey(_) => RenameKeyIsSound(v, last, job, stage, cert, step, o);
        case RenameCert(_) => RenameCertIsSound(v, last, job, stage, cert, step, o);
        case Rollback(_) => RollbackIsSound(v, last, job, stage, cert, step, o);
        case Cleanup => CleanupIsSound(v, last, job, stage, cert, step, o);
        case _ => StagingIsSound(v, last, job, stage, cert, step, o);
      }
  }

  // ---- Names not yet taken ----

  lemma FreshTemp(files: map<Path, Content>) returns (id: nat)
    ensures Temp(id) !in files
  {
    id := FreshAmong(files.Keys);
  }

  lemma {:induction false} FreshAmong(paths: set<Path>) returns (id: nat)
    ensures forall i :: i >= id ==> Temp(i) !in paths
    decreases |paths|
  {
    if paths == {} {
      id := 0;
    } else {
      var p :| p in paths;
      id := FreshAmong(paths - {p});
      if p.Temp? && p.id >= id {
        id := p.id + 1;
      }
      forall i | i >= id ensures Temp(i) !in paths {
        assert Temp(i) !in paths - {p};
      }
    }
  }
}
