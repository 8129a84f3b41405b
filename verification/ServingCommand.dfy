/**
 * The issuing command as it runs: the calls of recovery and publication in order, with their
 * error returns. Every moment between two calls is recorded, for a crash may come at any.
 */
module ServingCommand {
  import opened Options
  import opened ServingVolume

  /** The volume after some call, and the certificates published by then. */
  datatype Moment = Moment(volume: Volume, last: Ledger)

  datatype LinkResult = Linked | Missing | Failed

  ghost predicate CanRecover(m: Moment) {
    Safe(m.volume, m.last, Nobody)
  }

  /** The files a reader looks at: all but the temporary ones. */
  function Visible(files: map<Path, Content>): map<Path, Content> {
    map p | p in files && !p.Temp? :: files[p]
  }

  lemma SameVisible(v: Volume, v': Volume)
    requires Visible(v'.files) == Visible(v.files)
    ensures forall p: Path :: !p.Temp? ==> (p in v.files <==> p in v'.files) && (p in v.files ==> v'.files[p] == v.files[p])
  {
    forall p: Path | !p.Temp? ensures (p in v.files <==> p in v'.files) && (p in v.files ==> v'.files[p] == v.files[p]) {
      assert p in Visible(v.files) <==> p in v.files;
      assert p in Visible(v'.files) <==> p in v'.files;
      if p in v.files {
        assert Visible(v'.files)[p] == Visible(v.files)[p];
      }
    }
  }

  /** Putting a new file into the issuer's own staging directory changes nothing that is served. */
  lemma StagedIsSound(v: Volume, v': Volume, last: Ledger, job: Job, stage: nat, cert: Certificate, path: Path, content: Content)
    requires Sound(v, last, Busy(job, Publish(stage, cert, StageKey)))
    requires path == StagedKey(stage) || path == StagedCert(stage)
    requires v'.stages == v.stages
    requires Visible(v'.files) == Visible(v.files) || Visible(v'.files) == Visible(v.files)[path := content]
    ensures Sound(v', last, Busy(job, Publish(stage, cert, StageKey)))
  {
    var h := Busy(job, Publish(stage, cert, StageKey));
    var w := Volume(if Visible(v'.files) == Visible(v.files) then v.files else v.files[path := content], v.stages);
    assert Visible(w.files) == Visible(v'.files);
    SameVisible(w, v');
    forall n | n in last ensures Recoverable(v', last, h, n) {
      StillRecoverable(v, last, h, v', h, n);
    }
  }

  ghost predicate AtMostStaged(m: Moment, v: Volume, last: Ledger, path: Path, content: Content) {
    && m.last == last && m.volume.stages == v.stages
    && (Visible(m.volume.files) == Visible(v.files) || Visible(m.volume.files) == Visible(v.files)[path := content])
  }

  lemma StagedMoments(v: Volume, last: Ledger, job: Job, stage: nat, cert: Certificate, path: Path, content: Content, steps: seq<Moment>, now: Moment)
    requires Sound(v, last, Busy(job, Publish(stage, cert, StageKey)))
    requires path == StagedKey(stage) || path == StagedCert(stage)
    requires forall m :: m in steps + [now] ==> AtMostStaged(m, v, last, path, content)
    ensures forall m :: m in steps ==> CanRecover(m)
    ensures Sound(now.volume, last, Busy(job, Publish(stage, cert, StageKey)))
    ensures Sound(now.volume, last, Busy(job, Publish(stage, cert, Cleanup)))
  {
    forall m | m in steps + [now] ensures CanRecover(m) && Sound(m.volume, last, Busy(job, Publish(stage, cert, StageKey))) {
      StagedIsSound(v, m.volume, last, job, stage, cert, path, content);
      SoundIsRecoverable(m.volume, last, Busy(job, Publish(stage, cert, StageKey)));
    }
    assert now in steps + [now];
    SameStanding(now.volume, last, job, stage, cert, Cleanup);
  }

  /** Until the certificate is awaited, where a publication stands does not matter to others. */
  lemma SameStanding(v: Volume, last: Ledger, job: Job, stage: nat, cert: Certificate, step: PublishStep)
    requires Sound(v, last, Busy(job, Publish(stage, cert, StageKey)))
    requires !step.RenameCert? && !step.Rollback? && HeldStep(v, last, job.name, stage, cert, step)
    ensures Sound(v, last, Busy(job, Publish(stage, cert, step)))
  {
    var h, h' := Busy(job, Publish(stage, cert, StageKey)), Busy(job, Publish(stage, cert, step));
    forall n | n in last ensures Recoverable(v, last, h', n) {
      StillRecoverable(v, last, h, v, h', n);
    }
  }

  lemma RestoredIsRecoverable(v: Volume, v': Volume, last: Ledger, name: Name)
    requires Safe(v, last, Nobody) && name in last && v'.stages == v.stages
    requires Visible(v'.files) == Visible(v.files)
          || Visible(v'.files) == Visible(v.files)[ServingKey(name) := KeyPem(last[name].publicKey)]
    ensures Safe(v', last, Nobody)
  {
    var w := Volume(if Visible(v'.files) == Visible(v.files) then v.files
                    else v.files[ServingKey(name) := KeyPem(last[name].publicKey)], v.stages);
    assert Visible(w.files) == Visible(v'.files);
    SameVisible(w, v');
    forall n | n in last ensures Recoverable(v', last, Nobody, n) {
      if n != name || w.files == v.files {
        StillRecoverable(v, last, Nobody, v', Nobody, n);
      } else {
        assert KeyServed(v', last, n);
      }
    }
  }

  lemma SoundIsRecoverable(v: Volume, last: Ledger, h: Holder)
    requires Sound(v, last, h)
    ensures CanRecover(Moment(v, last))
  {
    CrashIsSound(v, last, h);
  }

  lemma RecoveredServes(v: Volume, last: Ledger, name: Name)
    requires Safe(v, last, Nobody)
    requires name in last ==> ServingKey(name) in Visible(v.files) && Visible(v.files)[ServingKey(name)] == KeyPem(last[name].publicKey)
    ensures name in last ==> KeyServed(v, last, name)
  {
  }

  lemma ReadyToStage(v: Volume, last: Ledger, job: Job, cert: Certificate)
    requires Safe(v, last, Nobody)
    requires job.name in last ==> KeyServed(v, last, job.name)
    requires KeyKept(last, job, cert.publicKey)
    ensures Sound(v, last, Busy(job, MakeStage(cert)))
  {
    forall n | n in last ensures Recoverable(v, last, Busy(job, MakeStage(cert)), n) {
      StillRecoverable(v, last, Nobody, v, Busy(job, MakeStage(cert)), n);
    }
  }

  /** When no backup matches the certificate, the key beside it does. */
  lemma NoBackupMeansServed(v: Volume, last: Ledger, name: Name)
    requires name in last && ServingCert(name) in v.files && v.files[ServingCert(name)] == CertPem(last[name])
    requires Recoverable(v, last, Nobody, name) && forall stage :: !BackupMatches(v, name, stage)
    ensures KeyServed(v, last, name)
  {
    forall stage ensures !KeyKeptIn(v, last, name, stage) {
      assert KeyKeptIn(v, last, name, stage) ==> BackupMatches(v, name, stage);
    }
  }

  /** The calls one after another, none touching what they do not name. */
  class CertsVolume {
    var files: map<Path, Content>
    var stages: set<nat>
    ghost var last: Ledger
    ghost var moments: seq<Moment>

    constructor (files: map<Path, Content>, stages: set<nat>, ghost last: Ledger)
      ensures this.files == files && this.stages == stages && this.last == last && moments == []
    {
      this.files, this.stages, this.last, this.moments := files, stages, last, [];
    }

    ghost function Vol(): Volume
      reads this
    {
      Volume(files, stages)
    }

    method MkdirTemp() returns (stage: Option<nat>)
      modifies this
      ensures files == old(files) && last == old(last)
      ensures stage.None? ==> stages == old(stages)
      ensures stage.Some? ==> stage.value !in old(stages) && stages == old(stages) + {stage.value}
      ensures moments == old(moments) + [Moment(Vol(), last)]
    {
      stage := None;
      if * {
        var id := 0;
        ghost var left := stages;
        while id in stages
          invariant left <= stages && forall taken :: taken in stages && taken >= id ==> taken in left
          decreases left
        {
          left := left - {id};
          id := id + 1;
        }
        stages := stages + {id};
        stage := Some(id);
      }
      moments := moments + [Moment(Vol(), last)];
    }

    method CreateTemp() returns (temp: Option<nat>)
      modifies this
      ensures stages == old(stages) && last == old(last)
      ensures temp.None? ==> files == old(files)
      ensures temp.Some? ==> Temp(temp.value) !in old(files) && files == Write(old(files), Temp(temp.value), Torn)
      ensures moments == old(moments) + [Moment(Vol(), last)]
    {
      temp := None;
      if * {
        var id := 0;
        while Temp(id) in files
          decreases files.Keys - (set s | 0 <= s < id :: Temp(s))
        {
          assert Temp(id) in files.Keys - (set s | 0 <= s < id :: Temp(s));
          id := id + 1;
        }
        files := Write(files, Temp(id), Torn);
        temp := Some(id);
      }
      moments := moments + [Moment(Vol(), last)];
    }

    method Set(path: Path, content: Content) returns (ok: bool)
      modifies this
      ensures files == if ok then Write(old(files), path, content) else old(files)
      ensures stages == old(stages) && last == old(last)
      ensures moments == old(moments) + [Moment(Vol(), last)]
    {
      ok := false;
      if * {
        files := Write(files, path, content);
        ok := true;
      }
      moments := moments + [Moment(Vol(), last)];
    }

    method Move(from: Path, to: Path) returns (ok: bool)
      requires from != to
      modifies this
      ensures ok ==> from in old(files)
      ensures files == if ok then Rename(old(files), from, to) else old(files)
      ensures stages == old(stages) && last == old(last)
      ensures moments == old(moments) + [Moment(Vol(), last)]
    {
      ok := false;
      if from in files {
        if * {
          files := Rename(files, from, to);
          ok := true;
        }
      }
      moments := moments + [Moment(Vol(), last)];
    }

    /** The rename that makes a certificate the served one. */
    method MoveCert(from: Path, name: Name, ghost cert: Certificate) returns (ok: bool)
      requires from != ServingCert(name)
      modifies this
      ensures ok ==> from in old(files)
      ensures files == if ok then Rename(old(files), from, ServingCert(name)) else old(files)
      ensures last == if ok then old(last)[name := cert] else old(last)
      ensures stages == old(stages)
      ensures moments == old(moments) + [Moment(Vol(), last)]
    {
      ok := false;
      if from in files {
        if * {
          files := Rename(files, from, ServingCert(name));
          last := last[name := cert];
          ok := true;
        }
      }
      moments := moments + [Moment(Vol(), last)];
    }

    method HardLink(from: Path, to: Path) returns (r: LinkResult)
      modifies this
      ensures r.Missing? ==> from !in old(files)
      ensures r.Linked? ==> from in old(files)
      ensures files == if r.Linked? then Link(old(files), from, to) else old(files)
      ensures stages == old(stages) && last == old(last)
      ensures moments == old(moments) + [Moment(Vol(), last)]
    {
      r := Failed;
      if * {
        if from in files {
          files := Link(files, from, to);
          r := Linked;
        } else {
          r := Missing;
        }
      }
      moments := moments + [Moment(Vol(), last)];
    }

    method Unlink(path: Path) returns (ok: bool)
      modifies this
      ensures files == if ok then Remove(old(files), path) else old(files)
      ensures stages == old(stages) && last == old(last)
      ensures moments == old(moments) + [Moment(Vol(), last)]
    {
      ok := false;
      if * {
        files := Remove(files, path);
        ok := true;
      }
      moments := moments + [Moment(Vol(), last)];
    }

    ghost predicate Shows(m: Moment, seen: map<Path, Content>)
      reads this
    {
      m.last == last && m.volume.stages == stages && Visible(m.volume.files) == seen
    }

    /** The content goes to the temporary file; on success a rename makes it the target. */
    method FillAndRename(temp: Path, path: Path, content: Content) returns (err: bool, ghost steps: seq<Moment>)
      requires temp.Temp? && !path.Temp?
      modifies this
      ensures stages == old(stages) && last == old(last)
      ensures Visible(files) == if err then Visible(old(files)) else Visible(old(files))[path := content]
      ensures moments == old(moments) + steps
      ensures forall m :: m in steps ==> Shows(m, Visible(old(files))) || Shows(m, Visible(files))
    {
      ghost var seen := Visible(files);
      err := true;
      var written := Set(temp, content);
      steps := [Moment(Vol(), last)];
      assert Visible(files) == seen;
      if written {
        var renamed := Move(temp, path);
        steps := steps + [Moment(Vol(), last)];
        err := !renamed;
        assert Visible(files) == if err then seen else seen[path := content];
      }
    }

    method UnlinkTemp(temp: Path) returns (ok: bool)
      requires temp.Temp?
      modifies this
      ensures stages == old(stages) && last == old(last) && Visible(files) == Visible(old(files))
      ensures moments == old(moments) + [Moment(Vol(), last)]
    {
      ok := Unlink(temp);
    }

    /** Only the rename is seen: at no moment is the target half-written. */
    method WriteFileAtomic(path: Path, content: Content) returns (err: bool, ghost steps: seq<Moment>)
      requires !path.Temp?
      modifies this
      ensures stages == old(stages) && last == old(last)
      ensures Visible(files) == if err then Visible(old(files)) else Visible(old(files))[path := content]
      ensures moments == old(moments) + steps
      ensures forall m :: m in steps ==> Shows(m, Visible(old(files))) || Shows(m, Visible(files))
    {
      ghost var seen := Visible(files);
      err := true;
      var created := CreateTemp();
      steps := [Moment(Vol(), last)];
      assert Visible(files) == seen;
      if created.None? {
        return;
      }
      ghost var more: seq<Moment>;
      err, more := FillAndRename(Temp(created.value), path, content);
      var _ := UnlinkTemp(Temp(created.value));
      steps := steps + more + [Moment(Vol(), last)];
    }

    ghost predicate Survivable(steps: seq<Moment>) {
      forall m :: m in steps ==> CanRecover(m)
    }

    ghost function Now(): Moment
      reads this
    {
      Moment(Vol(), last)
    }

    /**
     * The scan of recovery: a matching pair or no certificate is left alone; else the first
     * backup that matches the certificate replaces the key. A success leaves the pair served.
     */
    method RecoverServingKey(name: Name, entries: seq<nat>) returns (err: bool, ghost steps: seq<Moment>)
      requires CanRecover(Now())
      requires forall s :: s in stages <==> s in entries
      modifies this
      ensures stages == old(stages) && last == old(last) && CanRecover(Now())
      ensures moments == old(moments) + steps && Survivable(steps)
      ensures err ==> Visible(files) == Visible(old(files))
      ensures !err && name !in last ==> Visible(files) == Visible(old(files))
      ensures !err && name in last ==>
        Visible(files) == Visible(old(files))[ServingKey(name) := KeyPem(last[name].publicKey)]
    {
      err, steps := false, [];
      if ServingCert(name) !in files {
        return;
      }
      if PairServed(files, name) {
        assert Visible(files)[ServingKey(name) := KeyPem(last[name].publicKey)] == Visible(files);
        return;
      }
      if * {
        // The directory cannot be read.
        err := true;
        return;
      }
      for i := 0 to |entries|
        invariant files == old(files) && stages == old(stages) && last == old(last) && moments == old(moments)
        invariant forall k :: 0 <= k < i ==> !BackupMatches(Vol(), name, entries[k])
      {
        var backup := Previous(entries[i]);
        if backup in files {
          if * {
            // The backup is there and cannot be read.
            err := true;
            return;
          }
          if Matches(files[ServingCert(name)], files[backup]) {
            var key := files[backup];
            ghost var before := Vol();
            err, steps := WriteFileAtomic(ServingKey(name), key);
            forall m | m in steps || m == Now() ensures CanRecover(m) {
              RestoredIsRecoverable(before, m.volume, last, name);
            }
            return;
          }
        }
      }
      NoBackupMeansServed(Vol(), last, name);
    }

    method RemoveOne(job: Job, stage: nat, ghost cert: Certificate, path: Path) returns (ok: bool)
      requires Sound(Vol(), last, Busy(job, Publish(stage, cert, Cleanup)))
      requires path == StagedKey(stage) || path == StagedCert(stage) || path == Previous(stage)
      modifies this
      ensures Sound(Vol(), last, Busy(job, Publish(stage, cert, Cleanup))) && CanRecover(Now())
      ensures files == if ok then Remove(old(files), path) else old(files)
      ensures stages == old(stages) && last == old(last) && moments == old(moments) + [Now()]
    {
      var pick := if path.StagedKey? then 0 else if path.StagedCert? then 1 else 2;
      CleanupIsSound(Vol(), last, job, stage, cert, Cleanup, Succeeds(pick));
      ok := Unlink(path);
      SoundIsRecoverable(Vol(), last, Busy(job, Publish(stage, cert, Cleanup)));
    }

    method RemoveEmptyStage(job: Job, stage: nat, ghost cert: Certificate)
      requires Sound(Vol(), last, Busy(job, Publish(stage, cert, Cleanup)))
      requires {StagedKey(stage), StagedCert(stage), Previous(stage)} !! files.Keys
      modifies this
      ensures CanRecover(Now()) && files == old(files) && last == old(last) && moments == old(moments) + [Now()]
    {
      CleanupIsSound(Vol(), last, job, stage, cert, Cleanup, Succeeds(3));
      stages := stages - {stage};
      moments := moments + [Now()];
    }

    /** os.RemoveAll on the staging directory: files in any order, the directory last. */
    method RemoveStage(job: Job, stage: nat, ghost cert: Certificate) returns (ghost steps: seq<Moment>)
      requires Sound(Vol(), last, Busy(job, Publish(stage, cert, Cleanup)))
      modifies this
      ensures last == old(last) && moments == old(moments) + steps && Survivable(steps) && CanRecover(Now())
      ensures PairServed(files, job.name) == PairServed(old(files), job.name)
    {
      steps := [];
      SoundIsRecoverable(Vol(), last, Busy(job, Publish(stage, cert, Cleanup)));
      var left := {StagedKey(stage), StagedCert(stage), Previous(stage)};
      while left != {}
        invariant left <= {StagedKey(stage), StagedCert(stage), Previous(stage)}
        invariant forall p :: p in {StagedKey(stage), StagedCert(stage), Previous(stage)} - left ==> p !in files
        invariant last == old(last) && moments == old(moments) + steps && Survivable(steps) && CanRecover(Now())
        invariant Sound(Vol(), last, Busy(job, Publish(stage, cert, Cleanup)))
        invariant PairServed(files, job.name) == PairServed(old(files), job.name)
        decreases left
      {
        var path :| path in left;
        var ok := RemoveOne(job, stage, cert, path);
        steps := steps + [Now()];
        if !ok {
          return;
        }
        left := left - {path};
      }
      if * {
        RemoveEmptyStage(job, stage, cert);
        steps := steps + [Now()];
      }
    }

    method StageBoth(job: Job, stage: nat, cert: Certificate) returns (err: bool, ghost steps: seq<Moment>)
      requires Sound(Vol(), last, Busy(job, Publish(stage, cert, StageKey)))
      modifies this
      ensures stages == old(stages) && last == old(last)
      ensures moments == old(moments) + steps && Survivable(steps)
      ensures Sound(Vol(), last, Busy(job, Publish(stage, cert, if err then Cleanup else Backup)))
    {
      ghost var v := Vol();
      err, steps := WriteFileAtomic(StagedKey(stage), KeyPem(cert.publicKey));
      StagedMoments(v, last, job, stage, cert, StagedKey(stage), KeyPem(cert.publicKey), steps, Now());
      if err {
        return;
      }
      v := Vol();
      ghost var more: seq<Moment>;
      err, more := WriteFileAtomic(StagedCert(stage), CertPem(cert));
      StagedMoments(v, last, job, stage, cert, StagedCert(stage), CertPem(cert), more, Now());
      assert Visible(files) == if err then Visible(v.files) else Visible(v.files)[StagedCert(stage) := CertPem(cert)];
      if !err {
        assert StagedKey(stage) in Visible(v.files);
        assert StagedKey(stage) in Visible(files) && StagedCert(stage) in Visible(files);
      }
      steps := steps + more;
    }

    method BackUpKey(job: Job, stage: nat, ghost cert: Certificate) returns (r: LinkResult)
      requires Sound(Vol(), last, Busy(job, Publish(stage, cert, Backup)))
      modifies this
      ensures Sound(Vol(), last, Busy(job, Publish(stage, cert, if r.Failed? then Cleanup else RenameKey(r.Linked?))))
      ensures CanRecover(Now()) && last == old(last) && moments == old(moments) + [Now()]
    {
      ghost var v := Vol();
      r := HardLink(ServingKey(job.name), Previous(stage));
      BackupIsSound(v, last, job, stage, cert, Backup, if r.Failed? then Fails else Succeeds(0));
      SoundIsRecoverable(Vol(), last, Busy(job, Publish(stage, cert, if r.Failed? then Cleanup else RenameKey(r.Linked?))));
    }

    method PublishKey(job: Job, stage: nat, ghost cert: Certificate, ghost hadKey: bool) returns (ok: bool)
      requires Sound(Vol(), last, Busy(job, Publish(stage, cert, RenameKey(hadKey))))
      modifies this
      ensures Sound(Vol(), last, Busy(job, Publish(stage, cert, if ok then RenameCert(hadKey) else Cleanup)))
      ensures CanRecover(Now()) && last == old(last) && moments == old(moments) + [Now()]
    {
      ghost var v := Vol();
      ok := Move(StagedKey(stage), ServingKey(job.name));
      RenameKeyIsSound(v, last, job, stage, cert, RenameKey(hadKey), if ok then Succeeds(0) else Fails);
      SoundIsRecoverable(Vol(), last, Busy(job, Publish(stage, cert, if ok then RenameCert(hadKey) else Cleanup)));
    }

    method PublishCert(job: Job, stage: nat, ghost cert: Certificate, ghost hadKey: bool) returns (ok: bool)
      requires Sound(Vol(), last, Busy(job, Publish(stage, cert, RenameCert(hadKey))))
      modifies this
      ensures Sound(Vol(), last, Busy(job, Publish(stage, cert, if ok then Cleanup else Rollback(hadKey))))
      ensures last == if ok then old(last)[job.name := cert] else old(last)
      ensures ok ==> PairServed(files, job.name)
      ensures CanRecover(Now()) && moments == old(moments) + [Now()]
    {
      ghost var v, before := Vol(), last;
      ok := MoveCert(StagedCert(stage), job.name, cert);
      RenameCertIsSound(v, before, job, stage, cert, RenameCert(hadKey), if ok then Succeeds(0) else Fails);
      SoundIsRecoverable(Vol(), last, Busy(job, Publish(stage, cert, if ok then Cleanup else Rollback(hadKey))));
    }

    /** False only when a backup there was could not be put back. */
    method RollBack(job: Job, stage: nat, ghost cert: Certificate, hadKey: bool) returns (ok: bool)
      requires Sound(Vol(), last, Busy(job, Publish(stage, cert, Rollback(hadKey))))
      modifies this
      ensures ok ==> Sound(Vol(), last, Busy(job, Publish(stage, cert, Cleanup)))
      ensures !ok ==> hadKey && files == old(files)
      ensures CanRecover(Now()) && last == old(last) && moments == old(moments) + [Now()]
    {
      ghost var v := Vol();
      var done: bool;
      if hadKey {
        done := Move(Previous(stage), ServingKey(job.name));
      } else {
        done := Unlink(ServingKey(job.name));
      }
      ok := done || !hadKey;
      RollbackIsSound(v, last, job, stage, cert, Rollback(hadKey), if done then Succeeds(0) else Fails);
      SoundIsRecoverable(Vol(), last, if ok then Busy(job, Publish(stage, cert, Cleanup)) else Nobody);
    }

    method PublishStaged(job: Job, stage: nat, ghost cert: Certificate) returns (err: bool, ghost steps: seq<Moment>)
      requires Sound(Vol(), last, Busy(job, Publish(stage, cert, Backup)))
      modifies this
      ensures moments == old(moments) + steps && Survivable(steps) && CanRecover(Now())
      ensures !err ==> last == old(last)[job.name := cert] && PairServed(files, job.name)
      ensures err ==> last == old(last)
    {
      ghost var rest: seq<Moment>;
      var linked := BackUpKey(job, stage, cert);
      steps := [Now()];
      if linked.Failed? {
        rest := RemoveStage(job, stage, cert);
        return true, steps + rest;
      }
      var hadKey := linked.Linked?;
      var moved := PublishKey(job, stage, cert, hadKey);
      steps := steps + [Now()];
      if !moved {
        rest := RemoveStage(job, stage, cert);
        return true, steps + rest;
      }
      err, rest := FinishPublication(job, stage, cert, hadKey);
      steps := steps + rest;
    }

    method FinishPublication(job: Job, stage: nat, ghost cert: Certificate, hadKey: bool) returns (err: bool, ghost steps: seq<Moment>)
      requires Sound(Vol(), last, Busy(job, Publish(stage, cert, RenameCert(hadKey))))
      modifies this
      ensures moments == old(moments) + steps && Survivable(steps) && CanRecover(Now())
      ensures !err ==> last == old(last)[job.name := cert] && PairServed(files, job.name)
      ensures err ==> last == old(last)
    {
      var published := PublishCert(job, stage, cert, hadKey);
      steps := [Now()];
      if !published {
        var restored := RollBack(job, stage, cert, hadKey);
        steps := steps + [Now()];
        if !restored {
          // The directory stays: it holds the only backup.
          return true, steps;
        }
      }
      ghost var rest := RemoveStage(job, stage, cert);
      return !published, steps + rest;
    }

    method StageAndPublish(job: Job, stage: nat, cert: Certificate) returns (err: bool, ghost steps: seq<Moment>)
      requires Sound(Vol(), last, Busy(job, Publish(stage, cert, StageKey)))
      modifies this
      ensures moments == old(moments) + steps && Survivable(steps) && CanRecover(Now())
      ensures !err ==> last == old(last)[job.name := cert] && PairServed(files, job.name)
      ensures err ==> last == old(last)
    {
      err, steps := StageBoth(job, stage, cert);
      ghost var some: seq<Moment>;
      if err {
        some := RemoveStage(job, stage, cert);
        return true, steps + some;
      }
      err, some := PublishStaged(job, stage, cert);
      steps := steps + some;
    }

    /**
     * Stage both files, back up the key, rename the key, rename the certificate, roll back if
     * that fails, clear the staging directory. Success serves the new pair; an error leaves
     * the certificate that was served, its key in place unless the rollback failed too.
     */
    method WriteServingPair(job: Job, cert: Certificate) returns (err: bool, ghost steps: seq<Moment>)
      requires Sound(Vol(), last, Busy(job, MakeStage(cert)))
      modifies this
      ensures moments == old(moments) + steps && Survivable(steps) && CanRecover(Now())
      ensures !err ==> last == old(last)[job.name := cert] && PairServed(files, job.name)
      ensures err ==> last == old(last)
    {
      ghost var work := MakeStage(cert);
      ghost var v := Vol();
      var made := MkdirTemp();
      steps := [Now()];
      SoundIsRecoverable(v, last, Busy(job, work));
      if made.None? {
        return true, steps;
      }
      var stage := made.value;
      OtherWorkIsSound(v, last, job, work, Succeeds(stage));
      SoundIsRecoverable(Vol(), last, Busy(job, Publish(stage, cert, StageKey)));
      ghost var some: seq<Moment>;
      err, some := StageAndPublish(job, stage, cert);
      steps := steps + some;
    }

    /**
     * One run under the volume lock: recover, keep a pair that will do, choose the key, order
     * a certificate for it, publish. Success always leaves a matching pair served; without a
     * key of its own to use, a run never changes the key of a name that has one.
     */
    method Renew(job: Job, entries: seq<nat>) returns (err: bool, ghost steps: seq<Moment>)
      requires CanRecover(Now())
      requires forall s :: s in stages <==> s in entries
      modifies this
      ensures moments == old(moments) + steps && Survivable(steps) && CanRecover(Now())
      ensures !err ==> PairServed(files, job.name)
      ensures err ==> last == old(last)
      ensures job.name in old(last) ==> job.name in last
      ensures job.name in old(last) && job.given.None? ==> last[job.name].publicKey == old(last)[job.name].publicKey
      ensures forall n :: n != job.name ==> (n in last <==> n in old(last)) && (n in last ==> last[n] == old(last)[n])
    {
      err, steps := RecoverServingKey(job.name, entries);
      if err {
        return;
      }
      RecoveredServes(Vol(), last, job.name);
      if * {
        // The pair is not near its expiry and covers every name.
        if PairServed(files, job.name) {
          return;
        }
      }
      var key: Key;
      if job.given.Some? {
        key := job.given.value;
      } else {
        match ExistingServingKey(files, job.name) {
          case FirstIssuance =>
            key := *;
          case Reuse(existing) =>
            key := existing;
          case Refused =>
            return true, steps;
        }
      }
      if * {
        // The order fails.
        return true, steps;
      }
      var serial: nat := *;
      var cert := Certificate(key, serial);
      ReadyToStage(Vol(), last, job, cert);
      ghost var more: seq<Moment>;
      err, more := WriteServingPair(job, cert);
      steps := steps + more;
    }
  }
}
