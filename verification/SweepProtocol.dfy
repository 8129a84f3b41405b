/**
 * Sweepers, deliveries and row deletions in any interleaving over one store of attachment
 * objects. Identical bytes share one object, so only the absence of any row lets one go.
 *
 * Two assumptions stand here in full: a delivery commits its row within `grace` of its last
 * write of the object, and one clock dates every write. That the age re-check and the delete
 * are two calls is not assumed away: what that costs is stated exactly.
 */
module SweepProtocol {
  import opened Options

  type Ref = string
  type Id = nat
  type Time = nat

  /** `wrote` is when the delivery last wrote, or touched, the object its row will name. */
  datatype Delivery = Delivery(ref: Ref, wrote: Time)

  datatype Phase =
    | Listing(batch: seq<Ref>)
    | Removing(todo: seq<Ref>)
    | Deleting(ref: Ref, todo: seq<Ref>)

  datatype Sweeper = Sweeper(cutoff: int, phase: Phase)

  datatype Store = Store(
    clock: Time,
    objects: map<Ref, Time>,
    rows: map<Id, Ref>,
    deliveries: map<Id, Delivery>,
    sweepers: map<Id, Sweeper>)

  datatype Action =
    | Tick(elapsed: nat)
    | Put(d: Id, ref: Ref)
    | Commit(d: Id, row: Id)
    | Abandon(d: Id)
    | DeleteRow(row: Id)
    | Begin(w: Id)
    | See(w: Id, ref: Ref)
    | Query(w: Id)
    | Check(w: Id)
    | Delete(w: Id)
    | Refuse(w: Id)
    | NextBatch(w: Id)
    | Stop(w: Id)

  /** The first assumption: past this, a delivery no longer commits. */
  predicate Live(s: Store, d: Delivery, grace: nat) {
    s.clock <= d.wrote + grace
  }

  predicate Named(s: Store, ref: Ref) {
    exists row | row in s.rows :: s.rows[row] == ref
  }

  function Unnamed(s: Store, batch: seq<Ref>): (r: seq<Ref>)
    ensures forall ref :: ref in r ==> ref in batch && !Named(s, ref)
  {
    if batch == [] then []
    else (if Named(s, batch[0]) then [] else [batch[0]]) + Unnamed(s, batch[1..])
  }

  function At(s: Store, w: Id, p: Phase): Store
    requires w in s.sweepers
  {
    s.(sweepers := s.sweepers[w := s.sweepers[w].(phase := p)])
  }

  predicate Old(s: Store, ref: Ref, cutoff: int) {
    ref in s.objects && s.objects[ref] < cutoff
  }

  /** An action that cannot happen in a state leaves it as it is. */
  function Step(s: Store, a: Action, grace: nat): Store {
    match a
    case Tick(elapsed) => s.(clock := s.clock + elapsed)
    case Put(d, ref) =>
      if d in s.deliveries then s
      else s.(objects := s.objects[ref := s.clock], deliveries := s.deliveries[d := Delivery(ref, s.clock)])
    case Commit(d, row) =>
      if d in s.deliveries && row !in s.rows && Live(s, s.deliveries[d], grace)
      then s.(rows := s.rows[row := s.deliveries[d].ref], deliveries := s.deliveries - {d}) else s
    case Abandon(d) => s.(deliveries := s.deliveries - {d})
    case DeleteRow(row) => s.(rows := s.rows - {row})
    case Begin(w) =>
      if w in s.sweepers then s
      else s.(sweepers := s.sweepers[w := Sweeper(s.clock - grace, Listing([]))])
    case Stop(w) => s.(sweepers := s.sweepers - {w})
    case _ => if a.w in s.sweepers then SweepStep(s, a) else s
  }

  function SweepStep(s: Store, a: Action): Store
    requires a.See? || a.Query? || a.Check? || a.Delete? || a.Refuse? || a.NextBatch?
    requires a.w in s.sweepers
  {
    var Sweeper(cutoff, phase) := s.sweepers[a.w];
    match (a, phase)
    case (See(w, ref), Listing(batch)) =>
      if Old(s, ref, cutoff) then At(s, w, Listing(batch + [ref])) else s
    case (Query(w), Listing(batch)) => At(s, w, Removing(Unnamed(s, batch)))
    case (Check(w), Removing(todo)) =>
      if todo == [] then s
      else if Old(s, todo[0], cutoff) then At(s, w, Deleting(todo[0], todo[1..]))
      else At(s, w, Removing(todo[1..]))
    case (Delete(w), Deleting(ref, todo)) => At(s.(objects := s.objects - {ref}), w, Removing(todo))
    case (Refuse(w), Deleting(ref, todo)) => At(s, w, Removing(todo))
    case (NextBatch(w), Removing(todo)) => if todo == [] then At(s, w, Listing([])) else s
    case _ => s
  }

  function Run(s: Store, actions: seq<Action>, grace: nat): Store
    decreases |actions|
  {
    if actions == [] then s else Run(Step(s, actions[0], grace), actions[1..], grace)
  }

  /** Every committed row, and every row a delivery can still commit, names an object. */
  predicate Sound(s: Store, grace: nat) {
    && (forall row :: row in s.rows ==> s.rows[row] in s.objects)
    && (forall d :: d in s.deliveries && Live(s, s.deliveries[d], grace) ==> s.deliveries[d].ref in s.objects)
  }

  predicate NoRowDangles(s: Store) {
    forall row :: row in s.rows ==> s.rows[row] in s.objects
  }

  /** Sound means no row dangles now, nor after any delivery in flight commits. */
  lemma SoundMeansNothingDangles(s: Store, grace: nat)
    ensures Sound(s, grace)
       <==> NoRowDangles(s) && forall d, row :: row !in s.rows ==> NoRowDangles(Step(s, Commit(d, row), grace))
  {
    if Sound(s, grace) {
      forall d, row | row !in s.rows ensures NoRowDangles(Step(s, Commit(d, row), grace)) {
      }
    } else if NoRowDangles(s) {
      var d :| d in s.deliveries && Live(s, s.deliveries[d], grace) && s.deliveries[d].ref !in s.objects;
      var row := FreshRow(s.rows.Keys);
      var t := Step(s, Commit(d, row), grace);
      assert row in t.rows && t.rows[row] !in t.objects;
    }
  }

  lemma {:induction false} FreshRow(rows: set<Id>) returns (row: Id)
    ensures row !in rows && forall r :: r in rows ==> r < row
  {
    if rows == {} {
      row := 0;
    } else {
      var r :| r in rows;
      var rest := FreshRow(rows - {r});
      row := if r < rest then rest else r + 1;
      forall q | q in rows ensures q < row {
        assert q == r || q in rows - {r};
      }
    }
  }

  /** The references a sweeper's query answered for and that it may yet delete. */
  function Pending(p: Phase): seq<Ref> {
    match p
    case Listing(_) => []
    case Removing(todo) => todo
    case Deleting(ref, todo) => [ref] + todo
  }

  /** What the times tell, whatever was deleted. */
  ghost predicate Timely(s: Store, grace: nat) {
    Dated(s, grace) && (forall w :: w in s.sweepers ==> RowsAreYoung(s, s.sweepers[w]))
  }

  predicate Dated(s: Store, grace: nat) {
    && (forall ref :: ref in s.objects ==> s.objects[ref] <= s.clock)
    && (forall d :: d in s.deliveries ==> s.deliveries[d].wrote <= s.clock)
    && (forall d :: d in s.deliveries && s.deliveries[d].ref in s.objects ==> s.deliveries[d].wrote <= s.objects[s.deliveries[d].ref])
    && (forall w :: w in s.sweepers ==> s.sweepers[w].cutoff + grace <= s.clock)
  }

  lemma StepKeepsDates(s: Store, a: Action, grace: nat)
    requires Dated(s, grace)
    ensures Dated(Step(s, a, grace), grace)
  {
  }

  /** A row that came after the query names an object written after the cutoff. */
  ghost predicate RowsAreYoung(s: Store, w: Sweeper) {
    forall ref :: ref in Pending(w.phase) && Named(s, ref) && ref in s.objects ==> s.objects[ref] >= w.cutoff
  }

  predicate Initial(s: Store, grace: nat) {
    s.deliveries == map[] && s.sweepers == map[] && Sound(s, grace)
    && forall ref :: ref in s.objects ==> s.objects[ref] <= s.clock
  }

  lemma NamedAfter(s: Store, a: Action, grace: nat, ref: Ref)
    ensures Named(Step(s, a, grace), ref) ==>
      Named(s, ref) || (a.Commit? && a.d in s.deliveries && Live(s, s.deliveries[a.d], grace) && s.deliveries[a.d].ref == ref)
  {
    var s' := Step(s, a, grace);
    if Named(s', ref) {
      var row :| row in s'.rows && s'.rows[row] == ref;
      if row in s.rows && s.rows[row] == ref {
        assert Named(s, ref);
      }
    }
  }

  lemma StepKeepsYoung(s: Store, a: Action, grace: nat, w: Id)
    requires Timely(s, grace) && w in Step(s, a, grace).sweepers
    ensures RowsAreYoung(Step(s, a, grace), Step(s, a, grace).sweepers[w])
  {
    var s' := Step(s, a, grace);
    var after := s'.sweepers[w];
    forall ref | ref in Pending(after.phase) && Named(s', ref) && ref in s'.objects ensures s'.objects[ref] >= after.cutoff {
      NamedAfter(s, a, grace, ref);
      assert w in s.sweepers && after.cutoff == s.sweepers[w].cutoff;
      if !(a.Query? && a.w == w && s.sweepers[w].phase.Listing?) {
        assert ref in Pending(s.sweepers[w].phase);
        assert RowsAreYoung(s, s.sweepers[w]);
      }
    }
  }

  lemma StepKeepsTimes(s: Store, a: Action, grace: nat)
    requires Timely(s, grace)
    ensures Timely(Step(s, a, grace), grace)
  {
    StepKeepsDates(s, a, grace);
    forall w | w in Step(s, a, grace).sweepers ensures RowsAreYoung(Step(s, a, grace), Step(s, a, grace).sweepers[w]) {
      StepKeepsYoung(s, a, grace, w);
    }
  }

  lemma {:induction false} RunKeepsTimes(s: Store, actions: seq<Action>, grace: nat)
    requires Timely(s, grace)
    ensures Timely(Run(s, actions, grace), grace)
    decreases |actions|
  {
    if actions != [] {
      StepKeepsTimes(s, actions[0], grace);
      RunKeepsTimes(Step(s, actions[0], grace), actions[1..], grace);
    }
  }

  /** Nobody has, or can still get, a row naming the object. */
  predicate Unclaimed(s: Store, ref: Ref, grace: nat) {
    !Named(s, ref) && forall d :: d in s.deliveries && Live(s, s.deliveries[d], grace) ==> s.deliveries[d].ref != ref
  }

  /** What a delete takes away, if it is one that happens. */
  function Taken(s: Store, a: Action): Option<Ref> {
    if a.Delete? && a.w in s.sweepers && s.sweepers[a.w].phase.Deleting? then Some(s.sweepers[a.w].phase.ref) else None
  }

  predicate TakesUnclaimed(s: Store, a: Action, grace: nat) {
    Taken(s, a).Some? ==> Unclaimed(s, Taken(s, a).value, grace)
  }

  lemma UntakenStaysSound(s: Store, a: Action, grace: nat)
    requires Sound(s, grace) && Taken(s, a).None?
    ensures Sound(Step(s, a, grace), grace)
  {
    var s' := Step(s, a, grace);
    forall row | row in s'.rows ensures s'.rows[row] in s'.objects {
    }
  }

  /** One step keeps soundness exactly when it is not the delete of a claimed object. */
  lemma StepSoundExactly(s: Store, a: Action, grace: nat)
    requires Sound(s, grace)
    ensures Sound(Step(s, a, grace), grace) <==> TakesUnclaimed(s, a, grace)
  {
    var s' := Step(s, a, grace);
    var taken := Taken(s, a);
    if taken.Some? {
      var ref := taken.value;
      if Named(s, ref) {
        var row :| row in s.rows && s.rows[row] == ref;
        assert row in s'.rows && s'.rows[row] !in s'.objects;
      } else if !Unclaimed(s, ref, grace) {
        var d :| d in s.deliveries && Live(s, s.deliveries[d], grace) && s.deliveries[d].ref == ref;
        assert d in s'.deliveries && Live(s', s'.deliveries[d], grace) && s'.deliveries[d].ref !in s'.objects;
      }
    } else {
      UntakenStaysSound(s, a, grace);
    }
  }

  predicate AlwaysSound(s: Store, actions: seq<Action>, grace: nat)
    decreases |actions|
  {
    Sound(s, grace) && (actions != [] ==> AlwaysSound(Step(s, actions[0], grace), actions[1..], grace))
  }

  predicate DeletesUnclaimed(s: Store, actions: seq<Action>, grace: nat)
    decreases |actions|
  {
    actions != [] ==> TakesUnclaimed(s, actions[0], grace) && DeletesUnclaimed(Step(s, actions[0], grace), actions[1..], grace)
  }

  /**
   * The property as the code has it, re-check and delete being two calls: rows and deliveries in
   * time to commit keep their objects from end to end exactly when no delete takes one of them.
   */
  lemma {:induction false} RunSoundExactly(s: Store, actions: seq<Action>, grace: nat)
    requires Sound(s, grace)
    ensures AlwaysSound(s, actions, grace) <==> DeletesUnclaimed(s, actions, grace)
    decreases |actions|
  {
    if actions != [] {
      StepSoundExactly(s, actions[0], grace);
      if Sound(Step(s, actions[0], grace), grace) {
        RunSoundExactly(Step(s, actions[0], grace), actions[1..], grace);
      }
    }
  }

  predicate NoDeletes(actions: seq<Action>) {
    forall i :: 0 <= i < |actions| ==> !actions[i].Delete?
  }

  /** No row dangles, nor will one whatever happens next, deliveries in flight included, short of another delete. */
  ghost predicate Safe(s: Store, grace: nat) {
    forall next :: NoDeletes(next) ==> NoRowDangles(Run(s, next, grace))
  }

  lemma {:induction false} SoundGoesOn(s: Store, next: seq<Action>, grace: nat)
    requires Sound(s, grace) && NoDeletes(next)
    ensures Sound(Run(s, next, grace), grace)
    decreases |next|
  {
    if next != [] {
      UntakenStaysSound(s, next[0], grace);
      SoundGoesOn(Step(s, next[0], grace), next[1..], grace);
    }
  }

  lemma SoundIsSafe(s: Store, grace: nat)
    ensures Sound(s, grace) <==> Safe(s, grace)
  {
    if Sound(s, grace) {
      forall next | NoDeletes(next) ensures NoRowDangles(Run(s, next, grace)) {
        SoundGoesOn(s, next, grace);
      }
    }
    if Safe(s, grace) {
      assert NoDeletes([]) && Run(s, [], grace) == s;
      forall d, row ensures NoRowDangles(Step(s, Commit(d, row), grace)) {
        var next := [Commit(d, row)];
        assert NoDeletes(next) && next[1..] == [] && Run(s, next, grace) == Step(s, Commit(d, row), grace);
      }
      SoundMeansNothingDangles(s, grace);
    }
  }

  ghost predicate AlwaysSafe(s: Store, actions: seq<Action>, grace: nat)
    decreases |actions|
  {
    Safe(s, grace) && (actions != [] ==> AlwaysSafe(Step(s, actions[0], grace), actions[1..], grace))
  }

  lemma {:induction false} SoundThroughout(s: Store, actions: seq<Action>, grace: nat)
    ensures AlwaysSound(s, actions, grace) <==> AlwaysSafe(s, actions, grace)
    decreases |actions|
  {
    SoundIsSafe(s, grace);
    if actions != [] {
      SoundThroughout(Step(s, actions[0], grace), actions[1..], grace);
    }
  }

  /**
   * At no point of a run does a row dangle, whatever follows that point short of another delete,
   * exactly when each delete takes an object that no row names and no delivery in time to
   * commit has written.
   */
  lemma RunSafeExactly(s: Store, actions: seq<Action>, grace: nat)
    requires Safe(s, grace)
    ensures AlwaysSafe(s, actions, grace) <==> DeletesUnclaimed(s, actions, grace)
  {
    SoundIsSafe(s, grace);
    RunSoundExactly(s, actions, grace);
    SoundThroughout(s, actions, grace);
  }

  /** An object still as old as the check found it is unclaimed: the grace period sees to it. */
  lemma OldIsUnclaimed(s: Store, w: Id, grace: nat)
    requires Timely(s, grace) && w in s.sweepers && s.sweepers[w].phase.Deleting?
    requires Old(s, s.sweepers[w].phase.ref, s.sweepers[w].cutoff)
    ensures Unclaimed(s, s.sweepers[w].phase.ref, grace)
  {
    var Sweeper(cutoff, phase) := s.sweepers[w];
    assert phase.ref in Pending(phase) && RowsAreYoung(s, s.sweepers[w]);
    forall d | d in s.deliveries && Live(s, s.deliveries[d], grace) ensures s.deliveries[d].ref != phase.ref {
      assert cutoff + grace <= s.clock <= s.deliveries[d].wrote + grace;
    }
  }

  /** Each delete of the run finds its object not written again since its check. */
  predicate DeletesUntouched(s: Store, actions: seq<Action>, grace: nat)
    decreases |actions|
  {
    actions != [] ==> TakesUntouched(s, actions[0]) && DeletesUntouched(Step(s, actions[0], grace), actions[1..], grace)
  }

  predicate TakesUntouched(s: Store, a: Action) {
    var taken := Taken(s, a);
    taken.Some? && taken.value in s.objects ==> s.objects[taken.value] < s.sweepers[a.w].cutoff
  }

  lemma {:induction false} UntouchedIsUnclaimed(s: Store, actions: seq<Action>, grace: nat)
    requires Timely(s, grace) && Sound(s, grace) && DeletesUntouched(s, actions, grace)
    ensures DeletesUnclaimed(s, actions, grace)
    decreases |actions|
  {
    if actions != [] {
      var a := actions[0];
      var taken := Taken(s, a);
      if taken.Some? {
        if taken.value in s.objects {
          OldIsUnclaimed(s, a.w, grace);
        }
      }
      assert TakesUnclaimed(s, a, grace);
      StepSoundExactly(s, a, grace);
      StepKeepsTimes(s, a, grace);
      UntouchedIsUnclaimed(Step(s, a, grace), actions[1..], grace);
    }
  }

  lemma InitialIsTimely(s: Store, grace: nat)
    requires Initial(s, grace)
    ensures Timely(s, grace) && Sound(s, grace)
  {
  }

  /** Without a write between a check and its delete, no row ever dangles. */
  lemma SafeWhenUntouched(s: Store, actions: seq<Action>, grace: nat)
    requires Initial(s, grace) && DeletesUntouched(s, actions, grace)
    ensures AlwaysSafe(s, actions, grace) && NoRowDangles(Run(s, actions, grace))
  {
    InitialIsTimely(s, grace);
    UntouchedIsUnclaimed(s, actions, grace);
    RunSoundExactly(s, actions, grace);
    SoundAtTheEnd(s, actions, grace);
    SoundThroughout(s, actions, grace);
  }

  lemma {:induction false} SoundAtTheEnd(s: Store, actions: seq<Action>, grace: nat)
    requires AlwaysSound(s, actions, grace)
    ensures Sound(Run(s, actions, grace), grace)
    decreases |actions|
  {
    if actions != [] {
      SoundAtTheEnd(Step(s, actions[0], grace), actions[1..], grace);
    }
  }

  // ---- Re-check and delete as one step ----

  /** A move of the system in which re-check and delete are one step. */
  datatype Move = One(action: Action) | Remove(w: Id, refused: bool)

  predicate WholeMoves(moves: seq<Move>) {
    forall m :: m in moves && m.One? ==> !(m.action.Check? || m.action.Delete? || m.action.Refuse?)
  }

  function Expand(moves: seq<Move>): seq<Action> {
    if moves == [] then []
    else
      (match moves[0]
       case One(a) => [a]
       case Remove(w, refused) => [Check(w), if refused then Refuse(w) else Delete(w)])
      + Expand(moves[1..])
  }

  predicate NobodyDeleting(s: Store) {
    forall w :: w in s.sweepers ==> !s.sweepers[w].phase.Deleting?
  }

  lemma {:induction false} WholeMovesLeaveUntouched(s: Store, moves: seq<Move>, grace: nat)
    requires NobodyDeleting(s) && WholeMoves(moves)
    ensures DeletesUntouched(s, Expand(moves), grace)
    decreases |moves|
  {
    if moves != [] {
      var rest := Expand(moves[1..]);
      match moves[0]
      case One(a) =>
        assert Expand(moves)[1..] == rest;
        OtherStepsLeaveUntouched(s, a, grace);
        WholeMovesLeaveUntouched(Step(s, a, grace), moves[1..], grace);
      case Remove(w, refused) =>
        var second := if refused then Refuse(w) else Delete(w);
        var t := Step(s, Check(w), grace);
        assert Expand(moves)[1..] == [second] + rest && ([second] + rest)[1..] == rest;
        RemoveLeavesUntouched(s, w, second, grace);
        WholeMovesLeaveUntouched(Step(t, second, grace), moves[1..], grace);
        assert DeletesUntouched(t, [second] + rest, grace);
    }
  }

  lemma OtherStepsLeaveUntouched(s: Store, a: Action, grace: nat)
    requires NobodyDeleting(s) && !(a.Check? || a.Delete? || a.Refuse?)
    ensures TakesUntouched(s, a) && NobodyDeleting(Step(s, a, grace))
  {
  }

  lemma RemoveLeavesUntouched(s: Store, w: Id, second: Action, grace: nat)
    requires NobodyDeleting(s) && (second == Delete(w) || second == Refuse(w))
    ensures TakesUntouched(s, Check(w))
    ensures var t := Step(s, Check(w), grace); TakesUntouched(t, second) && NobodyDeleting(Step(t, second, grace))
  {
  }

  /**
   * In every interleaving of sweepers, deliveries and row deletions in which a re-check and
   * its delete are one step, no committed row ever names a missing object.
   */
  lemma SafeWhenOneStep(s: Store, moves: seq<Move>, grace: nat)
    requires Initial(s, grace) && WholeMoves(moves)
    ensures AlwaysSafe(s, Expand(moves), grace) && NoRowDangles(Run(s, Expand(moves), grace))
  {
    WholeMovesLeaveUntouched(s, moves, grace);
    SafeWhenUntouched(s, Expand(moves), grace);
  }

  // ---- And as two ----

  function Aged(ref: Ref, clock: Time): Store {
    Store(clock, map[ref := 0], map[], map[], map[])
  }

  function AfterListing(grace: nat, ref: Ref): Store {
    Aged(ref, grace + 1).(sweepers := map[0 := Sweeper(1, Listing([ref]))])
  }

  function AboutToDelete(grace: nat, ref: Ref): Store {
    Aged(ref, grace + 1).(sweepers := map[0 := Sweeper(1, Deleting(ref, []))])
  }

  lemma SweepLists(grace: nat, ref: Ref)
    ensures Run(Aged(ref, 0), [Tick(grace + 1), Begin(0), See(0, ref)], grace) == AfterListing(grace, ref)
  {
    var a := [Tick(grace + 1), Begin(0), See(0, ref)];
    var s1 := Aged(ref, grace + 1);
    var s2 := s1.(sweepers := map[0 := Sweeper(1, Listing([]))]);
    assert Step(s1, a[1], grace) == s2;
    assert [] + [ref] == [ref];
    assert Step(s2, a[2], grace) == AfterListing(grace, ref);
    Later(s2, a[2..], grace);
    Later(s1, a[1..], grace);
    Later(Aged(ref, 0), a, grace);
  }

  lemma SweepChecks(grace: nat, ref: Ref)
    ensures Run(AfterListing(grace, ref), [Query(0), Check(0)], grace) == AboutToDelete(grace, ref)
  {
    var a := [Query(0), Check(0)];
    var s3 := AfterListing(grace, ref);
    var s4 := Aged(ref, grace + 1).(sweepers := map[0 := Sweeper(1, Removing([ref]))]);
    assert Unnamed(s3, [ref]) == [ref];
    assert Step(s3, a[0], grace) == s4;
    assert [ref][1..] == [];
    assert Step(s4, a[1], grace) == AboutToDelete(grace, ref);
    Later(s4, a[1..], grace);
    Later(s3, a, grace);
  }

  function SweepUpToCheck(grace: nat, ref: Ref): seq<Action> {
    [Tick(grace + 1), Begin(0), See(0, ref)] + [Query(0), Check(0)]
  }

  function RewriteThenDelete(ref: Ref): seq<Action> {
    [Put(1, ref), Commit(1, 2), Delete(0)]
  }

  lemma RewriteIsLost(grace: nat, ref: Ref)
    ensures Run(AboutToDelete(grace, ref), RewriteThenDelete(ref), grace)
         == Store(grace + 1, map[], map[2 := ref], map[], map[0 := Sweeper(1, Removing([]))])
  {
    var a := RewriteThenDelete(ref);
    var now := grace + 1;
    var s5 := AboutToDelete(grace, ref);
    var s6 := Store(now, map[ref := now], map[], map[1 := Delivery(ref, now)], s5.sweepers);
    assert Step(s5, a[0], grace) == s6;
    var s7 := Store(now, map[ref := now], map[2 := ref], map[], s5.sweepers);
    assert Step(s6, a[1], grace) == s7;
    Later(s7, a[2..], grace);
    Later(s6, a[1..], grace);
    Later(s5, a, grace);
  }

  lemma Later(s: Store, actions: seq<Action>, grace: nat)
    requires actions != []
    ensures Run(s, actions, grace) == Run(Step(s, actions[0], grace), actions[1..], grace)
  {
  }

  lemma {:induction false} RunConcat(s: Store, a: seq<Action>, b: seq<Action>, grace: nat)
    ensures Run(s, a + b, grace) == Run(Run(s, a, grace), b, grace)
    decreases |a|
  {
    if a == [] {
      assert a + b == b;
    } else {
      assert (a + b)[1..] == a[1..] + b;
      RunConcat(Step(s, a[0], grace), a[1..], b, grace);
    }
  }

  /**
   * The interleaving that loses an object: a delivery of the same bytes writes it again and
   * commits its row between the check and the delete.
   */
  lemma SplitCheckLosesAnObject(grace: nat, ref: Ref)
    ensures Initial(Aged(ref, 0), grace)
    ensures var t := Run(Aged(ref, 0), SweepUpToCheck(grace, ref) + RewriteThenDelete(ref), grace);
            2 in t.rows && t.rows[2] == ref && ref !in t.objects
  {
    SweepLists(grace, ref);
    SweepChecks(grace, ref);
    RunConcat(Aged(ref, 0), [Tick(grace + 1), Begin(0), See(0, ref)], [Query(0), Check(0)], grace);
    RewriteIsLost(grace, ref);
    RunConcat(Aged(ref, 0), SweepUpToCheck(grace, ref), RewriteThenDelete(ref), grace);
  }
}
