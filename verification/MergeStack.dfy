/**
 * The merge queue merged entry by entry over main, and which entry a failure or a conflict is
 * traced to. Merging two commits and running a check are parameters.
 */
module MergeStack {
  import opened Options

  type Commit = string

  datatype Merge = Merged(commit: Commit) | Conflict(paths: seq<string>)

  datatype Entry = Entry(title: string, commit: Commit, number: nat)

  datatype Prefix = Prefix(entry: Option<Entry>, commit: Commit, name: string)

  /** An entry left out, the name of what it conflicts with, and where. */
  datatype LeftOut = LeftOut(entry: Entry, ahead: string, paths: seq<string>)

  datatype Stack = Stack(prefixes: seq<Prefix>, conflicts: seq<LeftOut>) {
    function Tip(): Commit
      requires prefixes != []
    {
      prefixes[|prefixes| - 1].commit
    }
  }

  type Merging = (Commit, Commit) -> Merge

  /** How one entry goes on: onto the last prefix, or to the conflicts. */
  predicate Placed(e: Entry, before: Stack, after: Stack, merge: Merging)
    requires before.prefixes != []
  {
    var ahead := before.prefixes[|before.prefixes| - 1];
    match merge(ahead.commit, e.commit)
    case Merged(commit) =>
      after == before.(prefixes := before.prefixes + [Prefix(Some(e), commit, ahead.name + " + " + e.title)])
    case Conflict(paths) =>
      after == before.(conflicts := before.conflicts + [LeftOut(e, ahead.name, paths)])
  }

  /** The stack of the first entries is what the stack of one fewer becomes. */
  ghost predicate Builds(stages: seq<Stack>, base: Commit, baseName: string, entries: seq<Entry>, merge: Merging) {
    && |stages| == |entries| + 1 && stages[0] == Stack([Prefix(None, base, baseName)], [])
    && (forall i :: 0 <= i < |stages| ==> stages[i].prefixes != [])
    && forall i :: 0 <= i < |entries| ==> Placed(entries[i], stages[i], stages[i + 1], merge)
  }

  method BuildStack(base: Commit, baseName: string, entries: seq<Entry>, merge: Merging) returns (stack: Stack, ghost stages: seq<Stack>)
    ensures Builds(stages, base, baseName, entries, merge) && stack == stages[|entries|]
    ensures Chained(stack.prefixes, merge) && stack.prefixes[0] == Prefix(None, base, baseName)
    ensures |stack.prefixes| - 1 + |stack.conflicts| == |entries|
    ensures forall c :: c in stack.conflicts ==> exists i :: 0 <= i < |stack.prefixes| && ConflictsWith(c, stack.prefixes[i], merge)
  {
    stack := Stack([Prefix(None, base, baseName)], []);
    stages := [stack];
    for i := 0 to |entries|
      invariant |stages| == i + 1 && stack == stages[i] && Builds(stages, base, baseName, entries[..i], merge)
    {
      ghost var before := stages;
      var ahead := stack.prefixes[|stack.prefixes| - 1];
      match merge(ahead.commit, entries[i].commit) {
        case Merged(commit) =>
          stack := stack.(prefixes := stack.prefixes + [Prefix(Some(entries[i]), commit, ahead.name + " + " + entries[i].title)]);
        case Conflict(paths) =>
          stack := stack.(conflicts := stack.conflicts + [LeftOut(entries[i], ahead.name, paths)]);
      }
      stages := stages + [stack];
      assert Placed(entries[i], before[i], stack, merge);
      forall k | 0 <= k < i + 1 ensures Placed(entries[..i + 1][k], stages[k], stages[k + 1], merge) {
        assert k < i ==> entries[..i][k] == entries[k];
      }
    }
    assert entries[..|entries|] == entries;
    ghost var turns, over := StackSplitsTheEntries(stages, base, baseName, entries, merge);
  }

  // ---------- what the stack is ----------

  function Interleaving(kept: seq<Entry>, left: seq<Entry>, turns: seq<bool>): seq<Entry>
    requires |turns| == |kept| + |left|
    decreases |turns|
  {
    var n := |turns| - 1;
    if turns == [] then []
    else if turns[n] && kept != [] then Interleaving(kept[..|kept| - 1], left, turns[..n]) + [kept[|kept| - 1]]
    else if !turns[n] && left != [] then Interleaving(kept, left[..|left| - 1], turns[..n]) + [left[|left| - 1]]
    else []
  }

  function KeptEntries(prefixes: seq<Prefix>): seq<Entry>
    requires forall i :: 0 < i < |prefixes| ==> prefixes[i].entry.Some?
  {
    seq(if prefixes == [] then 0 else |prefixes| - 1, i requires 0 <= i < |prefixes| - 1 => prefixes[i + 1].entry.value)
  }

  function LeftEntries(conflicts: seq<LeftOut>): seq<Entry> {
    seq(|conflicts|, i requires 0 <= i < |conflicts| => conflicts[i].entry)
  }

  /** Each prefix is the one before it merged with the next kept entry, and named so. */
  predicate Chained(prefixes: seq<Prefix>, merge: Merging) {
    && prefixes != [] && prefixes[0].entry.None?
    && (forall i :: 0 < i < |prefixes| ==> prefixes[i].entry.Some?)
    && (forall i :: 0 < i < |prefixes| ==> merge(prefixes[i - 1].commit, prefixes[i].entry.value.commit) == Merged(prefixes[i].commit))
    && (forall i :: 0 < i < |prefixes| ==> prefixes[i].name == prefixes[i - 1].name + " + " + prefixes[i].entry.value.title)
  }

  /** A conflict is with the prefix made of what was kept before it. */
  predicate ConflictsWith(c: LeftOut, p: Prefix, merge: Merging) {
    c.ahead == p.name && merge(p.commit, c.entry.commit) == Conflict(c.paths)
  }

  /** Each conflict was found over some prefix, these in order. */
  predicate ConflictsOverThem(conflicts: seq<LeftOut>, prefixes: seq<Prefix>, over: seq<nat>, merge: Merging) {
    && |over| == |conflicts|
    && (forall c :: 0 <= c < |over| ==> over[c] < |prefixes| && ConflictsWith(conflicts[c], prefixes[over[c]], merge))
    && (forall c, d :: 0 <= c < d < |over| ==> over[c] <= over[d])
  }

  /** `turns` says of each entry, in order, whether it was kept. */
  predicate SplitBy(stack: Stack, entries: seq<Entry>, turns: seq<bool>)
    requires forall i :: 0 < i < |stack.prefixes| ==> stack.prefixes[i].entry.Some?
  {
    && |turns| == |KeptEntries(stack.prefixes)| + |stack.conflicts|
    && Interleaving(KeptEntries(stack.prefixes), LeftEntries(stack.conflicts), turns) == entries
  }

  /** The entries, in order, are split into the kept and the conflicting. */
  lemma {:induction false} StackSplitsTheEntries(stages: seq<Stack>, base: Commit, baseName: string, entries: seq<Entry>, merge: Merging)
    returns (turns: seq<bool>, over: seq<nat>)
    requires Builds(stages, base, baseName, entries, merge)
    ensures var stack := stages[|entries|]; Chained(stack.prefixes, merge) && stack.prefixes[0] == Prefix(None, base, baseName)
    ensures var stack := stages[|entries|]; ConflictsOverThem(stack.conflicts, stack.prefixes, over, merge)
    ensures SplitBy(stages[|entries|], entries, turns) && |turns| == |entries|
    decreases |entries|
  {
    if entries == [] {
      turns, over := [], [];
    } else {
      var n := |entries| - 1;
      assert forall i :: 0 <= i < n ==> entries[..n][i] == entries[i];
      turns, over := StackSplitsTheEntries(stages[..n + 1], base, baseName, entries[..n], merge);
      assert Placed(entries[n], stages[n], stages[n + 1], merge);
      assert entries == entries[..n] + [entries[n]];
      turns, over := OneMorePlaced(stages[n], stages[n + 1], entries[..n], entries[n], turns, over, merge);
    }
  }

  lemma ChainedOn(prefixes: seq<Prefix>, p: Prefix, merge: Merging)
    requires Chained(prefixes, merge) && p.entry.Some?
    requires merge(prefixes[|prefixes| - 1].commit, p.entry.value.commit) == Merged(p.commit)
    requires p.name == prefixes[|prefixes| - 1].name + " + " + p.entry.value.title
    ensures Chained(prefixes + [p], merge)
  {
  }

  lemma OneMorePlaced(before: Stack, stack: Stack, entries: seq<Entry>, e: Entry, turns: seq<bool>, over: seq<nat>, merge: Merging)
    returns (turns': seq<bool>, over': seq<nat>)
    requires Chained(before.prefixes, merge) && ConflictsOverThem(before.conflicts, before.prefixes, over, merge)
    requires SplitBy(before, entries, turns) && Placed(e, before, stack, merge)
    ensures Chained(stack.prefixes, merge) && stack.prefixes[0] == before.prefixes[0]
    ensures ConflictsOverThem(stack.conflicts, stack.prefixes, over', merge) && SplitBy(stack, entries + [e], turns') && |turns'| == |turns| + 1
  {
    if merge(before.Tip(), e.commit).Merged? {
      turns', over' := OneMoreKept(before, stack, entries, e, turns, over, merge);
    } else {
      turns', over' := OneMoreLeft(before, stack, entries, e, turns, over, merge);
    }
  }

  lemma OneMoreKept(before: Stack, stack: Stack, entries: seq<Entry>, e: Entry, turns: seq<bool>, over: seq<nat>, merge: Merging)
    returns (turns': seq<bool>, over': seq<nat>)
    requires Chained(before.prefixes, merge) && ConflictsOverThem(before.conflicts, before.prefixes, over, merge)
    requires SplitBy(before, entries, turns) && Placed(e, before, stack, merge) && merge(before.Tip(), e.commit).Merged?
    ensures Chained(stack.prefixes, merge) && stack.prefixes[0] == before.prefixes[0]
    ensures ConflictsOverThem(stack.conflicts, stack.prefixes, over', merge) && SplitBy(stack, entries + [e], turns') && |turns'| == |turns| + 1
  {
    var p := stack.prefixes[|before.prefixes|];
    assert stack.prefixes == before.prefixes + [p];
    ChainedOn(before.prefixes, p, merge);
    KeepOne(before, stack, e, turns, merge);
    turns', over' := turns + [true], over;
  }

  lemma OneMoreLeft(before: Stack, stack: Stack, entries: seq<Entry>, e: Entry, turns: seq<bool>, over: seq<nat>, merge: Merging)
    returns (turns': seq<bool>, over': seq<nat>)
    requires Chained(before.prefixes, merge) && ConflictsOverThem(before.conflicts, before.prefixes, over, merge)
    requires SplitBy(before, entries, turns) && Placed(e, before, stack, merge) && !merge(before.Tip(), e.commit).Merged?
    ensures Chained(stack.prefixes, merge) && stack.prefixes[0] == before.prefixes[0]
    ensures ConflictsOverThem(stack.conflicts, stack.prefixes, over', merge) && SplitBy(stack, entries + [e], turns') && |turns'| == |turns| + 1
  {
    assert stack.conflicts[..|before.conflicts|] == before.conflicts;
    LeaveOne(before, stack, e, turns);
    turns', over' := turns + [false], over + [|before.prefixes| - 1];
  }

  lemma KeptGrows(before: seq<Prefix>, after: seq<Prefix>, e: Entry)
    requires before != [] && forall i :: 0 < i < |before| ==> before[i].entry.Some?
    requires |after| == |before| + 1 && after[..|before|] == before && after[|before|].entry == Some(e)
    ensures forall i :: 0 < i < |after| ==> after[i].entry.Some?
    ensures KeptEntries(after) == KeptEntries(before) + [e]
  {
    assert forall i :: 0 <= i < |before| ==> after[i] == after[..|before|][i];
  }

  lemma InterleavingKeeps(kept: seq<Entry>, left: seq<Entry>, turns: seq<bool>, e: Entry)
    requires |turns| == |kept| + |left|
    ensures Interleaving(kept + [e], left, turns + [true]) == Interleaving(kept, left, turns) + [e]
  {
    assert (kept + [e])[..|kept|] == kept && (turns + [true])[..|turns|] == turns;
  }

  lemma KeepOne(before: Stack, stack: Stack, e: Entry, turns: seq<bool>, merge: Merging)
    requires Chained(before.prefixes, merge) && |turns| == |KeptEntries(before.prefixes)| + |before.conflicts|
    requires |stack.prefixes| == |before.prefixes| + 1 && stack.conflicts == before.conflicts
    requires stack.prefixes[..|before.prefixes|] == before.prefixes && stack.prefixes[|before.prefixes|].entry == Some(e)
    ensures forall i :: 0 < i < |stack.prefixes| ==> stack.prefixes[i].entry.Some?
    ensures var kept, left := KeptEntries(stack.prefixes), LeftEntries(stack.conflicts);
      |kept| == |KeptEntries(before.prefixes)| + 1 && Interleaving(kept, left, turns + [true]) == Interleaving(KeptEntries(before.prefixes), left, turns) + [e]
  {
    KeptGrows(before.prefixes, stack.prefixes, e);
    InterleavingKeeps(KeptEntries(before.prefixes), LeftEntries(stack.conflicts), turns, e);
  }

  lemma LeaveOne(before: Stack, stack: Stack, e: Entry, turns: seq<bool>)
    requires forall i :: 0 < i < |before.prefixes| ==> before.prefixes[i].entry.Some?
    requires |turns| == |KeptEntries(before.prefixes)| + |before.conflicts| && stack.prefixes == before.prefixes
    requires |stack.conflicts| == |before.conflicts| + 1 && stack.conflicts[..|before.conflicts|] == before.conflicts
    requires stack.conflicts[|before.conflicts|].entry == e
    ensures var kept, left := KeptEntries(stack.prefixes), LeftEntries(stack.conflicts);
      Interleaving(kept, left, turns + [false]) == Interleaving(kept, LeftEntries(before.conflicts), turns) + [e]
  {
    var left := LeftEntries(stack.conflicts);
    assert forall i :: 0 <= i < |before.conflicts| ==> stack.conflicts[i] == stack.conflicts[..|before.conflicts|][i];
    assert left == LeftEntries(before.conflicts) + [e];
    assert left[..|left| - 1] == LeftEntries(before.conflicts);
    assert (turns + [false])[..|turns|] == turns;
  }

  // ---------- a pull request's own head over the stack ----------

  datatype Over = Fits(commit: Commit) | ConflictsOver(culprit: string, paths: seq<string>)

  predicate NamesPaths(p: Prefix, head: Commit, merge: Merging) {
    merge(p.commit, head).Conflict? && merge(p.commit, head).paths != []
  }

  function Culprit(p: Prefix): string {
    if p.entry.Some? then p.entry.value.title else p.name
  }

  /** The first prefix whose merge conflicts names the culprit. */
  method MergeOverStack(stack: Stack, head: Commit, merge: Merging) returns (r: Over)
    requires stack.prefixes != []
    ensures r.Fits? <==> merge(stack.Tip(), head).Merged?
    ensures r.Fits? ==> merge(stack.Tip(), head) == Merged(r.commit)
    ensures r.ConflictsOver? && NamesPaths(stack.prefixes[|stack.prefixes| - 1], head, merge) ==>
      exists i :: 0 <= i < |stack.prefixes| && FirstConflict(stack.prefixes, i, head, merge) && r.culprit == Culprit(stack.prefixes[i]) && r.paths == merge(stack.prefixes[i].commit, head).paths
  {
    match merge(stack.Tip(), head)
    case Merged(commit) => return Fits(commit);
    case Conflict(tipPaths) =>
      for i := 0 to |stack.prefixes|
        invariant forall k :: 0 <= k < i ==> !NamesPaths(stack.prefixes[k], head, merge)
      {
        var prefix := stack.prefixes[i];
        if NamesPaths(prefix, head, merge) {
          assert FirstConflict(stack.prefixes, i, head, merge);
          return ConflictsOver(Culprit(prefix), merge(prefix.commit, head).paths);
        }
      }
      return ConflictsOver(stack.prefixes[0].name, tipPaths);
  }

  predicate FirstConflict(prefixes: seq<Prefix>, i: nat, head: Commit, merge: Merging) {
    i < |prefixes| && NamesPaths(prefixes[i], head, merge) && forall k :: 0 <= k < i ==> !NamesPaths(prefixes[k], head, merge)
  }

  // ---------- which entry a failing test is traced to ----------

  datatype Alone = NotAsked | ConflictsAlone(paths: seq<string>) | AbsentAlone | FailsAlone | PassesAlone

  datatype Finding =
    | OnBase(test: string, base: string)
    | FirstFails(test: string, entry: Entry, prefix: string, passedOn: Option<string>, alone: Alone)
    | NotRepeated(test: string)

  predicate Reports(names: seq<string>, test: string) {
    exists i :: 0 <= i < |names| && (test == names[i] || names[i] + "." <= test)
  }

  /** Those of the tests that a run reports, in their order and as often as asked for. */
  function ReportedOf(requested: seq<string>, reported: seq<string>): seq<string> {
    if requested == [] then []
    else (if Reports(reported, requested[0]) then [requested[0]] else []) + ReportedOf(requested[1..], reported)
  }

  lemma {:induction false} ReportedOfMore(requested: seq<string>, test: string, reported: seq<string>)
    ensures ReportedOf(requested + [test], reported) == ReportedOf(requested, reported) + (if Reports(reported, test) then [test] else [])
  {
    if requested == [] {
      assert (requested + [test])[1..] == [];
    } else {
      assert (requested + [test])[1..] == requested[1..] + [test];
      ReportedOfMore(requested[1..], test, reported);
    }
  }

  /** A test is named as often as it was asked for, or not at all; none else is. */
  lemma {:induction false} ReportedOfCounts(requested: seq<string>, reported: seq<string>, test: string)
    ensures multiset(ReportedOf(requested, reported))[test] == if Reports(reported, test) then multiset(requested)[test] else 0
  {
    if requested != [] {
      ReportedOfCounts(requested[1..], reported, test);
      assert requested == [requested[0]] + requested[1..];
    }
  }

  /** The tests asked for that a run reports, by themselves or by their class or module. */
  method StillFailing(requested: seq<string>, reported: seq<string>) returns (failing: seq<string>)
    ensures failing == ReportedOf(requested, reported)
    ensures forall t :: multiset(failing)[t] == if Reports(reported, t) then multiset(requested)[t] else 0
    ensures forall t :: t in failing <==> t in requested && Reports(reported, t)
    ensures Distinct(requested) ==> Distinct(failing)
  {
    failing := [];
    for i := 0 to |requested|
      invariant failing == ReportedOf(requested[..i], reported)
      invariant forall t :: t in failing <==> t in requested[..i] && Reports(reported, t)
      invariant Distinct(requested) ==> Distinct(failing)
    {
      assert requested[..i + 1] == requested[..i] + [requested[i]];
      ReportedOfMore(requested[..i], requested[i], reported);
      if Reports(reported, requested[i]) {
        failing := failing + [requested[i]];
      }
    }
    assert requested[..|requested|] == requested;
    forall t ensures multiset(failing)[t] == if Reports(reported, t) then multiset(requested)[t] else 0 {
      ReportedOfCounts(requested, reported, t);
    }
  }

  predicate Distinct(s: seq<string>) {
    forall i, j :: 0 <= i < j < |s| ==> s[i] != s[j]
  }

  /** What is known of the repository: which tests a tree has, and what a check of some reports. */
  datatype Suite = Suite(has: (Commit, string) -> bool, check: (Commit, seq<string>) -> seq<string>, merge: Merging)

  /** A test's result in a tree does not depend on which others are asked for. */
  ghost predicate Deterministic(s: Suite, fails: (Commit, string) -> bool) {
    forall c, tests, t :: t in tests ==> (Reports(s.check(c, tests), t) <==> fails(c, t))
  }

  predicate Shows(p: Prefix, test: string, s: Suite, fails: (Commit, string) -> bool) {
    s.has(p.commit, test) && fails(p.commit, test)
  }

  /** The first of the prefixes from `from` on where the test exists and fails. */
  function FirstShown(prefixes: seq<Prefix>, from: nat, test: string, s: Suite, fails: (Commit, string) -> bool): (i: nat)
    requires from <= |prefixes|
    ensures from <= i <= |prefixes| && (i < |prefixes| ==> Shows(prefixes[i], test, s, fails))
    ensures forall k :: from <= k < i ==> !Shows(prefixes[k], test, s, fails)
    decreases |prefixes| - from
  {
    if from == |prefixes| || Shows(prefixes[from], test, s, fails) then from
    else FirstShown(prefixes, from + 1, test, s, fails)
  }

  /** The last prefix before this one that has the test. */
  function LastWith(prefixes: seq<Prefix>, n: nat, test: string, s: Suite): Option<string>
    requires n <= |prefixes|
  {
    if n == 0 then None
    else if s.has(prefixes[n - 1].commit, test) then Some(prefixes[n - 1].name)
    else LastWith(prefixes, n - 1, test, s)
  }

  function AloneOverBase(prefixes: seq<Prefix>, i: nat, test: string, s: Suite): Alone
    requires 0 < |prefixes|
    requires i < |prefixes| && prefixes[i].entry.Some?
  {
    if i == 1 then NotAsked
    else
      match s.merge(prefixes[0].commit, prefixes[i].entry.value.commit)
      case Conflict(paths) => ConflictsAlone(paths)
      case Merged(commit) =>
        if !s.has(commit, test) then AbsentAlone
        else if s.check(commit, [test]) != [] then FailsAlone else PassesAlone
  }

  /** What there is to say about a failing test. */
  function Verdict(prefixes: seq<Prefix>, test: string, s: Suite, fails: (Commit, string) -> bool): Finding
    requires Chained(prefixes, s.merge)
  {
    var i := FirstShown(prefixes, 0, test, s, fails);
    if i == |prefixes| then NotRepeated(test)
    else if i == 0 then OnBase(test, prefixes[0].name)
    else FirstFails(test, prefixes[i].entry.value, prefixes[i].name, LastWith(prefixes, i, test, s), AloneOverBase(prefixes, i, test, s))
  }

  function Remove(s: seq<string>, t: string): (r: seq<string>)
    requires t in s
    ensures |r| == |s| - 1 && forall x :: x in r ==> x in s
    ensures Distinct(s) ==> Distinct(r) && forall x :: x in r <==> x in s && x != t
  {
    assert s == [s[0]] + s[1..];
    if s[0] == t then s[1..]
    else
      var rest := Remove(s[1..], t);
      assert Distinct(s) ==> s[0] !in s[1..] && s[0] !in rest;
      [s[0]] + rest
  }

  /** The gate's clone: checks see the commit that is checked out. */
  class Gate {
    var tree: Commit

    constructor (tree: Commit)
      ensures this.tree == tree
    {
      this.tree := tree;
    }

    method Checkout(commit: Commit)
      modifies this
      ensures tree == commit
    {
      tree := commit;
    }

    method AloneOver(stack: Stack, i: nat, test: string, s: Suite) returns (r: Alone)
      requires 1 < i < |stack.prefixes| && stack.prefixes[i].entry.Some?
      modifies this
      ensures r == AloneOverBase(stack.prefixes, i, test, s)
    {
      match s.merge(stack.prefixes[0].commit, stack.prefixes[i].entry.value.commit)
      case Conflict(paths) => return ConflictsAlone(paths);
      case Merged(commit) =>
        Checkout(commit);
        if !s.has(tree, test) {
          return AbsentAlone;
        }
        r := if s.check(tree, [test]) != [] then FailsAlone else PassesAlone;
    }

    method Blame(stack: Stack, i: nat, test: string, passedOn: Option<string>, s: Suite, ghost fails: (Commit, string) -> bool) returns (f: Finding)
      requires Chained(stack.prefixes, s.merge) && i < |stack.prefixes| && FirstShown(stack.prefixes, 0, test, s, fails) == i
      requires passedOn == LastWith(stack.prefixes, i, test, s)
      modifies this
      ensures f == Verdict(stack.prefixes, test, s, fails) && f.test == test
    {
      var prefix := stack.prefixes[i];
      if prefix.entry.None? {
        return OnBase(test, prefix.name);
      }
      var alone := NotAsked;
      if i != 1 {
        alone := AloneOver(stack, i, test, s);
      }
      f := FirstFails(test, prefix.entry.value, prefix.name, passedOn, alone);
    }

    method BlameAll(stack: Stack, i: nat, failedHere: seq<string>, left: seq<string>, passedOn: map<string, Option<string>>, s: Suite,
        ghost fails: (Commit, string) -> bool) returns (findings: seq<Finding>, remaining: seq<string>)
      requires Chained(stack.prefixes, s.merge) && i < |stack.prefixes| && Distinct(left) && Distinct(failedHere)
      requires forall t :: t in failedHere ==> t in left && FirstShown(stack.prefixes, 0, t, s, fails) == i
      requires forall t :: t in failedHere ==> t in passedOn && passedOn[t] == LastWith(stack.prefixes, i, t, s)
      modifies this
      ensures Verdicts(findings, failedHere, stack.prefixes, s, fails) && Distinct(remaining)
      ensures |findings| + |remaining| == |left| && forall t :: t in remaining <==> t in left && t !in failedHere
    {
      findings, remaining := [], left;
      for k := 0 to |failedHere|
        invariant Verdicts(findings, failedHere[..k], stack.prefixes, s, fails) && Distinct(remaining)
        invariant |findings| + |remaining| == |left| && forall t :: t in remaining <==> t in left && t !in failedHere[..k]
      {
        var test := failedHere[k];
        assert failedHere[..k + 1] == failedHere[..k] + [test] && test !in failedHere[..k];
        remaining := Remove(remaining, test);
        var f := Blame(stack, i, test, passedOn[test], s, fails);
        findings := findings + [f];
      }
      assert failedHere[..|failedHere|] == failedHere;
    }

    /** What failed before, repeated on one more prefix. */
    method TryPrefix(stack: Stack, i: nat, ghost failing: seq<string>, remaining: seq<string>, passedOn: map<string, Option<string>>, s: Suite,
        ghost fails: (Commit, string) -> bool)
      returns (more: seq<Finding>, left: seq<string>, passed: map<string, Option<string>>, ghost failedHere: seq<string>)
      requires Chained(stack.prefixes, s.merge) && i < |stack.prefixes| && Deterministic(s, fails)
      requires Searching(stack.prefixes, i, failing, remaining, passedOn, s, fails)
      modifies this
      ensures Searching(stack.prefixes, i + 1, failing, left, passed, s, fails) && |more| + |left| == |remaining|
      ensures Verdicts(more, failedHere, stack.prefixes, s, fails)
      ensures forall t :: t in failedHere <==> t in failing && FirstShown(stack.prefixes, 0, t, s, fails) == i
    {
      var prefix := stack.prefixes[i];
      Checkout(prefix.commit);
      var present := Present(remaining, tree, s);
      var failed := [];
      if present != [] {
        failed := StillFailing(present, s.check(tree, present));
      }
      failedHere := failed;
      FailedHereAreShown(stack, i, failing, remaining, present, failed, s, fails);
      more, left := BlameAll(stack, i, failed, remaining, passedOn, s, fails);
      passed := Passed(passedOn, present, failed, prefix.name);
      SearchGoesOn(stack.prefixes, i, failing, remaining, left, passedOn, passed, present, failed, s, fails);
    }

    /**
     * Every failing test gets exactly one finding: the first prefix on which it exists and
     * fails, or that it did not repeat.
     */
    method NameEntries(stack: Stack, failing: seq<string>, s: Suite, ghost fails: (Commit, string) -> bool) returns (findings: seq<Finding>)
      requires Chained(stack.prefixes, s.merge) && Distinct(failing) && Deterministic(s, fails)
      modifies this
      ensures |findings| == |failing| && Verdicts(findings, failing, stack.prefixes, s, fails)
    {
      findings := [];
      var remaining := failing;
      var passedOn: map<string, Option<string>> := map t | t in failing :: None;
      var i := 0;
      while i < |stack.prefixes| && remaining != []
        invariant i <= |stack.prefixes| && |findings| + |remaining| == |failing|
        invariant Searching(stack.prefixes, i, failing, remaining, passedOn, s, fails)
        invariant DoneBefore(findings, failing, i, stack.prefixes, s, fails)
      {
        var more;
        ghost var failedHere;
        more, remaining, passedOn, failedHere := TryPrefix(stack, i, failing, remaining, passedOn, s, fails);
        MoreDone(findings, more, failing, failedHere, i, stack.prefixes, s, fails);
        findings := findings + more;
        i := i + 1;
      }
      ghost var before := findings;
      var last := NotRepeatedOnes(remaining, stack, s, fails);
      findings := findings + last;
      AllDone(before, last, failing, remaining, i, stack.prefixes, s, fails);
    }
  }

  method Present(tests: seq<string>, commit: Commit, s: Suite) returns (present: seq<string>)
    requires Distinct(tests)
    ensures Distinct(present) && forall t :: t in present <==> t in tests && s.has(commit, t)
  {
    present := [];
    for k := 0 to |tests|
      invariant Distinct(present) && forall t :: t in present <==> t in tests[..k] && s.has(commit, t)
    {
      assert tests[..k + 1] == tests[..k] + [tests[k]];
      if s.has(commit, tests[k]) {
        present := present + [tests[k]];
      }
    }
    assert tests[..|tests|] == tests;
  }

  method Passed(passedOn: map<string, Option<string>>, present: seq<string>, failedHere: seq<string>, name: string) returns (r: map<string, Option<string>>)
    ensures forall t :: t in passedOn ==> t in r
    ensures forall t :: t in r ==> if t in present && t !in failedHere then r[t] == Some(name) else t in passedOn && r[t] == passedOn[t]
  {
    r := passedOn;
    for k := 0 to |present|
      invariant forall t :: t in r <==> t in passedOn || (t in present[..k] && t !in failedHere)
      invariant forall t :: t in r ==> if t in present[..k] && t !in failedHere then r[t] == Some(name) else t in passedOn && r[t] == passedOn[t]
    {
      assert present[..k + 1] == present[..k] + [present[k]];
      if present[k] !in failedHere {
        r := r[present[k] := Some(name)];
      }
    }
    assert present[..|present|] == present;
  }

  method NotRepeatedOnes(remaining: seq<string>, stack: Stack, s: Suite, ghost fails: (Commit, string) -> bool) returns (findings: seq<Finding>)
    requires Chained(stack.prefixes, s.merge)
    requires forall t :: t in remaining ==> FirstShown(stack.prefixes, 0, t, s, fails) == |stack.prefixes|
    ensures |findings| == |remaining| && Verdicts(findings, remaining, stack.prefixes, s, fails)
  {
    findings := [];
    for k := 0 to |remaining|
      invariant |findings| == k && Verdicts(findings, remaining[..k], stack.prefixes, s, fails)
    {
      assert remaining[..k + 1] == remaining[..k] + [remaining[k]];
      findings := findings + [NotRepeated(remaining[k])];
    }
    assert remaining[..|remaining|] == remaining;
  }

  // ---------- the steps of the search ----------

  /** Exactly the verdicts on these tests. */
  ghost predicate Verdicts(findings: seq<Finding>, tests: seq<string>, prefixes: seq<Prefix>, s: Suite, fails: (Commit, string) -> bool)
    requires Chained(prefixes, s.merge)
  {
    && (forall f :: f in findings ==> f.test in tests && f == Verdict(prefixes, f.test, s, fails))
    && (forall t :: t in tests ==> Verdict(prefixes, t, s, fails) in findings)
  }

  ghost predicate DoneBefore(findings: seq<Finding>, failing: seq<string>, i: nat, prefixes: seq<Prefix>, s: Suite, fails: (Commit, string) -> bool)
    requires Chained(prefixes, s.merge)
  {
    && (forall f :: f in findings ==> f.test in failing && f == Verdict(prefixes, f.test, s, fails))
    && (forall t :: t in failing && FirstShown(prefixes, 0, t, s, fails) < i ==> Verdict(prefixes, t, s, fails) in findings)
  }

  /** The tests not yet shown to fail, each with the last prefix it passed on. */
  ghost predicate Searching(prefixes: seq<Prefix>, i: nat, failing: seq<string>, remaining: seq<string>, passedOn: map<string, Option<string>>,
      s: Suite, fails: (Commit, string) -> bool)
  {
    && i <= |prefixes| && Distinct(remaining)
    && (forall t :: t in remaining <==> t in failing && FirstShown(prefixes, 0, t, s, fails) >= i)
    && (forall t :: t in remaining ==> t in passedOn && passedOn[t] == LastWith(prefixes, i, t, s))
  }

  lemma SearchGoesOn(prefixes: seq<Prefix>, i: nat, failing: seq<string>, remaining: seq<string>, left: seq<string>,
      passedOn: map<string, Option<string>>, passed: map<string, Option<string>>, present: seq<string>, failedHere: seq<string>,
      s: Suite, fails: (Commit, string) -> bool)
    requires i < |prefixes| && Searching(prefixes, i, failing, remaining, passedOn, s, fails) && Distinct(left)
    requires forall t :: t in left <==> t in remaining && t !in failedHere
    requires forall t :: t in present <==> t in remaining && s.has(prefixes[i].commit, t)
    requires forall t :: t in failedHere <==> t in failing && FirstShown(prefixes, 0, t, s, fails) == i
    requires forall t :: t in passedOn ==> t in passed
    requires forall t :: t in passed ==> if t in present && t !in failedHere then passed[t] == Some(prefixes[i].name) else t in passedOn && passed[t] == passedOn[t]
    ensures Searching(prefixes, i + 1, failing, left, passed, s, fails)
  {
    forall t ensures t in left <==> t in failing && FirstShown(prefixes, 0, t, s, fails) >= i + 1 {
    }
    forall t | t in left ensures t in passed && passed[t] == LastWith(prefixes, i + 1, t, s) {
      assert passedOn[t] == LastWith(prefixes, i, t, s);
    }
  }

  lemma FailedHereAreShown(stack: Stack, i: nat, failing: seq<string>, remaining: seq<string>, present: seq<string>, failedHere: seq<string>,
      s: Suite, fails: (Commit, string) -> bool)
    requires i < |stack.prefixes| && Deterministic(s, fails)
    requires forall t :: t in remaining <==> t in failing && FirstShown(stack.prefixes, 0, t, s, fails) >= i
    requires forall t :: t in present <==> t in remaining && s.has(stack.prefixes[i].commit, t)
    requires forall t :: t in failedHere <==> t in present && Reports(s.check(stack.prefixes[i].commit, present), t)
    ensures forall t :: t in failedHere <==> t in failing && FirstShown(stack.prefixes, 0, t, s, fails) == i
    ensures forall t :: t in present && t !in failedHere ==> s.has(stack.prefixes[i].commit, t)
  {
    var c := stack.prefixes[i].commit;
    forall t ensures t in failedHere <==> t in failing && FirstShown(stack.prefixes, 0, t, s, fails) == i {
      if t in present {
        assert Reports(s.check(c, present), t) <==> fails(c, t);
      }
      if t in remaining {
        assert Shows(stack.prefixes[i], t, s, fails) <==> t in failedHere;
      }
    }
  }

  lemma MoreDone(findings: seq<Finding>, more: seq<Finding>, failing: seq<string>, failedHere: seq<string>, i: nat, prefixes: seq<Prefix>,
      s: Suite, fails: (Commit, string) -> bool)
    requires Chained(prefixes, s.merge) && DoneBefore(findings, failing, i, prefixes, s, fails) && Verdicts(more, failedHere, prefixes, s, fails)
    requires forall t :: t in failedHere <==> t in failing && FirstShown(prefixes, 0, t, s, fails) == i
    ensures DoneBefore(findings + more, failing, i + 1, prefixes, s, fails)
  {
    forall t | t in failing && FirstShown(prefixes, 0, t, s, fails) < i + 1 ensures Verdict(prefixes, t, s, fails) in findings + more {
      assert FirstShown(prefixes, 0, t, s, fails) == i ==> t in failedHere;
    }
  }

  lemma AllDone(before: seq<Finding>, last: seq<Finding>, failing: seq<string>, remaining: seq<string>, i: nat, prefixes: seq<Prefix>,
      s: Suite, fails: (Commit, string) -> bool)
    requires Chained(prefixes, s.merge) && DoneBefore(before, failing, i, prefixes, s, fails) && Verdicts(last, remaining, prefixes, s, fails)
    requires forall t :: t in remaining <==> t in failing && FirstShown(prefixes, 0, t, s, fails) >= i
    ensures Verdicts(before + last, failing, prefixes, s, fails)
  {
    forall t | t in failing ensures Verdict(prefixes, t, s, fails) in before + last {
      assert FirstShown(prefixes, 0, t, s, fails) >= i ==> t in remaining;
    }
  }
}
