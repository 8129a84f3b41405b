/**
 * The lifecycle of a tier's finding rows over any sequence of runs, and of hand edits of the
 * table between them.
 */
module TierIssues {
  import opened Options
  import opened TierTable
  import Ordering

  const RUN_KEY := "run"

  datatype Report = Report(findings: map<string, Finding>, passed: set<string>, problems: seq<string>, exhaustive: bool)

  datatype Action = Write(kind: Kind, finding: Finding) | Close(key: string)
  datatype Kind = OpenNew | Update

  /** Whether a run proved anything about what it did not find. */
  predicate Finished(tier: string, result: string, report: Report) {
    report.problems == [] && (result == "success" || (tier == "faults" && report.findings != map[]))
  }

  function Reasons(problems: seq<string>): string {
    if problems == [] then ""
    else if |problems| == 1 then problems[0]
    else problems[0] + "\n" + Reasons(problems[1..])
  }

  function RunFinding(result: string, report: Report): Finding {
    var reasons :=
      if report.problems == [] then "the job ended " + result + ", and its report does not explain why"
      else Reasons(report.problems);
    Finding(RUN_KEY, "did not finish", reasons, "")
  }

  function Wanted(tier: string, result: string, report: Report): map<string, Finding> {
    if Finished(tier, result, report) then report.findings
    else report.findings[RUN_KEY := RunFinding(result, report)]
  }

  /** A finding's key is 16 hexadecimal digits of a hash, so it is never the run's. */
  predicate HashKey(key: string) {
    |key| == 16 && forall c :: c in key ==> KeyCharacter(c)
  }

  predicate ReportValid(report: Report) {
    forall key :: key in report.findings ==> HashKey(key) && report.findings[key].key == key
  }

  datatype Event =
    | Tracked(run: Run, result: string, report: Report)
    | Edited(row: Row)

  predicate EventValid(e: Event) {
    e.Tracked? ==> ReportValid(e.report) && (e.run.tier == "fuzz" || e.run.tier == "faults")
  }

  function WantedBy(e: Event): map<string, Finding>
    requires e.Tracked?
  {
    Wanted(e.run.tier, e.result, e.report)
  }

  predicate Finds(e: Event, key: string) {
    e.Tracked? && key in WantedBy(e)
  }

  /** A finished run that did not find the key and knows it would have. */
  predicate Clears(e: Event, key: string) {
    && e.Tracked? && Finished(e.run.tier, e.result, e.report) && key !in WantedBy(e)
    && (key == RUN_KEY || key in e.report.passed || e.report.exhaustive)
  }

  function CarriedFirst(body: string, run: Run): string {
    if FirstSeen(body) == "" then run.Seen() else FirstSeen(body)
  }

  /** What becomes of one row. */
  function NextRow(rows: map<string, Row>, key: string, e: Event): Option<Row>
    requires e.Tracked?
  {
    if Finds(e, key) then
      if key !in rows then Some(Row(key, Open, RowOf(WantedBy(e)[key], e.run, e.run.Seen())))
      else if rows[key].status.Open? then Some(Row(key, Open, RowOf(WantedBy(e)[key], e.run, CarriedFirst(rows[key].body, e.run))))
      else Some(rows[key])
    else if key !in rows || (rows[key].status.Open? && Clears(e, key)) then None
    else Some(rows[key])
  }

  function Next(rows: map<string, Row>, e: Event): map<string, Row> {
    match e
    case Edited(row) => if row.key in rows then rows[row.key := row] else rows
    case Tracked(_, _, _) =>
      map key | key in rows.Keys + WantedBy(e).Keys && NextRow(rows, key, e).Some? :: NextRow(rows, key, e).value
  }

  // ---------- planning and applying ----------

  function Apply(rows: map<string, Row>, a: Action, run: Run): map<string, Row> {
    match a
    case Close(key) => rows - {key}
    case Write(_, f) =>
      var first := if f.key in rows then CarriedFirst(rows[f.key].body, run) else run.Seen();
      rows[f.key := Row(f.key, Open, RowOf(f, run, first))]
  }

  function ApplyAll(rows: map<string, Row>, actions: seq<Action>, run: Run): map<string, Row>
    decreases |actions|
  {
    if actions == [] then rows
    else Apply(ApplyAll(rows, actions[..|actions| - 1], run), actions[|actions| - 1], run)
  }

  lemma ApplyOneMore(rows: map<string, Row>, actions: seq<Action>, a: Action, run: Run)
    ensures ApplyAll(rows, actions + [a], run) == Apply(ApplyAll(rows, actions, run), a, run)
  {
    assert (actions + [a])[..|actions|] == actions;
  }

  /** The rows when only the keys in `done` have been dealt with. */
  ghost predicate Reached(m: map<string, Row>, rows: map<string, Row>, done: set<string>, e: Event)
    requires e.Tracked?
  {
    forall key :: AsReached(m, rows, done, e, key)
  }

  predicate AsReached(m: map<string, Row>, rows: map<string, Row>, done: set<string>, e: Event, key: string)
    requires e.Tracked?
  {
    Outcome(m, key) == if key in done then NextRow(rows, key, e) else Outcome(rows, key)
  }

  function Outcome(m: map<string, Row>, key: string): Option<Row> {
    if key in m then Some(m[key]) else None
  }

  lemma WriteReaches(m: map<string, Row>, rows: map<string, Row>, done: set<string>, key: string, kind: Kind, e: Event)
    requires EventValid(e) && e.Tracked? && Keyed(rows) && Reached(m, rows, done, e)
    requires Finds(e, key) && key !in done && (key in rows ==> rows[key].status.Open?)
    ensures Reached(Apply(m, Write(kind, WantedBy(e)[key]), e.run), rows, done + {key}, e)
  {
    assert WantedBy(e)[key].key == key;
    assert AsReached(m, rows, done, e, key);
    var m' := Apply(m, Write(kind, WantedBy(e)[key]), e.run);
    forall k ensures AsReached(m', rows, done + {key}, e, k) {
      assert AsReached(m, rows, done, e, k);
      assert k != key ==> Outcome(m', k) == Outcome(m, k);
    }
  }

  lemma NothingReaches(m: map<string, Row>, rows: map<string, Row>, done: set<string>, key: string, e: Event)
    requires e.Tracked? && Reached(m, rows, done, e) && NextRow(rows, key, e) == Outcome(rows, key)
    ensures Reached(m, rows, done + {key}, e)
  {
    forall k ensures AsReached(m, rows, done + {key}, e, k) {
      assert AsReached(m, rows, done, e, k);
    }
  }

  lemma CloseReaches(m: map<string, Row>, rows: map<string, Row>, done: set<string>, key: string, e: Event)
    requires e.Tracked? && Reached(m, rows, done, e) && NextRow(rows, key, e) == None
    ensures Reached(m - {key}, rows, done + {key}, e)
  {
    forall k ensures AsReached(m - {key}, rows, done + {key}, e, k) {
      assert AsReached(m, rows, done, e, k);
      assert k != key ==> Outcome(m - {key}, k) == Outcome(m, k);
    }
  }

  lemma ReachedIsNext(m: map<string, Row>, rows: map<string, Row>, done: set<string>, e: Event)
    requires e.Tracked? && Reached(m, rows, done, e)
    requires forall key :: key !in done ==> NextRow(rows, key, e) == Outcome(rows, key)
    ensures m == Next(rows, e)
  {
    forall key ensures Outcome(m, key) == NextRow(rows, key, e) {
      assert AsReached(m, rows, done, e, key);
    }
    forall key ensures key in m <==> key in Next(rows, e) {
      assert Outcome(m, key).Some? <==> key in m;
    }
    forall key | key in m ensures m[key] == Next(rows, e)[key] {
      assert Outcome(m, key) == Some(m[key]);
    }
  }

  function Taken(keys: seq<string>, n: nat): set<string>
    requires n <= |keys|
  {
    if n == 0 then {} else Taken(keys, n - 1) + {keys[n - 1]}
  }

  lemma {:induction false} TakenHas(keys: seq<string>, n: nat)
    requires n <= |keys|
    ensures forall key :: key in Taken(keys, n) <==> key in keys[..n]
  {
    if n > 0 {
      TakenHas(keys, n - 1);
      assert keys[..n] == keys[..n - 1] + [keys[n - 1]];
    }
  }

  lemma TakenWith(before: set<string>, keys: seq<string>, n: nat)
    requires n < |keys|
    ensures before + Taken(keys, n) <= before + Taken(keys, n + 1) == before + Taken(keys, n) + {keys[n]}
  {
  }

  lemma TakenAll(keys: seq<string>, all: set<string>)
    requires forall key :: key in keys <==> key in all
    ensures Taken(keys, |keys|) == all
  {
    TakenHas(keys, |keys|);
    assert keys[..|keys|] == keys;
  }

  method PlanWanted(rows: map<string, Row>, run: Run, result: string, report: Report, key: string, finding: Finding,
      planned: seq<Action>, ghost dealt: set<string>) returns (actions: seq<Action>)
    requires EventValid(Tracked(run, result, report)) && Keyed(rows) && key !in dealt
    requires key in Wanted(run.tier, result, report) && finding == Wanted(run.tier, result, report)[key]
    requires Reached(ApplyAll(rows, planned, run), rows, dealt, Tracked(run, result, report))
    ensures Reached(ApplyAll(rows, actions, run), rows, dealt + {key}, Tracked(run, result, report))
  {
    ghost var e := Tracked(run, result, report);
    actions := planned;
    if key !in rows || rows[key].status.Open? {
      var kind := if key in rows then Update else OpenNew;
      WriteReaches(ApplyAll(rows, planned, run), rows, dealt, key, kind, e);
      ApplyOneMore(rows, planned, Write(kind, finding), run);
      actions := actions + [Write(kind, finding)];
    } else {
      NothingReaches(ApplyAll(rows, planned, run), rows, dealt, key, e);
    }
  }

  method PlanKnown(rows: map<string, Row>, run: Run, result: string, report: Report, key: string,
      planned: seq<Action>, ghost dealt: set<string>) returns (actions: seq<Action>)
    requires Finished(run.tier, result, report) && key in rows && report.findings.Keys <= dealt
    requires Reached(ApplyAll(rows, planned, run), rows, dealt, Tracked(run, result, report))
    ensures Reached(ApplyAll(rows, actions, run), rows, dealt + {key}, Tracked(run, result, report))
  {
    ghost var e := Tracked(run, result, report);
    actions := planned;
    if key in report.findings {
      assert dealt + {key} == dealt;
    } else if rows[key].status.Open? && (key == RUN_KEY || key in report.passed || report.exhaustive) {
      CloseReaches(ApplyAll(rows, planned, run), rows, dealt, key, e);
      ApplyOneMore(rows, planned, Close(key), run);
      actions := actions + [Close(key)];
    } else {
      NothingReaches(ApplyAll(rows, planned, run), rows, dealt, key, e);
    }
  }

  /** What the actions come to, applied in order, is each row's own lifecycle. */
  method Plan(rows: map<string, Row>, run: Run, result: string, report: Report) returns (actions: seq<Action>)
    requires EventValid(Tracked(run, result, report)) && Keyed(rows)
    ensures ApplyAll(rows, actions, run) == Next(rows, Tracked(run, result, report))
  {
    ghost var e := Tracked(run, result, report);
    var done := Finished(run.tier, result, report);
    var wanted := report.findings;
    if !done {
      wanted := wanted[RUN_KEY := RunFinding(result, report)];
    }
    actions := [];
    var keys := Ordering.SortedKeys(wanted.Keys);
    for i := 0 to |keys|
      invariant Reached(ApplyAll(rows, actions, run), rows, Taken(keys, i), e)
    {
      TakenHas(keys, i);
      actions := PlanWanted(rows, run, result, report, keys[i], wanted[keys[i]], actions, Taken(keys, i));
    }
    TakenAll(keys, wanted.Keys);
    ghost var dealt := wanted.Keys;
    if done {
      actions := PlanClosing(rows, run, result, report, actions);
      dealt := dealt + rows.Keys;
    }
    ReachedIsNext(ApplyAll(rows, actions, run), rows, dealt, e);
  }

  method PlanClosing(rows: map<string, Row>, run: Run, result: string, report: Report, planned: seq<Action>) returns (actions: seq<Action>)
    requires Finished(run.tier, result, report)
    requires Reached(ApplyAll(rows, planned, run), rows, report.findings.Keys, Tracked(run, result, report))
    ensures Reached(ApplyAll(rows, actions, run), rows, report.findings.Keys + rows.Keys, Tracked(run, result, report))
  {
    ghost var e := Tracked(run, result, report);
    ghost var dealt := report.findings.Keys;
    actions := planned;
    var keys := Ordering.SortedKeys(rows.Keys);
    for i := 0 to |keys|
      invariant dealt == report.findings.Keys + Taken(keys, i)
      invariant Reached(ApplyAll(rows, actions, run), rows, dealt, e)
    {
      var key := keys[i];
      actions := PlanKnown(rows, run, result, report, key, actions, dealt);
      TakenWith(report.findings.Keys, keys, i);
      dealt := dealt + {key};
    }
    TakenAll(keys, rows.Keys);
  }

  /** The tier's one rolling issue. */
  class RollingIssue {
    const prose: seq<string>
    const migrated: seq<string>
    var created: bool
    var open: bool
    var body: string

    constructor (prose: seq<string>, migrated: seq<string>)
      ensures this.prose == prose && this.migrated == migrated && !created && !open && body == ""
    {
      this.prose, this.migrated := prose, migrated;
      created, open, body := false, false, "";
    }

    /** The issue shows these rows, and is open while one of them is. */
    ghost predicate Shows(tier: string, rows: map<string, Row>)
      reads this
    {
      && (exists keys :: Lists(keys, rows) && body == RollingBody(tier, prose, keys, rows, migrated))
      && (open <==> exists key :: key in rows && rows[key].status.Open?)
    }

    /** Brings the table up to date with one tracked run; a table it cannot read stops it. */
    method Reconcile(run: Run, result: string, report: Report) returns (ok: bool)
      requires EventValid(Tracked(run, result, report))
      modifies this
      ensures ok <==> old(ReadRows(body, run.tier)).Rows?
      ensures !ok ==> unchanged(this)
      ensures ok ==> var rows := Next(old(ReadRows(body, run.tier)).rows, Tracked(run, result, report));
        if rows == map[] && !old(created) && migrated == [] then unchanged(this) else created && Shows(run.tier, rows)
    {
      var table := ReadRows(body, run.tier);
      if table.Unreadable? {
        return false;
      }
      ReadRowsAreKeyed(Lines(body), run.tier, map[]);
      var rows := table.rows;
      var actions := Plan(rows, run, result, report);
      rows := ApplyEach(rows, actions, run);
      if rows == map[] && !created && migrated == [] {
        return true;
      }
      var keys := Ordering.SortedKeys(rows.Keys);
      body := RollingBody(run.tier, prose, keys, rows, migrated);
      assert Lists(keys, rows);
      open := exists key | key in rows.Keys :: rows[key].status.Open?;
      created := true;
      ok := true;
    }
  }

  method ApplyEach(start: map<string, Row>, actions: seq<Action>, run: Run) returns (rows: map<string, Row>)
    ensures rows == ApplyAll(start, actions, run)
  {
    rows := start;
    for i := 0 to |actions|
      invariant rows == ApplyAll(start, actions[..i], run)
    {
      assert actions[..i + 1] == actions[..i] + [actions[i]];
      ApplyOneMore(start, actions[..i], actions[i], run);
      match actions[i] {
        case Close(key) =>
          rows := rows - {key};
        case Write(_, f) =>
          var first := if f.key in rows then CarriedFirst(rows[f.key].body, run) else run.Seen();
          rows := rows[f.key := Row(f.key, Open, RowOf(f, run, first))];
      }
    }
    assert actions[..|actions|] == actions;
  }

  lemma {:induction false} ReadRowsAreKeyed(lines: seq<string>, tier: string, rows: map<string, Row>)
    requires Keyed(rows)
    ensures ReadLines(lines, tier, rows).Rows? ==> Keyed(ReadLines(lines, tier, rows).rows)
    decreases |lines|
  {
    if lines != [] {
      match ReadLine(lines[0], tier)
      case NotARow => ReadRowsAreKeyed(lines[1..], tier, rows);
      case Malformed =>
      case Found(row) => ReadRowsAreKeyed(lines[1..], tier, rows[row.key := row]);
    }
  }

  // ---------- any sequence of runs ----------

  function After(rows: map<string, Row>, events: seq<Event>): map<string, Row>
    decreases |events|
  {
    if events == [] then rows else Next(After(rows, events[..|events| - 1]), events[|events| - 1])
  }

  predicate NotEdited(events: seq<Event>, key: string) {
    forall i :: 0 <= i < |events| && events[i].Edited? ==> events[i].row.key != key
  }

  /** Found, and not since then missed by a finished run that knew it would have found it. */
  predicate Outstanding(events: seq<Event>, key: string) {
    exists i :: 0 <= i < |events| && Finds(events[i], key) && NotCleared(events[i + 1..], key)
  }

  predicate NotCleared(events: seq<Event>, key: string) {
    forall i :: 0 <= i < |events| ==> !Clears(events[i], key)
  }

  lemma StillOutstanding(events: seq<Event>, e: Event, key: string)
    requires Finds(e, key) || (Outstanding(events, key) && !Clears(e, key))
    ensures Outstanding(events + [e], key)
  {
    var all := events + [e];
    if Finds(e, key) {
      assert Finds(all[|events|], key) && NotCleared(all[|events| + 1..], key);
    } else {
      var i :| 0 <= i < |events| && Finds(events[i], key) && NotCleared(events[i + 1..], key);
      assert all[i + 1..] == events[i + 1..] + [e];
      assert Finds(all[i], key) && NotCleared(all[i + 1..], key);
    }
  }

  lemma WasOutstanding(events: seq<Event>, e: Event, key: string)
    requires Outstanding(events + [e], key) && !Finds(e, key)
    ensures Outstanding(events, key) && !Clears(e, key)
  {
    var all := events + [e];
    var i :| 0 <= i < |all| && Finds(all[i], key) && NotCleared(all[i + 1..], key);
    var later := events[i + 1..];
    assert i < |events| && all[i + 1..] == later + [e];
    assert forall j :: 0 <= j < |later| ==> later[j] == all[i + 1..][j];
    assert all[i + 1..][|later|] == e;
    assert Finds(events[i], key) && NotCleared(later, key);
  }

  lemma OutstandingStep(events: seq<Event>, e: Event, key: string)
    ensures Outstanding(events + [e], key) <==> Finds(e, key) || (Outstanding(events, key) && !Clears(e, key))
  {
    if Finds(e, key) || (Outstanding(events, key) && !Clears(e, key)) {
      StillOutstanding(events, e, key);
    } else if Outstanding(events + [e], key) {
      WasOutstanding(events, e, key);
    }
  }

  /** From an empty table, a row nobody edits is there, and open, exactly while outstanding. */
  lemma {:induction false} OpenExactlyWhileOutstanding(events: seq<Event>, key: string)
    requires NotEdited(events, key)
    ensures key in After(map[], events) <==> Outstanding(events, key)
    ensures key in After(map[], events) ==> After(map[], events)[key].status.Open?
    decreases |events|
  {
    if events != [] {
      var before, e := events[..|events| - 1], events[|events| - 1];
      assert events == before + [e];
      OpenExactlyWhileOutstanding(before, key);
      OutstandingStep(before, e, key);
    }
  }

  /** The "did not finish" row shows how the last tracked run ended, unless someone ignores it. */
  lemma RunRowShowsTheLastRun(rows: map<string, Row>, e: Event)
    requires e.Tracked? && EventValid(e) && (RUN_KEY in rows ==> rows[RUN_KEY].status.Open?)
    ensures RUN_KEY in Next(rows, e) <==> !Finished(e.run.tier, e.result, e.report)
    ensures RUN_KEY in Next(rows, e) ==> Next(rows, e)[RUN_KEY].status.Open?
  {
    assert RUN_KEY !in e.report.findings;
  }

  /** The last tracked run, if there has been one. */
  function LastRun(events: seq<Event>): Option<Event> {
    if events == [] then None
    else if events[|events| - 1].Tracked? then Some(events[|events| - 1])
    else LastRun(events[..|events| - 1])
  }

  /** Over any runs, that row is there, and open, exactly when the last of them was unfinished. */
  lemma {:induction false} RunRowOverRuns(events: seq<Event>)
    requires NotEdited(events, RUN_KEY) && forall e :: e in events ==> EventValid(e)
    ensures var last := LastRun(events); last.Some? ==> last.value.Tracked?
    ensures var last := LastRun(events);
      RUN_KEY in After(map[], events) <==> last.Some? && !Finished(last.value.run.tier, last.value.result, last.value.report)
    ensures RUN_KEY in After(map[], events) ==> After(map[], events)[RUN_KEY].status.Open?
    decreases |events|
  {
    if events != [] {
      var before, e := events[..|events| - 1], events[|events| - 1];
      assert e in events;
      RunRowOverRuns(before);
      if e.Tracked? {
        RunRowShowsTheLastRun(After(map[], before), e);
      }
    }
  }

  /** An ignored row stays, letter for letter, whatever the runs find. */
  lemma {:induction false} IgnoredStays(rows: map<string, Row>, events: seq<Event>, key: string)
    requires key in rows && rows[key].status.Ignored? && NotEdited(events, key)
    ensures key in After(rows, events) && After(rows, events)[key] == rows[key]
    decreases |events|
  {
    if events != [] {
      IgnoredStays(rows, events[..|events| - 1], key);
    }
  }

  // ---------- the text between the runs ----------

  /** A run whose words leave the table readable. */
  predicate PlainEvent(e: Event) {
    match e
    case Edited(row) => true
    case Tracked(run, _, _) =>
      PlainRun(run) && forall key :: key in WantedBy(e) ==> NewlinesOnly(WantedBy(e)[key].detail) && NewlinesOnly(WantedBy(e)[key].replay)
  }

  /** An edit that leaves its row a row. */
  predicate EventIsReadable(e: Event, tier: string) {
    PlainEvent(e) && EventValid(e) && (if e.Tracked? then e.run.tier == tier else Clean(e.row, tier))
  }

  ghost predicate AllClean(rows: map<string, Row>, tier: string) {
    Keyed(rows) && (forall key :: key in rows ==> Clean(rows[key], tier) && Plain(FirstSeen(rows[key].body)))
  }

  lemma KeysAreWords(e: Event, key: string)
    requires EventValid(e) && Finds(e, key)
    ensures MarkerWords(e.run.tier, key) && WantedBy(e)[key].key == key
  {
    if key == RUN_KEY {
    } else {
      assert HashKey(key);
    }
  }

  lemma FirstSeenIsPlain(body: string)
    requires OneLine(body)
    ensures Plain(FirstSeen(body))
  {
    if |Cells(body)| > 3 {
      CellsArePlain(body);
      var first := Cells(body)[3];
      assert first in Cells(body) && Plain(first);
      StripIsPart(first);
    }
  }

  lemma {:induction false} CellsArePlain(s: string)
    requires OneLine(s)
    ensures forall c :: c in Cells(s) ==> Plain(c)
  {
    if s == "" {
    } else {
      CellsArePlain(s[1..]);
      assert s[0] in s;
      var rest := Cells(s[1..]);
      if s[0] != '|' {
        PlainParts([s[0]], rest[0]);
        assert Plain([s[0]]) && rest[0] in rest;
        assert forall c :: c in rest[1..] ==> c in rest;
      }
    }
  }

  lemma StripIsPart(s: string)
    ensures forall c :: c in Strip(s) ==> c in s
  {
    StripLeftIsPart(s);
    StripRightIsPart(StripLeft(s));
  }

  lemma {:induction false} StripLeftIsPart(s: string)
    ensures forall c :: c in StripLeft(s) ==> c in s
  {
    if s != "" && Space(s[0]) {
      StripLeftIsPart(s[1..]);
    }
  }

  lemma {:induction false} StripRightIsPart(s: string)
    ensures forall c :: c in StripRight(s) ==> c in s
  {
    if s != "" && Space(s[|s| - 1]) {
      StripRightIsPart(s[..|s| - 1]);
    }
  }

  lemma WrittenRowIsClean(rows: map<string, Row>, key: string, e: Event, tier: string)
    requires AllClean(rows, tier) && EventIsReadable(e, tier) && Finds(e, key) && (key in rows ==> rows[key].status.Open?)
    ensures var row := NextRow(rows, key, e).value; row.key == key && Clean(row, tier) && Plain(FirstSeen(row.body))
  {
    KeysAreWords(e, key);
    var first := if key in rows then CarriedFirst(rows[key].body, e.run) else e.run.Seen();
    RowSurvives(WantedBy(e)[key], e.run, first);
    FirstSeenIsPlain(RowOf(WantedBy(e)[key], e.run, first));
  }

  lemma NextIsClean(rows: map<string, Row>, e: Event, tier: string)
    requires AllClean(rows, tier) && EventIsReadable(e, tier)
    ensures AllClean(Next(rows, e), tier)
  {
    var next := Next(rows, e);
    match e {
      case Edited(row) => FirstSeenIsPlain(row.body);
      case Tracked(_, _, _) =>
        forall key | key in next ensures next[key].key == key && Clean(next[key], tier) && Plain(FirstSeen(next[key].body)) {
          if Finds(e, key) && (key in rows ==> rows[key].status.Open?) {
            WrittenRowIsClean(rows, key, e, tier);
          }
        }
    }
  }

  lemma {:induction false} AfterIsClean(events: seq<Event>, tier: string)
    requires forall e :: e in events ==> EventIsReadable(e, tier)
    ensures AllClean(After(map[], events), tier)
    decreases |events|
  {
    if events != [] {
      var before, e := events[..|events| - 1], events[|events| - 1];
      AfterIsClean(before, tier);
      assert e in events;
      NextIsClean(After(map[], before), e, tier);
    }
  }

  /** What an issue says after each event: every run reads the table and prints it again. */
  ghost predicate Chain(bodies: seq<string>, events: seq<Event>, tier: string, prose: seq<string>, migrated: seq<string>) {
    && |bodies| == |events| + 1 && Prints(bodies[0], map[], tier, prose, migrated)
    && forall i :: 0 <= i < |events| ==> Follows(bodies[i], bodies[i + 1], events[i], tier, prose, migrated)
  }

  ghost predicate Follows(body: string, next: string, e: Event, tier: string, prose: seq<string>, migrated: seq<string>) {
    ReadRows(body, tier).Rows? ==> Prints(next, Next(ReadRows(body, tier).rows, e), tier, prose, migrated)
  }

  ghost predicate Prints(body: string, rows: map<string, Row>, tier: string, prose: seq<string>, migrated: seq<string>) {
    exists keys :: Lists(keys, rows) && body == RollingBody(tier, prose, keys, rows, migrated)
  }

  ghost predicate PlainText(tier: string, prose: seq<string>, migrated: seq<string>) {
    && (tier == "fuzz" || tier == "faults") && (forall line :: line in prose ==> OneLine(line) && '<' !in line)
    && forall number :: number in migrated ==> Digits(number)
  }

  /** The state survives being printed and read again after every run. */
  lemma {:induction false} StateSurvivesTheText(bodies: seq<string>, events: seq<Event>, tier: string, prose: seq<string>, migrated: seq<string>)
    requires PlainText(tier, prose, migrated) && Chain(bodies, events, tier, prose, migrated)
    requires forall e :: e in events ==> EventIsReadable(e, tier)
    ensures ReadRows(bodies[|events|], tier) == Rows(After(map[], events))
    decreases |events|
  {
    var n := |events|;
    AfterIsClean(events, tier);
    if n > 0 {
      assert forall i :: 0 <= i < n - 1 ==> events[..n - 1][i] == events[i];
      StateSurvivesTheText(bodies[..n], events[..n - 1], tier, prose, migrated);
      assert bodies[..n][n - 1] == bodies[n - 1];
      assert Follows(bodies[n - 1], bodies[n - 1 + 1], events[n - 1], tier, prose, migrated);
    }
    var rows := After(map[], events);
    var keys :| Lists(keys, rows) && bodies[n] == RollingBody(tier, prose, keys, rows, migrated);
    TableReadsBack(tier, prose, keys, rows, migrated);
  }

  lemma OpenedRowSaysWhen(rows: map<string, Row>, key: string, e: Event, tier: string)
    requires EventIsReadable(e, tier) && Finds(e, key) && key !in rows
    ensures FirstSeen(Next(rows, e)[key].body) == e.run.Seen()
  {
    KeysAreWords(e, key);
    SeenIsTrimmed(e.run);
    RowSurvives(WantedBy(e)[key], e.run, e.run.Seen());
    assert NextRow(rows, key, e).Some?;
  }

  lemma RefreshedRowStillSays(rows: map<string, Row>, key: string, e: Event, tier: string, seen: string)
    requires EventIsReadable(e, tier) && e.Tracked? && key in rows && key in Next(rows, e)
    requires FirstSeen(rows[key].body) == seen && Trimmed(seen) && seen != "" && Plain(seen)
    ensures FirstSeen(Next(rows, e)[key].body) == seen
  {
    assert NextRow(rows, key, e).Some?;
    if Finds(e, key) {
      KeysAreWords(e, key);
      RowSurvives(WantedBy(e)[key], e.run, seen);
    }
  }

  lemma LaterEventsKeep(events: seq<Event>, key: string, opening: nat)
    requires opening + 1 < |events| && NotCleared(events[opening + 1..|events| - 1], key) && !Clears(events[|events| - 1], key)
    ensures NotCleared(events[opening + 1..], key)
  {
    var n := |events| - 1;
    assert events[opening + 1..] == events[opening + 1..n] + [events[n]];
  }

  predicate Opens(events: seq<Event>, key: string, opening: nat) {
    opening < |events| && Finds(events[opening], key) && key !in After(map[], events[..opening])
  }

  /** From its opening until it is cleared, a row keeps saying when it was first seen. */
  lemma {:induction false} FirstSeenIsTheOpening(events: seq<Event>, key: string, tier: string) returns (opening: nat)
    requires NotEdited(events, key) && key in After(map[], events)
    requires forall e :: e in events ==> EventIsReadable(e, tier)
    ensures Opens(events, key, opening) && NotCleared(events[opening + 1..], key)
    ensures FirstSeen(After(map[], events)[key].body) == events[opening].run.Seen()
    decreases |events|
  {
    var n := |events| - 1;
    var before, e := events[..n], events[n];
    assert e in events;
    var rows := After(map[], before);
    if key !in rows {
      opening := n;
      assert events[n + 1..] == [];
      OpenedRowSaysWhen(rows, key, e, tier);
    } else {
      opening := FirstSeenIsTheOpening(before, key, tier);
      assert before[..opening] == events[..opening] && before[opening + 1..] == events[opening + 1..n];
      OpenExactlyWhileOutstanding(before, key);
      LaterEventsKeep(events, key, opening);
      var seen := before[opening].run.Seen();
      SeenIsTrimmed(before[opening].run);
      assert before[opening] in events;
      if e.Tracked? {
        RefreshedRowStillSays(rows, key, e, tier, seen);
      }
    }
  }

  lemma SeenIsTrimmed(run: Run)
    ensures Trimmed(run.Seen()) && run.Seen() != ""
  {
    var seen := run.Seen();
    assert seen[0] == '[' && seen[|seen| - 1] == '`';
  }
}
