/** The words that make a tier's table unreadable, and that nothing else does. */
module TierLimits {
  import opened TierTable
  import Ordering

  // ---------- lines of a text in parts ----------

  predicate EndsLine(s: string) {
    s == "" || s[|s| - 1] == '\n'
  }

  lemma {:induction false} BreakComesBefore(s: string, k: nat)
    requires k < |s| && LineBreak(s[k])
    ensures FirstBreak(s) <= k
    decreases k
  {
    if k > 0 && !LineBreak(s[0]) {
      BreakComesBefore(s[1..], k - 1);
    }
  }

  /** A text up to its first line break, which is what `splitlines` leaves of a row. */
  function FirstLine(body: string): string {
    body[..FirstBreak(body)]
  }

  /** Where the text goes on behind its first line. */
  function Next(s: string): (n: nat)
    requires FirstBreak(s) < |s|
    ensures FirstBreak(s) < n <= |s|
  {
    FirstBreak(s) + BreakWidth(s[FirstBreak(s)..])
  }

  lemma DropTwice(s: string, i: nat, w: nat)
    requires i + w <= |s|
    ensures s[i..][w..] == s[i + w..]
  {
  }

  lemma LinesStep(s: string)
    requires FirstBreak(s) < |s|
    ensures Lines(s) == [FirstLine(s)] + Lines(s[Next(s)..])
  {
    var i := FirstBreak(s);
    var w := BreakWidth(s[i..]);
    DropTwice(s, i, w);
    assert Lines(s) == [s[..i]] + Lines(s[i..][w..]);
  }

  lemma FirstBreakStays(a: string, b: string)
    requires a != "" && EndsLine(a)
    ensures FirstBreak(a) < |a| && FirstBreak(a + b) == FirstBreak(a) && Next(a + b) == Next(a)
    ensures FirstLine(a + b) == FirstLine(a)
  {
    var i := FirstBreak(a);
    BreakComesBefore(a, |a| - 1);
    assert (a + b)[..i] == a[..i];
    FirstBreakIs(a + b, i);
  }

  lemma SlicesAdd(a: string, b: string, n: nat)
    requires n <= |a|
    ensures (a + b)[n..] == a[n..] + b && (EndsLine(a) ==> EndsLine(a[n..]))
  {
  }

  lemma Grouped(line: string, first: seq<string>, more: seq<string>)
    ensures [line] + (first + more) == [line] + first + more
  {
  }

  /** A text's lines, after a part that ends with a newline, are those of the parts. */
  lemma {:induction false} LinesAdd(a: string, b: string)
    requires EndsLine(a)
    ensures Lines(a + b) == Lines(a) + Lines(b)
    decreases |a|
  {
    if a == "" {
      assert a + b == b;
    } else {
      FirstBreakStays(a, b);
      LinesStep(a);
      LinesStep(a + b);
      SlicesAdd(a, b, Next(a));
      LinesAdd(a[Next(a)..], b);
      Grouped(FirstLine(a), Lines(a[Next(a)..]), Lines(b));
    }
  }

  lemma {:induction false} TerminatedAdds(a: seq<string>, b: seq<string>)
    ensures Terminated(a + b) == Terminated(a) + Terminated(b) && EndsLine(Terminated(a))
  {
    if a == [] {
      assert a + b == b;
    } else {
      assert (a + b)[1..] == a[1..] + b;
      TerminatedAdds(a[1..], b);
    }
  }

  lemma {:induction false} MalformedAnywhere(lines: seq<string>, k: nat, tier: string, rows: map<string, Row>)
    requires k < |lines| && ReadLine(lines[k], tier) == Malformed
    ensures ReadLines(lines, tier, rows) == Unreadable
    decreases k
  {
    if k > 0 {
      match ReadLine(lines[0], tier)
      case NotARow => MalformedAnywhere(lines[1..], k - 1, tier, rows);
      case Malformed =>
      case Found(row) => MalformedAnywhere(lines[1..], k - 1, tier, rows[row.key := row]);
    }
  }

  // ---------- the first line of a row ----------

  lemma FirstBreakIs(s: string, i: nat)
    requires i < |s| && OneLine(s[..i]) && LineBreak(s[i])
    ensures FirstBreak(s) == i
  {
    var line, rest := s[..i], s[i + 1..];
    var k := FirstBreak(s);
    forall j | 0 <= j < k ensures !LineBreak(s[j]) {
      assert s[..k][j] in s[..k];
    }
    assert forall j :: 0 <= j < i ==> s[j] == line[j] && line[j] in line;
  }

  lemma FirstPiece(body: string, rest: string)
    requires body != ""
    ensures |Lines(body + "\n" + rest)| > 0 && Lines(body + "\n" + rest)[0] == FirstLine(body)
  {
    var s := body + "\n" + rest;
    var i := FirstBreak(body);
    assert s[..i] == FirstLine(body) && (if i < |body| then s[i] == body[i] else s[i] == '\n');
    FirstBreakIs(s, i);
  }

  lemma BreakIsAfterTheStart(start: string, rest: string)
    requires OneLine(start)
    ensures FirstBreak(start + rest) >= |start|
  {
    var s := start + rest;
    assert forall j :: 0 <= j < |start| ==> s[j] == start[j] && start[j] in start;
  }

  lemma {:induction false} BarsEndInLast(cells: seq<string>)
    requires |cells| > 1 && cells[|cells| - 1] == ""
    ensures Bars(cells) != "" && Bars(cells)[|Bars(cells)| - 1] == '|'
  {
    if |cells| > 2 {
      BarsEndInLast(cells[1..]);
    } else {
      assert Bars(cells[1..]) == "";
    }
  }

  lemma CutPieceHasFewerBars(body: string, i: nat)
    requires i < |body| && body[|body| - 1] == '|'
    ensures BarCount(body[..i]) < BarCount(body)
  {
    BarCountAdds(body[..i], body[i..]);
    assert body == body[..i] + body[i..];
    NoBars(body[i..]);
    assert body[i..][|body| - 1 - i] in body[i..];
  }

  lemma PieceHasNotSevenBars(body: string)
    requires body != "" && body[|body| - 1] == '|'
    requires BarCount(body) == 7 <==> !OneLine(body)
    requires BarCount(body) >= 7
    ensures BarCount(FirstLine(body)) != 7
  {
    var i := FirstBreak(body);
    if i < |body| {
      assert body[i] in body;
      CutPieceHasFewerBars(body, i);
    } else {
      assert body[..i] == body;
    }
  }

  /** A row with a break, or with a bar too many, but not both, is spoilt where its first line ends. */
  lemma NotWritableIsSpoilt(f: Finding, run: Run, first: string)
    requires MarkerWords(run.tier, f.key) && !Writable(f, run, first)
    requires var body := RowOf(f, run, first); OneLine(body) || BarCount(body) == 7
    ensures BarCount(FirstLine(RowOf(f, run, first))) != 7
  {
    var cells := RowCells(f, run, first);
    BarsEndInLast(cells);
    RowIsPlain(f, run, first);
    BarsAreOneLine(cells);
    BarsAreCounted(cells);
    PieceHasNotSevenBars(RowOf(f, run, first));
  }

  lemma StatusIsTheSecondCell(tier: string, key: string, tail: string)
    requires MarkerWords(tier, key)
    ensures var line := "|" + (StatusCell(tier, key) + ("|" + tail)); |Cells(line)| > 2 && Cells(line)[1] == StatusCell(tier, key)
  {
    var status := StatusCell(tier, key);
    StatusCellIsPlain(tier, key);
    assert ("|" + tail)[1..] == tail && Cells("|" + tail) == [""] + Cells(tail);
    CellsOfPrefix(status, "|" + tail);
    assert status + "" == status;
    var line := "|" + (status + ("|" + tail));
    assert line[1..] == status + ("|" + tail);
  }

  lemma FirstLineBehind(status: string, rest: string) returns (tail: string)
    requires OneLine(status)
    ensures FirstLine("" + "|" + status + "|" + rest) == "" + "|" + status + "|" + tail
  {
    var start := "" + "|" + status + "|";
    OneLineParts("" + "|", status);
    OneLineParts("" + "|" + status, "|");
    BreakIsAfterTheStart(start, rest);
    tail := rest[..FirstBreak(start + rest) - |start|];
  }

  lemma FirstLineStarts(f: Finding, run: Run, first: string) returns (tail: string)
    requires MarkerWords(run.tier, f.key)
    ensures FirstLine(RowOf(f, run, first)) == "" + "|" + StatusCell(run.tier, f.key) + "|" + tail
  {
    var cells := RowCells(f, run, first);
    RowParts(cells);
    StatusCellIsPlain(run.tier, f.key);
    tail := FirstLineBehind(cells[1], Bars(cells[2..]));
  }

  lemma StartedLine(tier: string, key: string, tail: string)
    requires MarkerWords(tier, key)
    ensures var line := "" + "|" + StatusCell(tier, key) + "|" + tail;
      Search(line) == Marker(tier, key) && |Cells(line)| > 2 && Cells(line)[1] == StatusCell(tier, key)
  {
    StartThenRest(tier, key, tail);
    PieceIsMarked(tier, key, " open |" + tail);
    StatusIsTheSecondCell(tier, key, tail);
    var status := StatusCell(tier, key);
    assert "" + "|" + status + "|" + tail == "|" + (status + ("|" + tail));
  }

  lemma ReadMarked(line: string, tier: string, key: string)
    requires Search(line) == Marker(tier, key) && |Cells(line)| > 1 && Lower(Strip(LastPiece(Cells(line)[1]))) == "open"
    ensures ReadLine(line, tier) == if BarCount(line) == 7 then Found(Row(key, Open, line)) else Malformed
  {
    CellsAreCounted(line);
  }

  /**
   * What the next run makes of a row's first line, whatever the texts in it: with seven bars it
   * is found, as far as it goes, and without it is malformed.
   */
  lemma FirstLineIsRead(f: Finding, run: Run, first: string)
    requires MarkerWords(run.tier, f.key)
    ensures var line := FirstLine(RowOf(f, run, first));
      ReadLine(line, run.tier) == if BarCount(line) == 7 then Found(Row(f.key, Open, line)) else Malformed
  {
    var tail := FirstLineStarts(f, run, first);
    StartedLine(run.tier, f.key, tail);
    StatusIsOpen(run.tier, f.key);
    ReadMarked(FirstLine(RowOf(f, run, first)), run.tier, f.key);
  }

  // ---------- one spoilt row in any table ----------

  /**
   * A row whose first line has a bar more or less than seven, among any others and whatever the
   * text around the table: every later run of the tier stops until someone edits the issue.
   */
  lemma SpoiltRowStopsTheTier(tier: string, prose: seq<string>, keys: seq<string>, rows: map<string, Row>, migrated: seq<string>,
      key: string, f: Finding, run: Run, first: string)
    requires (forall k :: k in keys ==> k in rows) && key in keys && rows[key].body == RowOf(f, run, first)
    requires run.tier == tier && MarkerWords(tier, f.key) && BarCount(FirstLine(RowOf(f, run, first))) != 7
    ensures ReadRows(RollingBody(tier, prose, keys, rows, migrated), tier) == Unreadable
  {
    FirstLineIsRead(f, run, first);
    var n := BodyIsALine(tier, prose, keys, rows, migrated, key);
    var lines := BodyLines(tier, prose, keys, rows, migrated);
    AroundLine(lines, n);
    MalformedLineStops(lines[..n], lines[n], lines[n + 1..], tier);
  }

  lemma BodyIsALine(tier: string, prose: seq<string>, keys: seq<string>, rows: map<string, Row>, migrated: seq<string>, key: string)
    returns (n: nat)
    requires (forall k :: k in keys ==> k in rows) && key in keys
    ensures n < |BodyLines(tier, prose, keys, rows, migrated)| && BodyLines(tier, prose, keys, rows, migrated)[n] == rows[key].body
  {
    var i: nat :| i < |keys| && keys[i] == key;
    n := 1 + |prose| + i;
    assert Bodies(keys, rows)[i] == rows[key].body;
  }

  lemma AroundLine(lines: seq<string>, n: nat)
    requires n < |lines|
    ensures lines == lines[..n] + ([lines[n]] + lines[n + 1..])
  {
  }

  lemma MalformedLineStops(head: seq<string>, body: string, tail: seq<string>, tier: string)
    requires ReadLine(FirstLine(body), tier) == Malformed
    ensures ReadRows(Terminated(head + ([body] + tail)), tier) == Unreadable
  {
    var before, after := Terminated(head), body + "\n" + Terminated(tail);
    TerminatedAdds(head, [body] + tail);
    assert ([body] + tail)[1..] == tail && Terminated([body] + tail) == after;
    LinesAdd(before, after);
    FirstPiece(body, Terminated(tail));
    MalformedAnywhere(Lines(before) + Lines(after), |Lines(before)|, tier, map[]);
  }

  /** Any line break but the newline, within the part of the detail that is copied, is enough. */
  lemma ControlCharacterSpoils(f: Finding, run: Run, at: nat)
    requires PlainRun(run) && MarkerWords(run.tier, f.key)
    requires at < |f.detail| && at < MAX_DETAIL && LineBreak(f.detail[at]) && f.detail[at] != '\n'
    ensures !Writable(f, run, run.Seen()) && BarCount(RowOf(f, run, run.Seen())) == 7
  {
    assert First(f.detail, MAX_DETAIL)[at] in First(f.detail, MAX_DETAIL);
    CellsHaveNoBars(f, run, run.Seen());
  }

  lemma EightNoBars(a: string, b: string, c: string, d: string, e: string, f: string)
    requires '|' !in a && '|' !in b && '|' !in c && '|' !in d && '|' !in e && '|' !in f
    ensures BarCount(Bars(["", a, b, c, d, e, f, ""])) == 7
  {
    var cells := ["", a, b, c, d, e, f, ""];
    assert forall x :: x in cells ==> x == "" || x == a || x == b || x == c || x == d || x == e || x == f;
    BarsAreCounted(cells);
  }

  lemma CellsHaveNoBars(f: Finding, run: Run, first: string)
    requires MarkerWords(run.tier, f.key) && PlainRun(run) && Plain(first)
    ensures BarCount(RowOf(f, run, first)) == 7
  {
    StatusCellIsPlain(run.tier, f.key);
    NoBarsInDetail(f);
    WrappedIsPlain(" ", first, " ");
    ThreePartsArePlain(run.Seen(), run.event, run.ref);
    ToolCellIsPlain(run);
    NoBarsInReplay(f);
    var status, detail, seen, latest := StatusCell(run.tier, f.key), DetailCell(f), " " + first + " ", LatestCell(run);
    EightNoBars(status, detail, seen, latest, ToolCell(run), ReplayCell(f));
  }

  lemma NoBarsInDetail(f: Finding)
    ensures '|' !in DetailCell(f)
  {
    TitleIsPlain(f.title);
    CellIsPlain(f.detail);
    var title := Cell(First(Words(f.title, false, false), MAX_TITLE));
    var detail := Cell(f.detail);
    assert '|' !in " <code>" + title && '|' !in "</code><br><code>" && '|' !in detail && '|' !in "</code> ";
    assert '|' !in " <code>" + title + "</code><br><code>" + detail;
  }

  lemma NoBarsInReplay(f: Finding)
    ensures '|' !in ReplayCell(f)
  {
    CellIsPlain(f.replay);
    assert '|' !in " <code>" + Cell(f.replay) && '|' !in "</code> ";
  }
}
