/**
 * The findings table of a tier's rolling issue: how a row is written, how the next run reads
 * it again, and exactly which rows survive. Scrubbing of secrets has already happened here.
 */
module TierTable {
  import Ordering

  const OPENING := "<!-- contract-tier-finding:"
  const CLOSING := " -->"
  const MAX_DETAIL: nat := 3000
  const MAX_TITLE: nat := 180

  datatype Status = Open | Ignored

  /** A row of the table: `body` is its whole line. */
  datatype Row = Row(key: string, status: Status, body: string)

  datatype LineRead = NotARow | Malformed | Found(row: Row)

  datatype Table = Rows(rows: map<string, Row>) | Unreadable

  datatype Finding = Finding(key: string, title: string, detail: string, replay: string)

  datatype Run = Run(tier: string, repo: string, event: string, ref: string, commit: string,
    runId: string, serverUrl: string, tool: string)
  {
    function Url(): string {
      serverUrl + "/" + repo + "/actions/runs/" + runId
    }

    function Seen(): string {
      "[run " + runId + "](" + Url() + "), commit `" + commit + "`"
    }
  }

  // ---------- characters and pieces of text ----------

  /** Where `str.splitlines` ends a line. */
  predicate LineBreak(c: char) {
    || c == '\n' || c == '\r' || c == '\U{B}' || c == '\U{C}' || c == '\U{1C}' || c == '\U{1D}' || c == '\U{1E}'
    || c == '\U{85}' || c == '\U{2028}' || c == '\U{2029}'
  }

  /** What `str.split` and `str.strip` take for white space: every line break is one. */
  predicate Space(c: char) {
    || LineBreak(c) || c == ' ' || c == '\t' || c == '\U{1F}' || c == '\U{A0}' || c == '\U{1680}'
    || '\U{2000}' <= c <= '\U{200A}' || c == '\U{202F}' || c == '\U{205F}' || c == '\U{3000}'
  }

  predicate OneLine(s: string) {
    forall c :: c in s ==> !LineBreak(c)
  }

  function First(s: string, most: nat): string {
    if |s| <= most then s else s[..most]
  }

  function Join(parts: seq<string>): string {
    if parts == [] then "" else parts[0] + Join(parts[1..])
  }

  /** `text.replace(c, with)` for one character. */
  function Replace(s: string, c: char, with: string): string {
    if s == "" then "" else (if s[0] == c then with else [s[0]]) + Replace(s[1..], c, with)
  }

  lemma {:induction false} ReplaceHas(s: string, c: char, with: string, d: char)
    requires d !in with
    ensures d in Replace(s, c, with) <==> d in s && d != c
  {
    if s != "" {
      ReplaceHas(s[1..], c, with, d);
      assert s == [s[0]] + s[1..];
    }
  }

  /** `html.escape` with quotes left alone. */
  function HtmlEscape(text: string): string {
    Replace(Replace(Replace(text, '&', "&amp;"), '<', "&lt;"), '>', "&gt;")
  }

  function Cell(text: string): string {
    var escaped := HtmlEscape(First(text, MAX_DETAIL));
    Replace(Replace(Replace(Replace(escaped, '|', "&#124;"), '`', "&#96;"), '@', "&#64;"), '\n', "<br>")
  }

  lemma HtmlEscapeHas(text: string, d: char)
    requires LineBreak(d) || d == '|'
    ensures d in HtmlEscape(text) <==> d in text
  {
    ReplaceHas(text, '&', "&amp;", d);
    ReplaceHas(Replace(text, '&', "&amp;"), '<', "&lt;", d);
    ReplaceHas(Replace(Replace(text, '&', "&amp;"), '<', "&lt;"), '>', "&gt;", d);
  }

  /** Of the characters a table row can break at, only the newline is replaced. */
  lemma CellHas(text: string, d: char)
    requires LineBreak(d) || d == '|'
    ensures d in Cell(text) <==> d in First(text, MAX_DETAIL) && d != '\n' && d != '|'
  {
    HtmlEscapeHas(First(text, MAX_DETAIL), d);
    var t3 := HtmlEscape(First(text, MAX_DETAIL));
    ReplaceHas(t3, '|', "&#124;", d);
    var t4 := Replace(t3, '|', "&#124;");
    ReplaceHas(t4, '`', "&#96;", d);
    var t5 := Replace(t4, '`', "&#96;");
    ReplaceHas(t5, '@', "&#64;", d);
    ReplaceHas(Replace(t5, '@', "&#64;"), '\n', "<br>", d);
  }

  /** `" ".join(title.split())`: `gap` says that a word was written and a space is due. */
  function Words(s: string, gap: bool, any: bool): string {
    if s == "" then ""
    else if Space(s[0]) then Words(s[1..], any, any)
    else (if gap then " " else "") + [s[0]] + Words(s[1..], false, true)
  }

  lemma {:induction false} WordsAreOneLine(s: string, gap: bool, any: bool)
    ensures OneLine(Words(s, gap, any))
  {
    if s != "" {
      if Space(s[0]) {
        WordsAreOneLine(s[1..], any, any);
      } else {
        WordsAreOneLine(s[1..], false, true);
      }
    }
  }

  // ---------- lines ----------

  function FirstBreak(s: string): (i: nat)
    ensures i <= |s| && OneLine(s[..i]) && (i < |s| ==> LineBreak(s[i]))
  {
    if s == "" || LineBreak(s[0]) then 0
    else
      var i := 1 + FirstBreak(s[1..]);
      assert s[..i] == [s[0]] + s[1..][..i - 1];
      i
  }

  function BreakWidth(s: string): nat {
    if |s| > 1 && s[0] == '\r' && s[1] == '\n' then 2 else 1
  }

  /** `str.splitlines`. */
  function Lines(s: string): seq<string>
    decreases |s|
  {
    if s == "" then []
    else
      var i := FirstBreak(s);
      if i == |s| then [s]
      else [s[..i]] + Lines(s[i..][BreakWidth(s[i..])..])
  }

  /** Each line with the newline that ends it. */
  function Terminated(lines: seq<string>): string {
    if lines == [] then "" else lines[0] + "\n" + Terminated(lines[1..])
  }

  lemma {:induction false} LinesAreOneLine(s: string, line: string)
    requires line in Lines(s)
    ensures OneLine(line)
    decreases |s|
  {
    var i := FirstBreak(s);
    if i < |s| && line != s[..i] {
      LinesAreOneLine(s[i..][BreakWidth(s[i..])..], line);
    } else if i == |s| {
      assert s[..i] == s;
    }
  }

  lemma FirstBreakAt(line: string, rest: string)
    requires OneLine(line)
    ensures FirstBreak(line + "\n" + rest) == |line|
  {
    var s := line + "\n" + rest;
    var i := FirstBreak(s);
    assert s[|line|] == '\n' && s[..|line|] == line;
    forall k | 0 <= k < i ensures !LineBreak(s[k]) {
      assert s[..i][k] in s[..i];
    }
    assert forall k :: 0 <= k < |line| ==> s[k] == line[k] && line[k] in line;
  }

  lemma {:induction false} LinesOfTerminated(lines: seq<string>)
    requires forall line :: line in lines ==> OneLine(line)
    ensures Lines(Terminated(lines)) == lines
  {
    if lines != [] {
      var rest := Terminated(lines[1..]);
      FirstBreakAt(lines[0], rest);
      LinesOfTerminated(lines[1..]);
      var s := Terminated(lines);
      assert s == lines[0] + "\n" + rest;
      assert s[..|lines[0]|] == lines[0];
      assert s[|lines[0]|..] == "\n" + rest;
      assert s[|lines[0]|..][1..] == rest;
    }
  }

  // ---------- cells ----------

  /** `line.split("|")`. */
  function Cells(s: string): (r: seq<string>)
    ensures |r| > 0
  {
    if s == "" then [""]
    else
      var rest := Cells(s[1..]);
      if s[0] == '|' then [""] + rest else [[s[0]] + rest[0]] + rest[1..]
  }

  /** The cells put together again as one line. */
  function Bars(cells: seq<string>): string
    requires |cells| > 0
  {
    if |cells| == 1 then cells[0] else cells[0] + "|" + Bars(cells[1..])
  }

  lemma {:induction false} CellsOfPrefix(a: string, s: string)
    requires '|' !in a
    ensures Cells(a + s) == [a + Cells(s)[0]] + Cells(s)[1..]
  {
    if a == "" {
      assert a + s == s && a + Cells(s)[0] == Cells(s)[0];
    } else {
      assert (a + s)[1..] == a[1..] + s;
      CellsOfPrefix(a[1..], s);
      assert [a[0]] + (a[1..] + Cells(s)[0]) == a + Cells(s)[0];
    }
  }

  lemma {:induction false} CellsOfBars(cells: seq<string>)
    requires |cells| > 0 && forall c :: c in cells ==> '|' !in c
    ensures Cells(Bars(cells)) == cells
  {
    if |cells| == 1 {
      CellsOfPrefix(cells[0], "");
      assert cells[0] + "" == cells[0];
      assert Cells("")[1..] == [];
    } else {
      var s := "|" + Bars(cells[1..]);
      assert s[1..] == Bars(cells[1..]);
      CellsOfPrefix(cells[0], s);
      CellsOfBars(cells[1..]);
      assert Bars(cells) == cells[0] + s;
      assert Cells(s) == [""] + cells[1..] && cells[0] + "" == cells[0];
    }
  }

  /** How many cells a line has depends only on its bars. */
  function BarCount(s: string): nat {
    if s == "" then 0 else (if s[0] == '|' then 1 else 0) + BarCount(s[1..])
  }

  lemma {:induction false} CellsAreCounted(s: string)
    ensures |Cells(s)| == BarCount(s) + 1
  {
    if s != "" {
      CellsAreCounted(s[1..]);
    }
  }

  lemma {:induction false} BarCountAdds(a: string, b: string)
    ensures BarCount(a + b) == BarCount(a) + BarCount(b)
  {
    if a == "" {
      assert a + b == b;
    } else {
      assert (a + b)[1..] == a[1..] + b;
      BarCountAdds(a[1..], b);
    }
  }

  lemma {:induction false} NoBars(s: string)
    ensures BarCount(s) == 0 <==> '|' !in s
  {
    if s != "" {
      NoBars(s[1..]);
      assert s == [s[0]] + s[1..];
    }
  }

  function StripLeft(s: string): string {
    if s != "" && Space(s[0]) then StripLeft(s[1..]) else s
  }

  function StripRight(s: string): string {
    if s != "" && Space(s[|s| - 1]) then StripRight(s[..|s| - 1]) else s
  }

  function Strip(s: string): string {
    StripRight(StripLeft(s))
  }

  predicate Trimmed(s: string) {
    s == "" || (!Space(s[0]) && !Space(s[|s| - 1]))
  }

  lemma StripSpaces(s: string)
    requires Trimmed(s)
    ensures Strip(" " + s + " ") == s
  {
    var padded := " " + s + " ";
    assert padded[1..] == s + " ";
    if s == "" {
      assert StripLeft(padded) == StripLeft(" ") == StripLeft(" "[1..]) == "";
    } else {
      assert StripLeft(padded) == s + " ";
      assert (s + " ")[..|s|] == s;
      assert StripRight(s + " ") == StripRight(s);
    }
  }

  // ---------- a row's marker and status ----------

  predicate LowerLetter(c: char) { 'a' <= c <= 'z' }

  predicate KeyCharacter(c: char) { 'a' <= c <= 'z' || '0' <= c <= '9' }

  function Span(s: string, f: char -> bool): (n: nat)
    ensures n <= |s|
  {
    if s == "" || !f(s[0]) then 0 else 1 + Span(s[1..], f)
  }

  lemma {:induction false} SpanOf(a: string, s: string, f: char -> bool)
    requires (forall c :: c in a ==> f(c)) && (s == "" || !f(s[0]))
    ensures Span(a + s, f) == |a|
  {
    if a == "" {
      assert a + s == s;
    } else {
      assert (a + s)[1..] == a[1..] + s;
      SpanOf(a[1..], s, f);
    }
  }

  datatype Marker = NoMarker | Marker(tier: string, key: string)

  function Marked(tier: string, key: string): string {
    OPENING + tier + ":" + key + CLOSING
  }

  predicate MarkerWords(tier: string, key: string) {
    && tier != "" && (forall c :: c in tier ==> LowerLetter(c))
    && key != "" && (forall c :: c in key ==> KeyCharacter(c))
  }

  /** The marker pattern, matched at the start of the text. */
  function MatchHere(s: string): Marker {
    if !(OPENING <= s) then NoMarker
    else
      var rest := s[|OPENING|..];
      var n := Span(rest, LowerLetter);
      if n == 0 || n == |rest| || rest[n] != ':' then NoMarker
      else
        var tail := rest[n + 1..];
        var m := Span(tail, KeyCharacter);
        if m == 0 || !(CLOSING <= tail[m..]) then NoMarker else Marker(rest[..n], tail[..m])
  }

  /** The first match anywhere in the line. */
  function Search(s: string): Marker {
    if s == "" then NoMarker
    else if MatchHere(s).Marker? then MatchHere(s)
    else Search(s[1..])
  }

  lemma MatchesItself(tier: string, key: string, rest: string)
    requires MarkerWords(tier, key)
    ensures MatchHere(Marked(tier, key) + rest) == Marker(tier, key)
  {
    var s := Marked(tier, key) + rest;
    var after := tier + (":" + key + CLOSING + rest);
    assert s == OPENING + after && s[|OPENING|..] == after;
    SpanOf(tier, ":" + key + CLOSING + rest, LowerLetter);
    var tail := key + (CLOSING + rest);
    assert after[|tier| + 1..] == tail;
    SpanOf(key, CLOSING + rest, KeyCharacter);
    assert tail[|key|..] == CLOSING + rest;
  }

  lemma {:induction false} NoMarkerWithout(s: string)
    requires '<' !in s
    ensures Search(s) == NoMarker
  {
    if s != "" {
      assert s[0] in s && OPENING[0] == '<';
      NoMarkerWithout(s[1..]);
    }
  }

  datatype Rest = Absent | After(rest: string)

  /** What follows the first `-->`. */
  function AfterArrow(s: string): (r: Rest)
    ensures r.After? ==> |r.rest| < |s|
  {
    if |s| < 3 then Absent
    else if s[..3] == "-->" then After(s[3..])
    else AfterArrow(s[1..])
  }

  /** `cell.split("-->")[-1]`. */
  function LastPiece(s: string): string
    decreases |s|
  {
    match AfterArrow(s)
    case Absent => s
    case After(rest) => LastPiece(rest)
  }

  lemma {:induction false} NoArrow(s: string)
    requires '>' !in s
    ensures AfterArrow(s) == Absent
  {
    if |s| >= 3 {
      assert s[..3] != "-->" by {
        assert s[..3][2] in s;
      }
      NoArrow(s[1..]);
    }
  }

  lemma {:induction false} ArrowAfter(a: string, rest: string)
    requires '>' !in a
    ensures AfterArrow(a + "-->" + rest) == After(rest)
  {
    var s := a + "-->" + rest;
    if a == "" {
      assert s[..3] == "-->" && s[3..] == rest;
    } else {
      assert s[1..] == a[1..] + "-->" + rest;
      ArrowAfter(a[1..], rest);
      assert s[..3] != "-->" by {
        assert s[2] == if |a| > 2 then a[2] else "-->"[2 - |a|];
      }
    }
  }

  function Lower(s: string): string {
    seq(|s|, i requires 0 <= i < |s| => if 'A' <= s[i] <= 'Z' then (s[i] as int + 32) as char else s[i])
  }

  /** One line of the issue, as `read_rows` takes it. */
  function ReadLine(line: string, tier: string): LineRead {
    var marker := Search(line);
    if marker.NoMarker? || marker.tier != tier then NotARow
    else
      var cells := Cells(line);
      if |cells| != 8 then Malformed
      else
        var status := Lower(Strip(LastPiece(cells[1])));
        if status == "open" then Found(Row(marker.key, Open, line))
        else if status == "ignored" then Found(Row(marker.key, Ignored, line))
        else Malformed
  }

  function ReadLines(lines: seq<string>, tier: string, rows: map<string, Row>): Table {
    if lines == [] then Rows(rows)
    else
      match ReadLine(lines[0], tier)
      case NotARow => ReadLines(lines[1..], tier, rows)
      case Malformed => Unreadable
      case Found(row) => ReadLines(lines[1..], tier, rows[row.key := row])
  }

  function ReadRows(body: string, tier: string): Table {
    ReadLines(Lines(body), tier, map[])
  }

  // ---------- a row as it is written ----------

  function StatusCell(tier: string, key: string): string {
    " " + Marked(tier, key) + " open "
  }

  function DetailCell(f: Finding): string {
    " <code>" + Cell(First(Words(f.title, false, false), MAX_TITLE)) + "</code><br><code>" + Cell(f.detail) + "</code> "
  }

  function LatestCell(run: Run): string {
    " " + run.Seen() + " (" + run.event + ", `" + run.ref + "`) "
  }

  function ToolCell(run: Run): string {
    " " + Cell(if run.tool == "" then "unknown" else run.tool) + " "
  }

  function ReplayCell(f: Finding): string {
    " <code>" + Cell(f.replay) + "</code> "
  }

  function RowCells(f: Finding, run: Run, first: string): seq<string> {
    ["", StatusCell(run.tier, f.key), DetailCell(f), " " + first + " ", LatestCell(run), ToolCell(run), ReplayCell(f), ""]
  }

  /** `first` is when the finding was first seen, carried along as the row is refreshed. */
  function RowOf(f: Finding, run: Run, first: string): string {
    Bars(RowCells(f, run, first))
  }

  /** `rows[key].body.split("|")[3].strip()`. */
  function FirstSeen(body: string): string {
    if |Cells(body)| > 3 then Strip(Cells(body)[3]) else ""
  }

  /** What the next run reads from the row's line is the row. */
  predicate Clean(row: Row, tier: string) {
    OneLine(row.body) && ReadLine(row.body, tier) == Found(row)
  }

  predicate Plain(s: string) {
    OneLine(s) && '|' !in s
  }

  /** Free text in which a newline is the only line break, as far as it is copied. */
  predicate NewlinesOnly(text: string) {
    forall c :: c in First(text, MAX_DETAIL) && LineBreak(c) ==> c == '\n'
  }

  predicate PlainRun(run: Run) {
    Plain(run.Seen()) && Plain(run.event) && Plain(run.ref) && NewlinesOnly(run.tool)
  }

  predicate Writable(f: Finding, run: Run, first: string) {
    Plain(first) && PlainRun(run) && NewlinesOnly(f.detail) && NewlinesOnly(f.replay)
  }

  lemma CellIsPlain(text: string)
    ensures '|' !in Cell(text)
    ensures OneLine(Cell(text)) <==> NewlinesOnly(text)
  {
    CellHas(text, '|');
    forall c | LineBreak(c) ensures c in Cell(text) <==> c in First(text, MAX_DETAIL) && c != '\n' {
      CellHas(text, c);
    }
  }

  lemma TitleIsPlain(title: string)
    ensures Plain(Cell(First(Words(title, false, false), MAX_TITLE)))
  {
    var words := Words(title, false, false);
    WordsAreOneLine(title, false, false);
    var t := First(words, MAX_TITLE);
    assert forall c :: c in t ==> c in words;
    assert First(t, MAX_DETAIL) == t;
    CellIsPlain(t);
  }

  lemma {:induction false} BarsAreOneLine(cells: seq<string>)
    requires |cells| > 0
    ensures OneLine(Bars(cells)) <==> forall c :: c in cells ==> OneLine(c)
  {
    if |cells| == 1 {
      assert cells[0] in cells;
    } else {
      BarsAreOneLine(cells[1..]);
      var rest := Bars(cells[1..]);
      assert OneLine(cells[0] + "|" + rest) <==> OneLine(cells[0]) && OneLine(rest) by {
        OneLineParts(cells[0] + "|", rest);
        OneLineParts(cells[0], "|");
      }
      assert cells == [cells[0]] + cells[1..];
    }
  }

  lemma OneLineParts(a: string, b: string)
    ensures OneLine(a + b) <==> OneLine(a) && OneLine(b)
  {
    assert forall c :: c in a + b <==> c in a || c in b;
  }

  lemma PlainParts(a: string, b: string)
    ensures Plain(a + b) <==> Plain(a) && Plain(b)
  {
    OneLineParts(a, b);
    assert '|' in a + b <==> '|' in a || '|' in b;
  }

  lemma {:induction false} BarsAreCounted(cells: seq<string>)
    requires |cells| > 0
    ensures BarCount(Bars(cells)) >= |cells| - 1
    ensures BarCount(Bars(cells)) == |cells| - 1 <==> forall c :: c in cells ==> '|' !in c
  {
    NoBars(cells[0]);
    if |cells| == 1 {
      assert cells[0] in cells;
    } else {
      var rest := Bars(cells[1..]);
      BarsAreCounted(cells[1..]);
      BarCountAdds(cells[0] + "|", rest);
      BarCountAdds(cells[0], "|");
      assert BarCount("|") == 1 + BarCount("|"[1..]) == 1;
      assert cells == [cells[0]] + cells[1..];
    }
  }

  lemma WrappedIsPlain(before: string, text: string, after: string)
    requires Plain(before) && Plain(after)
    ensures Plain(before + text + after) <==> Plain(text)
  {
    PlainParts(before + text, after);
    PlainParts(before, text);
  }

  lemma FiveArePlain(a: string, b: string, c: string, d: string, e: string)
    requires Plain(a) && Plain(b) && Plain(c) && Plain(d) && Plain(e)
    ensures Plain(a + b + c + d + e)
  {
    PlainParts(a, b);
    PlainParts(a + b, c);
    PlainParts(a + b + c, d);
    PlainParts(a + b + c + d, e);
  }

  lemma MarkerTextIsPlain()
    ensures Plain(" " + OPENING) && Plain(":") && Plain(CLOSING + " open ")
  {
  }

  lemma StatusCellIsPlain(tier: string, key: string)
    requires MarkerWords(tier, key)
    ensures Plain(StatusCell(tier, key))
  {
    MarkerTextIsPlain();
    WordsArePlain(tier, key);
    FiveArePlain(" " + OPENING, tier, ":", key, CLOSING + " open ");
    StatusCellParts(tier, key);
  }

  lemma WordsArePlain(tier: string, key: string)
    requires MarkerWords(tier, key)
    ensures Plain(tier) && Plain(key)
  {
    assert forall c :: LowerLetter(c) || KeyCharacter(c) ==> !LineBreak(c) && c != '|';
  }

  lemma StatusCellParts(tier: string, key: string)
    ensures StatusCell(tier, key) == " " + OPENING + tier + ":" + key + (CLOSING + " open ")
  {
  }

  lemma CodeIsPlain(title: string, detail: string)
    requires Plain(title)
    ensures Plain(" <code>" + title + "</code><br><code>" + detail + "</code> ") <==> Plain(detail)
  {
    WrappedIsPlain(" <code>", title, "</code><br><code>");
    WrappedIsPlain(" <code>" + title + "</code><br><code>", detail, "</code> ");
  }

  lemma DetailCellIsPlain(f: Finding)
    ensures Plain(DetailCell(f)) <==> NewlinesOnly(f.detail)
  {
    TitleIsPlain(f.title);
    CellIsPlain(f.detail);
    CodeIsPlain(Cell(First(Words(f.title, false, false), MAX_TITLE)), Cell(f.detail));
  }

  lemma ThreePartsArePlain(a: string, b: string, c: string)
    ensures Plain(" " + a + " (" + b + ", `" + c + "`) ") <==> Plain(a) && Plain(b) && Plain(c)
  {
    WrappedIsPlain(" ", a, " (");
    PlainParts(" " + a + " (", b);
    PlainParts(" " + a + " (" + b, ", `");
    PlainParts(" " + a + " (" + b + ", `", c);
    PlainParts(" " + a + " (" + b + ", `" + c, "`) ");
  }

  lemma ToolCellIsPlain(run: Run)
    ensures Plain(ToolCell(run)) <==> NewlinesOnly(run.tool)
  {
    var tool := if run.tool == "" then "unknown" else run.tool;
    CellIsPlain(tool);
    assert NewlinesOnly("") && NewlinesOnly("unknown");
    WrappedIsPlain(" ", Cell(tool), " ");
  }

  lemma TagsArePlain()
    ensures Plain(" <code>") && Plain("</code> ") && Plain("</code><br><code>")
  {
  }

  lemma CodeCellIsPlain(text: string)
    ensures Plain(" <code>" + text + "</code> ") <==> Plain(text)
  {
    TagsArePlain();
    WrappedIsPlain(" <code>", text, "</code> ");
  }

  lemma ReplayCellIsPlain(f: Finding)
    ensures Plain(ReplayCell(f)) <==> NewlinesOnly(f.replay)
  {
    CellIsPlain(f.replay);
    var text := Cell(f.replay);
    CodeCellIsPlain(text);
  }

  predicate AllPlain(cells: seq<string>) {
    forall c :: c in cells ==> Plain(c)
  }

  lemma EightPlain(a: string, b: string, c: string, d: string, e: string, f: string)
    ensures AllPlain(["", a, b, c, d, e, f, ""]) <==> Plain(a) && Plain(b) && Plain(c) && Plain(d) && Plain(e) && Plain(f)
  {
    var cells := ["", a, b, c, d, e, f, ""];
    assert a in cells && b in cells && c in cells && d in cells && e in cells && f in cells;
    assert forall x :: x in cells ==> x == "" || x == a || x == b || x == c || x == d || x == e || x == f;
    assert Plain("");
  }

  lemma RowIsPlain(f: Finding, run: Run, first: string)
    requires MarkerWords(run.tier, f.key)
    ensures AllPlain(RowCells(f, run, first)) <==> Writable(f, run, first)
  {
    StatusCellIsPlain(run.tier, f.key);
    DetailCellIsPlain(f);
    WrappedIsPlain(" ", first, " ");
    ThreePartsArePlain(run.Seen(), run.event, run.ref);
    ToolCellIsPlain(run);
    ReplayCellIsPlain(f);
    EightPlain(StatusCell(run.tier, f.key), DetailCell(f), " " + first + " ", LatestCell(run), ToolCell(run), ReplayCell(f));
  }

  lemma SearchSkips(c: char, s: string)
    requires c != '<'
    ensures Search([c] + s) == Search(s)
  {
    assert OPENING[0] == '<' && ([c] + s)[1..] == s;
    assert MatchHere([c] + s) == NoMarker;
  }

  function StartOfRow(tier: string, key: string): string {
    ['|'] + ([' '] + Marked(tier, key))
  }

  lemma RowParts(cells: seq<string>)
    requires |cells| > 2
    ensures Bars(cells) == cells[0] + "|" + cells[1] + "|" + Bars(cells[2..])
  {
    assert cells[1..][1..] == cells[2..];
    assert Bars(cells[1..]) == cells[1] + "|" + Bars(cells[2..]);
  }

  lemma RowStart(f: Finding, run: Run, first: string) returns (rest: string)
    requires MarkerWords(run.tier, f.key)
    ensures RowOf(f, run, first) == StartOfRow(run.tier, f.key) + rest
  {
    var cells := RowCells(f, run, first);
    var tail := Bars(cells[2..]);
    RowParts(cells);
    rest := " open |" + tail;
    StartThenRest(run.tier, f.key, tail);
  }

  lemma StartThenRest(tier: string, key: string, tail: string)
    ensures "" + "|" + StatusCell(tier, key) + "|" + tail == StartOfRow(tier, key) + (" open |" + tail)
  {
    var marked := Marked(tier, key);
    assert StatusCell(tier, key) == " " + marked + " open ";
  }

  lemma PieceIsMarked(tier: string, key: string, rest: string)
    requires MarkerWords(tier, key)
    ensures Search(StartOfRow(tier, key) + rest) == Marker(tier, key)
  {
    var marked := Marked(tier, key) + rest;
    assert StartOfRow(tier, key) + rest == ['|'] + ([' '] + marked);
    SearchSkips('|', [' '] + marked);
    SearchSkips(' ', marked);
    MatchesItself(tier, key, rest);
  }

  lemma RowIsFound(f: Finding, run: Run, first: string)
    requires MarkerWords(run.tier, f.key)
    ensures Search(RowOf(f, run, first)) == Marker(run.tier, f.key)
  {
    var rest := RowStart(f, run, first);
    PieceIsMarked(run.tier, f.key, rest);
  }

  lemma StatusIsOpen(tier: string, key: string)
    requires MarkerWords(tier, key)
    ensures Lower(Strip(LastPiece(StatusCell(tier, key)))) == "open"
  {
    var a := MarkerStart(tier, key);
    ArrowAfter(a, " open ");
    NoArrow(" open ");
    assert StatusCell(tier, key) == a + "-->" + " open ";
    OpenIsOpen();
  }

  lemma MarkerStart(tier: string, key: string) returns (a: string)
    requires MarkerWords(tier, key)
    ensures StatusCell(tier, key) == a + "-->" + " open " && '>' !in a
  {
    a := " " + OPENING + tier + ":" + key + " ";
    assert CLOSING == " " + "-->";
  }

  lemma OpenIsOpen()
    ensures Lower(Strip(" open ")) == "open"
  {
    assert " open " == " " + "open" + " ";
    StripSpaces("open");
  }

  /** A row reads back as itself exactly when it is writable. */
  lemma RowSurvives(f: Finding, run: Run, first: string)
    requires MarkerWords(run.tier, f.key)
    ensures Clean(Row(f.key, Open, RowOf(f, run, first)), run.tier) <==> Writable(f, run, first)
    ensures Writable(f, run, first) && Trimmed(first) ==> FirstSeen(RowOf(f, run, first)) == first
  {
    var cells := RowCells(f, run, first);
    var body := RowOf(f, run, first);
    RowIsPlain(f, run, first);
    RowIsFound(f, run, first);
    BarsAreOneLine(cells);
    BarsAreCounted(cells);
    CellsAreCounted(body);
    if AllPlain(cells) {
      CellsOfBars(cells);
      StatusIsOpen(run.tier, f.key);
      if Trimmed(first) {
        StripSpaces(first);
      }
    }
  }

  // ---------- the whole body ----------

  function TierMarker(tier: string): string {
    "<!-- contract-tier-issue:" + tier + " -->"
  }

  function MigratedMarker(number: string): string {
    "<!-- contract-tier-migrated:" + number + " -->"
  }

  function Bodies(keys: seq<string>, rows: map<string, Row>): seq<string>
    requires forall key :: key in keys ==> key in rows
  {
    seq(|keys|, i requires 0 <= i < |keys| => rows[keys[i]].body)
  }

  /** `prose` is the fixed text between the tier's marker and the rows. */
  function BodyLines(tier: string, prose: seq<string>, keys: seq<string>, rows: map<string, Row>, migrated: seq<string>): seq<string>
    requires forall key :: key in keys ==> key in rows
  {
    [TierMarker(tier)] + prose + Bodies(keys, rows) + [""] + Ordering.Map(migrated, MigratedMarker)
  }

  function RollingBody(tier: string, prose: seq<string>, keys: seq<string>, rows: map<string, Row>, migrated: seq<string>): string
    requires forall key :: key in keys ==> key in rows
  {
    Terminated(BodyLines(tier, prose, keys, rows, migrated))
  }

  /** The rows, each once, in some order. */
  ghost predicate Lists(keys: seq<string>, rows: map<string, Row>) {
    && (forall i, j :: 0 <= i < j < |keys| ==> keys[i] != keys[j])
    && (forall key :: key in keys <==> key in rows)
  }

  ghost predicate Keyed(rows: map<string, Row>) {
    forall key :: key in rows ==> rows[key].key == key
  }

  predicate Quiet(line: string) {
    OneLine(line) && Search(line).NoMarker?
  }

  lemma OtherMarkerIsQuiet(before: string, rest: string)
    requires |before| > 0 && before[0] != 'f'
    requires '<' !in before && '<' !in rest && OneLine(before) && OneLine(rest)
    ensures Quiet("<!-- contract-tier-" + (before + rest))
  {
    var line := "<!-- contract-tier-" + (before + rest);
    assert line[19] == before[0] && OPENING[19] == 'f';
    assert MatchHere(line) == NoMarker;
    OtherMarkerTail(before + rest);
    OneLineParts("<!-- contract-tier-", before + rest);
    OneLineParts(before, rest);
  }

  lemma OtherMarkerTail(rest: string)
    requires '<' !in rest
    ensures Search(("<!-- contract-tier-" + rest)[1..]) == NoMarker
  {
    assert ("<!-- contract-tier-" + rest)[1..] == "!-- contract-tier-" + rest;
    NoMarkerWithout("!-- contract-tier-" + rest);
  }

  lemma {:induction false} QuietLinesAreSkipped(lines: seq<string>, more: seq<string>, tier: string, rows: map<string, Row>)
    requires forall line :: line in lines ==> Quiet(line)
    ensures ReadLines(lines + more, tier, rows) == ReadLines(more, tier, rows)
  {
    if lines == [] {
      assert lines + more == more;
    } else {
      assert (lines + more)[1..] == lines[1..] + more;
      assert Quiet(lines[0]);
      QuietLinesAreSkipped(lines[1..], more, tier, rows);
    }
  }

  /** The rows read so far, and those still to come. */
  lemma {:induction false} CleanRowsAreRead(keys: seq<string>, rows: map<string, Row>, more: seq<string>, tier: string, done: map<string, Row>)
    requires (forall key :: key in keys ==> key in rows && Clean(rows[key], tier)) && Keyed(rows)
    ensures ReadLines(Bodies(keys, rows) + more, tier, done) == ReadLines(more, tier, Filled(done, keys, rows))
    decreases |keys|
  {
    var lines := Bodies(keys, rows);
    if keys == [] {
      assert lines + more == more;
    } else {
      assert (lines + more)[1..] == Bodies(keys[1..], rows) + more;
      assert keys[0] in keys;
      CleanRowsAreRead(keys[1..], rows, more, tier, done[keys[0] := rows[keys[0]]]);
    }
  }

  function Filled(done: map<string, Row>, keys: seq<string>, rows: map<string, Row>): map<string, Row>
    requires forall key :: key in keys ==> key in rows
    decreases |keys|
  {
    if keys == [] then done else Filled(done[keys[0] := rows[keys[0]]], keys[1..], rows)
  }

  lemma {:induction false} FilledHas(done: map<string, Row>, keys: seq<string>, rows: map<string, Row>)
    requires forall key :: key in keys ==> key in rows
    ensures var r := Filled(done, keys, rows); forall k :: k in r <==> k in done || k in keys
    ensures var r := Filled(done, keys, rows); forall k :: k in r ==> r[k] == if k in keys then rows[k] else done[k]
    decreases |keys|
  {
    if keys != [] {
      FilledHas(done[keys[0] := rows[keys[0]]], keys[1..], rows);
      assert keys == [keys[0]] + keys[1..];
    }
  }

  lemma {:induction false} ReadRowsStoodThere(lines: seq<string>, tier: string, done: map<string, Row>, rows: map<string, Row>, key: string)
    requires ReadLines(lines, tier, done) == Rows(rows) && key in rows
    ensures (key in done && done[key] == rows[key]) || (rows[key].body in lines && ReadLine(rows[key].body, tier) == Found(rows[key]))
    decreases |lines|
  {
    if lines != [] {
      match ReadLine(lines[0], tier)
      case NotARow => ReadRowsStoodThere(lines[1..], tier, done, rows, key);
      case Malformed =>
      case Found(row) => ReadRowsStoodThere(lines[1..], tier, done[row.key := row], rows, key);
    }
  }

  predicate Digits(number: string) {
    forall c :: c in number ==> '0' <= c <= '9'
  }

  lemma BodiesAreOneLine(head: seq<string>, keys: seq<string>, rows: map<string, Row>, tail: seq<string>)
    requires forall key :: key in keys ==> key in rows && OneLine(rows[key].body)
    requires (forall line :: line in head ==> OneLine(line)) && (forall line :: line in tail ==> OneLine(line))
    ensures forall line :: line in head + (Bodies(keys, rows) + tail) ==> OneLine(line)
  {
    var bodies := Bodies(keys, rows);
    forall line | line in head + (bodies + tail) ensures OneLine(line) {
      assert line in head || line in bodies || line in tail;
    }
  }

  lemma CleanLinesAreRead(head: seq<string>, keys: seq<string>, rows: map<string, Row>, tail: seq<string>, tier: string)
    requires (forall line :: line in head ==> Quiet(line)) && (forall line :: line in tail ==> Quiet(line))
    requires (forall key :: key in keys ==> key in rows && Clean(rows[key], tier)) && Keyed(rows)
    ensures ReadLines(head + (Bodies(keys, rows) + tail), tier, map[]) == Rows(Filled(map[], keys, rows))
  {
    QuietLinesAreSkipped(head, Bodies(keys, rows) + tail, tier, map[]);
    CleanRowsAreRead(keys, rows, tail, tier, map[]);
    var all := Filled(map[], keys, rows);
    QuietLinesAreSkipped(tail, [], tier, all);
    assert tail + [] == tail;
  }

  lemma FilledWithAll(keys: seq<string>, rows: map<string, Row>)
    requires Lists(keys, rows)
    ensures Filled(map[], keys, rows) == rows
  {
    FilledHas(map[], keys, rows);
  }

  lemma CleanTableReadsBack(head: seq<string>, keys: seq<string>, rows: map<string, Row>, tail: seq<string>, tier: string)
    requires (forall line :: line in head ==> Quiet(line)) && (forall line :: line in tail ==> Quiet(line))
    requires Lists(keys, rows) && Keyed(rows) && forall key :: key in rows ==> Clean(rows[key], tier)
    ensures ReadRows(Terminated(head + (Bodies(keys, rows) + tail)), tier) == Rows(rows)
  {
    BodiesAreOneLine(head, keys, rows, tail);
    LinesOfTerminated(head + (Bodies(keys, rows) + tail));
    CleanLinesAreRead(head, keys, rows, tail, tier);
    FilledWithAll(keys, rows);
  }

  lemma ReadTableIsClean(body: string, tier: string, rows: map<string, Row>)
    requires ReadRows(body, tier) == Rows(rows)
    ensures forall key :: key in rows ==> Clean(rows[key], tier)
  {
    forall key | key in rows ensures Clean(rows[key], tier) {
      ReadRowsStoodThere(Lines(body), tier, map[], rows, key);
      LinesAreOneLine(body, rows[key].body);
    }
  }

  /** The table read back is the table exactly when every row of it is clean. */
  lemma TableReadsBack(tier: string, prose: seq<string>, keys: seq<string>, rows: map<string, Row>, migrated: seq<string>)
    requires tier == "fuzz" || tier == "faults"
    requires forall line :: line in prose ==> OneLine(line) && '<' !in line
    requires forall number :: number in migrated ==> Digits(number)
    requires Lists(keys, rows) && Keyed(rows)
    ensures ReadRows(RollingBody(tier, prose, keys, rows, migrated), tier) == Rows(rows)
      <==> forall key :: key in rows ==> Clean(rows[key], tier)
  {
    var head := [TierMarker(tier)] + prose;
    var tail := [""] + Ordering.Map(migrated, MigratedMarker);
    assert BodyLines(tier, prose, keys, rows, migrated) == head + (Bodies(keys, rows) + tail);
    if forall key :: key in rows ==> Clean(rows[key], tier) {
      HeadIsQuiet(tier, prose);
      TailIsQuiet(migrated);
      CleanTableReadsBack(head, keys, rows, tail, tier);
    }
    if ReadRows(RollingBody(tier, prose, keys, rows, migrated), tier) == Rows(rows) {
      ReadTableIsClean(RollingBody(tier, prose, keys, rows, migrated), tier, rows);
    }
  }

  lemma HeadIsQuiet(tier: string, prose: seq<string>)
    requires tier == "fuzz" || tier == "faults"
    requires forall line :: line in prose ==> OneLine(line) && '<' !in line
    ensures forall line :: line in [TierMarker(tier)] + prose ==> Quiet(line)
  {
    assert TierMarker(tier) == "<!-- contract-tier-" + ("issue:" + (tier + " -->"));
    OtherMarkerIsQuiet("issue:", tier + " -->");
    forall line | line in prose ensures Quiet(line) {
      NoMarkerWithout(line);
    }
  }

  lemma TailIsQuiet(migrated: seq<string>)
    requires forall number :: number in migrated ==> Digits(number)
    ensures forall line :: line in [""] + Ordering.Map(migrated, MigratedMarker) ==> Quiet(line)
  {
    forall number | number in migrated ensures Quiet(MigratedMarker(number)) {
      assert MigratedMarker(number) == "<!-- contract-tier-" + ("migrated:" + (number + " -->"));
      OneLineParts(number, " -->");
      OtherMarkerIsQuiet("migrated:", number + " -->");
    }
  }
}
