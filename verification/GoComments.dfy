/**
 * Blanking the comments of a Go source, and the line numbers of what is found in the rest.
 * Recognising zones and dates in one line is a parameter.
 */
module GoComments {

  // ---------- what a comment is: an automaton over single characters ----------

  /** `Opening` and `Closing` are the second characters of a block comment's marks. */
  datatype Mode = Code | LineComment | Opening | Block | Closing | Quoted(quote: char) | Escaped(quote: char)

  predicate Quote(c: char) {
    c == '"' || c == '\'' || c == '`'
  }

  predicate Starts(s: string, mark: string) {
    mark <= s
  }

  predicate CommentStarts(s: string) {
    Starts(s, "//") || Starts(s, "/*")
  }

  /** The mode after the first character. */
  function After(s: string, mode: Mode): Mode
    requires s != ""
  {
    match mode
    case Code =>
      if Starts(s, "//") then LineComment
      else if Starts(s, "/*") then Opening
      else if Quote(s[0]) then Quoted(s[0])
      else Code
    case LineComment => if s[0] == '\n' then Code else LineComment
    case Opening => Block
    case Block => if Starts(s, "*/") then Closing else Block
    case Closing => Code
    case Quoted(quote) =>
      if s[0] == quote then Code
      else if quote == '`' then mode
      else if s[0] == '\\' then Escaped(quote)
      else if s[0] == '\n' then Code
      else mode
    case Escaped(quote) => Quoted(quote)
  }

  predicate CommentMode(mode: Mode) {
    mode.LineComment? || mode.Opening? || mode.Block? || mode.Closing?
  }

  /** Whether the first character belongs to a comment. The newline ending a line comment does not. */
  predicate InComment(s: string, mode: Mode)
    requires s != ""
  {
    (mode.Code? && CommentStarts(s)) || (CommentMode(mode) && !(mode.LineComment? && s[0] == '\n'))
  }

  function BlankCharacter(s: string, mode: Mode): char
    requires s != ""
  {
    if InComment(s, mode) && s[0] != '\n' then ' ' else s[0]
  }

  function Blanked(s: string, mode: Mode): (r: string)
    ensures |r| == |s|
  {
    if s == "" then "" else [BlankCharacter(s, mode)] + Blanked(s[1..], After(s, mode))
  }

  function ModeAt(s: string, mode: Mode, i: nat): Mode
    requires i <= |s|
    decreases i
  {
    if i == 0 then mode else ModeAt(s[1..], After(s, mode), i - 1)
  }

  // ---------- what blanking keeps ----------

  /** Nothing but comment characters changes, they become spaces, and newlines stay. */
  lemma {:induction false} OnlyCommentsChange(s: string, mode: Mode, i: nat)
    requires i < |s|
    ensures Blanked(s, mode)[i] == if InComment(s[i..], ModeAt(s, mode, i)) && s[i] != '\n' then ' ' else s[i]
    ensures Blanked(s, mode)[i] == '\n' <==> s[i] == '\n'
    decreases i
  {
    if i == 0 {
      assert s[0..] == s;
    } else {
      OnlyCommentsChange(s[1..], After(s, mode), i - 1);
      assert s[1..][i - 1..] == s[i..];
    }
  }

  function OutOfComment(mode: Mode): Mode {
    if CommentMode(mode) then Code else mode
  }

  lemma BlankedHead(s: string, mode: Mode)
    requires s != ""
    ensures var b := Blanked(s, mode); b != "" && b[0] == BlankCharacter(s, mode) && b[1..] == Blanked(s[1..], After(s, mode))
  {
  }

  /** What is left starts no comment. */
  lemma NoCommentStarts(s: string, mode: Mode)
    requires s != ""
    ensures OutOfComment(mode).Code? ==> !CommentStarts(Blanked(s, mode))
  {
    BlankedHead(s, mode);
    if |s| > 1 {
      BlankedHead(s[1..], After(s, mode));
      assert Blanked(s, mode)[1] == Blanked(s[1..], After(s, mode))[0];
    }
  }

  lemma BlankedStep(s: string, mode: Mode)
    requires s != ""
    ensures var b := Blanked(s, mode);
      BlankCharacter(b, OutOfComment(mode)) == b[0] && After(b, OutOfComment(mode)) == OutOfComment(After(s, mode))
  {
    BlankedHead(s, mode);
    NoCommentStarts(s, mode);
  }

  lemma {:induction false} BlankedTwice(s: string, mode: Mode)
    ensures Blanked(Blanked(s, mode), OutOfComment(mode)) == Blanked(s, mode)
  {
    if s != "" {
      BlankedHead(s, mode);
      BlankedStep(s, mode);
      BlankedTwice(s[1..], After(s, mode));
    }
  }

  /** Comments once blanked out, there is nothing left to blank. */
  lemma Idempotent(text: string)
    ensures Blanked(Blanked(text, Code), Code) == Blanked(text, Code)
  {
    BlankedTwice(text, Code);
  }

  // ---------- the source's scanner ----------

  /** `text.find(mark, from)`, or the length when it is not there. */
  function Find(text: string, mark: string, from: nat): (at: nat)
    requires from <= |text| && mark != ""
    ensures from <= at <= |text|
    ensures at < |text| ==> Starts(text[at..], mark)
    ensures forall i :: from <= i < at ==> !Starts(text[i..], mark)
    decreases |text| - from
  {
    if from == |text| || Starts(text[from..], mark) then from else Find(text, mark, from + 1)
  }

  function Spaces(n: nat): string {
    seq(n, _ => ' ')
  }

  function Blank(s: string): string {
    seq(|s|, i requires 0 <= i < |s| => if s[i] == '\n' then '\n' else ' ')
  }

  /** A stretch of text whose end is reached in the given mode. */
  ghost predicate Passes(text: string, from: nat, stop: nat, mode: Mode, end: Mode, piece: string) {
    && from <= stop <= |text|
    && Blanked(text[from..], mode) == piece + Blanked(text[stop..], end)
  }

  lemma PassesOne(text: string, from: nat, mode: Mode)
    requires from < |text|
    ensures Passes(text, from, from + 1, mode, After(text[from..], mode), [BlankCharacter(text[from..], mode)])
  {
    assert text[from..][1..] == text[from + 1..];
  }

  lemma PassesOn(text: string, a: nat, b: nat, c: nat, m: Mode, n: Mode, o: Mode, left: string, right: string)
    requires Passes(text, a, b, m, n, left) && Passes(text, b, c, n, o, right)
    ensures Passes(text, a, c, m, o, left + right)
  {
    assert left + (right + Blanked(text[c..], o)) == left + right + Blanked(text[c..], o);
  }

  lemma {:induction false} LineCommentPasses(text: string, from: nat, stop: nat)
    requires from <= stop <= |text| && forall i :: from <= i < stop ==> text[i] != '\n'
    ensures Passes(text, from, stop, LineComment, LineComment, Spaces(stop - from))
    decreases stop - from
  {
    if from < stop {
      PassesOne(text, from, LineComment);
      LineCommentPasses(text, from + 1, stop);
      PassesOn(text, from, from + 1, stop, LineComment, LineComment, LineComment, " ", Spaces(stop - from - 1));
      assert " " + Spaces(stop - from - 1) == Spaces(stop - from);
    } else {
      assert Spaces(0) == "";
    }
  }

  lemma {:induction false} BlockPasses(text: string, from: nat, stop: nat)
    requires from <= stop <= |text| && forall i :: from <= i < stop ==> !Starts(text[i..], "*/")
    ensures Passes(text, from, stop, Block, Block, Blank(text[from..stop]))
    decreases stop - from
  {
    if from < stop {
      PassesOne(text, from, Block);
      BlockPasses(text, from + 1, stop);
      var c := [BlankCharacter(text[from..], Block)];
      PassesOn(text, from, from + 1, stop, Block, Block, Block, c, Blank(text[from + 1..stop]));
      assert c + Blank(text[from + 1..stop]) == Blank(text[from..stop]);
    } else {
      assert Blank(text[from..stop]) == "";
    }
  }

  /** A whole line comment, up to its newline or the end of the text. */
  lemma NoNewlineBefore(text: string, i: nat, end: nat)
    requires i < |text| && Starts(text[i..], "//") && end == Find(text, "\n", i)
    ensures i < end && forall k :: i <= k < end ==> text[k] != '\n'
  {
    forall k | i <= k < end ensures text[k] != '\n' {
      assert !Starts(text[k..], "\n") && text[k..][0] == text[k];
    }
    assert text[i..][0] == '/';
    assert !Starts(text[i..], "\n");
  }

  lemma OneMoreSpace(n: nat)
    ensures " " + Spaces(n) == Spaces(n + 1)
  {
  }

  lemma LineCommentIsBlank(text: string, i: nat, end: nat)
    requires i < end <= |text| && Starts(text[i..], "//") && forall k :: i <= k < end ==> text[k] != '\n'
    ensures Passes(text, i, end, Code, LineComment, Spaces(end - i))
  {
    assert text[i..][0] == '/';
    PassesOne(text, i, Code);
    LineCommentPasses(text, i + 1, end);
    PassesOn(text, i, i + 1, end, Code, LineComment, LineComment, " ", Spaces(end - i - 1));
    OneMoreSpace(end - i - 1);
  }

  lemma LineComments(text: string, i: nat, end: nat)
    requires i < |text| && Starts(text[i..], "//") && end == Find(text, "\n", i)
    ensures i < end && Blanked(text[i..], Code) == Spaces(end - i) + Blanked(text[end..], Code)
  {
    NoNewlineBefore(text, i, end);
    LineCommentIsBlank(text, i, end);
    LineCommentEnds(text[end..]);
  }

  lemma LineCommentEnds(s: string)
    requires s == "" || Starts(s, "\n")
    ensures Blanked(s, LineComment) == Blanked(s, Code)
  {
    if s != "" {
      assert s[0] == '\n';
    }
  }

  lemma BlockOpens(text: string, i: nat)
    requires i < |text| && Starts(text[i..], "/*")
    ensures i + 2 <= |text| && Passes(text, i, i + 2, Code, Block, "  ")
  {
    var s := text[i..];
    assert |s| >= 2 && s[0] == '/' && s[1] == '*';
    PassesOne(text, i, Code);
    assert text[i + 1..][0] == '*';
    PassesOne(text, i + 1, Opening);
    PassesOn(text, i, i + 1, i + 2, Code, Opening, Block, " ", " ");
  }

  lemma BlockCloses(text: string, at: nat)
    requires at < |text| && Starts(text[at..], "*/")
    ensures at + 2 <= |text| && Passes(text, at, at + 2, Block, Code, "  ")
  {
    var s := text[at..];
    assert |s| >= 2 && s[0] == '*' && s[1] == '/';
    PassesOne(text, at, Block);
    assert text[at + 1..][0] == '/';
    PassesOne(text, at + 1, Closing);
    PassesOn(text, at, at + 1, at + 2, Block, Closing, Code, " ", " ");
  }

  lemma BlockBegins(text: string, i: nat, at: nat)
    requires i + 2 <= at <= |text| && Starts(text[i..], "/*")
    requires forall k :: i + 2 <= k < at ==> !Starts(text[k..], "*/")
    ensures Passes(text, i, at, Code, Block, Blank(text[i..at]))
  {
    BlockOpens(text, i);
    BlockPasses(text, i + 2, at);
    var inside := Blank(text[i + 2..at]);
    PassesOn(text, i, i + 2, at, Code, Block, Block, "  ", inside);
    BlankParts(text, i, i + 2, at);
    assert text[i..][0] == '/' && text[i..][1] == '*';
    assert Blank(text[i..i + 2]) == "  ";
  }

  lemma BlankParts(text: string, a: nat, b: nat, c: nat)
    requires a <= b <= c <= |text|
    ensures Blank(text[a..b]) + Blank(text[b..c]) == Blank(text[a..c])
  {
  }

  /** A whole block comment; one that is never closed takes the rest of the text. */
  lemma BlockComments(text: string, i: nat, at: nat, end: nat)
    requires i + 2 <= |text| && Starts(text[i..], "/*") && at == Find(text, "*/", i + 2)
    requires at < |text| ==> at + 2 <= |text|
    requires end == if at == |text| then |text| else at + 2
    ensures i < end <= |text| && Blanked(text[i..], Code) == Blank(text[i..end]) + Blanked(text[end..], Code)
  {
    BlockBegins(text, i, at);
    if at < |text| {
      BlockCloses(text, at);
      PassesOn(text, i, at, end, Code, Block, Code, Blank(text[i..at]), "  ");
      assert text[at..][0] == '*' && text[at..][1] == '/';
      assert Blank(text[at..end]) == "  ";
      BlankParts(text, i, at, end);
    } else {
      assert text[at..] == "";
      EmptyIsBlanked(Block, Code);
    }
  }

  lemma QuotePasses(text: string, i: nat, j: nat, mode: Mode, end: Mode)
    requires i < |text| && i <= j < |text| && !CommentMode(mode) && !mode.Code? && After(text[j..], mode) == end
    requires Passes(text, i, j, Code, mode, text[i..j])
    ensures Passes(text, i, j + 1, Code, end, text[i..j + 1])
  {
    PassesOne(text, j, mode);
    PassesOn(text, i, j, j + 1, Code, mode, end, text[i..j], [text[j]]);
    assert text[i..j] + [text[j]] == text[i..j + 1];
  }

  lemma EmptyIsBlanked(m: Mode, n: Mode)
    ensures Blanked("", m) == Blanked("", n)
  {
  }

  /** Inside a literal that began at `i`, everything before `j` copied. */
  ghost predicate Inside(text: string, i: nat, j: nat, quote: char) {
    i <= j <= |text| && Passes(text, i, j, Code, Quoted(quote), text[i..j])
  }

  lemma QuoteOpens(text: string, i: nat)
    requires i < |text| && Quote(text[i])
    ensures Inside(text, i, i + 1, text[i])
  {
    PassesOne(text, i, Code);
    assert text[i..i + 1] == [text[i]] && !CommentStarts(text[i..]);
  }

  /** A backslash takes the next character with it, whatever it is, or ends the text. */
  lemma EscapePasses(text: string, i: nat, j: nat, quote: char)
    requires i < |text| && i <= j < |text| && Inside(text, i, j, quote) && text[j] == '\\' && quote != '`' && quote != '\\'
    ensures j + 1 < |text| ==> Inside(text, i, j + 2, quote)
    ensures j + 1 == |text| ==> Scanned(text, i, |text|, text[i..])
  {
    QuotePasses(text, i, j, Quoted(quote), Escaped(quote));
    if j + 1 < |text| {
      QuotePasses(text, i, j + 1, Escaped(quote), Quoted(quote));
    } else {
      assert text[i..j + 1] == text[i..] && text[j + 1..] == "";
      EmptyIsBlanked(Escaped(quote), Code);
    }
  }

  /** The quote, or the end of a line that a raw literal would run past, closes the literal. */
  lemma QuoteCloses(text: string, i: nat, j: nat, quote: char)
    requires i < |text| && i <= j < |text| && Inside(text, i, j, quote)
    requires text[j] == quote || (text[j] == '\n' && quote != '`')
    ensures Scanned(text, i, j + 1, text[i..j + 1])
  {
    QuotePasses(text, i, j, Quoted(quote), Code);
  }

  lemma TextEndsInside(text: string, i: nat, quote: char)
    requires i < |text| && Inside(text, i, |text|, quote)
    ensures Scanned(text, i, |text|, text[i..])
  {
    assert text[i..|text|] == text[i..] && text[|text|..] == "";
    EmptyIsBlanked(Quoted(quote), Code);
  }

  ghost predicate Scanned(text: string, i: nat, end: nat, piece: string) {
    i < end <= |text| && Blanked(text[i..], Code) == piece + Blanked(text[end..], Code)
  }

  /** A literal is copied: to its closing quote, or to the end of the line unless it is raw. */
  method CopyQuoted(text: string, i: nat) returns (end: nat)
    requires i < |text| && Quote(text[i])
    ensures i < end <= |text| && Scanned(text, i, end, text[i..end])
  {
    var quote := text[i];
    var j := i + 1;
    QuoteOpens(text, i);
    while j < |text| && text[j] != quote
      invariant i < j <= |text| && Inside(text, i, j, quote)
      decreases |text| - j
    {
      if text[j] == '\\' && quote != '`' {
        EscapePasses(text, i, j, quote);
        if j + 1 == |text| {
          assert text[i..|text|] == text[i..];
          return |text|;
        }
        j := j + 2;
      } else if text[j] == '\n' && quote != '`' {
        QuoteCloses(text, i, j, quote);
        return j + 1;
      } else {
        QuotePasses(text, i, j, Quoted(quote), Quoted(quote));
        j := j + 1;
      }
    }
    if j < |text| {
      QuoteCloses(text, i, j, quote);
      return j + 1;
    }
    TextEndsInside(text, i, quote);
    assert text[i..|text|] == text[i..];
    end := |text|;
  }

  method BlankLineComment(text: string, i: nat) returns (end: nat, piece: string)
    requires i < |text| && Starts(text[i..], "//")
    ensures Scanned(text, i, end, piece)
  {
    end := Find(text, "\n", i);
    LineComments(text, i, end);
    piece := Spaces(end - i);
  }

  method BlankBlockComment(text: string, i: nat) returns (end: nat, piece: string)
    requires i < |text| && Starts(text[i..], "/*")
    ensures Scanned(text, i, end, piece)
  {
    BlockOpens(text, i);
    var at := Find(text, "*/", i + 2);
    end := |text|;
    if at < |text| {
      BlockCloses(text, at);
      end := at + 2;
    }
    BlockComments(text, i, at, end);
    piece := Blank(text[i..end]);
  }

  lemma ScannedOn(text: string, i: nat, end: nat, out: string, piece: string)
    requires Scanned(text, i, end, piece) && out + Blanked(text[i..], Code) == Blanked(text, Code)
    ensures (out + piece) + Blanked(text[end..], Code) == Blanked(text, Code)
  {
  }

  /** The scanner blanks exactly what the automaton calls a comment. */
  method WithoutComments(text: string) returns (out: string)
    ensures out == Blanked(text, Code)
  {
    out := "";
    var i := 0;
    assert text[0..] == text;
    while i < |text|
      invariant i <= |text| && out + Blanked(text[i..], Code) == Blanked(text, Code)
      decreases |text| - i
    {
      var end, piece := i + 1, [text[i]];
      if Starts(text[i..], "//") {
        end, piece := BlankLineComment(text, i);
      } else if Starts(text[i..], "/*") {
        end, piece := BlankBlockComment(text, i);
      } else if Quote(text[i]) {
        end := CopyQuoted(text, i);
        piece := text[i..end];
      } else {
        PassesOne(text, i, Code);
      }
      ScannedOn(text, i, end, out, piece);
      out, i := out + piece, end;
    }
    assert text[i..] == "";
  }

  // ---------- lines, declarations and findings ----------

  /** `text.split("\n")`. */
  function Lines(s: string): (r: seq<string>)
    ensures |r| > 0
  {
    if s == "" then [""]
    else
      var rest := Lines(s[1..]);
      if s[0] == '\n' then [""] + rest else [[s[0]] + rest[0]] + rest[1..]
  }

  /** The lines stay where they are, and as long as they are. */
  lemma {:induction false} LinesStay(s: string, t: string)
    requires |s| == |t| && forall i :: 0 <= i < |s| ==> (s[i] == '\n' <==> t[i] == '\n')
    ensures |Lines(s)| == |Lines(t)|
    ensures forall k :: 0 <= k < |Lines(s)| ==> |Lines(s)[k]| == |Lines(t)[k]|
  {
    if s != "" {
      LinesStay(s[1..], t[1..]);
    }
  }

  lemma BlankingKeepsLines(text: string)
    ensures |Lines(Blanked(text, Code))| == |Lines(text)|
    ensures forall k :: 0 <= k < |Lines(text)| ==> |Lines(Blanked(text, Code))[k]| == |Lines(text)[k]|
  {
    forall i | 0 <= i < |text| ensures text[i] == '\n' <==> Blanked(text, Code)[i] == '\n' {
      OnlyCommentsChange(text, Code, i);
    }
    LinesStay(text, Blanked(text, Code));
  }

  predicate WordCharacter(c: char) {
    'a' <= c <= 'z' || 'A' <= c <= 'Z' || '0' <= c <= '9' || c == '_'
  }

  predicate Keyword(line: string, word: string) {
    Starts(line, word) && (|line| == |word| || !WordCharacter(line[|word|]))
  }

  predicate Declaration(line: string) {
    Keyword(line, "func") || Keyword(line, "var") || Keyword(line, "const") || Keyword(line, "type")
  }

  /** Where the declaration that the line stands in begins: the first line begins one anyway. */
  function BlockStart(lines: seq<string>, k: nat): (start: nat)
    requires k < |lines|
    ensures start <= k && (start == 0 || Declaration(lines[start]))
    ensures forall i :: start < i <= k ==> !Declaration(lines[i])
  {
    if k == 0 || Declaration(lines[k]) then k else BlockStart(lines, k - 1)
  }

  function BlockEnd(lines: seq<string>, k: nat): (end: nat)
    requires k < |lines|
    ensures k < end <= |lines| && (end == |lines| || Declaration(lines[end]))
    ensures forall i :: k < i < end ==> !Declaration(lines[i])
    decreases |lines| - k
  {
    if k + 1 == |lines| || Declaration(lines[k + 1]) then k + 1 else BlockEnd(lines, k + 1)
  }

  /** A declaration's lines and the index of the first of them. */
  datatype Piece = Piece(start: nat, lines: seq<string>) {
    function End(): nat {
      start + |lines|
    }
  }

  predicate IsBlock(block: Piece, lines: seq<string>) {
    && block.start < block.End() <= |lines| && block.lines == lines[block.start..block.End()]
    && (block.start == 0 || Declaration(lines[block.start]))
    && (block.End() == |lines| || Declaration(lines[block.End()]))
    && (forall i :: block.start < i < block.End() ==> !Declaration(lines[i]))
  }

  /** The declarations of the lines from `start` to `end`, none left out. */
  predicate CutsInto(blocks: seq<Piece>, lines: seq<string>, start: nat, end: nat)
    decreases |blocks|
  {
    if blocks == [] then start == end
    else blocks[0].start == start && IsBlock(blocks[0], lines) && CutsInto(blocks[1..], lines, blocks[0].End(), end)
  }

  lemma {:induction false} CutOneMore(blocks: seq<Piece>, block: Piece, lines: seq<string>, start: nat, end: nat)
    requires CutsInto(blocks, lines, start, end) && IsBlock(block, lines) && block.start == end
    ensures CutsInto(blocks + [block], lines, start, block.End())
    decreases |blocks|
  {
    if blocks == [] {
      assert (blocks + [block])[1..] == [];
    } else {
      assert (blocks + [block])[1..] == blocks[1..] + [block];
      CutOneMore(blocks[1..], block, lines, blocks[0].End(), end);
    }
  }

  method Declarations(lines: seq<string>) returns (blocks: seq<Piece>)
    requires lines != []
    ensures CutsInto(blocks, lines, 0, |lines|)
  {
    blocks := [];
    var start := 0;
    for number := 0 to |lines|
      invariant start <= number && (start == number ==> number == 0)
      invariant CutsInto(blocks, lines, 0, start) && (start == 0 || Declaration(lines[start]))
      invariant forall i :: start < i < number ==> !Declaration(lines[i])
    {
      if number > 0 && Declaration(lines[number]) {
        CutOneMore(blocks, Piece(start, lines[start..number]), lines, 0, start);
        blocks := blocks + [Piece(start, lines[start..number])];
        start := number;
      }
    }
    CutOneMore(blocks, Piece(start, lines[start..]), lines, 0, start);
    blocks := blocks + [Piece(start, lines[start..])];
  }

  /** What the regular expressions see in one line. */
  datatype Patterns = Patterns(zones: string -> seq<string>, years: string -> set<int>)

  datatype Found = Found(number: nat, zone: string, late: set<int>)

  function YearsOf(lines: seq<string>, p: Patterns): set<int> {
    if lines == [] then {} else YearsOf(lines[..|lines| - 1], p) + p.years(lines[|lines| - 1])
  }

  function LateYears(line: string, blockYears: set<int>, p: Patterns, year: int): set<int> {
    From(if p.years(line) == {} then blockYears else p.years(line), year)
  }

  function From(years: set<int>, year: int): set<int> {
    set y | y in years && y >= year
  }

  /** What there is to report about a line: its own years count, or else its declaration's. */
  predicate Reported(f: Found, lines: seq<string>, p: Patterns, fixed: set<string>, year: int) {
    && 0 < f.number <= |lines| && f.zone in p.zones(lines[f.number - 1]) && f.zone !in fixed && f.late != {}
    && f.late == LateOf(lines, f.number - 1, p, year)
  }

  function LateOf(lines: seq<string>, k: nat, p: Patterns, year: int): set<int>
    requires k < |lines|
  {
    LateYears(lines[k], YearsOf(lines[BlockStart(lines, k)..BlockEnd(lines, k)], p), p, year)
  }

  lemma BlockIsTheLinesOwn(block: Piece, lines: seq<string>, k: nat)
    requires IsBlock(block, lines) && block.start <= k < block.End()
    ensures BlockStart(lines, k) == block.start && BlockEnd(lines, k) == block.End()
  {
    var start, end := BlockStart(lines, k), BlockEnd(lines, k);
    assert start >= block.start;
    assert end <= block.End();
  }

  /** The findings of one line, a zone as often as it stands there. */
  function InLine(zones: seq<string>, number: nat, late: set<int>, fixed: set<string>): seq<Found>
    decreases |zones|
  {
    if zones == [] then []
    else
      var zone := zones[|zones| - 1];
      InLine(zones[..|zones| - 1], number, late, fixed) + (if zone in fixed || late == {} then [] else [Found(number, zone, late)])
  }

  /** For each line the unsettled years that its zones are pinned to. */
  function Lates(lines: seq<string>, p: Patterns, year: int): seq<set<int>> {
    seq(|lines|, k requires 0 <= k < |lines| => LateOf(lines, k, p, year))
  }

  ghost predicate AreLates(lates: seq<set<int>>, lines: seq<string>, p: Patterns, year: int) {
    |lates| == |lines| && forall k {:trigger LateOf(lines, k, p, year)} :: 0 <= k < |lines| ==> lates[k] == LateOf(lines, k, p, year)
  }

  function LineFound(lines: seq<string>, lates: seq<set<int>>, k: nat, p: Patterns, fixed: set<string>): seq<Found>
    requires k < |lines| == |lates|
  {
    InLine(p.zones(lines[k]), k + 1, lates[k], fixed)
  }

  /** The findings of the first `n` lines, line by line. */
  function AllFound(lines: seq<string>, lates: seq<set<int>>, n: nat, p: Patterns, fixed: set<string>): seq<Found>
    requires n <= |lines| == |lates|
  {
    if n == 0 then [] else AllFound(lines, lates, n - 1, p, fixed) + LineFound(lines, lates, n - 1, p, fixed)
  }

  predicate Stands(f: Found, lines: seq<string>, lates: seq<set<int>>, p: Patterns, fixed: set<string>)
    requires |lines| == |lates|
  {
    && 0 < f.number <= |lines| && f.zone in p.zones(lines[f.number - 1]) && f.zone !in fixed && f.late != {}
    && f.late == lates[f.number - 1]
  }

  lemma {:induction false} InLineHas(zones: seq<string>, number: nat, late: set<int>, fixed: set<string>, f: Found)
    ensures f in InLine(zones, number, late, fixed) <==>
      f.number == number && f.zone in zones && f.zone !in fixed && f.late == late && f.late != {}
    decreases |zones|
  {
    if zones != [] {
      InLineHas(zones[..|zones| - 1], number, late, fixed, f);
      assert zones == zones[..|zones| - 1] + [zones[|zones| - 1]];
    }
  }

  lemma LineFoundHas(lines: seq<string>, lates: seq<set<int>>, k: nat, p: Patterns, fixed: set<string>, f: Found)
    requires k < |lines| == |lates|
    ensures f in LineFound(lines, lates, k, p, fixed) <==> f.number == k + 1 && Stands(f, lines, lates, p, fixed)
  {
    InLineHas(p.zones(lines[k]), k + 1, lates[k], fixed, f);
  }

  lemma {:induction false} AllFoundHas(lines: seq<string>, lates: seq<set<int>>, n: nat, p: Patterns, fixed: set<string>, f: Found)
    requires n <= |lines| == |lates|
    ensures f in AllFound(lines, lates, n, p, fixed) <==> f.number <= n && Stands(f, lines, lates, p, fixed)
  {
    if n > 0 {
      AllFoundHas(lines, lates, n - 1, p, fixed, f);
      LineFoundHas(lines, lates, n - 1, p, fixed, f);
    }
  }

  predicate Ordered(found: seq<Found>) {
    forall i, j :: 0 <= i < j < |found| ==> found[i].number <= found[j].number
  }

  lemma OrderedTogether(before: seq<Found>, here: seq<Found>, n: nat)
    requires Ordered(before) && (forall i :: 0 <= i < |before| ==> before[i].number <= n) && forall i :: 0 <= i < |here| ==> here[i].number == n
    ensures Ordered(before + here)
  {
  }

  lemma {:induction false} AllFoundIsOrdered(lines: seq<string>, lates: seq<set<int>>, n: nat, p: Patterns, fixed: set<string>)
    requires n <= |lines| == |lates|
    ensures Ordered(AllFound(lines, lates, n, p, fixed))
  {
    if n > 0 {
      var before, here := AllFound(lines, lates, n - 1, p, fixed), LineFound(lines, lates, n - 1, p, fixed);
      AllFoundIsOrdered(lines, lates, n - 1, p, fixed);
      forall i | 0 <= i < |before| ensures before[i].number <= n {
        AllFoundHas(lines, lates, n - 1, p, fixed, before[i]);
      }
      forall i | 0 <= i < |here| ensures here[i].number == n {
        LineFoundHas(lines, lates, n - 1, p, fixed, here[i]);
      }
      OrderedTogether(before, here, n);
    }
  }

  lemma StandsIsReported(f: Found, lines: seq<string>, p: Patterns, fixed: set<string>, year: int)
    ensures Stands(f, lines, Lates(lines, p, year), p, fixed) <==> Reported(f, lines, p, fixed, year)
  {
  }

  lemma AllFoundStand(lines: seq<string>, lates: seq<set<int>>, p: Patterns, fixed: set<string>)
    requires |lines| == |lates|
    ensures var found := AllFound(lines, lates, |lines|, p, fixed);
      Ordered(found) && forall f :: f in found <==> Stands(f, lines, lates, p, fixed)
  {
    AllFoundIsOrdered(lines, lates, |lines|, p, fixed);
    forall f ensures f in AllFound(lines, lates, |lines|, p, fixed) <==> Stands(f, lines, lates, p, fixed) {
      AllFoundHas(lines, lates, |lines|, p, fixed, f);
    }
  }

  /** What all lines hold is what there is to report. */
  lemma FoundIsReported(lines: seq<string>, p: Patterns, fixed: set<string>, year: int, found: seq<Found>)
    requires found == AllFound(lines, Lates(lines, p, year), |lines|, p, fixed)
    ensures Ordered(found) && forall f :: f in found <==> Reported(f, lines, p, fixed, year)
  {
    AllFoundStand(lines, Lates(lines, p, year), p, fixed);
    forall f ensures f in found <==> Reported(f, lines, p, fixed, year) {
      StandsIsReported(f, lines, p, fixed, year);
    }
  }

  method FindInLine(line: string, number: nat, blockYears: set<int>, p: Patterns, fixed: set<string>, year: int) returns (found: seq<Found>)
    ensures found == InLine(p.zones(line), number, LateYears(line, blockYears, p, year), fixed)
  {
    found := [];
    var zones := p.zones(line);
    var late := LateYears(line, blockYears, p, year);
    for i := 0 to |zones|
      invariant found == InLine(zones[..i], number, late, fixed)
    {
      assert zones[..i + 1][..i] == zones[..i];
      if zones[i] !in fixed && late != {} {
        found := found + [Found(number, zones[i], late)];
      }
    }
    assert zones[..|zones|] == zones;
  }

  method BlockYears(block: Piece, p: Patterns) returns (all: set<int>)
    ensures all == YearsOf(block.lines, p)
  {
    all := {};
    for i := 0 to |block.lines|
      invariant all == YearsOf(block.lines[..i], p)
    {
      assert block.lines[..i + 1][..i] == block.lines[..i];
      all := all + p.years(block.lines[i]);
    }
    assert block.lines[..|block.lines|] == block.lines;
  }

  lemma LinesOfTheBlock(block: Piece, lines: seq<string>, offset: nat)
    requires IsBlock(block, lines) && offset < |block.lines|
    ensures var k := block.start + offset;
      lines[k] == block.lines[offset] && lines[BlockStart(lines, k)..BlockEnd(lines, k)] == block.lines
  {
    BlockIsTheLinesOwn(block, lines, block.start + offset);
  }

  lemma YearsOfTheBlock(block: Piece, lines: seq<string>, offset: nat, p: Patterns, year: int)
    requires IsBlock(block, lines) && offset < |block.lines|
    ensures LateOf(lines, block.start + offset, p, year) == LateYears(block.lines[offset], YearsOf(block.lines, p), p, year)
  {
    LinesOfTheBlock(block, lines, offset);
  }

  /** Lines of one declaration, each with the years that count for it. */
  ghost predicate HereAre(here: seq<string>, start: nat, lines: seq<string>, lates: seq<set<int>>, years: set<int>, p: Patterns, year: int) {
    && start + |here| <= |lines| == |lates|
    && forall i :: 0 <= i < |here| ==> lines[start + i] == here[i] && lates[start + i] == LateYears(here[i], years, p, year)
  }

  lemma BlockIsHere(block: Piece, lines: seq<string>, lates: seq<set<int>>, p: Patterns, year: int)
    requires IsBlock(block, lines) && AreLates(lates, lines, p, year)
    ensures HereAre(block.lines, block.start, lines, lates, YearsOf(block.lines, p), p, year)
  {
    var years := YearsOf(block.lines, p);
    forall i | 0 <= i < |block.lines|
      ensures lines[block.start + i] == block.lines[i] && lates[block.start + i] == LateYears(block.lines[i], years, p, year)
    {
      YearsOfTheBlock(block, lines, i, p, year);
    }
  }

  method FindInLines(here: seq<string>, start: nat, ghost lines: seq<string>, ghost lates: seq<set<int>>, years: set<int>,
      before: seq<Found>, p: Patterns, fixed: set<string>, year: int) returns (found: seq<Found>)
    requires HereAre(here, start, lines, lates, years, p, year) && before == AllFound(lines, lates, start, p, fixed)
    ensures found == AllFound(lines, lates, start + |here|, p, fixed)
  {
    found := before;
    for offset := 0 to |here|
      invariant found == AllFound(lines, lates, start + offset, p, fixed)
    {
      var more := FindInLine(here[offset], start + offset + 1, years, p, fixed, year);
      assert more == LineFound(lines, lates, start + offset, p, fixed);
      found := found + more;
    }
  }

  method FindInBlock(block: Piece, lines: seq<string>, ghost lates: seq<set<int>>, before: seq<Found>, p: Patterns, fixed: set<string>, year: int)
    returns (found: seq<Found>)
    requires IsBlock(block, lines) && AreLates(lates, lines, p, year) && before == AllFound(lines, lates, block.start, p, fixed)
    ensures found == AllFound(lines, lates, block.End(), p, fixed)
  {
    var years := BlockYears(block, p);
    BlockIsHere(block, lines, lates, p, year);
    found := FindInLines(block.lines, block.start, lines, lates, years, before, p, fixed, year);
  }

  method FindInBlocks(lines: seq<string>, ghost lates: seq<set<int>>, p: Patterns, fixed: set<string>, year: int) returns (found: seq<Found>)
    requires lines != [] && AreLates(lates, lines, p, year)
    ensures found == AllFound(lines, lates, |lines|, p, fixed)
  {
    var blocks := Declarations(lines);
    found := [];
    ghost var done: nat := 0;
    for b := 0 to |blocks|
      invariant done <= |lines| && CutsInto(blocks[b..], lines, done, |lines|)
      invariant found == AllFound(lines, lates, done, p, fixed)
    {
      assert blocks[b..][0] == blocks[b] && blocks[b..][1..] == blocks[b + 1..];
      found := FindInBlock(blocks[b], lines, lates, found, p, fixed, year);
      done := blocks[b].End();
    }
  }

  /**
   * Exactly the zones pinned to an unsettled year outside comments, each as often as it stands
   * there and in the order of the text, with the number of its line in the original.
   */
  method Findings(text: string, p: Patterns, fixed: set<string>, year: int) returns (found: seq<Found>)
    ensures var lines := Lines(Blanked(text, Code));
      && |lines| == |Lines(text)| && found == AllFound(lines, Lates(lines, p, year), |lines|, p, fixed)
      && Ordered(found) && forall f :: f in found <==> Reported(f, lines, p, fixed, year)
  {
    var code := WithoutComments(text);
    BlankingKeepsLines(text);
    var lines := Lines(code);
    found := FindInBlocks(lines, Lates(lines, p, year), p, fixed, year);
    FoundIsReported(lines, p, fixed, year, found);
  }
}
