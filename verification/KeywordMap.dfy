/**
 * The keyword letters of one exported Maildir folder: a message file is renamed into cur/ only
 * after the dovecot-keywords file maps every letter its name carries.
 *
 * Lower-casing is a parameter. One export at a time writes a folder.
 */
module KeywordMap {
  import opened Options
  import Decimal

  // ---------- the text of dovecot-keywords ----------

  const LIMIT: nat := 65536
  const LETTERS: nat := 26

  /** `unicode.IsSpace`. */
  predicate Space(c: char) {
    || '\t' <= c <= '\r' || c == ' ' || c == '\U{85}' || c == '\U{A0}' || c == '\U{1680}' || '\U{2000}' <= c <= '\U{200A}'
    || c == '\U{2028}' || c == '\U{2029}' || c == '\U{202F}' || c == '\U{205F}' || c == '\U{3000}'
  }

  /** Bytes of a character in UTF-8. */
  function Width(c: char): nat {
    if c < '\U{80}' then 1 else if c < '\U{800}' then 2 else if c < '\U{10000}' then 3 else 4
  }

  function Size(s: string): nat {
    if s == "" then 0 else Width(s[0]) + Size(s[1..])
  }

  /** What a limited reader gives: whole characters while they fit. */
  function Limited(s: string, limit: nat): string {
    if s == "" || Width(s[0]) > limit then "" else [s[0]] + Limited(s[1..], limit - Width(s[0]))
  }

  /** `bufio.Scanner`'s lines: one after the last newline only if there is something in it. */
  function Lines(s: string): seq<string>
    decreases |s|
  {
    if s == "" then []
    else
      var i := Newline(s);
      [s[..i]] + (if i == |s| then [] else Lines(s[i + 1..]))
  }

  function Newline(s: string): (i: nat)
    ensures i <= |s| && (i < |s| ==> s[i] == '\n') && '\n' !in s[..i]
  {
    if s == "" || s[0] == '\n' then 0
    else
      var i := 1 + Newline(s[1..]);
      assert s[..i] == [s[0]] + s[1..][..i - 1];
      i
  }

  /** `strings.Fields`: the words, with the word being read in front. */
  function Fields(s: string, word: string): seq<string> {
    if s == "" then (if word == "" then [] else [word])
    else if Space(s[0]) then (if word == "" then [] else [word]) + Fields(s[1..], "")
    else Fields(s[1..], word + [s[0]])
  }

  function Atoi(s: string): Option<int> {
    var digits := if s != "" && (s[0] == '+' || s[0] == '-') then s[1..] else s;
    if digits == "" || exists c :: c in digits && !('0' <= c <= '9') then None
    else
      var value: int := Decimal.Value(digits);
      Some(if s[0] == '-' then -value else value)
  }

  function ReadLines(lines: seq<string>, names: seq<string>): Option<seq<string>> {
    if lines == [] then Some(names)
    else
      var fields := Fields(lines[0], "");
      if Size(lines[0]) >= LIMIT then None
      else if fields == [] then ReadLines(lines[1..], names)
      else if |fields| != 2 || Atoi(fields[0]) != Some(|names|) || |names| >= LETTERS then None
      else ReadLines(lines[1..], names + [fields[1]])
  }

  /** The names an export takes over from a folder's mapping, unless it refuses the file. */
  function ReadMap(text: string): Option<seq<string>> {
    ReadLines(Lines(Limited(text, LIMIT)), [])
  }

  function Line(index: nat, name: string): string {
    Decimal.Text(index) + " " + name
  }

  function Print(names: seq<string>): string {
    if names == [] then "" else Print(names[..|names| - 1]) + Line(|names| - 1, names[|names| - 1]) + "\n"
  }

  /** A keyword that is one word. */
  predicate Plain(name: string) {
    name != "" && forall c :: c in name ==> !Space(c)
  }

  predicate AllPlain(names: seq<string>) {
    forall name :: name in names ==> Plain(name)
  }

  lemma {:induction false} LimitedIsWhole(s: string, limit: nat)
    requires Size(s) <= limit
    ensures Limited(s, limit) == s
  {
    if s != "" {
      LimitedIsWhole(s[1..], limit - Width(s[0]));
    }
  }

  lemma {:induction false} LinesOnce(a: string, rest: string)
    requires '\n' !in a
    ensures Lines(a + "\n" + rest) == [a] + Lines(rest)
  {
    var s := a + "\n" + rest;
    var i := Newline(s);
    forall k | 0 <= k < i ensures s[k] != '\n' {
      assert s[..i][k] in s[..i];
    }
    assert s[|a|] == '\n' && forall k :: 0 <= k < |a| ==> s[k] == a[k] && a[k] in a;
    assert s[..i] == a && s[i + 1..] == rest;
  }

  /** Keywords that stay on their line. */
  predicate OneLineEach(names: seq<string>) {
    forall i :: 0 <= i < |names| ==> '\n' !in names[i]
  }

  lemma PlainParts(names: seq<string>)
    requires AllPlain(names) && names != []
    ensures AllPlain(names[..|names| - 1]) && Plain(names[|names| - 1])
  {
    assert names[|names| - 1] in names;
    assert forall name :: name in names[..|names| - 1] ==> name in names;
  }

  lemma PlainIsOneLine(names: seq<string>)
    requires AllPlain(names)
    ensures OneLineEach(names)
  {
    forall i | 0 <= i < |names| ensures '\n' !in names[i] {
      assert names[i] in names && Space('\n');
    }
  }

  lemma Regroup(text: string, line: string, rest: string)
    ensures text + line + "\n" + rest == text + (line + "\n" + rest)
  {
  }

  lemma LinesJoinLast(text: string, before: seq<string>, line: string, rest: string)
    requires Lines(text + (line + "\n" + rest)) == before + Lines(line + "\n" + rest) && '\n' !in line
    ensures Lines(text + line + "\n" + rest) == before + [line] + Lines(rest)
  {
    var more := Lines(rest);
    LinesOnce(line, rest);
    Regroup(text, line, rest);
    assert before + ([line] + more) == before + [line] + more;
  }

  lemma {:induction false} LinesJoin(names: seq<string>, rest: string)
    requires OneLineEach(names)
    ensures Lines(Print(names) + rest) == PrintedLines(names) + Lines(rest)
    decreases |names|
  {
    if names == [] {
      assert Print(names) + rest == rest;
    } else {
      var n := |names| - 1;
      var before, line := names[..n], Line(n, names[n]);
      PlainLine(n, names[n]);
      LinesJoin(before, line + "\n" + rest);
      LinesJoinLast(Print(before), PrintedLines(before), line, rest);
    }
  }

  function PrintedLines(names: seq<string>): seq<string> {
    if names == [] then [] else PrintedLines(names[..|names| - 1]) + [Line(|names| - 1, names[|names| - 1])]
  }

  predicate LinesFit(names: seq<string>)
    decreases |names|
  {
    names == [] || (Size(Line(|names| - 1, names[|names| - 1])) < LIMIT && LinesFit(names[..|names| - 1]))
  }

  lemma PlainLine(index: nat, name: string)
    requires '\n' !in name
    ensures '\n' !in Line(index, name)
  {
    assert forall c :: c in Line(index, name) ==> c in Decimal.Text(index) || c == ' ' || c in name;
  }

  lemma {:induction false} WordIsRead(s: string, rest: string, word: string)
    requires forall c :: c in s ==> !Space(c)
    ensures Fields(s + rest, word) == Fields(rest, word + s)
  {
    if s == "" {
      assert s + rest == rest && word + s == word;
    } else {
      assert (s + rest)[1..] == s[1..] + rest;
      WordIsRead(s[1..], rest, word + [s[0]]);
      assert word + [s[0]] + s[1..] == word + s;
    }
  }

  lemma FieldsOfWords(a: string, b: string)
    requires Plain(a) && Plain(b)
    ensures Fields(a + " " + b, "") == [a, b]
  {
    var rest := " " + b;
    WordIsRead(a, rest, "");
    assert a + " " + b == a + rest && rest[1..] == b && b + "" == b && "" + b == b && "" + a == a;
    WordIsRead(b, "", "");
    assert Fields(rest, a) == [a] + Fields(b, "");
  }

  lemma DigitsArePlain(index: nat)
    ensures Plain(Decimal.Text(index))
  {
    forall c | c in Decimal.Text(index) ensures !Space(c) {
      assert '0' <= c <= '9';
    }
  }

  lemma AtoiOfText(index: nat)
    ensures Atoi(Decimal.Text(index)) == Some(index)
  {
    var digits := Decimal.Text(index);
    Decimal.ValueOfText(index);
    assert digits[0] in digits;
  }

  lemma LineIsRead(index: nat, name: string, names: seq<string>)
    requires Plain(name) && |names| == index < LETTERS && Size(Line(index, name)) < LIMIT
    ensures ReadLines([Line(index, name)], names) == Some(names + [name])
  {
    DigitsArePlain(index);
    FieldsOfWords(Decimal.Text(index), name);
    AtoiOfText(index);
    assert [Line(index, name)][1..] == [];
  }

  lemma ReadPrinted(lines: seq<string>, line: string, before: seq<string>, name: string)
    requires ReadLines(lines, []) == Some(before) && line == Line(|before|, name)
    requires Plain(name) && |before| < LETTERS && Size(line) < LIMIT
    ensures ReadLines(lines + [line], []) == Some(before + [name])
  {
    LineIsRead(|before|, name, before);
    ReadOneMore(lines, line, [], before);
  }

  lemma {:induction false} PrintedLinesAreRead(names: seq<string>)
    requires AllPlain(names) && |names| <= LETTERS
    requires LinesFit(names)
    ensures ReadLines(PrintedLines(names), []) == Some(names)
    decreases |names|
  {
    if names != [] {
      var n := |names| - 1;
      var before := names[..n];
      PlainParts(names);
      var lines, line := PrintedLines(before), Line(n, names[n]);
      assert PrintedLines(names) == lines + [line];
      PrintedLinesAreRead(before);
      ReadPrinted(lines, line, before, names[n]);
      assert before + [names[n]] == names;
    }
  }

  lemma {:induction false} ReadOneMore(lines: seq<string>, line: string, names: seq<string>, r: seq<string>)
    requires ReadLines(lines, names) == Some(r)
    ensures ReadLines(lines + [line], names) == ReadLines([line], r)
    decreases |lines|
  {
    if lines == [] {
      assert lines + [line] == [line];
    } else {
      assert (lines + [line])[1..] == lines[1..] + [line];
      var fields := Fields(lines[0], "");
      ReadOneMore(lines[1..], line, if fields == [] then names else names + [fields[1]], r);
    }
  }

  lemma {:induction false} SizeAdds(a: string, b: string)
    ensures Size(a + b) == Size(a) + Size(b)
  {
    if a == "" {
      assert a + b == b;
    } else {
      assert (a + b)[1..] == a[1..] + b;
      SizeAdds(a[1..], b);
    }
  }

  lemma {:induction false} LinesAreSmaller(names: seq<string>)
    requires Size(Print(names)) <= LIMIT
    ensures LinesFit(names)
    decreases |names|
  {
    if names != [] {
      var n := |names| - 1;
      var line := Line(n, names[n]);
      SizeAdds(Print(names[..n]) + line, "\n");
      SizeAdds(Print(names[..n]), line);
      assert Size("\n") == 1 + Size("\n"[1..]) == 1;
      LinesAreSmaller(names[..n]);
    }
  }

  lemma {:induction false} FieldsArePlain(s: string, word: string)
    requires forall c :: c in word ==> !Space(c)
    ensures AllPlain(Fields(s, word))
  {
    if s != "" {
      if Space(s[0]) {
        FieldsArePlain(s[1..], "");
      } else {
        FieldsArePlain(s[1..], word + [s[0]]);
      }
    }
  }

  lemma {:induction false} ReadNamesArePlain(lines: seq<string>, names: seq<string>)
    requires AllPlain(names) && |names| <= LETTERS && ReadLines(lines, names).Some?
    ensures AllPlain(ReadLines(lines, names).value) && |ReadLines(lines, names).value| <= LETTERS
    decreases |lines|
  {
    if lines != [] {
      var fields := Fields(lines[0], "");
      FieldsArePlain(lines[0], "");
      if fields == [] {
        ReadNamesArePlain(lines[1..], names);
      } else {
        assert fields[1] in fields;
        ReadNamesArePlain(lines[1..], names + [fields[1]]);
      }
    }
  }

  // ---------- what is read, whatever the text ----------

  function Words(line: string): seq<string> {
    Fields(line, "")
  }

  /** The words of the lines that have any. */
  function Entries(lines: seq<string>): seq<seq<string>> {
    if lines == [] then []
    else
      var rest := Entries(lines[1..]);
      if Words(lines[0]) == [] then rest else [Words(lines[0])] + rest
  }

  /** Two words each, the first the entry's number counted from `start`. */
  predicate Numbered(entries: seq<seq<string>>, start: nat) {
    && start + |entries| <= LETTERS
    && forall j :: 0 <= j < |entries| ==> |entries[j]| == 2 && Atoi(entries[j][0]) == Some(start + j)
  }

  predicate AllShort(lines: seq<string>) {
    forall j :: 0 <= j < |lines| ==> Size(lines[j]) < LIMIT
  }

  predicate AllPairs(entries: seq<seq<string>>) {
    forall j :: 0 <= j < |entries| ==> |entries[j]| == 2
  }

  function Seconds(entries: seq<seq<string>>): seq<string>
    requires AllPairs(entries)
  {
    seq(|entries|, j requires 0 <= j < |entries| => entries[j][1])
  }

  /** The same, line by line. */
  predicate Taken(lines: seq<string>, start: nat)
    decreases |lines|
  {
    lines == []
    || (Size(lines[0]) < LIMIT
        && var words := Words(lines[0]);
           if words == [] then Taken(lines[1..], start)
           else start < LETTERS && |words| == 2 && Atoi(words[0]) == Some(start) && Taken(lines[1..], start + 1))
  }

  lemma ShortFirst(lines: seq<string>)
    requires lines != []
    ensures AllShort(lines) <==> Size(lines[0]) < LIMIT && AllShort(lines[1..])
  {
    assert forall j :: 0 < j < |lines| ==> lines[j] == lines[1..][j - 1];
    assert forall j :: 0 <= j < |lines[1..]| ==> lines[1..][j] == lines[j + 1];
  }

  lemma {:induction false} TakenIsShort(lines: seq<string>, start: nat)
    requires Taken(lines, start)
    ensures AllShort(lines)
    decreases |lines|
  {
    if lines != [] {
      TakenIsShort(lines[1..], if Words(lines[0]) == [] then start else start + 1);
      ShortFirst(lines);
    }
  }

  lemma {:induction false} TakenIsNumbered(lines: seq<string>, start: nat)
    requires start <= LETTERS && Taken(lines, start)
    ensures Numbered(Entries(lines), start)
    decreases |lines|
  {
    if lines != [] {
      if Words(lines[0]) == [] {
        TakenIsNumbered(lines[1..], start);
      } else {
        TakenIsNumbered(lines[1..], start + 1);
        NumberedFirst(Words(lines[0]), Entries(lines[1..]), start);
      }
    }
  }

  lemma {:induction false} NumberedIsTaken(lines: seq<string>, start: nat)
    requires AllShort(lines) && Numbered(Entries(lines), start)
    ensures Taken(lines, start)
    decreases |lines|
  {
    if lines != [] {
      ShortFirst(lines);
      if Words(lines[0]) == [] {
        NumberedIsTaken(lines[1..], start);
      } else {
        NumberedFirst(Words(lines[0]), Entries(lines[1..]), start);
        NumberedIsTaken(lines[1..], start + 1);
      }
    }
  }

  lemma SecondsOfMore(words: seq<string>, rest: seq<seq<string>>)
    requires |words| == 2 && AllPairs(rest)
    ensures AllPairs([words] + rest)
    ensures Seconds([words] + rest) == [words[1]] + Seconds(rest)
  {
  }

  lemma SecondsFirst(lines: seq<string>, start: nat)
    requires lines != [] && start <= LETTERS && Taken(lines, start) && AllPairs(Entries(lines[1..]))
    ensures var words := Words(lines[0]);
      AllPairs(Entries(lines))
      && Seconds(Entries(lines)) == (if words == [] then [] else [words[1]]) + Seconds(Entries(lines[1..]))
  {
    var words, rest := Words(lines[0]), Entries(lines[1..]);
    if words == [] {
      assert Entries(lines) == rest;
      AddFront([], [], Seconds(rest));
    } else {
      SecondsOfMore(words, rest);
    }
  }

  lemma {:induction false} ReadsWhatIsTaken(lines: seq<string>, names: seq<string>)
    requires |names| <= LETTERS
    ensures ReadLines(lines, names).Some? <==> Taken(lines, |names|)
    decreases |lines|
  {
    if lines != [] && Size(lines[0]) < LIMIT {
      var words := Words(lines[0]);
      if words == [] {
        ReadsWhatIsTaken(lines[1..], names);
      } else if |words| == 2 && |names| < LETTERS {
        ReadsWhatIsTaken(lines[1..], names + [words[1]]);
      }
    }
  }

  lemma {:induction false} ReadsTheSeconds(lines: seq<string>, names: seq<string>)
    requires |names| <= LETTERS && Taken(lines, |names|)
    ensures AllPairs(Entries(lines)) && ReadLines(lines, names) == Some(names + Seconds(Entries(lines)))
    decreases |lines|
  {
    if lines == [] {
      assert names + Seconds([]) == names;
    } else {
      var words := Words(lines[0]);
      var more := if words == [] then [] else [words[1]];
      AddFront(names, more, []);
      ReadsTheSeconds(lines[1..], names + more);
      SecondsFirst(lines, |names|);
      AddFront(names, more, Seconds(Entries(lines[1..])));
    }
  }

  lemma AddFront(a: seq<string>, b: seq<string>, c: seq<string>)
    ensures a + b + c == a + (b + c) && a + [] == a && [] + c == c
  {
  }

  lemma NumberedFirst(words: seq<string>, rest: seq<seq<string>>, start: nat)
    ensures Numbered([words] + rest, start) <==> start < LETTERS && |words| == 2 && Atoi(words[0]) == Some(start) && Numbered(rest, start + 1)
  {
    var all := [words] + rest;
    assert all[0] == words && forall j :: 0 < j < |all| ==> all[j] == rest[j - 1];
    if Numbered(all, start) {
      forall j | 0 <= j < |rest| ensures |rest[j]| == 2 && Atoi(rest[j][0]) == Some(start + 1 + j) {
        assert rest[j] == all[j + 1];
      }
    }
  }

  /**
   * A text is taken over exactly when its lines that have any words are numbered from 0 and
   * name one word each, 26 at most; these words are the keywords. Anything else is refused.
   */
  lemma ReadMapExactly(text: string)
    ensures var lines := Lines(Limited(text, LIMIT));
      ReadMap(text).Some? <==> AllShort(lines) && Numbered(Entries(lines), 0)
    ensures var lines := Lines(Limited(text, LIMIT));
      AllShort(lines) && Numbered(Entries(lines), 0) ==> ReadMap(text) == Some(Seconds(Entries(lines)))
  {
    var lines := Lines(Limited(text, LIMIT));
    ReadsWhatIsTaken(lines, []);
    if AllShort(lines) && Numbered(Entries(lines), 0) {
      NumberedIsTaken(lines, 0);
    }
    if Taken(lines, 0) {
      ReadsTheSeconds(lines, []);
      TakenIsShort(lines, 0);
      TakenIsNumbered(lines, 0);
      assert [] + Seconds(Entries(lines)) == Seconds(Entries(lines));
    }
  }

  // ---------- no reading is longer than its text ----------

  function WordsSize(words: seq<string>): nat {
    if words == [] then 0 else Size(words[0]) + 1 + WordsSize(words[1..])
  }

  lemma WordsSizeFirst(word: string, rest: seq<string>)
    ensures WordsSize([word] + rest) == Size(word) + 1 + WordsSize(rest) && [] + rest == rest
  {
    assert ([word] + rest)[1..] == rest;
  }

  lemma {:induction false} WordsAreSmaller(s: string, word: string)
    ensures WordsSize(Fields(s, word)) <= Size(word) + Size(s) + 1
  {
    if s == "" {
      assert [word][1..] == [];
    } else if Space(s[0]) {
      WordsAreSmaller(s[1..], "");
      WordsSizeFirst(word, Fields(s[1..], ""));
    } else {
      WordsAreSmaller(s[1..], word + [s[0]]);
      SizeAdds(word, [s[0]]);
      assert [s[0]][1..] == "";
    }
  }

  lemma OneMoreDigit(value: nat, digit: nat)
    requires digit < 10
    ensures |Decimal.Text(value * 10 + digit)| <= |Decimal.Text(value)| + 1
  {
    assert (value * 10 + digit) / 10 == value;
  }

  lemma {:induction false} DigitsAreEnough(s: string)
    requires s != ""
    ensures |Decimal.Text(Decimal.Value(s))| <= |s|
    decreases |s|
  {
    var value, digit := Decimal.Value(s[..|s| - 1]), Decimal.DigitValue(s[|s| - 1]);
    if |s| > 1 {
      DigitsAreEnough(s[..|s| - 1]);
      OneMoreDigit(value, digit);
    } else {
      assert value == 0;
    }
  }

  lemma {:induction false} DigitsSize(s: string)
    requires Ascii(s)
    ensures Size(s) == |s|
  {
    if s != "" {
      DigitsSize(s[1..]);
    }
  }

  lemma {:induction false} SizeIsLength(s: string)
    ensures Size(s) >= |s|
  {
    if s != "" {
      SizeIsLength(s[1..]);
    }
  }

  lemma NumberIsLonger(word: string, index: nat)
    requires Atoi(word) == Some(index)
    ensures Size(Decimal.Text(index)) <= Size(word)
  {
    var digits := if word != "" && (word[0] == '+' || word[0] == '-') then word[1..] else word;
    DigitsAreEnough(digits);
    assert Decimal.Value(digits) == index;
    var text := Decimal.Text(index);
    forall i | 0 <= i < |text| ensures text[i] < '\U{80}' {
      assert text[i] in text;
    }
    DigitsSize(text);
    SizeIsLength(word);
  }

  lemma LineSize(index: nat, name: string)
    ensures Size(Line(index, name)) == Size(Decimal.Text(index)) + 1 + Size(name)
  {
    SizeAdds(Decimal.Text(index) + " ", name);
    SizeAdds(Decimal.Text(index), " ");
    assert Size(" ") == 1 + Size(" "[1..]) == 1;
  }

  lemma PrintOfMore(names: seq<string>, name: string)
    ensures Print(names + [name]) == Print(names) + Line(|names|, name) + "\n"
  {
    var all := names + [name];
    assert all[..|names|] == names && all[|names|] == name;
  }

  lemma PrintOneMore(names: seq<string>, name: string)
    ensures Size(Print(names + [name])) == Size(Print(names)) + Size(Line(|names|, name)) + 1
  {
    PrintOfMore(names, name);
    SizeAdds(Print(names) + Line(|names|, name), "\n");
    SizeAdds(Print(names), Line(|names|, name));
    assert Size("\n") == 1 + Size("\n"[1..]) == 1;
  }

  function LinesSize(lines: seq<string>): nat {
    if lines == [] then 0 else Size(lines[0]) + 1 + LinesSize(lines[1..])
  }

  lemma EntryIsSmaller(line: string, index: nat)
    requires |Words(line)| == 2 && Atoi(Words(line)[0]) == Some(index)
    ensures Size(Line(index, Words(line)[1])) <= Size(line)
  {
    var words := Words(line);
    WordsAreSmaller(line, "");
    assert words[1..] == [words[1]] && words[1..][1..] == [];
    NumberIsLonger(words[0], index);
    LineSize(index, words[1]);
  }

  lemma {:induction false} ReadingIsSmaller(lines: seq<string>, names: seq<string>)
    requires ReadLines(lines, names).Some?
    ensures Size(Print(ReadLines(lines, names).value)) <= Size(Print(names)) + LinesSize(lines)
    decreases |lines|
  {
    if lines != [] {
      var words := Words(lines[0]);
      if words == [] {
        ReadingIsSmaller(lines[1..], names);
      } else {
        EntryIsSmaller(lines[0], |names|);
        PrintOneMore(names, words[1]);
        ReadingIsSmaller(lines[1..], names + [words[1]]);
      }
    }
  }

  lemma SizeOfLine(line: string, rest: string)
    ensures Size(line + "\n") == Size(line) + 1 && Size(line + "\n" + rest) == Size(line) + 1 + Size(rest)
  {
    SizeAdds(line + "\n", rest);
    SizeAdds(line, "\n");
    assert Size("\n") == 1 + Size("\n"[1..]) == 1;
  }

  lemma LinesSizeFirst(line: string, rest: seq<string>)
    ensures LinesSize([line]) == Size(line) + 1 && LinesSize([line] + rest) == Size(line) + 1 + LinesSize(rest)
  {
    assert [line][1..] == [] && ([line] + rest)[1..] == rest;
  }

  lemma Around(s: string, i: nat)
    requires i < |s| && s[i] == '\n'
    ensures s == s[..i] + "\n" + s[i + 1..]
  {
  }

  lemma FirstLine(s: string)
    requires s != "" && Newline(s) < |s|
    ensures var i := Newline(s); Size(s) == Size(s[..i]) + 1 + Size(s[i + 1..])
  {
    var i := Newline(s);
    Around(s, i);
    SizeOfLine(s[..i], s[i + 1..]);
  }

  lemma {:induction false} LinesAreTheText(s: string)
    ensures LinesSize(Lines(s)) <= Size(s) + 1
    decreases |s|
  {
    if s != "" {
      var i := Newline(s);
      if i == |s| {
        assert s[..i] == s;
        LinesSizeFirst(s, []);
      } else {
        LinesAreTheText(s[i + 1..]);
        FirstLine(s);
        LinesSizeFirst(s[..i], Lines(s[i + 1..]));
      }
    }
  }

  lemma {:induction false} LimitedFits(s: string, limit: nat)
    ensures Size(Limited(s, limit)) <= limit
  {
    if s != "" && Width(s[0]) <= limit {
      LimitedFits(s[1..], limit - Width(s[0]));
    }
  }

  /** What is read never prints longer than the limit and one closing newline. */
  lemma ReadMapIsLimited(text: string)
    ensures ReadMap(text).Some? ==> Size(Print(ReadMap(text).value)) <= LIMIT + 1
  {
    var limited := Limited(text, LIMIT);
    LimitedFits(text, LIMIT);
    LinesAreTheText(limited);
    if ReadMap(text).Some? {
      ReadingIsSmaller(Lines(limited), []);
    }
  }

  // ---------- a printed mapping read again ----------

  /** The reader sees every line whole: only the last newline may lie past the limit. */
  predicate MapFits(names: seq<string>) {
    LinesFit(names) && Size(Print(names)) <= LIMIT + 1
  }

  lemma {:induction false} OnlyTheNewlineIsCut(s: string, limit: nat)
    requires Size(s) == limit
    ensures Limited(s + "\n", limit) == s
  {
    if s != "" {
      assert (s + "\n")[1..] == s[1..] + "\n";
      OnlyTheNewlineIsCut(s[1..], limit - Width(s[0]));
    }
  }

  lemma PrintedLinesAreSeen(names: seq<string>)
    requires OneLineEach(names) && Size(Print(names)) <= LIMIT + 1
    ensures Lines(Limited(Print(names), LIMIT)) == PrintedLines(names)
  {
    if Size(Print(names)) <= LIMIT {
      LimitedIsWhole(Print(names), LIMIT);
      LinesJoin(names, "");
      assert Print(names) + "" == Print(names) && PrintedLines(names) + [] == PrintedLines(names);
    } else {
      var n := |names| - 1;
      var before, line := names[..n], Line(n, names[n]);
      assert names == before + [names[n]];
      PrintOneMore(before, names[n]);
      SizeAdds(Print(before), line);
      OnlyTheNewlineIsCut(Print(before) + line, LIMIT);
      LinesOfCut(before, names[n]);
    }
  }

  lemma {:induction false} ShortLinesFit(names: seq<string>)
    ensures LinesFit(names) <==> AllShort(PrintedLines(names))
    decreases |names|
  {
    if names != [] {
      var n := |names| - 1;
      ShortLinesFit(names[..n]);
      var lines, line := PrintedLines(names[..n]), Line(n, names[n]);
      assert PrintedLines(names) == lines + [line];
      assert forall j :: 0 <= j < |lines| ==> lines[j] == (lines + [line])[j];
      assert (lines + [line])[|lines|] == line;
    }
  }

  /** The next export reads a mapping as it was written exactly when its keywords are words and it fits. */
  lemma MapReadsBack(names: seq<string>)
    requires |names| <= LETTERS
    ensures ReadMap(Print(names)) == Some(names) <==> AllPlain(names) && MapFits(names)
  {
    if AllPlain(names) && MapFits(names) {
      PlainIsOneLine(names);
      PrintedLinesAreSeen(names);
      PrintedLinesAreRead(names);
    }
    if ReadMap(Print(names)) == Some(names) {
      ReadNamesArePlain(Lines(Limited(Print(names), LIMIT)), []);
      ReadMapIsLimited(Print(names));
      PlainIsOneLine(names);
      PrintedLinesAreSeen(names);
      ReadMapExactly(Print(names));
      ShortLinesFit(names);
    }
  }

  /** A mapping that the next export reads as it was written. */
  predicate Readable(names: seq<string>) {
    AllPlain(names) && MapFits(names)
  }

  lemma OneMoreFits(names: seq<string>, name: string)
    requires LinesFit(names) && Size(Line(|names|, name)) < LIMIT
    ensures LinesFit(names + [name])
  {
    assert (names + [name])[..|names|] == names;
  }

  lemma {:induction false} ReadLinesFit(lines: seq<string>, names: seq<string>)
    requires LinesFit(names) && ReadLines(lines, names).Some?
    ensures LinesFit(ReadLines(lines, names).value)
    decreases |lines|
  {
    if lines != [] {
      var words := Words(lines[0]);
      if words == [] {
        ReadLinesFit(lines[1..], names);
      } else {
        EntryIsSmaller(lines[0], |names|);
        OneMoreFits(names, words[1]);
        ReadLinesFit(lines[1..], names + [words[1]]);
      }
    }
  }

  /** Whatever was read, written again, is read as the same. */
  lemma ReadMapIsReadable(text: string)
    requires ReadMap(text).Some?
    ensures var names := ReadMap(text).value; |names| <= LETTERS && Readable(names) && ReadMap(Print(names)) == Some(names)
  {
    ReadNamesArePlain(Lines(Limited(text, LIMIT)), []);
    ReadLinesFit(Lines(Limited(text, LIMIT)), []);
    ReadMapIsLimited(text);
    MapReadsBack(ReadMap(text).value);
  }

  lemma {:induction false} LinesFitUpTo(names: seq<string>, i: nat)
    requires LinesFit(names) && i <= |names|
    ensures LinesFit(names[..i])
    decreases |names|
  {
    if i == |names| {
      assert names[..i] == names;
    } else {
      LinesFitUpTo(names[..|names| - 1], i);
      assert names[..|names| - 1][..i] == names[..i];
    }
  }

  /** What keeps a mapping readable keeps every shorter one so. */
  lemma ReadableUpTo(names: seq<string>, i: nat)
    requires Readable(names) && i <= |names|
    ensures Readable(names[..i])
  {
    LinesFitUpTo(names, i);
    PrintedPrefix(names, i);
    var head := Print(names[..i]);
    var rest := Print(names)[|head|..];
    SizeAdds(head, rest);
    assert Print(names) == head + rest;
    assert forall name :: name in names[..i] ==> name in names;
  }

  lemma ReadableBelow(names: seq<string>, more: seq<string>)
    requires names <= more && Readable(more)
    ensures Readable(names)
  {
    assert more[..|names|] == names;
    ReadableUpTo(more, |names|);
  }

  /** A mapping that is not readable is refused, or some letter gets another keyword. */
  lemma ReadsOnExactly(names: seq<string>)
    requires |names| <= LETTERS && ReadMap(Print(names)).Some?
    ensures names <= ReadMap(Print(names)).value <==> Readable(names)
  {
    var read := ReadMap(Print(names)).value;
    MapReadsBack(names);
    if names <= read {
      ReadMapIsReadable(Print(names));
      ReadableBelow(names, read);
    }
  }

  /** Keywords of this size always fit. */
  const SHORT: nat := 2516

  lemma {:induction false} ShortKeywordsFit(names: seq<string>)
    requires |names| <= LETTERS && forall i :: 0 <= i < |names| ==> Size(names[i]) <= SHORT
    ensures MapFits(names) && Size(Print(names)) <= |names| * (SHORT + 4)
    decreases |names|
  {
    if names != [] {
      var n := |names| - 1;
      ShortKeywordsFit(names[..n]);
      assert names == names[..n] + [names[n]];
      PrintOneMore(names[..n], names[n]);
      LineSize(n, names[n]);
      SmallNumber(n);
    }
  }

  lemma SmallNumber(n: nat)
    requires n < 100
    ensures Size(Decimal.Text(n)) <= 2
  {
    var text := Decimal.Text(n);
    assert n < 10 || n / 10 < 10;
    forall i | 0 <= i < |text| ensures text[i] < '\U{80}' {
      assert text[i] in text;
    }
    DigitsSize(text);
  }

  predicate OneWordEach(names: seq<string>) {
    forall i :: 0 <= i < |names| ==> |Words(names[i])| == 1
  }

  function TheWords(names: seq<string>): seq<string>
    requires OneWordEach(names)
  {
    seq(|names|, i requires 0 <= i < |names| => Words(names[i])[0])
  }

  lemma WordsOfLine(index: nat, name: string)
    ensures Words(Line(index, name)) == [Decimal.Text(index)] + Words(name)
  {
    var digits := Decimal.Text(index);
    var rest := " " + name;
    DigitsArePlain(index);
    WordIsRead(digits, rest, "");
    assert Line(index, name) == digits + rest && rest[1..] == name && "" + digits == digits;
  }

  lemma {:induction false} EntriesOfPrinted(names: seq<string>)
    ensures |Entries(PrintedLines(names))| == |names|
    ensures forall i :: 0 <= i < |names| ==> Entries(PrintedLines(names))[i] == [Decimal.Text(i)] + Words(names[i])
    decreases |names|
  {
    if names != [] {
      var n := |names| - 1;
      EntriesOfPrinted(names[..n]);
      WordsOfLine(n, names[n]);
      EntriesJoin(PrintedLines(names[..n]), [Line(n, names[n])]);
      assert [Line(n, names[n])][1..] == [];
      assert Entries([Line(n, names[n])]) == [Words(Line(n, names[n]))];
    }
  }

  lemma {:induction false} EntriesJoin(a: seq<string>, b: seq<string>)
    ensures Entries(a + b) == Entries(a) + Entries(b)
  {
    if a == [] {
      assert a + b == b;
    } else {
      assert (a + b)[1..] == a[1..] + b;
      EntriesJoin(a[1..], b);
    }
  }

  /**
   * What becomes of a mapping that fits: refused exactly when some keyword is not one word;
   * otherwise each keyword is read as its word, so that it is silently misread exactly when
   * some keyword has white space around its word.
   */
  lemma PrintedMapReads(names: seq<string>)
    requires |names| <= LETTERS && OneLineEach(names) && MapFits(names)
    ensures ReadMap(Print(names)).None? <==> !OneWordEach(names)
    ensures OneWordEach(names) ==> ReadMap(Print(names)) == Some(TheWords(names))
    ensures OneWordEach(names) && !AllPlain(names) ==> TheWords(names) != names
  {
    var lines := PrintedLines(names);
    PrintedLinesAreSeen(names);
    ReadMapExactly(Print(names));
    ShortLinesFit(names);
    EntriesAreNumbered(names);
    MapReadsBack(names);
  }

  lemma NumberedByWords(entries: seq<seq<string>>, names: seq<string>)
    requires |entries| == |names| <= LETTERS
    requires forall i :: 0 <= i < |names| ==> entries[i] != [] && Atoi(entries[i][0]) == Some(i) && entries[i][1..] == Words(names[i])
    ensures Numbered(entries, 0) <==> OneWordEach(names)
    ensures OneWordEach(names) ==> Seconds(entries) == TheWords(names)
  {
    forall i | 0 <= i < |names| ensures |entries[i]| == 2 <==> |Words(names[i])| == 1 {
      assert |entries[i][1..]| == |entries[i]| - 1;
    }
    if OneWordEach(names) {
      assert forall i :: 0 <= i < |names| ==> |entries[i]| == 2 && entries[i][1] == entries[i][1..][0];
    }
  }

  lemma EntriesAreNumbered(names: seq<string>)
    requires |names| <= LETTERS
    ensures Numbered(Entries(PrintedLines(names)), 0) <==> OneWordEach(names)
    ensures OneWordEach(names) ==> Seconds(Entries(PrintedLines(names))) == TheWords(names)
  {
    EntriesOfPrinted(names);
    var entries := Entries(PrintedLines(names));
    forall i | 0 <= i < |names| ensures entries[i] != [] && Atoi(entries[i][0]) == Some(i) && entries[i][1..] == Words(names[i]) {
      AtoiOfText(i);
    }
    NumberedByWords(entries, names);
  }

  /** A keyword with a space behind it, and one that carries a line of its own: taken over as others. */
  lemma MisreadKeywords(x: string, y: string)
    requires Plain(x) && Plain(y) && Size(x) + Size(y) + 8 <= LIMIT
    ensures ReadMap(Print([x + " "])) == Some([x])
    ensures ReadMap(Print([x + "\n1 " + y])) == Some([x, y])
  {
    TrailingSpace(x);
    InnerLine(x, y);
  }

  lemma TrailingSpace(x: string)
    requires Plain(x) && Size(x) + 4 <= LIMIT
    ensures ReadMap(Print([x + " "])) == Some([x])
  {
    var names := [x + " "];
    WordIsRead(x, " ", "");
    assert " "[1..] == "" && "" + x == x;
    assert Words(x + " ") == [x] + Fields("", "") == [x];
    assert '\n' !in x by {
      assert Space('\n');
    }
    assert OneWordEach(names) && TheWords(names) == [x];
    SizeOfOne(x + " ");
    SizeAdds(x, " ");
    assert Size(" ") == 1 + Size(" "[1..]) == 1;
    LinesAreSmaller(names);
    PrintedMapReads(names);
  }

  lemma SizeOfOne(name: string)
    ensures Size(Print([name])) == Size(name) + 3
  {
    assert [] + [name] == [name] && Decimal.Text(0) == "0";
    PrintOneMore([], name);
    LineSize(0, name);
    assert Size("0") == 1 + Size("0"[1..]) == 1;
  }

  lemma InnerLine(x: string, y: string)
    requires Plain(x) && Plain(y) && Size(x) + Size(y) + 8 <= LIMIT
    ensures ReadMap(Print([x + "\n1 " + y])) == Some([x, y])
  {
    SameText(x, y);
    SizeOfTwo(x, y);
    LinesAreSmaller([x, y]);
    MapReadsBack([x, y]);
  }

  lemma SameText(x: string, y: string)
    ensures Print([x + "\n1 " + y]) == Print([x, y])
  {
    TwoNames(x, y);
    TwoNames(x + "\n1 " + y, "");
    assert Decimal.Text(0) == "0" && Decimal.Text(1) == "1";
    assert Line(0, x + "\n1 " + y) == Line(0, x) + "\n" + Line(1, y);
  }

  lemma SizeOfTwo(x: string, y: string)
    ensures Size(Print([x, y])) == Size(x) + Size(y) + 6
  {
    SizeOfOne(x);
    assert [x] + [y] == [x, y] && Decimal.Text(1) == "1";
    PrintOneMore([x], y);
    LineSize(1, y);
    assert Size("1") == 1 + Size("1"[1..]) == 1;
  }

  predicate Ascii(s: string) {
    forall i :: 0 <= i < |s| ==> s[i] < '\U{80}'
  }

  lemma TwoNames(x: string, y: string)
    ensures Print([x]) == Line(0, x) + "\n" && Print([x, y]) == Line(0, x) + "\n" + Line(1, y) + "\n"
  {
    assert [x][..0] == [] && [x, y][..1] == [x];
    assert Print([x]) == "" + Line(0, x) + "\n";
  }

  lemma {:induction false} LimitedCuts(a: string, c: char, rest: string, limit: nat)
    requires Size(a) <= limit < Size(a) + Width(c)
    ensures Limited(a + [c] + rest, limit) == a
  {
    if a == "" {
      assert (a + [c] + rest)[0] == c;
    } else {
      assert (a + [c] + rest)[1..] == a[1..] + [c] + rest;
      LimitedCuts(a[1..], c, rest, limit - Width(a[0]));
    }
  }

  lemma {:induction false} PrintedPrefix(names: seq<string>, i: nat)
    requires i <= |names|
    ensures Print(names[..i]) <= Print(names)
    decreases |names|
  {
    if i == |names| {
      assert names[..i] == names;
    } else {
      var n := |names| - 1;
      PrintedPrefix(names[..n], i);
      assert names[..n][..i] == names[..i];
    }
  }

  lemma LineSplit(i: nat, name: string, k: nat)
    requires k < |name|
    ensures Line(i, name) == Line(i, name[..k]) + [name[k]] + name[k + 1..]
  {
    assert name == name[..k] + [name[k]] + name[k + 1..];
  }

  lemma PrintedUpTo(names: seq<string>, i: nat)
    requires i < |names|
    ensures Print(names[..i + 1]) == Print(names[..i]) + Line(i, names[i]) + "\n"
  {
    PrintOfMore(names[..i], names[i]);
    assert names[..i + 1] == names[..i] + [names[i]];
  }

  lemma RegroupCut(head: string, start: string, c: char, end: string, more: string)
    ensures head + (start + [c] + end) + "\n" + more == head + start + [c] + (end + "\n" + more)
  {
  }

  /** The text of the mapping, split inside its keyword `i`. */
  lemma SplitInside(names: seq<string>, i: nat, k: nat) returns (rest: string)
    requires i < |names| && k < |names[i]|
    ensures Print(names) == Print(names[..i]) + Line(i, names[i][..k]) + [names[i][k]] + rest
  {
    PrintedUpTo(names, i);
    PrintedPrefix(names, i + 1);
    LineSplit(i, names[i], k);
    var upto := Print(names[..i + 1]);
    var more := Print(names)[|upto|..];
    rest := names[i][k + 1..] + "\n" + more;
    RegroupCut(Print(names[..i]), Line(i, names[i][..k]), names[i][k], names[i][k + 1..], more);
    assert Print(names) == upto + more;
  }

  /**
   * A mapping that the limit cuts inside any of its keywords: the reader takes the cut name
   * for the keyword and drops those behind it, with no error.
   */
  lemma LongMapIsCutShort(names: seq<string>, i: nat, k: nat)
    requires AllPlain(names) && i < |names| <= LETTERS && 0 < k < |names[i]| && LinesFit(names[..i] + [names[i][..k]])
    requires var read := Size(Print(names[..i]) + Line(i, names[i][..k])); read <= LIMIT < read + Width(names[i][k])
    ensures ReadMap(Print(names)) == Some(names[..i] + [names[i][..k]])
  {
    var before, cut := names[..i], names[i][..k];
    var rest := SplitInside(names, i, k);
    LimitedCuts(Print(before) + Line(i, cut), names[i][k], rest, LIMIT);
    CutIsPlain(names, i, k);
    PlainIsOneLine(before + [cut]);
    assert (before + [cut])[..i] == before && (before + [cut])[i] == cut;
    PlainIsOneLine(before);
    LinesOfCut(before, cut);
    PrintedLinesAreRead(before + [cut]);
  }

  lemma CutIsPlain(names: seq<string>, i: nat, k: nat)
    requires AllPlain(names) && i < |names| && 0 < k < |names[i]|
    ensures AllPlain(names[..i] + [names[i][..k]]) && AllPlain(names[..i])
  {
    var cut := names[i][..k];
    assert names[i] in names && forall c :: c in cut ==> c in names[i];
    assert forall name :: name in names[..i] ==> name in names;
  }

  lemma LinesOfCut(before: seq<string>, cut: string)
    requires OneLineEach(before) && '\n' !in cut
    ensures Lines(Print(before) + Line(|before|, cut)) == PrintedLines(before + [cut])
  {
    var names, line := before + [cut], Line(|before|, cut);
    assert names[..|before|] == before && names[|before|] == cut;
    PlainLine(|before|, cut);
    LastLine(line);
    LinesJoin(before, line);
  }

  lemma LastLine(line: string)
    requires line != "" && '\n' !in line
    ensures Lines(line) == [line]
  {
    assert forall k :: 0 <= k < |line| ==> line[k] in line;
    assert line[..|line|] == line;
  }
}
