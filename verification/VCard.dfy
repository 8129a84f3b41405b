/** Contact lines as section 3.2 and section 3.4 of RFC 6350 fold and escape them, on bytes. */
module VCard {

  type byte = b: int | 0 <= b < 256
  type bytes = seq<byte>

  const TAB: byte := 9
  const LF: byte := 10
  const CR: byte := 13
  const SPACE: byte := 32
  const COMMA: byte := 44
  const SEMICOLON: byte := 59
  const BACKSLASH: byte := 92
  const SMALL_N: byte := 110
  const LARGE_N: byte := 78
  const CRLF: bytes := [CR, LF]

  // ---------- UTF-8 ----------

  predicate Continuation(b: byte) { 0x80 <= b < 0xC0 }

  /** `utf8.RuneStart`. */
  predicate RuneStart(b: byte) { !Continuation(b) }

  /** What may follow a first byte: overlong forms, surrogates and what lies past U+10FFFF are out. */
  predicate SecondByte(first: byte, b: byte) {
    if first == 0xE0 then 0xA0 <= b < 0xC0
    else if first == 0xED then 0x80 <= b < 0xA0
    else if first == 0xF0 then 0x90 <= b < 0xC0
    else if first == 0xF4 then 0x80 <= b < 0x90
    else Continuation(b)
  }

  function Length(first: byte): nat {
    if first < 0x80 then 1
    else if 0xC2 <= first < 0xE0 then 2
    else if 0xE0 <= first < 0xF0 then 3
    else if 0xF0 <= first < 0xF5 then 4
    else 0
  }

  /** The text begins with one whole character. */
  predicate WholeRune(s: bytes) {
    && s != [] && 0 < Length(s[0]) <= |s|
    && (Length(s[0]) > 1 ==> SecondByte(s[0], s[1]))
    && (forall i :: 2 <= i < Length(s[0]) ==> Continuation(s[i]))
  }

  /** `utf8.ValidString`. */
  predicate Valid(s: bytes)
    decreases |s|
  {
    s == [] || (WholeRune(s) && Valid(s[Length(s[0])..]))
  }

  /** Cutting valid text where a character starts leaves valid text on both sides. */
  lemma {:induction false} CutAtStart(s: bytes, k: nat)
    requires Valid(s) && k <= |s| && (k < |s| ==> RuneStart(s[k]))
    ensures Valid(s[..k]) && Valid(s[k..])
    decreases |s|
  {
    if k == 0 {
      assert s[k..] == s;
    } else {
      var n := Length(s[0]);
      StartIsPast(s, k);
      CutAtStart(s[n..], k - n);
      WholeRuneCut(s, k);
    }
  }

  lemma StartIsPast(s: bytes, k: nat)
    requires WholeRune(s) && 0 < k <= |s| && (k < |s| ==> RuneStart(s[k]))
    ensures k >= Length(s[0])
  {
    assert Length(s[0]) > 1 ==> Continuation(s[1]);
  }

  lemma WholeRuneCut(s: bytes, k: nat)
    requires WholeRune(s) && Length(s[0]) <= k <= |s|
    ensures var n := Length(s[0]);
      WholeRune(s[..k]) && s[..k][0] == s[0] && s[..k][n..] == s[n..][..k - n] && s[k..] == s[n..][k - n..]
  {
    var head := s[..k];
    assert forall i :: 0 <= i < k ==> head[i] == s[i];
  }

  lemma WholeRuneStays(a: bytes, b: bytes)
    requires WholeRune(a)
    ensures WholeRune(a + b) && (a + b)[Length(a[0])..] == a[Length(a[0])..] + b
  {
    assert (a + b)[0] == a[0];
    assert forall i :: 0 <= i < |a| ==> (a + b)[i] == a[i];
  }

  lemma {:induction false} JoinValid(a: bytes, b: bytes)
    requires Valid(a) && Valid(b)
    ensures Valid(a + b)
    decreases |a|
  {
    if a == [] {
      assert a + b == b;
    } else {
      WholeRuneStays(a, b);
      JoinValid(a[Length(a[0])..], b);
    }
  }

  /** A character starts at any place of valid text or at most three bytes before it. */
  lemma {:induction false} StartIsNear(s: bytes, k: nat) returns (start: nat)
    requires Valid(s) && k < |s|
    ensures start <= k <= start + 3 && RuneStart(s[start])
    decreases |s|
  {
    var n := Length(s[0]);
    if k < n {
      start := 0;
    } else {
      var before := StartIsNear(s[n..], k - n);
      start := before + n;
    }
  }

  // ---------- folding ----------

  predicate ControlCharacter(b: byte) {
    (b < 0x20 && b != TAB) || b == 0x7F
  }

  predicate Writable(line: bytes) {
    Valid(line) && forall b :: b in line ==> !ControlCharacter(b)
  }

  /** A reader's unfolding: a line break and one white space character vanish together. */
  function Unfold(s: bytes): bytes {
    if s == [] then []
    else if |s| >= 3 && s[0] == CR && s[1] == LF && (s[2] == SPACE || s[2] == TAB) then Unfold(s[3..])
    else [s[0]] + Unfold(s[1..])
  }

  /** The physical lines of a text whose lines all end in CRLF, and what follows the last. */
  function Physical(s: bytes): (lines: seq<bytes>)
    ensures |lines| > 0
  {
    if s == [] then [[]]
    else if |s| >= 2 && s[0] == CR && s[1] == LF then [[]] + Physical(s[2..])
    else
      var rest := Physical(s[1..]);
      [[s[0]] + rest[0]] + rest[1..]
  }

  predicate Fits(s: bytes) {
    |s| <= 75 && Valid(s)
  }

  predicate AllFit(lines: seq<bytes>) {
    forall line :: line in lines ==> Fits(line)
  }

  lemma {:induction false} UnfoldPlain(a: bytes, s: bytes)
    requires CR !in a
    ensures Unfold(a + s) == a + Unfold(s)
  {
    if a == [] {
      assert a + s == s;
    } else {
      assert (a + s)[1..] == a[1..] + s;
      UnfoldPlain(a[1..], s);
    }
  }

  lemma {:induction false} PhysicalPlain(a: bytes, s: bytes)
    requires CR !in a
    ensures Physical(a + s) == [a + Physical(s)[0]] + Physical(s)[1..]
  {
    if a == [] {
      assert a + s == s && a + Physical(s)[0] == Physical(s)[0];
    } else {
      assert (a + s)[1..] == a[1..] + s;
      PhysicalPlain(a[1..], s);
      assert [a[0]] + (a[1..] + Physical(s)[0]) == a + Physical(s)[0];
    }
  }

  lemma PhysicalLine(a: bytes, s: bytes)
    requires CR !in a
    ensures Physical(a + CRLF + s) == [a] + Physical(s)
  {
    var tail := CRLF + s;
    assert a + CRLF + s == a + tail && tail[2..] == s;
    PhysicalPlain(a, tail);
    assert a + [] == a;
  }

  lemma UnfoldFold(a: bytes, s: bytes)
    requires CR !in a
    ensures Unfold(a + CRLF + [SPACE] + s) == a + Unfold(s)
  {
    var tail := CRLF + [SPACE] + s;
    assert a + CRLF + [SPACE] + s == a + tail && tail[3..] == s;
    UnfoldPlain(a, tail);
  }

  lemma UnfoldLast(a: bytes)
    requires CR !in a
    ensures Unfold(a + CRLF) == a + CRLF
  {
    UnfoldPlain(a, CRLF);
    assert CRLF[1..] == [LF] && [LF][1..] == [];
    assert Unfold(CRLF) == [CR] + Unfold([LF]);
    assert Unfold([LF]) == [LF] + Unfold([]);
  }

  /** The last place from `k` back where a character starts. */
  function LastStart(s: bytes, k: nat): (end: nat)
    requires k < |s| && RuneStart(s[0])
    ensures end <= k && RuneStart(s[end]) && forall i :: end < i <= k ==> Continuation(s[i])
  {
    if RuneStart(s[k]) then k else LastStart(s, k - 1)
  }

  lemma LastStartIsNear(s: bytes, k: nat)
    requires Valid(s) && k < |s|
    ensures RuneStart(s[0]) && k <= LastStart(s, k) + 3
  {
    var start := StartIsNear(s, k);
    assert start <= LastStart(s, k);
  }

  /** The line folded at `width` first, and at 74 from then on. */
  function Folded(line: bytes, width: nat): bytes
    requires Valid(line) && 74 <= width <= 75
    decreases |line|
  {
    if |line| <= width then line + CRLF
    else
      LastStartIsNear(line, width);
      var end := LastStart(line, width);
      CutAtStart(line, end);
      line[..end] + CRLF + [SPACE] + Folded(line[end..], 74)
  }

  lemma FoldUnfolds(head: bytes, tail: bytes, more: bytes)
    requires CR !in head && Unfold(more) == tail + CRLF
    ensures Unfold(head + CRLF + [SPACE] + more) == (head + tail) + CRLF
  {
    UnfoldFold(head, more);
    assert head + (tail + CRLF) == (head + tail) + CRLF;
  }

  lemma {:induction false} FoldedUnfolds(line: bytes, width: nat)
    requires Valid(line) && CR !in line && 74 <= width <= 75
    ensures Unfold(Folded(line, width)) == line + CRLF
    decreases |line|
  {
    if |line| <= width {
      UnfoldLast(line);
    } else {
      LastStartIsNear(line, width);
      var end := LastStart(line, width);
      CutAtStart(line, end);
      var head, tail := line[..end], line[end..];
      assert line == head + tail;
      FoldedUnfolds(tail, 74);
      FoldUnfolds(head, tail, Folded(tail, 74));
    }
  }

  lemma LineFits(a: bytes, rest: bytes)
    requires Fits(a) && CR !in a && AllFit(Physical(rest))
    ensures AllFit(Physical(a + CRLF + rest))
  {
    PhysicalLine(a, rest);
  }

  lemma MarginFits(margin: bytes, piece: bytes)
    requires margin == [] || margin == [SPACE]
    requires Valid(piece) && |margin| + |piece| <= 75 && CR !in piece
    ensures Fits(margin + piece) && CR !in margin + piece
  {
    if margin == [] {
      assert margin + piece == piece;
    } else {
      assert margin[1..] == [] && WholeRune(margin);
      JoinValid(margin, piece);
    }
  }

  lemma RegroupLast(margin: bytes, line: bytes)
    ensures margin + (line + CRLF) == (margin + line) + CRLF + []
  {
  }

  lemma Regroup(margin: bytes, piece: bytes, more: bytes)
    ensures margin + (piece + CRLF + [SPACE] + more) == (margin + piece) + CRLF + ([SPACE] + more)
  {
  }

  lemma NothingFits()
    ensures AllFit(Physical([]))
  {
    assert Fits([]);
  }

  lemma LastLineFits(margin: bytes, line: bytes)
    requires margin == [] || margin == [SPACE]
    requires Valid(line) && |margin| + |line| <= 75 && CR !in line
    ensures AllFit(Physical(margin + (line + CRLF)))
  {
    MarginFits(margin, line);
    NothingFits();
    var all := margin + line;
    LineFits(all, []);
    RegroupLast(margin, line);
  }

  lemma FoldedLineFits(margin: bytes, piece: bytes, more: bytes)
    requires margin == [] || margin == [SPACE]
    requires Valid(piece) && |margin| + |piece| <= 75 && CR !in piece && AllFit(Physical([SPACE] + more))
    ensures AllFit(Physical(margin + (piece + CRLF + [SPACE] + more)))
  {
    MarginFits(margin, piece);
    var all, rest := margin + piece, [SPACE] + more;
    LineFits(all, rest);
    Regroup(margin, piece, more);
  }

  /** `margin` is the space a continuation line begins with. */
  lemma {:induction false} FoldedFits(line: bytes, margin: bytes, width: nat)
    requires Valid(line) && CR !in line && (margin == [] || margin == [SPACE]) && width == 75 - |margin|
    ensures AllFit(Physical(margin + Folded(line, width)))
    decreases |line|
  {
    if |line| <= width {
      LastLineFits(margin, line);
    } else {
      LastStartIsNear(line, width);
      var end := LastStart(line, width);
      CutAtStart(line, end);
      FoldedFits(line[end..], [SPACE], 74);
      FoldedLineFits(margin, line[..end], Folded(line[end..], 74));
    }
  }

  /**
   * Folded into physical lines of at most 75 octets, each of whole characters, that unfold to
   * the line. Text with a control character, or that is not UTF-8, is refused.
   */
  method WriteVCardLine(line: bytes) returns (ok: bool, out: bytes)
    ensures ok <==> Writable(line)
    ensures ok ==> AllFit(Physical(out)) && Unfold(out) == line + CRLF
    ensures ok ==> out == Folded(line, 75)
  {
    out := [];
    ok := Writable(line);
    if !ok {
      return;
    }
    assert CR !in line;
    var rest, width := line, 75;
    while |rest| > width
      invariant Valid(rest) && 74 <= width <= 75
      invariant out + Folded(rest, width) == Folded(line, 75)
      decreases |rest|
    {
      LastStartIsNear(rest, width);
      var end := width;
      while !RuneStart(rest[end])
        invariant 0 < end <= width && LastStart(rest, width) == LastStart(rest, end)
        decreases end
      {
        end := end - 1;
      }
      CutAtStart(rest, end);
      assert out + (rest[..end] + CRLF + [SPACE] + Folded(rest[end..], 74)) == (out + (rest[..end] + CRLF + [SPACE])) + Folded(rest[end..], 74);
      out := out + (rest[..end] + CRLF + [SPACE]);
      rest, width := rest[end..], 74;
    }
    out := out + (rest + CRLF);
    FoldedUnfolds(line, 75);
    FoldedFits(line, [], 75);
    assert [] + Folded(line, 75) == Folded(line, 75);
  }

  // ---------- escaping ----------

  function ReplaceAll(s: bytes, what: bytes, with: bytes): bytes
    requires what != []
    decreases |s|
  {
    if |s| < |what| then s
    else if s[..|what|] == what then with + ReplaceAll(s[|what|..], what, with)
    else [s[0]] + ReplaceAll(s[1..], what, with)
  }

  function EscapedByte(b: byte): bytes {
    if b == BACKSLASH then [BACKSLASH, BACKSLASH]
    else if b == SEMICOLON then [BACKSLASH, SEMICOLON]
    else if b == COMMA then [BACKSLASH, COMMA]
    else if b == LF then [BACKSLASH, SMALL_N]
    else [b]
  }

  function Escaped(s: bytes): bytes {
    if s == [] then [] else EscapedByte(s[0]) + Escaped(s[1..])
  }

  function VCardText(value: bytes): bytes {
    Escaped(ReplaceAll(ReplaceAll(value, CRLF, [LF]), [CR], [LF]))
  }

  /** A reader's unescaping: a backslash takes the next character as it is, or as a newline. */
  function Unescape(s: bytes): bytes {
    if s == [] then []
    else if s[0] == BACKSLASH && |s| > 1 then
      [if s[1] == SMALL_N || s[1] == LARGE_N then LF else s[1]] + Unescape(s[2..])
    else [s[0]] + Unescape(s[1..])
  }

  /** Every way to end a line, as a newline. */
  function Newlines(s: bytes): bytes {
    if s == [] then []
    else if s[0] == CR then [LF] + Newlines(if |s| > 1 && s[1] == LF then s[2..] else s[1..])
    else [s[0]] + Newlines(s[1..])
  }

  lemma {:induction false} EscapedUnescapes(s: bytes)
    ensures Unescape(Escaped(s)) == s
  {
    if s != [] {
      EscapedUnescapes(s[1..]);
      var tail := Escaped(s[1..]);
      var e := EscapedByte(s[0]);
      assert (e + tail)[|e|..] == tail;
    }
  }

  lemma {:induction false} ReplacedAreNewlines(s: bytes)
    ensures ReplaceAll(ReplaceAll(s, CRLF, [LF]), [CR], [LF]) == Newlines(s)
    decreases |s|
  {
    if s == [] {
    } else if |s| == 1 {
      assert s[1..] == [];
    } else if s[..2] == CRLF {
      ReplacedAreNewlines(s[2..]);
      ReplaceAllStep([LF], ReplaceAll(s[2..], CRLF, [LF]));
    } else {
      ReplacedAreNewlines(s[1..]);
      assert s[..2] == [s[0], s[1]];
      ReplaceAllStep([s[0]], ReplaceAll(s[1..], CRLF, [LF]));
    }
  }

  lemma ReplaceAllStep(first: bytes, rest: bytes)
    requires |first| == 1
    ensures ReplaceAll(first + rest, [CR], [LF]) == (if first[0] == CR then [LF] else first) + ReplaceAll(rest, [CR], [LF])
  {
    var s := first + rest;
    assert s[1..] == rest && s[..1] == first;
  }

  /** The value comes back with its line ends as newlines. */
  lemma {:induction false} TextUnescapes(value: bytes)
    ensures Unescape(VCardText(value)) == Newlines(value)
  {
    ReplacedAreNewlines(value);
    EscapedUnescapes(Newlines(value));
  }

  /** What a reader makes of a written property: unfolded, without name and line end, unescaped. */
  function ReadProperty(out: bytes, name: bytes): bytes {
    var line := Unfold(out);
    if |line| >= |name| + 2 then Unescape(line[|name|..|line| - 2]) else []
  }

  lemma {:induction false} PropertyRoundTrips(name: bytes, value: bytes)
    requires Writable(name + VCardText(value))
    ensures ReadProperty(Folded(name + VCardText(value), 75), name) == Newlines(value)
  {
    var line := name + VCardText(value);
    FoldedUnfolds(line, 75);
    assert (line + CRLF)[|name|..|line|] == VCardText(value);
    TextUnescapes(value);
  }

  // ---------- which values can be written ----------

  /** A value is refused for what is not UTF-8 and for control characters other than line ends and tabs. */
  predicate Exportable(value: bytes) {
    Valid(value) && forall b :: b in value ==> !ControlCharacter(b) || b == LF || b == CR
  }

  lemma {:induction false} NewlinesOfValid(s: bytes)
    requires Exportable(s)
    ensures Escapable(Newlines(s))
    decreases |s|
  {
    if s != [] {
      var n := Length(s[0]);
      assert s == s[..n] + s[n..];
      if s[0] == CR && |s| > 1 && s[1] == LF {
        assert Valid(s[1..]) && s[1..][0] == LF && s[1..][1..] == s[2..];
        NewlinesOfValid(s[2..]);
        OneByte(LF, Newlines(s[2..]));
      } else if n == 1 {
        NewlinesOfValid(s[1..]);
        OneByte(if s[0] == CR then LF else s[0], Newlines(s[1..]));
      } else {
        NewlinesOfValid(s[n..]);
        NewlinesPlain(s[..n], s[n..]);
        RuneThen(s[..n], Newlines(s[n..]));
      }
    }
  }

  lemma OneByte(b: byte, s: bytes)
    requires b < 0x80 && Valid(s)
    ensures Valid([b] + s)
  {
    assert ([b] + s)[1..] == s;
  }

  lemma RuneThen(rune: bytes, s: bytes)
    requires WholeRune(rune) && |rune| == Length(rune[0]) && Valid(s)
    ensures Valid(rune + s)
  {
    assert rune[|rune|..] == [];
    JoinValid(rune, s);
  }

  lemma {:induction false} NewlinesPlain(a: bytes, s: bytes)
    requires CR !in a
    ensures Newlines(a + s) == a + Newlines(s)
  {
    if a == [] {
      assert a + s == s;
    } else {
      assert (a + s)[1..] == a[1..] + s;
      NewlinesPlain(a[1..], s);
    }
  }

  lemma {:induction false} EscapedPlain(a: bytes, s: bytes)
    requires forall i :: 0 <= i < |a| ==> a[i] >= 0x80
    ensures Escaped(a + s) == a + Escaped(s)
  {
    if a == [] {
      assert a + s == s;
    } else {
      assert (a + s)[1..] == a[1..] + s;
      EscapedPlain(a[1..], s);
    }
  }

  predicate Escapable(s: bytes) {
    Valid(s) && forall b :: b in s ==> !ControlCharacter(b) || b == LF
  }

  lemma EscapedByteThen(b: byte, rest: bytes)
    requires b < 0x80 && (!ControlCharacter(b) || b == LF) && Writable(rest)
    ensures Writable(EscapedByte(b) + rest)
  {
    var e := EscapedByte(b);
    OneByte(e[|e| - 1], rest);
    if |e| == 2 {
      OneByte(e[0], [e[1]] + rest);
      assert [e[0]] + ([e[1]] + rest) == e + rest;
    }
  }

  lemma EscapedRuneThen(rune: bytes, s: bytes)
    requires WholeRune(rune) && |rune| == Length(rune[0]) > 1 && Writable(Escaped(s))
    ensures Writable(Escaped(rune + s))
  {
    assert forall i :: 0 <= i < |rune| ==> rune[i] >= 0x80;
    EscapedPlain(rune, s);
    RuneThen(rune, Escaped(s));
  }

  lemma {:induction false} EscapedOfValid(s: bytes)
    requires Escapable(s)
    ensures Writable(Escaped(s))
    decreases |s|
  {
    if s != [] {
      var n := Length(s[0]);
      var rune, rest := s[..n], s[n..];
      assert s == rune + rest;
      EscapedOfValid(rest);
      if n == 1 {
        assert s[0] in s;
        EscapedByteThen(s[0], Escaped(rest));
      } else {
        EscapedRuneThen(rune, rest);
      }
    }
  }

  lemma HighFirst(s: bytes)
    requires Escaped(s) != [] && Escaped(s)[0] >= 0x80
    ensures s != [] && s[0] >= 0x80 && Escaped(s) == [s[0]] + Escaped(s[1..])
  {
    var e, rest := EscapedByte(s[0]), Escaped(s[1..]);
    assert (e + rest)[0] == e[0];
    HighByteIsKept(s[0]);
  }

  lemma HighByteIsKept(b: byte)
    ensures EscapedByte(b)[0] >= 0x80 ==> b >= 0x80 && EscapedByte(b) == [b]
  {
  }

  lemma TailSlices(s: bytes, n: nat)
    requires 0 < n <= |s|
    ensures s[..n] == [s[0]] + s[1..][..n - 1] && s[1..][n - 1..] == s[n..]
  {
  }

  /** Where the escaped text begins with bytes past ASCII, so does the text, with the same ones. */
  lemma {:induction false} EscapedHighPrefix(s: bytes, n: nat)
    requires n <= |Escaped(s)| && forall i :: 0 <= i < n ==> Escaped(s)[i] >= 0x80
    ensures n <= |s| && s[..n] == Escaped(s)[..n] && Escaped(s)[n..] == Escaped(s[n..])
    decreases n
  {
    if n > 0 {
      HighFirst(s);
      var rest := Escaped(s[1..]);
      forall i | 0 <= i < n - 1 ensures rest[i] >= 0x80 {
        assert rest[i] == Escaped(s)[i + 1];
      }
      EscapedHighPrefix(s[1..], n - 1);
      TailSlices(s, n);
      TailSlices([s[0]] + rest, n);
    } else {
      assert s[0..] == s;
    }
  }

  lemma {:induction false} NewlinesHighPrefix(s: bytes, n: nat)
    requires n <= |Newlines(s)| && forall i :: 0 <= i < n ==> Newlines(s)[i] >= 0x80
    ensures n <= |s| && s[..n] == Newlines(s)[..n] && Newlines(s)[n..] == Newlines(s[n..])
    decreases n
  {
    if n > 0 {
      assert s != [] && Newlines(s)[0] >= 0x80;
      assert Newlines(s) == [s[0]] + Newlines(s[1..]);
      forall i | 0 <= i < n - 1 ensures Newlines(s[1..])[i] >= 0x80 {
        assert Newlines(s[1..])[i] == Newlines(s)[i + 1];
      }
      NewlinesHighPrefix(s[1..], n - 1);
      assert s[..n] == [s[0]] + s[1..][..n - 1] && s[1..][n - 1..] == s[n..];
    } else {
      assert s[0..] == s;
    }
  }

  lemma RuneIsHigh(s: bytes)
    requires WholeRune(s) && s[0] >= 0x80
    ensures forall i :: 0 <= i < Length(s[0]) ==> s[i] >= 0x80
  {
  }

  lemma RuneOfPrefix(s: bytes, t: bytes)
    requires WholeRune(s) && Length(s[0]) <= |t| && t[..Length(s[0])] == s[..Length(s[0])]
    ensures WholeRune(t) && Length(t[0]) == Length(s[0])
  {
    var n := Length(s[0]);
    forall i | 0 <= i < n ensures t[i] == s[i] {
      assert t[..n][i] == s[..n][i];
    }
  }

  lemma DropAscii(b: byte, s: bytes)
    requires b < 0x80 && Valid([b] + s)
    ensures Valid(s)
  {
    assert ([b] + s)[1..] == s;
  }

  lemma HighIsKept(s: bytes)
    requires s != [] && s[0] >= 0x80
    ensures Escaped(s) != [] && Escaped(s)[0] == s[0]
  {
    assert Escaped(s) == [s[0]] + Escaped(s[1..]);
  }

  lemma HighRuneOfEscaped(s: bytes)
    requires s != [] && s[0] >= 0x80 && Valid(Escaped(s))
    ensures WholeRune(s) && Length(s[0]) <= |s| && Valid(Escaped(s[Length(s[0])..]))
  {
    var t := Escaped(s);
    HighIsKept(s);
    RuneIsHigh(t);
    EscapedHighPrefix(s, Length(t[0]));
    RuneOfPrefix(t, s);
  }

  lemma DropEscaped(b: byte, rest: bytes)
    requires b < 0x80 && Valid(EscapedByte(b) + rest)
    ensures Valid(rest)
  {
    var e := EscapedByte(b);
    if |e| == 2 {
      assert e + rest == [e[0]] + ([e[1]] + rest);
      DropAscii(e[0], [e[1]] + rest);
      DropAscii(e[1], rest);
    } else {
      assert e + rest == [e[0]] + rest;
      DropAscii(e[0], rest);
    }
  }

  lemma {:induction false} EscapedIsOfValid(s: bytes)
    requires Valid(Escaped(s))
    ensures Valid(s)
    decreases |s|
  {
    if s == [] {
    } else if s[0] < 0x80 {
      DropEscaped(s[0], Escaped(s[1..]));
      EscapedIsOfValid(s[1..]);
    } else {
      HighRuneOfEscaped(s);
      EscapedIsOfValid(s[Length(s[0])..]);
    }
  }

  lemma {:induction false} NewlinesIsOfValid(s: bytes)
    requires Valid(Newlines(s))
    ensures Valid(s)
    decreases |s|
  {
    if s == [] {
    } else if s[0] == CR && |s| > 1 && s[1] == LF {
      DropAscii(LF, Newlines(s[2..]));
      NewlinesIsOfValid(s[2..]);
      OneByte(LF, s[2..]);
      OneByte(CR, [LF] + s[2..]);
      assert s == [CR] + ([LF] + s[2..]);
    } else if s[0] < 0x80 {
      DropAscii(if s[0] == CR then LF else s[0], Newlines(s[1..]));
      NewlinesIsOfValid(s[1..]);
      OneByte(s[0], s[1..]);
      assert s == [s[0]] + s[1..];
    } else {
      var t := Newlines(s);
      assert t == [s[0]] + Newlines(s[1..]);
      var n := Length(s[0]);
      RuneIsHigh(t);
      NewlinesHighPrefix(s, n);
      RuneOfPrefix(t, s);
      NewlinesIsOfValid(s[n..]);
    }
  }

  lemma {:induction false} ControlsStay(s: bytes, b: byte)
    requires b in s && ControlCharacter(b) && b != LF && b != CR
    ensures b in Escaped(s) && b in Newlines(s)
    decreases |s|
  {
    if s[0] != b {
      assert s == [s[0]] + s[1..];
      ControlsStay(s[1..], b);
      if s[0] == CR && |s| > 1 && s[1] == LF {
        assert s[1..] == [s[1]] + s[2..] && s[1..][1..] == s[2..];
        ControlsStay(s[2..], b);
      }
    }
  }

  lemma ControlsAreSeen(value: bytes)
    ensures forall b :: b in value && ControlCharacter(b) && b != LF && b != CR ==> b in Escaped(Newlines(value))
  {
    forall b | b in value && ControlCharacter(b) && b != LF && b != CR ensures b in Escaped(Newlines(value)) {
      ControlsStay(value, b);
      ControlsStay(Newlines(value), b);
    }
  }

  /** Exactly the exportable values can be written. */
  lemma WrittenExactlyWhen(value: bytes)
    ensures Writable(VCardText(value)) <==> Exportable(value)
  {
    ReplacedAreNewlines(value);
    ControlsAreSeen(value);
    if Exportable(value) {
      NewlinesOfValid(value);
      EscapedOfValid(Newlines(value));
    }
    if Writable(VCardText(value)) {
      EscapedIsOfValid(Newlines(value));
      NewlinesIsOfValid(value);
    }
  }
}
