/**
 * One Maildir folder as an export writes it, call by call: any call may fail, and the process
 * may end between any two.
 */
module MaildirExport {
  import opened Options
  import opened KeywordMap
  import Ordering

  datatype MessageFile = MessageFile(unique: string, size: nat, info: string)

  /** dovecot-keywords as text, if it is there, and the files of cur/. */
  datatype Disk = Disk(keywords: Option<string>, cur: set<MessageFile>) {
    function WithMap(names: seq<string>): Disk {
      this.(keywords := Some(Print(names)))
    }

    function WithFile(f: MessageFile): Disk {
      this.(cur := cur + {f})
    }
  }

  /** What an export takes over from the folder it finds; None is a refusal. */
  function Found(d: Disk): Option<seq<string>> {
    if d.keywords.None? then Some([]) else ReadMap(d.keywords.value)
  }

  datatype Message = Message(unique: string, isDraft: bool, isFlagged: bool, isStarred: bool, isAnswered: bool, isRead: bool,
    imapDeleted: bool, keywords: seq<string>)

  predicate KeywordLetter(c: char) {
    'a' <= c <= 'z'
  }

  function Index(c: char): nat
    requires KeywordLetter(c)
  {
    (c as int - 'a' as int) as nat
  }

  function LetterOf(index: nat): (c: char)
    requires index < LETTERS
    ensures KeywordLetter(c) && Index(c) == index
  {
    (index + 'a' as int) as char
  }

  // ---------- the moments of a folder ----------

  /** The folder at one moment, and the mapping the export at work goes by. */
  datatype Moment = Moment(disk: Disk, names: seq<string>)

  /** Every keyword letter of a file name has a keyword. */
  predicate LettersMapped(f: MessageFile, names: seq<string>) {
    forall i :: 0 <= i < |f.info| && KeywordLetter(f.info[i]) ==> Index(f.info[i]) < |names|
  }

  /**
   * One call that changed the folder: a mapping with new keywords behind the others, printed
   * whole, or files all of whose letters were mapped before.
   */
  ghost predicate Written(a: Moment, b: Moment) {
    && a.names <= b.names && |b.names| <= LETTERS && a.disk.cur <= b.disk.cur
    && (b.disk.keywords == Some(Print(b.names)) || (b.names == a.names && b.disk.keywords == a.disk.keywords))
    && forall f :: f in b.disk.cur && f !in a.disk.cur ==> LettersMapped(f, a.names)
  }

  /** The next export begins: it goes by what it reads. */
  ghost predicate Reread(a: Moment, b: Moment) {
    b.disk == a.disk && Found(a.disk) == Some(b.names)
  }

  ghost predicate WrittenAt(moments: seq<Moment>, i: nat)
    requires 0 < i < |moments|
  {
    Written(moments[i - 1], moments[i])
  }

  ghost predicate RereadAt(moments: seq<Moment>, i: nat)
    requires 0 < i < |moments|
  {
    Reread(moments[i - 1], moments[i])
  }

  ghost predicate History(moments: seq<Moment>) {
    && (moments != [] ==> Found(moments[0].disk) == Some(moments[0].names))
    && forall i :: 0 < i < |moments| ==> WrittenAt(moments, i) || RereadAt(moments, i)
  }

  /** From one list of moments to a longer one by calls of one export. */
  ghost predicate WroteOn(before: seq<Moment>, after: seq<Moment>) {
    before != [] && before <= after && forall i :: |before| <= i < |after| ==> WrittenAt(after, i)
  }

  lemma WroteFurther(a: seq<Moment>, b: seq<Moment>, c: seq<Moment>)
    requires WroteOn(a, b) && WroteOn(b, c)
    ensures WroteOn(a, c)
  {
    forall i | |a| <= i < |c| ensures WrittenAt(c, i) {
      if i < |b| {
        assert WrittenAt(b, i) && c[i] == b[i] && c[i - 1] == b[i - 1];
      }
    }
  }

  lemma {:induction false} NamesGrow(a: seq<Moment>, b: seq<Moment>, i: nat, j: nat)
    requires WroteOn(a, b) && |a| - 1 <= i <= j < |b|
    ensures b[i].names <= b[j].names && b[i].disk.cur <= b[j].disk.cur
    decreases j - i
  {
    if i < j {
      NamesGrow(a, b, i, j - 1);
      assert WrittenAt(b, j);
    }
  }

  lemma MapIsWritten(d: Disk, names: seq<string>, more: seq<string>)
    requires names <= more && |more| <= LETTERS
    ensures Written(Moment(d, names), Moment(d.WithMap(more), more))
  {
  }

  class Folder {
    var disk: Disk
    ghost var moments: seq<Moment>

    constructor (disk: Disk)
      ensures this.disk == disk && moments == []
    {
      this.disk, moments := disk, [];
    }

    ghost predicate Valid()
      reads this
    {
      History(moments) && (moments != [] ==> Now().disk == disk)
    }

    /** An export is at work and has recorded the folder as it is. */
    ghost predicate Open()
      reads this
    {
      moments != [] && moments[|moments| - 1].disk == disk && |Names()| <= LETTERS
    }

    ghost function Names(): seq<string>
      reads this
      requires moments != []
    {
      moments[|moments| - 1].names
    }

    ghost function Now(): Moment
      reads this
      requires moments != []
    {
      moments[|moments| - 1]
    }

    twostate predicate Followed()
      reads this
    {
      Open() && WroteOn(old(moments), moments)
    }

    ghost method Begins(names: seq<string>)
      requires |names| <= LETTERS
      modifies this`moments
      ensures Open() && moments == old(moments) + [Moment(disk, names)] && Names() == names
    {
      moments := moments + [Moment(disk, names)];
    }

    method Becomes(next: Disk, ghost names: seq<string>)
      requires Open() && Written(Moment(disk, Names()), Moment(next, names))
      modifies this
      ensures Followed() && disk == next && Names() == names
    {
      disk := next;
      moments := moments + [Moment(next, names)];
      assert WrittenAt(moments, |moments| - 1);
    }

    /** Writing the new mapping beside the old one may fail, and so may the rename. */
    method WriteMap(names: seq<string>) returns (ok: bool)
      requires Open() && Names() <= names && |names| <= LETTERS
      modifies this
      ensures Followed() && disk.cur == old(disk.cur)
      ensures ok ==> Names() == names && disk.keywords == Some(Print(names))
      ensures !ok ==> unchanged(this)
    {
      ok := *;
      if ok {
        MapIsWritten(disk, Names(), names);
        Becomes(disk.WithMap(names), names);
      }
    }
  }

  // ---------- the letters of one export ----------

  /** Whether some name is this keyword, ignoring case as `lower` does. */
  ghost predicate Named(names: seq<string>, keyword: string, lower: string -> string) {
    exists i :: 0 <= i < |names| && lower(names[i]) == lower(keyword)
  }

  /** A new keyword goes behind the others while there is a letter left. */
  ghost function WithName(names: seq<string>, keyword: string, lower: string -> string): seq<string> {
    if Named(names, keyword, lower) || |names| >= LETTERS then names else names + [keyword]
  }

  ghost function FinalNames(names: seq<string>, keywords: seq<string>, lower: string -> string): (r: seq<string>)
    ensures names <= r
    decreases |keywords|
  {
    if keywords == [] then names
    else WithName(FinalNames(names, keywords[..|keywords| - 1], lower), keywords[|keywords| - 1], lower)
  }

  lemma {:induction false} FinalJoin(names: seq<string>, a: seq<string>, b: seq<string>, lower: string -> string)
    ensures FinalNames(names, a + b, lower) == FinalNames(FinalNames(names, a, lower), b, lower)
    decreases |b|
  {
    if b == [] {
      assert a + b == a;
    } else {
      var n := |b| - 1;
      assert (a + b)[..|a + b| - 1] == a + b[..n];
      FinalJoin(names, a, b[..n], lower);
    }
  }

  function AllKeywords(messages: seq<Message>): seq<string>
    decreases |messages|
  {
    if messages == [] then [] else AllKeywords(messages[..|messages| - 1]) + messages[|messages| - 1].keywords
  }

  lemma {:induction false} FinalGrows(names: seq<string>, messages: seq<Message>, i: nat, lower: string -> string)
    requires i <= |messages|
    ensures FinalNames(names, AllKeywords(messages[..i]), lower) <= FinalNames(names, AllKeywords(messages), lower)
    decreases |messages|
  {
    if i == |messages| {
      assert messages[..i] == messages;
    } else {
      var n := |messages| - 1;
      FinalGrows(names, messages[..n], i, lower);
      assert messages[..n][..i] == messages[..i];
      FinalJoin(names, AllKeywords(messages[..n]), messages[n].keywords, lower);
    }
  }

  /** The letters by keyword, ignoring case, and the names by letter. */
  ghost predicate LettersAreRight(letters: map<string, nat>, names: seq<string>, lower: string -> string) {
    && |names| <= LETTERS
    && (forall k :: k in letters ==> letters[k] < |names| && lower(names[letters[k]]) == k)
    && (forall i :: 0 <= i < |names| ==> lower(names[i]) in letters)
  }

  lemma LettersKnowNames(letters: map<string, nat>, names: seq<string>, lower: string -> string, keyword: string)
    requires LettersAreRight(letters, names, lower)
    ensures lower(keyword) in letters <==> Named(names, keyword, lower)
  {
    if lower(keyword) in letters {
      assert lower(names[letters[lower(keyword)]]) == lower(keyword);
    }
  }

  lemma NewLetter(letters: map<string, nat>, names: seq<string>, lower: string -> string, keyword: string)
    requires LettersAreRight(letters, names, lower) && !Named(names, keyword, lower) && |names| < LETTERS
    ensures LettersAreRight(letters[lower(keyword) := |names|], names + [keyword], lower)
  {
    var all, more := names + [keyword], letters[lower(keyword) := |names|];
    forall i | 0 <= i < |all| ensures lower(all[i]) in more {
      assert i < |names| ==> all[i] == names[i];
    }
  }

  class Keywords {
    const folder: Folder
    const lower: string -> string
    var letters: map<string, nat>
    var names: seq<string>

    ghost predicate Valid()
      reads this, folder
    {
      LettersAreRight(letters, names, lower) && folder.Open() && folder.Names() == names
    }

    /** The letters of the mapping an export takes over. */
    constructor Read(folder: Folder, lower: string -> string, names: seq<string>)
      requires folder.Open() && folder.Names() == names
      ensures this.folder == folder && this.lower == lower && this.names == names && Valid()
    {
      this.folder, this.lower, this.names := folder, lower, names;
      letters := map[];
      new;
      for i := 0 to |names|
        invariant this.folder == folder && this.lower == lower && this.names == names && folder.Open() && folder.Names() == names
        invariant forall k :: k in letters ==> letters[k] < i && lower(names[letters[k]]) == k
        invariant forall j :: 0 <= j < i ==> lower(names[j]) in letters
      {
        letters := letters[lower(names[i]) := i];
      }
    }

    method Add(keyword: string) returns (ok: bool)
      requires Valid() && !Named(names, keyword, lower) && |names| < LETTERS
      modifies this, folder
      ensures folder.Followed() && folder.disk.cur == old(folder.disk.cur) && folder.Names() <= names
      ensures names == old(names) + [keyword] && letters == old(letters)[lower(keyword) := |old(names)|]
      ensures ok ==> Valid() && folder.disk.keywords == Some(Print(names))
    {
      NewLetter(letters, names, lower, keyword);
      names := names + [keyword];
      letters := letters[lower(keyword) := |names| - 1];
      ok := folder.WriteMap(names);
    }

    /**
     * The keyword's letter, mapped on disk before it is given out. A keyword keeps its letter
     * and a letter its keyword; the 27th is refused and changes nothing.
     */
    method Letter(keyword: string) returns (ok: bool, letter: char)
      requires Valid()
      modifies this, folder
      ensures folder.Followed() && folder.disk.cur == old(folder.disk.cur)
      ensures folder.Names() <= WithName(old(names), keyword, lower)
      ensures ok ==> Valid() && names == WithName(old(names), keyword, lower)
      ensures ok ==> KeywordLetter(letter) && Index(letter) < |names| && lower(names[Index(letter)]) == lower(keyword)
      ensures forall k :: k in old(letters) ==> k in letters && letters[k] == old(letters)[k]
      ensures ok && Named(old(names), keyword, lower) ==> unchanged(this) && unchanged(folder) && Index(letter) == letters[lower(keyword)]
      ensures ok && !Named(old(names), keyword, lower) ==> Index(letter) == |old(names)| && folder.disk.keywords == Some(Print(names))
      ensures !Named(old(names), keyword, lower) && |old(names)| == LETTERS ==> !ok && unchanged(this) && unchanged(folder)
    {
      LettersKnowNames(letters, names, lower, keyword);
      if lower(keyword) in letters {
        return true, LetterOf(letters[lower(keyword)]);
      }
      if |names| == LETTERS {
        return false, ' ';
      }
      letter := LetterOf(|names|);
      ok := Add(keyword);
    }
  }

  // ---------- a message's name ----------

  /** The flag letters a message has. */
  predicate FlagOf(m: Message, c: char) {
    || (c == 'D' && m.isDraft)
    || (c == 'F' && (m.isFlagged || m.isStarred))
    || (c == 'R' && m.isAnswered)
    || (c == 'S' && m.isRead)
    || (c == 'T' && m.imapDeleted)
  }

  function Flags(m: Message): string {
    (if m.isDraft then "D" else "") + (if m.isFlagged || m.isStarred then "F" else "") + (if m.isAnswered then "R" else "")
    + (if m.isRead then "S" else "") + (if m.imapDeleted then "T" else "")
  }

  predicate CharBefore(a: char, b: char) {
    a <= b
  }

  predicate SameKeyword(c: char, keyword: string, names: seq<string>, lower: string -> string) {
    KeywordLetter(c) && Index(c) < |names| && lower(names[Index(c)]) == lower(keyword)
  }

  predicate IsOfOne(c: char, keywords: seq<string>, names: seq<string>, lower: string -> string) {
    exists k :: 0 <= k < |keywords| && SameKeyword(c, keywords[k], names, lower)
  }

  ghost predicate HasLetter(info: string, keyword: string, names: seq<string>, lower: string -> string) {
    exists c :: c in info && SameKeyword(c, keyword, names, lower)
  }

  /** The letters say exactly the message's flags and, ignoring case, its keywords. */
  ghost predicate Carries(info: string, m: Message, keywords: seq<string>, names: seq<string>, lower: string -> string) {
    CarriesFlags(info, m) && CarriesOnly(info, keywords, names, lower) && CarriesAll(info, keywords, names, lower)
  }

  ghost predicate CarriesFlags(info: string, m: Message) {
    (forall c :: c in info && !KeywordLetter(c) ==> FlagOf(m, c)) && (forall c :: FlagOf(m, c) ==> c in info)
  }

  predicate CarriesOnly(info: string, keywords: seq<string>, names: seq<string>, lower: string -> string) {
    forall c :: c in info && KeywordLetter(c) ==> IsOfOne(c, keywords, names, lower)
  }

  ghost predicate CarriesAll(info: string, keywords: seq<string>, names: seq<string>, lower: string -> string) {
    forall k :: 0 <= k < |keywords| ==> HasLetter(info, keywords[k], names, lower)
  }

  predicate Ascending(s: string) {
    forall i, j :: 0 <= i < j < |s| ==> s[i] < s[j]
  }

  predicate NoneTwice(s: string) {
    forall i, j :: 0 <= i < j < |s| ==> s[i] != s[j]
  }

  lemma FlagsAreCarried(m: Message)
    ensures NoneTwice(Flags(m)) && forall c :: c in Flags(m) <==> FlagOf(m, c)
    ensures forall c :: FlagOf(m, c) ==> !KeywordLetter(c)
  {
  }

  lemma SortedOnce(s: string)
    requires NoneTwice(s)
    ensures var r := Ordering.Sort(s, CharBefore); Ascending(r) && forall c :: c in r <==> c in s
  {
    var r := Ordering.Sort(s, CharBefore);
    Ordering.SortSorts(s, CharBefore);
    Ordering.SortPermutes(s, CharBefore);
    forall c ensures c in r <==> c in s {
      assert c in r <==> c in multiset(r);
      assert c in s <==> c in multiset(s);
    }
    forall i, j | 0 <= i < j < |r| ensures r[i] < r[j] {
      assert CharBefore(r[i], r[j]);
      OnceIsOnce(s, r, i, j);
    }
  }

  lemma {:induction false} AtMostOnce(s: string, c: char)
    requires NoneTwice(s)
    ensures multiset(s)[c] <= 1
  {
    if s != "" {
      AtMostOnce(s[1..], c);
      assert s == [s[0]] + s[1..];
      assert s[0] !in s[1..];
    }
  }

  lemma TwiceIsTwo(r: string, i: nat, j: nat)
    requires i < j < |r| && r[i] == r[j]
    ensures multiset(r)[r[i]] >= 2
  {
    assert r == r[..i] + [r[i]] + r[i + 1..j] + [r[j]] + r[j + 1..];
  }

  lemma OnceIsOnce(s: string, r: string, i: nat, j: nat)
    requires multiset(r) == multiset(s) && NoneTwice(s) && i < j < |r|
    ensures r[i] != r[j]
  {
    AtMostOnce(s, r[i]);
    if r[i] == r[j] {
      TwiceIsTwo(r, i, j);
    }
  }

  /** Every letter so far is of a flag or of one of these keywords, and none is missing. */
  ghost predicate Collected(letters: string, m: Message, keywords: seq<string>, names: seq<string>, lower: string -> string) {
    NoneTwice(letters) && Carries(letters, m, keywords, names, lower)
  }

  lemma IsStillOfOne(c: char, keywords: seq<string>, more: seq<string>, before: seq<string>, names: seq<string>, lower: string -> string)
    requires IsOfOne(c, keywords, before, lower) && before <= names && keywords <= more
    ensures IsOfOne(c, more, names, lower)
  {
    var k :| 0 <= k < |keywords| && SameKeyword(c, keywords[k], before, lower);
    assert more[k] == keywords[k] && SameKeyword(c, more[k], names, lower);
  }

  lemma StillHasLetter(info: string, more: string, keyword: string, before: seq<string>, names: seq<string>, lower: string -> string)
    requires HasLetter(info, keyword, before, lower) && before <= names && forall c :: c in info ==> c in more
    ensures HasLetter(more, keyword, names, lower)
  {
    var c :| c in info && SameKeyword(c, keyword, before, lower);
    assert c in more && SameKeyword(c, keyword, names, lower);
  }

  lemma SameFlags(info: string, more: string, m: Message)
    requires CarriesFlags(info, m) && forall c :: c in more <==> c in info
    ensures CarriesFlags(more, m)
  {
  }

  lemma OnlyStill(info: string, more: string, keywords: seq<string>, before: seq<string>, names: seq<string>, lower: string -> string)
    requires CarriesOnly(info, keywords, before, lower) && before <= names && forall c :: c in more <==> c in info
    ensures CarriesOnly(more, keywords, names, lower)
  {
    forall c | c in more && KeywordLetter(c) ensures IsOfOne(c, keywords, names, lower) {
      IsStillOfOne(c, keywords, keywords, before, names, lower);
    }
  }

  lemma AllStill(info: string, more: string, keywords: seq<string>, before: seq<string>, names: seq<string>, lower: string -> string)
    requires CarriesAll(info, keywords, before, lower) && before <= names && forall c :: c in more <==> c in info
    ensures CarriesAll(more, keywords, names, lower)
  {
    forall k | 0 <= k < |keywords| ensures HasLetter(more, keywords[k], names, lower) {
      StillHasLetter(info, more, keywords[k], before, names, lower);
    }
  }

  lemma CarriesMore(info: string, more: string, m: Message, keywords: seq<string>, before: seq<string>, names: seq<string>, lower: string -> string)
    requires Carries(info, m, keywords, before, lower) && before <= names && forall c :: c in more <==> c in info
    ensures Carries(more, m, keywords, names, lower)
  {
    SameFlags(info, more, m);
    OnlyStill(info, more, keywords, before, names, lower);
    AllStill(info, more, keywords, before, names, lower);
  }

  function WithLetter(letters: string, letter: char): string {
    if letter in letters then letters else letters + [letter]
  }

  lemma LettersAreOfOnes(letters: string, keywords: seq<string>, before: seq<string>, names: seq<string>, lower: string -> string, keyword: string, letter: char)
    requires CarriesOnly(letters, keywords, before, lower) && before <= names && SameKeyword(letter, keyword, names, lower)
    ensures CarriesOnly(WithLetter(letters, letter), keywords + [keyword], names, lower)
  {
    var all := keywords + [keyword];
    assert all[|keywords|] == keyword && IsOfOne(letter, all, names, lower);
    forall c | c in WithLetter(letters, letter) && KeywordLetter(c) ensures IsOfOne(c, all, names, lower) {
      if c in letters {
        IsStillOfOne(c, keywords, all, before, names, lower);
      }
    }
  }

  lemma KeywordsHaveLetters(letters: string, keywords: seq<string>, before: seq<string>, names: seq<string>, lower: string -> string, keyword: string, letter: char)
    requires CarriesAll(letters, keywords, before, lower) && before <= names && SameKeyword(letter, keyword, names, lower)
    ensures CarriesAll(WithLetter(letters, letter), keywords + [keyword], names, lower)
  {
    var r, all := WithLetter(letters, letter), keywords + [keyword];
    forall k | 0 <= k < |all| ensures HasLetter(r, all[k], names, lower) {
      if k < |keywords| {
        StillHasLetter(letters, r, keywords[k], before, names, lower);
      } else {
        assert letter in r;
      }
    }
  }

  lemma FlagsStay(letters: string, m: Message, letter: char)
    requires CarriesFlags(letters, m) && NoneTwice(letters) && KeywordLetter(letter)
    ensures CarriesFlags(WithLetter(letters, letter), m) && NoneTwice(WithLetter(letters, letter))
  {
    assert forall c :: c in WithLetter(letters, letter) <==> c in letters || c == letter;
  }

  lemma CollectOne(letters: string, m: Message, keywords: seq<string>, before: seq<string>, names: seq<string>, lower: string -> string, keyword: string, letter: char)
    requires Collected(letters, m, keywords, before, lower) && before <= names && SameKeyword(letter, keyword, names, lower)
    ensures Collected(WithLetter(letters, letter), m, keywords + [keyword], names, lower)
  {
    LettersAreOfOnes(letters, keywords, before, names, lower, keyword, letter);
    KeywordsHaveLetters(letters, keywords, before, names, lower, keyword, letter);
    FlagsStay(letters, m, letter);
  }

  lemma CarriesSorted(s: string, m: Message, keywords: seq<string>, names: seq<string>, lower: string -> string)
    requires Collected(s, m, keywords, names, lower)
    ensures var r := Ordering.Sort(s, CharBefore); Ascending(r) && Carries(r, m, keywords, names, lower)
  {
    SortedOnce(s);
    CarriesMore(s, Ordering.Sort(s, CharBefore), m, keywords, names, names, lower);
  }

  lemma FinalOneMore(names: seq<string>, keywords: seq<string>, i: nat, lower: string -> string)
    requires i < |keywords|
    ensures keywords[..i + 1] == keywords[..i] + [keywords[i]]
    ensures FinalNames(names, keywords[..i + 1], lower) == WithName(FinalNames(names, keywords[..i], lower), keywords[i], lower)
    ensures FinalNames(names, keywords[..i + 1], lower) <= FinalNames(names, keywords, lower)
  {
    assert keywords[..i + 1][..i] == keywords[..i];
    assert keywords == keywords[..i + 1] + keywords[i + 1..];
    FinalJoin(names, keywords[..i + 1], keywords[i + 1..], lower);
  }

  method AddLetter(m: Message, i: nat, letters: string, keywordMap: Keywords, ghost names: seq<string>) returns (ok: bool, more: string)
    requires keywordMap.Valid() && i < |m.keywords| && Collected(letters, m, m.keywords[..i], keywordMap.names, keywordMap.lower)
    requires keywordMap.names == FinalNames(names, m.keywords[..i], keywordMap.lower)
    modifies keywordMap, keywordMap.folder
    ensures keywordMap.folder.Followed() && keywordMap.folder.disk.cur == old(keywordMap.folder.disk.cur)
    ensures keywordMap.folder.Names() <= FinalNames(names, m.keywords, keywordMap.lower)
    ensures ok ==> keywordMap.Valid() && keywordMap.names == FinalNames(names, m.keywords[..i + 1], keywordMap.lower)
    ensures ok ==> Collected(more, m, m.keywords[..i + 1], keywordMap.names, keywordMap.lower)
  {
    ghost var before := keywordMap.names;
    FinalOneMore(names, m.keywords, i, keywordMap.lower);
    var letter;
    ok, letter := keywordMap.Letter(m.keywords[i]);
    more := letters;
    if ok {
      CollectOne(letters, m, m.keywords[..i], before, keywordMap.names, keywordMap.lower, m.keywords[i], letter);
      more := WithLetter(letters, letter);
    }
  }

  method CollectLetters(m: Message, keywordMap: Keywords) returns (ok: bool, letters: string)
    requires keywordMap.Valid()
    modifies keywordMap, keywordMap.folder
    ensures keywordMap.folder.Followed() && keywordMap.folder.disk.cur == old(keywordMap.folder.disk.cur)
    ensures keywordMap.folder.Names() <= FinalNames(old(keywordMap.names), m.keywords, keywordMap.lower)
    ensures ok ==> keywordMap.Valid() && keywordMap.names == FinalNames(old(keywordMap.names), m.keywords, keywordMap.lower)
    ensures ok ==> Collected(letters, m, m.keywords, keywordMap.names, keywordMap.lower)
  {
    var folder := keywordMap.folder;
    NoKeywordsYet(m, keywordMap.names, keywordMap.lower);
    ok, letters := true, Flags(m);
    ghost var names, start := keywordMap.names, folder.moments;
    var i := 0;
    while i < |m.keywords|
      invariant i <= |m.keywords|
      invariant keywordMap.Valid() && WroteOn(start, folder.moments) && folder.disk.cur == old(folder.disk.cur)
      invariant keywordMap.names == FinalNames(names, m.keywords[..i], keywordMap.lower)
      invariant Collected(letters, m, m.keywords[..i], keywordMap.names, keywordMap.lower)
    {
      ghost var moments := folder.moments;
      ok, letters := AddLetter(m, i, letters, keywordMap, names);
      WroteFurther(start, moments, folder.moments);
      if !ok {
        return;
      }
      i := i + 1;
    }
    ok := true;
    assert m.keywords[..i] == m.keywords;
  }

  lemma NoKeywordsYet(m: Message, names: seq<string>, lower: string -> string)
    ensures Collected(Flags(m), m, [], names, lower)
  {
    FlagsAreCarried(m);
  }

  /** A message's letters, in ASCII order, every keyword of them already mapped on disk. */
  method MaildirInfo(m: Message, keywordMap: Keywords) returns (ok: bool, info: string)
    requires keywordMap.Valid()
    modifies keywordMap, keywordMap.folder
    ensures keywordMap.folder.Followed() && keywordMap.folder.disk.cur == old(keywordMap.folder.disk.cur)
    ensures keywordMap.folder.Names() <= FinalNames(old(keywordMap.names), m.keywords, keywordMap.lower)
    ensures ok ==> keywordMap.Valid() && keywordMap.names == FinalNames(old(keywordMap.names), m.keywords, keywordMap.lower)
    ensures ok ==> Ascending(info) && Carries(info, m, m.keywords, keywordMap.names, keywordMap.lower)
  {
    var letters;
    ok, letters := CollectLetters(m, keywordMap);
    if ok {
      CarriesSorted(letters, m, m.keywords, keywordMap.names, keywordMap.lower);
    }
    info := Ordering.Sort(letters, CharBefore);
  }

  // ---------- one export ----------

  /** The message stands in cur/ under a name that says its flags and keywords. */
  ghost predicate Exported(m: Message, at: Moment, lower: string -> string) {
    exists f :: f in at.disk.cur && f.unique == m.unique && Ascending(f.info) && Carries(f.info, m, m.keywords, at.names, lower)
  }

  lemma StaysExported(m: Message, a: Moment, b: Moment, lower: string -> string)
    requires Exported(m, a, lower) && a.names <= b.names && a.disk.cur <= b.disk.cur
    ensures Exported(m, b, lower)
  {
    var f :| f in a.disk.cur && f.unique == m.unique && Ascending(f.info) && Carries(f.info, m, m.keywords, a.names, lower);
    CarriesMore(f.info, f.info, m, m.keywords, a.names, b.names, lower);
    assert f in b.disk.cur;
  }

  lemma FileIsWritten(d: Disk, f: MessageFile, m: Message, names: seq<string>, lower: string -> string)
    requires |names| <= LETTERS && Carries(f.info, m, m.keywords, names, lower)
    ensures Written(Moment(d, names), Moment(d.WithFile(f), names))
  {
    forall i | 0 <= i < |f.info| && KeywordLetter(f.info[i]) ensures Index(f.info[i]) < |names| {
      assert f.info[i] in f.info && IsOfOne(f.info[i], m.keywords, names, lower);
    }
  }

  method ExportMessage(m: Message, keywordMap: Keywords) returns (ok: bool)
    requires keywordMap.Valid()
    modifies keywordMap, keywordMap.folder
    ensures keywordMap.folder.Followed()
    ensures keywordMap.folder.Names() <= FinalNames(old(keywordMap.names), m.keywords, keywordMap.lower)
    ensures ok ==> keywordMap.Valid() && keywordMap.names == FinalNames(old(keywordMap.names), m.keywords, keywordMap.lower)
    ensures ok ==> Exported(m, keywordMap.folder.Now(), keywordMap.lower)
  {
    var folder := keywordMap.folder;
    ghost var start := folder.moments;
    var info;
    ok, info := MaildirInfo(m, keywordMap);
    // The download, its size and its time may all fail; the rename publishes.
    var size: nat, published: bool := *, *;
    if !ok || !published {
      return false;
    }
    var f := MessageFile(m.unique, size, info);
    ghost var moments := folder.moments;
    FileIsWritten(folder.disk, f, m, keywordMap.names, keywordMap.lower);
    folder.Becomes(folder.disk.WithFile(f), keywordMap.names);
    WroteFurther(start, moments, folder.moments);
    assert f in folder.Now().disk.cur;
  }

  lemma FinalOfOneMore(names: seq<string>, messages: seq<Message>, i: nat, lower: string -> string)
    requires i < |messages|
    ensures FinalNames(names, AllKeywords(messages[..i + 1]), lower)
         == FinalNames(FinalNames(names, AllKeywords(messages[..i]), lower), messages[i].keywords, lower)
  {
    assert messages[..i + 1][..i] == messages[..i];
    FinalJoin(names, AllKeywords(messages[..i]), messages[i].keywords, lower);
  }

  ghost predicate AllExported(messages: seq<Message>, at: Moment, lower: string -> string) {
    forall i :: 0 <= i < |messages| ==> Exported(messages[i], at, lower)
  }

  lemma OneMoreExported(messages: seq<Message>, i: nat, a: Moment, b: Moment, lower: string -> string)
    requires i < |messages| && AllExported(messages[..i], a, lower) && Exported(messages[i], b, lower)
    requires a.names <= b.names && a.disk.cur <= b.disk.cur
    ensures AllExported(messages[..i + 1], b, lower)
  {
    var before, more := messages[..i], messages[..i + 1];
    forall j | 0 <= j < |more| ensures Exported(more[j], b, lower) {
      if j < i {
        assert more[j] == before[j];
        StaysExported(before[j], a, b, lower);
      }
    }
  }

  /** The messages before `i` are exported, and the mapping is what they make of `names`. */
  ghost predicate Through(messages: seq<Message>, i: nat, names: seq<string>, at: Moment, lower: string -> string)
    requires i <= |messages|
  {
    AllExported(messages[..i], at, lower) && at.names == FinalNames(names, AllKeywords(messages[..i]), lower)
  }

  lemma FinalReaches(names: seq<string>, messages: seq<Message>, i: nat, lower: string -> string, more: seq<string>)
    requires i < |messages| && more <= FinalNames(FinalNames(names, AllKeywords(messages[..i]), lower), messages[i].keywords, lower)
    ensures more <= FinalNames(names, AllKeywords(messages), lower)
  {
    FinalOfOneMore(names, messages, i, lower);
    FinalGrows(names, messages, i + 1, lower);
  }

  lemma ThroughOneMore(messages: seq<Message>, i: nat, names: seq<string>, before: seq<Moment>, after: seq<Moment>, lower: string -> string)
    requires i < |messages| && WroteOn(before, after)
    requires Through(messages, i, names, before[|before| - 1], lower) && Exported(messages[i], after[|after| - 1], lower)
    requires after[|after| - 1].names == FinalNames(before[|before| - 1].names, messages[i].keywords, lower)
    ensures Through(messages, i + 1, names, after[|after| - 1], lower)
  {
    FinalOfOneMore(names, messages, i, lower);
    NamesGrow(before, after, |before| - 1, |after| - 1);
    OneMoreExported(messages, i, before[|before| - 1], after[|after| - 1], lower);
  }

  method ExportNext(messages: seq<Message>, i: nat, keywordMap: Keywords, ghost names: seq<string>) returns (ok: bool)
    requires keywordMap.Valid() && i < |messages| && Through(messages, i, names, keywordMap.folder.Now(), keywordMap.lower)
    modifies keywordMap, keywordMap.folder
    ensures keywordMap.folder.Followed()
    ensures keywordMap.folder.Names() <= FinalNames(names, AllKeywords(messages), keywordMap.lower)
    ensures ok ==> keywordMap.Valid() && Through(messages, i + 1, names, keywordMap.folder.Now(), keywordMap.lower)
  {
    ghost var moments := keywordMap.folder.moments;
    ok := ExportMessage(messages[i], keywordMap);
    FinalReaches(names, messages, i, keywordMap.lower, keywordMap.folder.Names());
    if ok {
      ThroughOneMore(messages, i, names, moments, keywordMap.folder.moments, keywordMap.lower);
    }
  }

  /** The messages of one export into a folder, up to the first failure. */
  method ExportMessages(messages: seq<Message>, keywordMap: Keywords) returns (ok: bool)
    requires keywordMap.Valid()
    modifies keywordMap, keywordMap.folder
    ensures keywordMap.folder.Followed()
    ensures keywordMap.folder.Names() <= FinalNames(old(keywordMap.names), AllKeywords(messages), keywordMap.lower)
    ensures ok ==> keywordMap.folder.Names() == FinalNames(old(keywordMap.names), AllKeywords(messages), keywordMap.lower)
    ensures ok ==> AllExported(messages, keywordMap.folder.Now(), keywordMap.lower)
  {
    var folder := keywordMap.folder;
    ghost var start, names := folder.moments, keywordMap.names;
    for i := 0 to |messages|
      invariant keywordMap.Valid() && WroteOn(start, folder.moments)
      invariant Through(messages, i, names, folder.Now(), keywordMap.lower)
    {
      ghost var moments := folder.moments;
      ok := ExportNext(messages, i, keywordMap, names);
      WroteFurther(start, moments, folder.moments);
      if !ok {
        return false;
      }
    }
    ok := true;
    assert messages[..|messages|] == messages;
  }

  lemma HistoryGoesOn(before: seq<Moment>, begun: Moment, after: seq<Moment>)
    requires History(before) && Found(begun.disk) == Some(begun.names) && WroteOn(before + [begun], after)
    requires before != [] ==> before[|before| - 1].disk == begun.disk
    ensures History(after)
  {
    forall i | 0 < i < |after| ensures WrittenAt(after, i) || RereadAt(after, i) {
      if i < |before| {
        assert WrittenAt(before, i) || RereadAt(before, i);
        assert after[i - 1] == before[i - 1] && after[i] == before[i];
      } else if i == |before| {
        assert after[i - 1] == before[|before| - 1] && after[i] == begun;
      }
    }
    if before == [] {
      assert after[0] == begun;
    } else {
      assert after[0] == before[0];
    }
  }

  /**
   * One export of these messages: the mapping it found grows by what they bring, at every
   * moment and in their order; success means all of it, and every message exported.
   */
  ghost predicate OneExport(before: seq<Moment>, disk: Disk, messages: seq<Message>, ok: bool, after: seq<Moment>, lower: string -> string)
    requires Found(disk).Some?
  {
    var names := Found(disk).value;
    && WroteOn(before + [Moment(disk, names)], after)
    && after[|after| - 1].names <= FinalNames(names, AllKeywords(messages), lower)
    && (ok ==> after[|after| - 1].names == FinalNames(names, AllKeywords(messages), lower))
    && (ok ==> AllExported(messages, after[|after| - 1], lower))
  }

  /**
   * One export into a folder, first or not, up to its first failure. A mapping it cannot extend
   * stops it; else it goes by what it reads, and success exports every message.
   */
  method ExportFolder(folder: Folder, messages: seq<Message>, lower: string -> string) returns (ok: bool)
    requires folder.Valid()
    modifies folder
    ensures folder.Valid()
    ensures Found(old(folder.disk)).None? ==> !ok && unchanged(folder)
    ensures Found(old(folder.disk)).Some? ==>
        && OneExport(old(folder.moments), old(folder.disk), messages, ok, folder.moments, lower)
  {
    var found := Found(folder.disk);
    if found.None? {
      return false;
    }
    ghost var before, begun := folder.moments, Moment(folder.disk, found.value);
    FoundIsReadable(folder.disk);
    folder.Begins(found.value);
    var keywordMap := new Keywords.Read(folder, lower, found.value);
    ok := ExportMessages(messages, keywordMap);
    HistoryGoesOn(before, begun, folder.moments);
  }

  // ---------- what the next export makes of it ----------

  lemma FoundIsReadable(d: Disk)
    requires Found(d).Some?
    ensures |Found(d).value| <= LETTERS && Readable(Found(d).value)
  {
    if d.keywords.Some? {
      ReadMapIsReadable(d.keywords.value);
    }
  }

  lemma {:induction false} TextOfMoment(moments: seq<Moment>, i: nat)
    requires History(moments) && i < |moments|
    ensures var m := moments[i];
      |m.names| <= LETTERS && (m.disk.keywords == Some(Print(m.names)) || Found(m.disk) == Some(m.names))
  {
    if i == 0 || RereadAt(moments, i) {
      FoundIsReadable(moments[i].disk);
    } else {
      TextOfMoment(moments, i - 1);
    }
  }

  /**
   * At every moment of any exports: the next export reads the mapping as the letters of cur/
   * mean it exactly when every keyword is one word and the text fits; else it refuses the file
   * or gives some letter another keyword.
   */
  lemma NextExportReads(moments: seq<Moment>, i: nat)
    requires History(moments) && i < |moments|
    ensures var m := moments[i];
      && (Found(m.disk) == Some(m.names) <==> Readable(m.names))
      && (Found(m.disk).Some? ==> (m.names <= Found(m.disk).value <==> Readable(m.names)))
  {
    TextOfMoment(moments, i);
    var m := moments[i];
    if Found(m.disk) == Some(m.names) {
      FoundIsReadable(m.disk);
    } else {
      MapReadsBack(m.names);
      if Found(m.disk).Some? {
        ReadsOnExactly(m.names);
      }
    }
  }

  lemma PrefixOfPrefix(a: seq<string>, b: seq<string>, c: seq<string>)
    requires a <= b <= c
    ensures a <= c
  {
    assert a == b[..|a|] == c[..|b|][..|a|] == c[..|a|];
  }

  lemma MomentReadsBack(begun: seq<Moment>, after: seq<Moment>, i: nat, final: seq<string>)
    requires WroteOn(begun, after) && History(after) && after[|after| - 1].names <= final && Readable(final)
    requires |begun| - 1 <= i < |after|
    ensures Found(after[i].disk) == Some(after[i].names)
  {
    NamesGrow(begun, after, i, |after| - 1);
    PrefixOfPrefix(after[i].names, after[|after| - 1].names, final);
    ReadableBelow(after[i].names, final);
    NextExportReads(after, i);
  }

  /** From the beginning of its last export on, a folder can be extended without loss. */
  ghost predicate ReadsBackFrom(moments: seq<Moment>, start: nat) {
    forall i :: start <= i < |moments| ==> Found(moments[i].disk) == Some(moments[i].names)
  }

  lemma AllReadBack(begun: seq<Moment>, after: seq<Moment>, final: seq<string>)
    requires WroteOn(begun, after) && History(after) && after[|after| - 1].names <= final && Readable(final)
    ensures ReadsBackFrom(after, |begun| - 1)
  {
    forall i | |begun| - 1 <= i < |after| ensures Found(after[i].disk) == Some(after[i].names) {
      MomentReadsBack(begun, after, i, final);
    }
  }

  lemma LastReadsBack(moments: seq<Moment>, final: seq<string>)
    requires History(moments) && moments != [] && moments[|moments| - 1].names == final
    ensures Found(moments[|moments| - 1].disk) == Some(final) <==> Readable(final)
  {
    NextExportReads(moments, |moments| - 1);
  }

  /**
   * Known before an export: if what its keywords make of the mapping is readable, the folder can
   * be extended from wherever the export ends; and after a success only then.
   */
  lemma OneExportReadsBack(before: seq<Moment>, disk: Disk, messages: seq<Message>, ok: bool, after: seq<Moment>, lower: string -> string)
    requires Found(disk).Some? && OneExport(before, disk, messages, ok, after, lower) && History(after)
    ensures var final := FinalNames(Found(disk).value, AllKeywords(messages), lower);
      && (Readable(final) ==> ReadsBackFrom(after, |before|))
      && (ok ==> (Found(after[|after| - 1].disk) == Some(final) <==> Readable(final)))
  {
    var final := FinalNames(Found(disk).value, AllKeywords(messages), lower);
    if Readable(final) {
      AllReadBack(before + [Moment(disk, Found(disk).value)], after, final);
    }
    if ok {
      LastReadsBack(after, final);
    }
  }

  /** Letters keep their keywords, no file goes, and every new file's letters are mapped. */
  ghost predicate KeptOn(a: Moment, b: Moment) {
    && a.names <= b.names && a.disk.cur <= b.disk.cur
    && forall f :: f in b.disk.cur && f !in a.disk.cur ==> LettersMapped(f, b.names)
  }

  lemma KeptFurther(a: Moment, b: Moment, c: Moment)
    requires KeptOn(a, b) && (Written(b, c) || (Reread(b, c) && b.names == c.names))
    ensures KeptOn(a, c)
  {
    forall f | f in c.disk.cur && f !in a.disk.cur ensures LettersMapped(f, c.names) {
      assert f in b.disk.cur ==> LettersMapped(f, b.names);
    }
  }

  /** No export begins from a mapping that is not readable. */
  ghost predicate RereadsAreReadable(moments: seq<Moment>) {
    forall i :: 0 < i < |moments| && RereadAt(moments, i) ==> Readable(moments[i - 1].names)
  }

  lemma StepKeeps(moments: seq<Moment>, j: nat)
    requires History(moments) && RereadsAreReadable(moments) && 0 < j < |moments|
    ensures var a, b := moments[j - 1], moments[j]; Written(a, b) || (Reread(a, b) && a.names == b.names)
  {
    assert WrittenAt(moments, j) || RereadAt(moments, j);
    NextExportReads(moments, j - 1);
  }

  lemma {:induction false} KeptBetween(moments: seq<Moment>, i: nat, j: nat)
    requires History(moments) && RereadsAreReadable(moments) && i <= j < |moments|
    ensures KeptOn(moments[i], moments[j])
    decreases j - i
  {
    if i < j {
      KeptBetween(moments, i, j - 1);
      StepKeeps(moments, j);
      KeptFurther(moments[i], moments[j - 1], moments[j]);
    }
  }

  ghost predicate AlwaysKept(moments: seq<Moment>) {
    forall i, j :: 0 <= i <= j < |moments| ==> KeptOn(moments[i], moments[j])
  }

  lemma KeptIsReadable(moments: seq<Moment>, i: nat)
    requires History(moments) && 0 < i < |moments| && RereadAt(moments, i) && KeptOn(moments[i - 1], moments[i])
    ensures Readable(moments[i - 1].names)
  {
    NextExportReads(moments, i - 1);
  }

  /**
   * Over any number of exports, ended at any call: letters keep their keywords throughout
   * exactly when no export begins from a mapping that is not readable.
   */
  lemma LettersKeepTheirKeywords(moments: seq<Moment>)
    requires History(moments)
    ensures AlwaysKept(moments) <==> RereadsAreReadable(moments)
  {
    if RereadsAreReadable(moments) {
      forall i, j | 0 <= i <= j < |moments| ensures KeptOn(moments[i], moments[j]) {
        KeptBetween(moments, i, j);
      }
    }
    if AlwaysKept(moments) {
      forall i | 0 < i < |moments| && RereadAt(moments, i) ensures Readable(moments[i - 1].names) {
        KeptIsReadable(moments, i);
      }
    }
  }

  // ---------- exports one after another ----------

  ghost predicate DrawnFrom(names: seq<string>, pool: set<string>) {
    forall i :: 0 <= i < |names| ==> names[i] in pool
  }

  /** However these keywords come to letters, the mapping is readable. */
  ghost predicate KeywordsFit(pool: set<string>) {
    forall names: seq<string> :: |names| <= LETTERS && DrawnFrom(names, pool) ==> Readable(names)
  }

  /** Words of ordinary length always fit. */
  lemma ShortWordsFit(pool: set<string>)
    requires forall keyword :: keyword in pool ==> Plain(keyword) && Size(keyword) <= SHORT
    ensures KeywordsFit(pool)
  {
    forall names: seq<string> | |names| <= LETTERS && DrawnFrom(names, pool) ensures Readable(names) {
      ShortKeywordsFit(names);
    }
  }

  /** Every keyword that can come to a letter. */
  ghost function Pool(names: seq<string>, batches: seq<seq<Message>>): set<string> {
    (set keyword | keyword in names) + (set k, keyword | 0 <= k < |batches| && keyword in AllKeywords(batches[k]) :: keyword)
  }

  lemma {:induction false} FinalIsDrawn(names: seq<string>, keywords: seq<string>, lower: string -> string, pool: set<string>)
    requires DrawnFrom(names, pool) && forall keyword :: keyword in keywords ==> keyword in pool
    ensures DrawnFrom(FinalNames(names, keywords, lower), pool)
    decreases |keywords|
  {
    if keywords != [] {
      var n := |keywords| - 1;
      assert keywords[n] in keywords && forall keyword :: keyword in keywords[..n] ==> keyword in keywords;
      FinalIsDrawn(names, keywords[..n], lower, pool);
    }
  }

  ghost predicate AllDrawn(moments: seq<Moment>, pool: set<string>) {
    forall i :: 0 <= i < |moments| ==> DrawnFrom(moments[i].names, pool)
  }

  lemma ExportIsDrawn(before: seq<Moment>, begun: Moment, after: seq<Moment>, pool: set<string>)
    requires AllDrawn(before, pool) && WroteOn(before + [begun], after) && DrawnFrom(after[|after| - 1].names, pool)
    ensures AllDrawn(after, pool)
  {
    forall i | 0 <= i < |after| ensures DrawnFrom(after[i].names, pool) {
      if i < |before| {
        assert after[i] == before[i];
      } else {
        NamesGrow(before + [begun], after, i, |after| - 1);
        PrefixIsDrawn(after[i].names, after[|after| - 1].names, pool);
      }
    }
  }

  lemma DrawnIsReadable(moments: seq<Moment>, pool: set<string>)
    requires History(moments) && AllDrawn(moments, pool) && KeywordsFit(pool)
    ensures RereadsAreReadable(moments)
    ensures forall i :: 0 <= i < |moments| ==> Readable(moments[i].names) && Found(moments[i].disk) == Some(moments[i].names)
  {
    forall i | 0 <= i < |moments| ensures Readable(moments[i].names) && Found(moments[i].disk) == Some(moments[i].names) {
      TextOfMoment(moments, i);
      NextExportReads(moments, i);
    }
  }

  /** The exports that succeeded still stand. */
  ghost predicate AllStand(batches: seq<seq<Message>>, oks: seq<bool>, at: Moment, lower: string -> string)
    requires |oks| <= |batches|
  {
    forall k :: 0 <= k < |oks| && oks[k] ==> AllExported(batches[k], at, lower)
  }

  lemma StillStand(batches: seq<seq<Message>>, oks: seq<bool>, a: Moment, b: Moment, lower: string -> string)
    requires |oks| <= |batches| && AllStand(batches, oks, a, lower) && a.names <= b.names && a.disk.cur <= b.disk.cur
    ensures AllStand(batches, oks, b, lower)
  {
    forall k | 0 <= k < |oks| && oks[k] ensures AllExported(batches[k], b, lower) {
      forall i | 0 <= i < |batches[k]| ensures Exported(batches[k][i], b, lower) {
        StaysExported(batches[k][i], a, b, lower);
      }
    }
  }

  /** What holds of a folder while its keywords fit. */
  ghost predicate Sound(moments: seq<Moment>, disk: Disk, batches: seq<seq<Message>>, oks: seq<bool>, pool: set<string>, lower: string -> string)
    requires |oks| <= |batches|
  {
    && AllDrawn(moments, pool) && Found(disk).Some? && DrawnFrom(Found(disk).value, pool)
    && if moments == [] then forall k :: 0 <= k < |oks| ==> !oks[k] else AllStand(batches, oks, moments[|moments| - 1], lower)
  }

  lemma PrefixIsDrawn(names: seq<string>, more: seq<string>, pool: set<string>)
    requires names <= more && DrawnFrom(more, pool)
    ensures DrawnFrom(names, pool)
  {
    assert forall i :: 0 <= i < |names| ==> names[i] == more[i];
  }

  lemma AllStandWith(batches: seq<seq<Message>>, oks: seq<bool>, ok: bool, at: Moment, lower: string -> string)
    requires |oks| < |batches| && AllStand(batches, oks, at, lower) && (ok ==> AllExported(batches[|oks|], at, lower))
    ensures AllStand(batches, oks + [ok], at, lower)
  {
  }

  lemma BatchIsDrawn(before: seq<Moment>, disk: Disk, messages: seq<Message>, ok: bool, after: seq<Moment>, pool: set<string>, lower: string -> string)
    requires Found(disk).Some? && OneExport(before, disk, messages, ok, after, lower) && AllDrawn(before, pool)
    requires DrawnFrom(Found(disk).value, pool) && forall keyword :: keyword in AllKeywords(messages) ==> keyword in pool
    ensures AllDrawn(after, pool)
  {
    var names := Found(disk).value;
    FinalIsDrawn(names, AllKeywords(messages), lower, pool);
    PrefixIsDrawn(after[|after| - 1].names, FinalNames(names, AllKeywords(messages), lower), pool);
    ExportIsDrawn(before, Moment(disk, names), after, pool);
  }

  lemma StandsAfter(before: seq<Moment>, disk: Disk, batches: seq<seq<Message>>, oks: seq<bool>, after: seq<Moment>, pool: set<string>,
      lower: string -> string)
    requires |oks| <= |batches| && Sound(before, disk, batches, oks, pool, lower) && before <= after && after != []
    requires History(after) && RereadsAreReadable(after)
    ensures AllStand(batches, oks, after[|after| - 1], lower)
  {
    if before != [] {
      KeptBetween(after, |before| - 1, |after| - 1);
      assert after[|before| - 1] == before[|before| - 1];
      StillStand(batches, oks, before[|before| - 1], after[|after| - 1], lower);
    }
  }

  lemma LastIsSound(moments: seq<Moment>, batches: seq<seq<Message>>, oks: seq<bool>, pool: set<string>, lower: string -> string)
    requires |oks| <= |batches| && moments != [] && AllDrawn(moments, pool) && AllStand(batches, oks, moments[|moments| - 1], lower)
    requires var now := moments[|moments| - 1]; Found(now.disk) == Some(now.names)
    ensures Sound(moments, moments[|moments| - 1].disk, batches, oks, pool, lower)
  {
    assert DrawnFrom(moments[|moments| - 1].names, pool);
  }

  lemma BatchIsSound(before: seq<Moment>, disk: Disk, batches: seq<seq<Message>>, oks: seq<bool>, ok: bool, after: seq<Moment>,
      pool: set<string>, lower: string -> string)
    requires |oks| < |batches| && Sound(before, disk, batches, oks, pool, lower) && KeywordsFit(pool)
    requires forall keyword :: keyword in AllKeywords(batches[|oks|]) ==> keyword in pool
    requires OneExport(before, disk, batches[|oks|], ok, after, lower) && History(after)
    ensures Sound(after, after[|after| - 1].disk, batches, oks + [ok], pool, lower)
  {
    BatchIsDrawn(before, disk, batches[|oks|], ok, after, pool, lower);
    DrawnIsReadable(after, pool);
    assert before <= before + [Moment(disk, Found(disk).value)] <= after;
    StandsAfter(before, disk, batches, oks, after, pool, lower);
    AllStandWith(batches, oks, ok, after[|after| - 1], lower);
    LastIsSound(after, batches, oks + [ok], pool, lower);
  }

  lemma PoolHolds(names: seq<string>, batches: seq<seq<Message>>)
    ensures DrawnFrom(names, Pool(names, batches))
    ensures forall k, keyword :: 0 <= k < |batches| && keyword in AllKeywords(batches[k]) ==> keyword in Pool(names, batches)
  {
  }

  /** The folder as first found is extended by the exports so far. */
  ghost predicate InTurn(first: Disk, moments: seq<Moment>, disk: Disk, batches: seq<seq<Message>>, oks: seq<bool>, lower: string -> string)
    requires |oks| <= |batches|
  {
    && (Found(first).None? || oks == [] ==> disk == first && moments == [] && forall k :: 0 <= k < |oks| ==> !oks[k])
    && (Fits(first, batches) ==> Sound(moments, disk, batches, oks, Pool(Found(first).value, batches), lower))
    && (Found(first).Some? && oks != [] ==> moments != [] && moments[0].disk == first)
  }

  /** A folder and the messages to come whose keywords fit. */
  ghost predicate Fits(first: Disk, batches: seq<seq<Message>>) {
    Found(first).Some? && KeywordsFit(Pool(Found(first).value, batches))
  }

  lemma StillInTurn(first: Disk, before: seq<Moment>, disk: Disk, batches: seq<seq<Message>>, oks: seq<bool>, ok: bool,
      after: seq<Moment>, now: Disk, lower: string -> string)
    requires |oks| < |batches| && InTurn(first, before, disk, batches, oks, lower) && Found(disk).Some?
    requires OneExport(before, disk, batches[|oks|], ok, after, lower) && History(after) && after[|after| - 1].disk == now
    ensures InTurn(first, after, now, batches, oks + [ok], lower)
  {
    if Fits(first, batches) {
      PoolHolds(Found(first).value, batches);
      BatchIsSound(before, disk, batches, oks, ok, after, Pool(Found(first).value, batches), lower);
    }
    assert before + [Moment(disk, Found(disk).value)] <= after;
    assert after[0].disk == if before == [] then disk else before[0].disk;
  }

  lemma RefusedInTurn(first: Disk, moments: seq<Moment>, disk: Disk, batches: seq<seq<Message>>, oks: seq<bool>, ok: bool, lower: string -> string)
    requires |oks| < |batches| && InTurn(first, moments, disk, batches, oks, lower) && Found(disk).None? && !ok
    ensures InTurn(first, moments, disk, batches, oks + [ok], lower)
  {
  }

  method ExportBatch(ghost first: Disk, folder: Folder, batches: seq<seq<Message>>, oks: seq<bool>, lower: string -> string) returns (ok: bool)
    requires |oks| < |batches| && folder.Valid() && InTurn(first, folder.moments, folder.disk, batches, oks, lower)
    modifies folder
    ensures folder.Valid() && InTurn(first, folder.moments, folder.disk, batches, oks + [ok], lower)
  {
    ghost var before, disk := folder.moments, folder.disk;
    ok := ExportFolder(folder, batches[|oks|], lower);
    ghost var after, now := folder.moments, folder.disk;
    if Found(disk).None? {
      RefusedInTurn(first, after, now, batches, oks, ok, lower);
    } else {
      StillInTurn(first, before, disk, batches, oks, ok, after, now, lower);
    }
  }

  /**
   * Exports into one folder, each up to its own first failure. If the keywords are words that
   * fit, none is ever refused for its mapping, letters keep their keywords, and what was
   * exported stays exported under the same flags and keywords.
   */
  method ExportInTurn(folder: Folder, batches: seq<seq<Message>>, lower: string -> string) returns (oks: seq<bool>)
    requires folder.Valid() && folder.moments == []
    modifies folder
    ensures folder.Valid() && |oks| == |batches|
    ensures Found(old(folder.disk)).None? ==> folder.disk == old(folder.disk) && folder.moments == [] && forall k :: 0 <= k < |oks| ==> !oks[k]
    ensures Fits(old(folder.disk), batches) ==>
        && Found(folder.disk).Some?
        && AlwaysKept(folder.moments)
        && (batches != [] ==> folder.moments != [] && folder.moments[0].disk == old(folder.disk))
        && (batches != [] ==> AllStand(batches, oks, folder.Now(), lower))
  {
    oks := [];
    ghost var first := folder.disk;
    if Fits(first, batches) {
      PoolHolds(Found(first).value, batches);
    }
    while |oks| < |batches|
      invariant |oks| <= |batches| && folder.Valid() && InTurn(first, folder.moments, folder.disk, batches, oks, lower)
    {
      var ok := ExportBatch(first, folder, batches, oks, lower);
      oks := oks + [ok];
    }
    if Fits(first, batches) {
      DrawnIsReadable(folder.moments, Pool(Found(first).value, batches));
      LettersKeepTheirKeywords(folder.moments);
    }
  }
}
