/** One sweep of the attachment stores while nothing else runs: what goes, what stays, what is counted. */
module AttachmentCleaner {
  import opened Options
  import opened Sums

  type Ref = string
  type Time = int

  /** `refuses` marks an object whose removal, or the look before it, fails. */
  datatype Object = Object(size: nat, modified: Option<Time>, refuses: bool)

  datatype CleanupResult = CleanupResult(removed: nat, bytes: nat, failed: nat)

  datatype Removal = Removed | Skipped | Failed

  /** How many references one query checks when the filesystem is swept. */
  const CLEANUP_BATCH: nat := 500

  // ---- Names an S3 store writes ----

  predicate LowerHex(s: string) {
    forall i :: 0 <= i < |s| ==> '0' <= s[i] <= '9' || 'a' <= s[i] <= 'f'
  }

  /** strings.Split: the pieces between separators, one more than there are separators. */
  function Split(s: string, separator: char): (parts: seq<string>)
    ensures parts != []
  {
    if s == [] then [[]]
    else
      var rest := Split(s[1..], separator);
      if s[0] == separator then [[]] + rest else [[s[0]] + rest[0]] + rest[1..]
  }

  const COPIES: string := "copies/"

  /** A full SHA-256 in lower-case hex, or one under a namespace of sixteen such bytes. */
  predicate ValidRef(prefix: string, ref: Ref) {
    prefix <= ref &&
    var suffix := ref[|prefix|..];
    if COPIES <= suffix then
      var parts := Split(suffix, '/');
      && |parts| == 3
      && LowerHex(parts[1]) && |parts[1]| == 32
      && LowerHex(parts[2]) && |parts[2]| == 64
    else LowerHex(suffix) && |suffix| == 64
  }

  function Join(parts: seq<string>): string
    requires parts != []
  {
    if |parts| == 1 then parts[0] else parts[0] + "/" + Join(parts[1..])
  }

  lemma {:induction false} SplitPlain(s: string, t: string)
    requires '/' !in s
    ensures Split(s, '/') == [s]
    ensures Split(s + "/" + t, '/') == [s] + Split(t, '/')
  {
    if s == [] {
      assert s + "/" + t == "/" + t && ("/" + t)[1..] == t;
    } else {
      SplitPlain(s[1..], t);
      assert (s + "/" + t)[1..] == s[1..] + "/" + t;
      assert s == [s[0]] + s[1..];
    }
  }

  lemma {:induction false} SplitJoins(s: string)
    ensures Join(Split(s, '/')) == s
    ensures forall part :: part in Split(s, '/') ==> '/' !in part
  {
    if s == [] {
    } else {
      SplitJoins(s[1..]);
      var rest := Split(s[1..], '/');
      assert s == [s[0]] + s[1..];
      if s[0] == '/' {
        assert ([[]] + rest)[1..] == rest;
      } else {
        var parts := [[s[0]] + rest[0]] + rest[1..];
        assert parts[1..] == rest[1..];
        assert rest == [rest[0]] + rest[1..];
        forall part | part in parts ensures '/' !in part {
          assert part == [s[0]] + rest[0] || part in rest;
        }
      }
    }
  }

  /** The two ways the store makes a name: shared by content, or a copy of its own. */
  ghost predicate Written(prefix: string, ref: Ref) {
    || (exists sum: string :: LowerHex(sum) && |sum| == 64 && ref == prefix + sum)
    || (exists nonce: string, sum: string ::
          LowerHex(nonce) && |nonce| == 32 && LowerHex(sum) && |sum| == 64 && ref == prefix + (COPIES + nonce + "/" + sum))
  }

  lemma ValidIsWritten(prefix: string, ref: Ref)
    requires ValidRef(prefix, ref)
    ensures Written(prefix, ref)
  {
    var suffix := ref[|prefix|..];
    assert ref == prefix + suffix;
    if COPIES <= suffix {
      var parts := Split(suffix, '/');
      var rest := suffix[|COPIES|..];
      assert suffix == "copies" + "/" + rest;
      SplitPlain("copies", rest);
      SplitJoins(rest);
      var tail := Split(rest, '/');
      assert parts == ["copies"] + tail && tail == [parts[1], parts[2]];
      assert tail[1..] == [parts[2]];
      assert rest == parts[1] + "/" + parts[2];
      assert suffix == COPIES + parts[1] + "/" + parts[2];
    }
  }

  lemma SharedIsValid(prefix: string, sum: string)
    requires LowerHex(sum) && |sum| == 64
    ensures ValidRef(prefix, prefix + sum)
  {
    assert (prefix + sum)[|prefix|..] == sum;
    assert sum[1] != COPIES[1];
  }

  lemma CopyIsValid(prefix: string, nonce: string, sum: string)
    requires LowerHex(nonce) && |nonce| == 32 && LowerHex(sum) && |sum| == 64
    ensures ValidRef(prefix, prefix + (COPIES + nonce + "/" + sum))
  {
    var suffix := COPIES + nonce + "/" + sum;
    assert (prefix + suffix)[|prefix|..] == suffix;
    assert suffix == "copies" + "/" + (nonce + "/" + sum);
    SplitPlain("copies", nonce + "/" + sum);
    SplitPlain(nonce, sum);
    SplitPlain(sum, "");
    assert Split(suffix, '/') == ["copies"] + ([nonce] + [sum]);
  }

  /** Only names this store writes pass, and all of them do. */
  lemma ValidRefExactly(prefix: string, ref: Ref)
    ensures ValidRef(prefix, ref) <==> Written(prefix, ref)
  {
    if ValidRef(prefix, ref) {
      ValidIsWritten(prefix, ref);
    } else {
      forall sum: string | LowerHex(sum) && |sum| == 64 ensures ref != prefix + sum {
        SharedIsValid(prefix, sum);
      }
      forall nonce: string, sum: string | LowerHex(nonce) && |nonce| == 32 && LowerHex(sum) && |sum| == 64
        ensures ref != prefix + (COPIES + nonce + "/" + sum)
      {
        CopyIsValid(prefix, nonce, sum);
      }
    }
  }

  // ---- What a sweep should do ----

  predicate Due(objects: map<Ref, Object>, ref: Ref, cutoff: Time) {
    ref in objects && objects[ref].modified.Some? && objects[ref].modified.value < cutoff
  }

  /** The objects of a listing that a sweep removes, and those it fails on. */
  function Doomed(objects: map<Ref, Object>, rows: set<Ref>, cutoff: Time, listing: seq<Ref>, refuses: bool): seq<Ref> {
    if listing == [] then []
    else
      Doomed(objects, rows, cutoff, listing[..|listing| - 1], refuses)
      + (var ref := listing[|listing| - 1];
         if Due(objects, ref, cutoff) && ref !in rows && objects[ref].refuses == refuses then [ref] else [])
  }

  function Sizes(objects: map<Ref, Object>, refs: seq<Ref>): nat {
    if refs == [] then 0
    else
      Sizes(objects, refs[..|refs| - 1])
      + (if refs[|refs| - 1] in objects then objects[refs[|refs| - 1]].size else 0)
  }

  function Without(objects: map<Ref, Object>, refs: seq<Ref>): map<Ref, Object> {
    objects - (set ref | ref in refs)
  }

  /** The result so far after the listing has been dealt with, starting from `r`. */
  function Counted(r: CleanupResult, objects: map<Ref, Object>, rows: set<Ref>, cutoff: Time, listing: seq<Ref>): CleanupResult {
    var gone := Doomed(objects, rows, cutoff, listing, false);
    CleanupResult(r.removed + |gone|, r.bytes + Sizes(objects, gone), r.failed + |Doomed(objects, rows, cutoff, listing, true)|)
  }

  function Left(objects: map<Ref, Object>, rows: set<Ref>, cutoff: Time, listing: seq<Ref>): map<Ref, Object> {
    Without(objects, Doomed(objects, rows, cutoff, listing, false))
  }

  predicate Distinct(refs: seq<Ref>) {
    forall i, j :: 0 <= i < j < |refs| ==> refs[i] != refs[j]
  }

  function Flatten(pages: seq<seq<Ref>>): seq<Ref> {
    if pages == [] then [] else Flatten(pages[..|pages| - 1]) + pages[|pages| - 1]
  }

  lemma {:induction false} DoomedConcat(objects: map<Ref, Object>, rows: set<Ref>, cutoff: Time, a: seq<Ref>, b: seq<Ref>, refuses: bool)
    ensures Doomed(objects, rows, cutoff, a + b, refuses)
         == Doomed(objects, rows, cutoff, a, refuses) + Doomed(objects, rows, cutoff, b, refuses)
  {
    if b == [] {
      assert a + b == a;
    } else {
      DoomedConcat(objects, rows, cutoff, a, b[..|b| - 1], refuses);
      assert (a + b)[..|a + b| - 1] == a + b[..|b| - 1];
    }
  }

  lemma {:induction false} SizesConcat(objects: map<Ref, Object>, a: seq<Ref>, b: seq<Ref>)
    ensures Sizes(objects, a + b) == Sizes(objects, a) + Sizes(objects, b)
  {
    if b == [] {
      assert a + b == a;
    } else {
      SizesConcat(objects, a, b[..|b| - 1]);
      assert (a + b)[..|a + b| - 1] == a + b[..|b| - 1];
    }
  }

  lemma {:induction false} DoomedAre(objects: map<Ref, Object>, rows: set<Ref>, cutoff: Time, listing: seq<Ref>, refuses: bool, ref: Ref)
    ensures ref in Doomed(objects, rows, cutoff, listing, refuses)
       <==> ref in listing && Due(objects, ref, cutoff) && ref !in rows && objects[ref].refuses == refuses
  {
    if listing == [] {
    } else {
      DoomedAre(objects, rows, cutoff, listing[..|listing| - 1], refuses, ref);
      assert listing == listing[..|listing| - 1] + [listing[|listing| - 1]];
    }
  }

  /** Dealing with part of a listing does not change what the rest of it holds. */
  lemma {:induction false} DoomedElsewhere(objects: map<Ref, Object>, objects': map<Ref, Object>, rows: set<Ref>, cutoff: Time, b: seq<Ref>, refuses: bool)
    requires forall ref :: ref in b ==> (ref in objects <==> ref in objects') && (ref in objects ==> objects[ref] == objects'[ref])
    ensures Doomed(objects', rows, cutoff, b, refuses) == Doomed(objects, rows, cutoff, b, refuses)
    ensures Sizes(objects', Doomed(objects, rows, cutoff, b, refuses)) == Sizes(objects, Doomed(objects, rows, cutoff, b, refuses))
  {
    if b == [] {
    } else {
      var n := |b| - 1;
      DoomedElsewhere(objects, objects', rows, cutoff, b[..n], refuses);
      var rest := Doomed(objects, rows, cutoff, b[..n], refuses);
      var last := Doomed(objects, rows, cutoff, b, refuses)[|rest|..];
      assert Doomed(objects, rows, cutoff, b, refuses) == rest + last;
      SizesConcat(objects, rest, last);
      SizesConcat(objects', rest, last);
      assert last == [] || last == [b[n]];
    }
  }

  lemma PartsShareNothing(a: seq<Ref>, b: seq<Ref>, ref: Ref)
    requires Distinct(a + b) && ref in b
    ensures ref !in a
  {
    var j :| 0 <= j < |b| && b[j] == ref;
    forall i | 0 <= i < |a| ensures a[i] != ref {
      assert (a + b)[i] == a[i] && (a + b)[|a| + j] == ref;
    }
  }

  /** The first part leaves what the second lists alone. */
  lemma SecondPartIsUntouched(objects: map<Ref, Object>, rows: set<Ref>, cutoff: Time, a: seq<Ref>, b: seq<Ref>)
    requires Distinct(a + b)
    ensures var mid := Left(objects, rows, cutoff, a);
      forall ref :: ref in b ==> (ref in objects <==> ref in mid) && (ref in objects ==> objects[ref] == mid[ref])
  {
    var mid := Left(objects, rows, cutoff, a);
    forall ref | ref in b ensures (ref in objects <==> ref in mid) && (ref in objects ==> objects[ref] == mid[ref]) {
      DoomedAre(objects, rows, cutoff, a, false, ref);
      PartsShareNothing(a, b, ref);
    }
  }

  lemma WithoutBoth(objects: map<Ref, Object>, a: seq<Ref>, b: seq<Ref>)
    ensures Without(Without(objects, a), b) == Without(objects, a + b)
  {
    assert forall ref :: ref in a + b <==> ref in a || ref in b;
  }

  /** Sweeping a listing in two parts is sweeping it at once, for the store and for the counts. */
  lemma SweptInParts(r: CleanupResult, objects: map<Ref, Object>, rows: set<Ref>, cutoff: Time, a: seq<Ref>, b: seq<Ref>)
    requires Distinct(a + b)
    ensures var mid := Left(objects, rows, cutoff, a); Left(mid, rows, cutoff, b) == Left(objects, rows, cutoff, a + b)
    ensures var mid := Left(objects, rows, cutoff, a);
      Counted(Counted(r, objects, rows, cutoff, a), mid, rows, cutoff, b) == Counted(r, objects, rows, cutoff, a + b)
  {
    var mid := Left(objects, rows, cutoff, a);
    SecondPartIsUntouched(objects, rows, cutoff, a, b);
    DoomedElsewhere(objects, mid, rows, cutoff, b, false);
    DoomedElsewhere(objects, mid, rows, cutoff, b, true);
    DoomedConcat(objects, rows, cutoff, a, b, false);
    DoomedConcat(objects, rows, cutoff, a, b, true);
    var first, second := Doomed(objects, rows, cutoff, a, false), Doomed(objects, rows, cutoff, b, false);
    SizesConcat(objects, first, second);
    WithoutBoth(objects, first, second);
  }

  lemma {:induction false} FlattenPrefix(pages: seq<seq<Ref>>, i: nat)
    requires i <= |pages|
    ensures Flatten(pages[..i]) <= Flatten(pages)
    decreases |pages|
  {
    if i == |pages| {
      assert pages[..i] == pages;
    } else {
      FlattenPrefix(pages[..|pages| - 1], i);
      assert pages[..|pages| - 1][..i] == pages[..i];
    }
  }

  /** The names of a listing that are the store's own. */
  function Ours(ours: Ref -> bool, refs: seq<Ref>): seq<Ref> {
    if refs == [] then []
    else Ours(ours, refs[..|refs| - 1]) + (if ours(refs[|refs| - 1]) then [refs[|refs| - 1]] else [])
  }

  /** Those of them that are due when they are listed. */
  function Candidates(objects: map<Ref, Object>, ours: Ref -> bool, refs: seq<Ref>, cutoff: Time): seq<Ref> {
    if refs == [] then []
    else
      Candidates(objects, ours, refs[..|refs| - 1], cutoff)
      + (if ours(refs[|refs| - 1]) && Due(objects, refs[|refs| - 1], cutoff) then [refs[|refs| - 1]] else [])
  }

  lemma {:induction false} OursConcat(ours: Ref -> bool, a: seq<Ref>, b: seq<Ref>)
    ensures Ours(ours, a + b) == Ours(ours, a) + Ours(ours, b)
  {
    if b == [] {
      assert a + b == a;
    } else {
      OursConcat(ours, a, b[..|b| - 1]);
      assert (a + b)[..|a + b| - 1] == a + b[..|b| - 1];
    }
  }

  lemma {:induction false} OursAre(ours: Ref -> bool, refs: seq<Ref>)
    ensures forall ref :: ref in Ours(ours, refs) <==> ref in refs && ours(ref)
    ensures Distinct(refs) ==> Distinct(Ours(ours, refs))
  {
    if refs == [] {
    } else {
      OursAre(ours, refs[..|refs| - 1]);
      assert refs == refs[..|refs| - 1] + [refs[|refs| - 1]];
      if Distinct(refs) {
        assert refs[|refs| - 1] !in refs[..|refs| - 1];
      }
    }
  }

  lemma {:induction false} CandidatesAre(objects: map<Ref, Object>, ours: Ref -> bool, refs: seq<Ref>, cutoff: Time)
    ensures forall ref :: ref in Candidates(objects, ours, refs, cutoff) ==> ref in refs && ref in objects
    ensures Distinct(refs) ==> Distinct(Candidates(objects, ours, refs, cutoff))
  {
    if refs == [] {
    } else {
      CandidatesAre(objects, ours, refs[..|refs| - 1], cutoff);
      assert refs == refs[..|refs| - 1] + [refs[|refs| - 1]];
      if Distinct(refs) {
        assert refs[|refs| - 1] !in refs[..|refs| - 1];
      }
    }
  }

  lemma {:induction false} CandidatesSuffice(objects: map<Ref, Object>, rows: set<Ref>, ours: Ref -> bool, refs: seq<Ref>, cutoff: Time, refuses: bool)
    ensures Doomed(objects, rows, cutoff, Candidates(objects, ours, refs, cutoff), refuses)
         == Doomed(objects, rows, cutoff, Ours(ours, refs), refuses)
  {
    if refs == [] {
    } else {
      var init, ref := refs[..|refs| - 1], refs[|refs| - 1];
      CandidatesSuffice(objects, rows, ours, init, cutoff, refuses);
      var c, o := Candidates(objects, ours, init, cutoff), Ours(ours, init);
      assert (c + [ref])[..|c|] == c && (o + [ref])[..|o|] == o;
      assert c + [] == c && o + [] == o;
      var doomed := Doomed(objects, rows, cutoff, o, refuses);
      assert doomed + [] == doomed;
    }
  }

  lemma DistinctEnd(a: seq<Ref>, b: seq<Ref>)
    requires Distinct(a + b)
    ensures Distinct(b)
  {
    assert forall i :: 0 <= i < |b| ==> b[i] == (a + b)[|a| + i];
  }

  /** One batch, swept after what came before it, is the whole listing so far swept. */
  lemma SweptBatch(r: CleanupResult, objects: map<Ref, Object>, rows: set<Ref>, cutoff: Time, ours: Ref -> bool, done: seq<Ref>, page: seq<Ref>)
    requires Distinct(done + page)
    ensures var mid := Left(objects, rows, cutoff, Ours(ours, done));
            var batch := Candidates(mid, ours, page, cutoff);
            && Left(mid, rows, cutoff, batch) == Left(objects, rows, cutoff, Ours(ours, done + page))
            && Counted(Counted(r, objects, rows, cutoff, Ours(ours, done)), mid, rows, cutoff, batch)
               == Counted(r, objects, rows, cutoff, Ours(ours, done + page))
  {
    var mid := Left(objects, rows, cutoff, Ours(ours, done));
    CandidatesSuffice(mid, rows, ours, page, cutoff, false);
    CandidatesSuffice(mid, rows, ours, page, cutoff, true);
    OursConcat(ours, done, page);
    OursAre(ours, done + page);
    SweptInParts(r, objects, rows, cutoff, Ours(ours, done), Ours(ours, page));
  }

  lemma DoomedStep(objects: map<Ref, Object>, rows: set<Ref>, cutoff: Time, batch: seq<Ref>, i: nat, refuses: bool)
    requires i < |batch|
    ensures Doomed(objects, rows, cutoff, batch[..i + 1], refuses)
         == Doomed(objects, rows, cutoff, batch[..i], refuses)
            + (if Due(objects, batch[i], cutoff) && batch[i] !in rows && objects[batch[i]].refuses == refuses then [batch[i]] else [])
  {
    assert batch[..i + 1][..i] == batch[..i];
  }

  lemma SizesOne(objects: map<Ref, Object>, refs: seq<Ref>, ref: Ref)
    requires ref in objects
    ensures Sizes(objects, refs + [ref]) == Sizes(objects, refs) + objects[ref].size
  {
    assert (refs + [ref])[..|refs|] == refs;
  }

  lemma CountedStep(r: CleanupResult, objects: map<Ref, Object>, rows: set<Ref>, cutoff: Time, batch: seq<Ref>, i: nat)
    requires i < |batch| && batch[i] in objects
    ensures var ref := batch[i];
            var due := Due(objects, ref, cutoff) && ref !in rows;
            var c := Counted(r, objects, rows, cutoff, batch[..i]);
            Counted(r, objects, rows, cutoff, batch[..i + 1])
               == (if due && objects[ref].refuses then c.(failed := c.failed + 1)
                   else if due then CleanupResult(c.removed + 1, c.bytes + objects[ref].size, c.failed) else c)
  {
    var ref := batch[i];
    DoomedStep(objects, rows, cutoff, batch, i, false);
    DoomedStep(objects, rows, cutoff, batch, i, true);
    var gone := Doomed(objects, rows, cutoff, batch[..i], false);
    assert gone + [] == gone;
    SizesOne(objects, gone, ref);
  }

  lemma LeftStep(objects: map<Ref, Object>, rows: set<Ref>, cutoff: Time, batch: seq<Ref>, i: nat)
    requires i < |batch| && Distinct(batch) && batch[i] in objects
    ensures var ref := batch[i];
            var left := Left(objects, rows, cutoff, batch[..i]);
            && ref in left && left[ref] == objects[ref]
            && Left(objects, rows, cutoff, batch[..i + 1])
               == (if Due(objects, ref, cutoff) && ref !in rows && !objects[ref].refuses then left - {ref} else left)
  {
    var ref := batch[i];
    DoomedStep(objects, rows, cutoff, batch, i, false);
    DoomedAre(objects, rows, cutoff, batch[..i], false, ref);
    var gone := Doomed(objects, rows, cutoff, batch[..i], false);
    assert gone + [] == gone;
    assert (set x | x in gone + [ref]) == (set x | x in gone) + {ref};
  }

  lemma CandidatesStep(objects: map<Ref, Object>, ours: Ref -> bool, walk: seq<Ref>, cutoff: Time, from: nat, i: nat)
    requires from <= i < |walk|
    ensures Candidates(objects, ours, walk[from..i + 1], cutoff)
         == Candidates(objects, ours, walk[from..i], cutoff) + (if ours(walk[i]) && Due(objects, walk[i], cutoff) then [walk[i]] else [])
  {
    assert walk[from..i + 1][..i - from] == walk[from..i];
  }

  /** A bucket, or the tree of attachment files; only in a bucket do names have a form. */
  class ObjectStore {
    const isS3: bool
    const prefix: string
    var objects: map<Ref, Object>

    constructor (isS3: bool, prefix: string, objects: map<Ref, Object>)
      ensures this.isS3 == isS3 && this.prefix == prefix && this.objects == objects
    {
      this.isS3, this.prefix, this.objects := isS3, prefix, objects;
    }

    function OurName(): Ref -> bool {
      ref => isS3 ==> ValidRef(prefix, ref)
    }

    /** Look at the age again, then remove. A vanished file is no failure; a vanished S3 object is. */
    method Remove(ref: Ref, cutoff: Time) returns (r: Removal)
      modifies this
      ensures ref in old(objects) ==> r == if !Due(old(objects), ref, cutoff) then Skipped
                                           else if old(objects)[ref].refuses then Failed else Removed
      ensures ref !in old(objects) ==> r == if isS3 then Failed else Skipped
      ensures objects == if r.Removed? then old(objects) - {ref} else old(objects)
    {
      if ref !in objects {
        return if isS3 then Failed else Skipped;
      }
      if objects[ref].modified.None? || objects[ref].modified.value >= cutoff {
        return Skipped;
      }
      if objects[ref].refuses {
        return Failed;
      }
      objects := objects - {ref};
      return Removed;
    }
  }

  /** Which of some references an attachment row holds, when the query can be answered. */
  type Held = seq<Ref> -> Option<set<Ref>>

  ghost predicate Answers(held: Held, rows: set<Ref>) {
    forall refs: seq<Ref> :: held(refs).Some? ==> forall ref :: ref in held(refs).value <==> ref in refs && ref in rows
  }

  class Cleaner {
    const held: Held
    ghost const rows: set<Ref>
    var result: CleanupResult

    constructor (held: Held, ghost rows: set<Ref>)
      requires Answers(held, rows)
      ensures this.held == held && this.rows == rows && result == CleanupResult(0, 0, 0)
    {
      this.held, this.rows, this.result := held, rows, CleanupResult(0, 0, 0);
    }

    method RemoveUnreferenced(store: ObjectStore, batch: seq<Ref>, cutoff: Time) returns (err: bool)
      requires Answers(held, rows)
      requires Distinct(batch) && forall ref :: ref in batch ==> ref in store.objects
      modifies this, store
      ensures err ==> store.objects == old(store.objects) && result == old(result)
      ensures !err ==> store.objects == Left(old(store.objects), rows, cutoff, batch)
      ensures !err ==> result == Counted(old(result), old(store.objects), rows, cutoff, batch)
    {
      ghost var before, start := store.objects, result;
      if batch == [] {
        return false;
      }
      var answer := held(batch);
      if answer.None? {
        return true;
      }
      for i := 0 to |batch|
        invariant store.objects == Left(before, rows, cutoff, batch[..i])
        invariant result == Counted(start, before, rows, cutoff, batch[..i])
      {
        var ref := batch[i];
        CountedStep(start, before, rows, cutoff, batch, i);
        LeftStep(before, rows, cutoff, batch, i);
        assert ref in answer.value <==> ref in rows;
        if ref !in answer.value {
          var size := store.objects[ref].size;
          var removal := store.Remove(ref, cutoff);
          match removal {
            case Removed =>
              result := CleanupResult(result.removed + 1, result.bytes + size, result.failed);
            case Skipped =>
            case Failed =>
              result := result.(failed := result.failed + 1);
          }
        }
      }
      assert batch[..|batch|] == batch;
      return false;
    }

    method ListCandidates(store: ObjectStore, page: seq<Ref>, cutoff: Time) returns (batch: seq<Ref>)
      ensures batch == Candidates(store.objects, store.OurName(), page, cutoff)
    {
      batch := [];
      for k := 0 to |page|
        invariant batch == Candidates(store.objects, store.OurName(), page[0..k], cutoff)
      {
        CandidatesStep(store.objects, store.OurName(), page, cutoff, 0, k);
        if store.OurName()(page[k]) && Due(store.objects, page[k], cutoff) {
          batch := batch + [page[k]];
        }
      }
      assert page[0..|page|] == page;
    }

    /**
     * Page by page; only names this store writes, with a date before the cutoff, are candidates.
     * A page that cannot be fetched, or a query that fails, stops the sweep there.
     */
    method SweepS3(store: ObjectStore, pages: seq<seq<Ref>>, cutoff: Time) returns (err: bool, ghost done: seq<Ref>)
      requires Answers(held, rows)
      requires Distinct(Flatten(pages)) && forall ref :: ref in Flatten(pages) ==> ref in store.objects
      modifies this, store
      ensures done <= Flatten(pages) && (!err ==> done == Flatten(pages))
      ensures store.objects == Left(old(store.objects), rows, cutoff, Ours(store.OurName(), done))
      ensures result == Counted(old(result), old(store.objects), rows, cutoff, Ours(store.OurName(), done))
    {
      ghost var before, start := store.objects, result;
      done := [];
      for i := 0 to |pages|
        invariant done == Flatten(pages[..i]) && done <= Flatten(pages)
        invariant store.objects == Left(before, rows, cutoff, Ours(store.OurName(), done))
        invariant result == Counted(start, before, rows, cutoff, Ours(store.OurName(), done))
      {
        if * {
          return true, done;
        }
        assert pages[..i + 1][..i] == pages[..i];
        FlattenPrefix(pages, i + 1);
        DistinctEnd(done, pages[i]);
        var batch := ListCandidates(store, pages[i], cutoff);
        CandidatesAre(store.objects, store.OurName(), pages[i], cutoff);
        SweptBatch(start, before, rows, cutoff, store.OurName(), done, pages[i]);
        err := RemoveUnreferenced(store, batch, cutoff);
        if err {
          return true, done;
        }
        done := done + pages[i];
      }
      assert pages[..|pages|] == pages;
      err := false;
    }

    /** One more file: collected if it is due, and the batch removed once it is full. */
    method SweepFile(store: ObjectStore, batch: seq<Ref>, cutoff: Time, ghost start: CleanupResult, ghost before: map<Ref, Object>,
                     walk: seq<Ref>, ghost from: nat, i: nat) returns (err: bool, more: seq<Ref>, ghost swept: nat)
      requires Answers(held, rows) && !store.isS3 && Distinct(walk) && from <= i < |walk|
      requires batch == Candidates(store.objects, store.OurName(), walk[from..i], cutoff)
      requires store.objects == Left(before, rows, cutoff, Ours(store.OurName(), walk[..from]))
      requires result == Counted(start, before, rows, cutoff, Ours(store.OurName(), walk[..from]))
      modifies this, store
      ensures err ==> store.objects == old(store.objects) && result == old(result)
      ensures !err ==> swept <= i + 1 && more == Candidates(store.objects, store.OurName(), walk[swept..i + 1], cutoff)
      ensures !err ==> store.objects == Left(before, rows, cutoff, Ours(store.OurName(), walk[..swept]))
      ensures !err ==> result == Counted(start, before, rows, cutoff, Ours(store.OurName(), walk[..swept]))
    {
      err, more, swept := false, batch, from;
      CandidatesStep(store.objects, store.OurName(), walk, cutoff, from, i);
      if Due(store.objects, walk[i], cutoff) {
        more := batch + [walk[i]];
        if |more| >= CLEANUP_BATCH {
          err := RemoveBatch(store, more, cutoff, start, before, walk, from, i + 1);
          more, swept := [], i + 1;
        }
      }
    }

    /** File by file, five hundred candidates to a query, and what is left over at the end. */
    method SweepFilesystem(store: ObjectStore, walk: seq<Ref>, cutoff: Time) returns (err: bool, ghost done: seq<Ref>)
      requires Answers(held, rows) && !store.isS3
      requires Distinct(walk) && forall ref :: ref in walk ==> ref in store.objects
      modifies this, store
      ensures done <= walk && (!err ==> done == walk)
      ensures store.objects == Left(old(store.objects), rows, cutoff, Ours(store.OurName(), done))
      ensures result == Counted(old(result), old(store.objects), rows, cutoff, Ours(store.OurName(), done))
    {
      ghost var before, start := store.objects, result;
      var batch := [];
      ghost var swept := 0;
      done := [];
      for i := 0 to |walk|
        invariant swept <= i && done == walk[..swept]
        invariant batch == Candidates(store.objects, store.OurName(), walk[swept..i], cutoff)
        invariant store.objects == Left(before, rows, cutoff, Ours(store.OurName(), done))
        invariant result == Counted(start, before, rows, cutoff, Ours(store.OurName(), done))
      {
        if * {
          return true, done;
        }
        err, batch, swept := SweepFile(store, batch, cutoff, start, before, walk, swept, i);
        if err {
          return true, done;
        }
        done := walk[..swept];
      }
      err := RemoveBatch(store, batch, cutoff, start, before, walk, swept, |walk|);
      if !err {
        done := walk;
        assert walk[..|walk|] == walk;
      }
    }

    method RemoveBatch(store: ObjectStore, batch: seq<Ref>, cutoff: Time, ghost start: CleanupResult, ghost before: map<Ref, Object>,
                       ghost walk: seq<Ref>, ghost from: nat, ghost to: nat) returns (err: bool)
      requires Answers(held, rows) && Distinct(walk) && from <= to <= |walk|
      requires batch == Candidates(store.objects, store.OurName(), walk[from..to], cutoff)
      requires store.objects == Left(before, rows, cutoff, Ours(store.OurName(), walk[..from]))
      requires result == Counted(start, before, rows, cutoff, Ours(store.OurName(), walk[..from]))
      modifies this, store
      ensures err ==> store.objects == old(store.objects) && result == old(result)
      ensures !err ==> store.objects == Left(before, rows, cutoff, Ours(store.OurName(), walk[..to]))
      ensures !err ==> result == Counted(start, before, rows, cutoff, Ours(store.OurName(), walk[..to]))
    {
      assert walk[..from] + walk[from..to] == walk[..to];
      CandidatesAre(store.objects, store.OurName(), walk[from..to], cutoff);
      SweptBatch(start, before, rows, cutoff, store.OurName(), walk[..from], walk[from..to]);
      err := RemoveUnreferenced(store, batch, cutoff);
    }

    /** Both stores, with one cutoff fixed at the start. */
    method Sweep(store: ObjectStore, tree: ObjectStore, pages: seq<seq<Ref>>, walk: seq<Ref>, now: Time, grace: Time) returns (err: bool)
      requires Answers(held, rows) && store != tree && store.isS3 && !tree.isS3
      requires Distinct(Flatten(pages)) && forall ref :: ref in Flatten(pages) ==> ref in store.objects
      requires Distinct(walk) && forall ref :: ref in walk ==> ref in tree.objects
      modifies this, store, tree
      ensures forall ref :: ref in old(store.objects) && ref !in store.objects ==>
        Goes(store.OurName(), old(store.objects), rows, now - grace, Flatten(pages), ref)
      ensures forall ref :: ref in old(tree.objects) && ref !in tree.objects ==>
        Goes(tree.OurName(), old(tree.objects), rows, now - grace, walk, ref)
      ensures !err ==> store.objects == Left(old(store.objects), rows, now - grace, Ours(store.OurName(), Flatten(pages)))
      ensures !err ==> tree.objects == Left(old(tree.objects), rows, now - grace, Ours(tree.OurName(), walk))
      ensures
        var counted := Counted(CleanupResult(0, 0, 0), old(store.objects), rows, now - grace, Ours(store.OurName(), Flatten(pages)));
        !err ==> result == Counted(counted, old(tree.objects), rows, now - grace, Ours(tree.OurName(), walk))
    {
      result := CleanupResult(0, 0, 0);
      var cutoff := now - grace;
      ghost var done: seq<Ref>;
      err, done := SweepS3(store, pages, cutoff);
      WhatGoes(store.OurName(), old(store.objects), rows, cutoff, Flatten(pages), done);
      if err {
        return;
      }
      err, done := SweepFilesystem(tree, walk, cutoff);
      WhatGoes(tree.OurName(), old(tree.objects), rows, cutoff, walk, done);
    }
  }

  /** Listed, named as the store names its objects, past the cutoff, unreferenced and removable. */
  predicate Goes(ours: Ref -> bool, objects: map<Ref, Object>, rows: set<Ref>, cutoff: Time, listing: seq<Ref>, ref: Ref) {
    ref in listing && ours(ref) && Due(objects, ref, cutoff) && ref !in rows && !objects[ref].refuses
  }

  lemma WhatGoes(ours: Ref -> bool, objects: map<Ref, Object>, rows: set<Ref>, cutoff: Time, listing: seq<Ref>, done: seq<Ref>)
    requires done <= listing
    ensures forall ref :: ref in objects && ref !in Left(objects, rows, cutoff, Ours(ours, done)) ==>
      Goes(ours, objects, rows, cutoff, listing, ref)
  {
    OursAre(ours, done);
    forall ref | ref in objects && ref !in Left(objects, rows, cutoff, Ours(ours, done))
      ensures Goes(ours, objects, rows, cutoff, listing, ref)
    {
      DoomedAre(objects, rows, cutoff, Ours(ours, done), false, ref);
    }
  }

  /**
   * After a sweep without error exactly these are left: what a row holds, what is not past the
   * cutoff, what is not named as the store names its objects, and what refused to go.
   */
  lemma SweepLeavesExactly(ours: Ref -> bool, objects: map<Ref, Object>, rows: set<Ref>, cutoff: Time, listing: seq<Ref>, ref: Ref)
    requires ref in objects && ref in listing
    ensures ref in Left(objects, rows, cutoff, Ours(ours, listing))
       <==> ref in rows || !Due(objects, ref, cutoff) || !ours(ref) || objects[ref].refuses
  {
    OursAre(ours, listing);
    DoomedAre(objects, rows, cutoff, Ours(ours, listing), false, ref);
  }

  function SizeIn(objects: map<Ref, Object>): Ref -> nat {
    ref => if ref in objects then objects[ref].size else 0
  }

  lemma {:induction false} SizesIsTotal(objects: map<Ref, Object>, refs: seq<Ref>)
    ensures Sizes(objects, refs) == TotalOf(refs, SizeIn(objects))
  {
    if refs != [] {
      SizesIsTotal(objects, refs[..|refs| - 1]);
    }
  }

  lemma {:induction false} DoomedCounts(objects: map<Ref, Object>, rows: set<Ref>, cutoff: Time, listing: seq<Ref>, refuses: bool, ref: Ref)
    ensures multiset(Doomed(objects, rows, cutoff, listing, refuses))[ref]
         == if Due(objects, ref, cutoff) && ref !in rows && objects[ref].refuses == refuses then multiset(listing)[ref] else 0
  {
    if listing == [] {
    } else {
      DoomedCounts(objects, rows, cutoff, listing[..|listing| - 1], refuses, ref);
      assert listing == listing[..|listing| - 1] + [listing[|listing| - 1]];
    }
  }

  lemma DoomedPermutes(objects: map<Ref, Object>, rows: set<Ref>, cutoff: Time, a: seq<Ref>, b: seq<Ref>, refuses: bool)
    requires multiset(a) == multiset(b)
    ensures multiset(Doomed(objects, rows, cutoff, a, refuses)) == multiset(Doomed(objects, rows, cutoff, b, refuses))
  {
    forall ref ensures multiset(Doomed(objects, rows, cutoff, a, refuses))[ref] == multiset(Doomed(objects, rows, cutoff, b, refuses))[ref] {
      DoomedCounts(objects, rows, cutoff, a, refuses, ref);
      DoomedCounts(objects, rows, cutoff, b, refuses, ref);
    }
  }

  lemma SameMembers(x: seq<Ref>, y: seq<Ref>)
    requires multiset(x) == multiset(y)
    ensures |x| == |y| && (set ref | ref in x) == (set ref | ref in y)
  {
    assert |multiset(x)| == |x| && |multiset(y)| == |y|;
    forall ref ensures ref in x <==> ref in y {
      assert ref in multiset(x) <==> ref in multiset(y);
    }
  }

  lemma TotalsIgnoreOrder(objects: map<Ref, Object>, x: seq<Ref>, y: seq<Ref>)
    requires multiset(x) == multiset(y)
    ensures Sizes(objects, x) == Sizes(objects, y)
  {
    SizesIsTotal(objects, x);
    SizesIsTotal(objects, y);
    TotalPermutes(x, y, SizeIn(objects));
  }

  lemma LeftIgnoresOrder(objects: map<Ref, Object>, rows: set<Ref>, cutoff: Time, a: seq<Ref>, b: seq<Ref>)
    requires multiset(a) == multiset(b)
    ensures Left(objects, rows, cutoff, a) == Left(objects, rows, cutoff, b)
  {
    DoomedPermutes(objects, rows, cutoff, a, b, false);
    SameMembers(Doomed(objects, rows, cutoff, a, false), Doomed(objects, rows, cutoff, b, false));
  }

  /** The outcome does not depend on the order in which the store lists its objects. */
  lemma ListingOrderIsIrrelevant(r: CleanupResult, objects: map<Ref, Object>, rows: set<Ref>, cutoff: Time, a: seq<Ref>, b: seq<Ref>)
    requires multiset(a) == multiset(b)
    ensures Left(objects, rows, cutoff, a) == Left(objects, rows, cutoff, b)
    ensures Counted(r, objects, rows, cutoff, a) == Counted(r, objects, rows, cutoff, b)
  {
    LeftIgnoresOrder(objects, rows, cutoff, a, b);
    DoomedPermutes(objects, rows, cutoff, a, b, false);
    DoomedPermutes(objects, rows, cutoff, a, b, true);
    SameMembers(Doomed(objects, rows, cutoff, a, false), Doomed(objects, rows, cutoff, b, false));
    SameMembers(Doomed(objects, rows, cutoff, a, true), Doomed(objects, rows, cutoff, b, true));
    TotalsIgnoreOrder(objects, Doomed(objects, rows, cutoff, a, false), Doomed(objects, rows, cutoff, b, false));
  }
}
