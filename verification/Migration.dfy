/**
 * Moving attachment rows from files to S3 objects: every call may fail, with or without its
 * effect, and while the migration runs other requests add and delete rows and objects.
 *
 * Hashing is injective. Original files are left alone, by everyone.
 */
module Migration {
  import opened Options

  type Id = nat
  type Bytes = seq<int>

  datatype Digest = Sha256(of: Bytes)

  /** A stored reference: a path, the key of hashed content, or a key from elsewhere. */
  datatype Ref = Path(name: string) | Hashed(sum: Digest) | Named(key: string)

  datatype Kind = Filesystem | S3 | Elsewhere

  datatype Checksum = NoSum | Recorded(sum: Digest) | Garbled(text: string)

  datatype Row = Row(kind: Kind, ref: Ref, checksum: Checksum)

  datatype File = Regular(bytes: Bytes) | Irregular

  /** `used` are the ids ever given to a row; none is given twice. */
  datatype State = State(rows: map<Id, Row>, used: set<Id>, files: map<Ref, File>, objects: map<Ref, Bytes>)

  const PAGE: nat := 100

  function Stored(s: State, row: Row): Option<Bytes> {
    match row.kind
    case Filesystem => if row.ref in s.files && s.files[row.ref].Regular? then Some(s.files[row.ref].bytes) else None
    case S3 => if row.ref in s.objects then Some(s.objects[row.ref]) else None
    case Elsewhere => None
  }

  function Resolved(s: State, id: Id): Option<Bytes> {
    if id in s.rows then Stored(s, s.rows[id]) else None
  }

  /** What a content key names has that content. */
  ghost predicate Valid(s: State) {
    && s.rows.Keys <= s.used
    && forall sum :: Hashed(sum) in s.objects ==> s.objects[Hashed(sum)] == sum.of
  }

  /** A row that is still there resolves to the bytes it resolved to. */
  ghost predicate Keeps(a: State, b: State) {
    forall id :: id in a.rows && id in b.rows && Resolved(a, id).Some? ==> Resolved(b, id) == Resolved(a, id)
  }

  ghost predicate Follows(a: State, b: State) {
    && Valid(b) && Keeps(a, b) && b.files == a.files && a.used <= b.used && a.objects.Keys <= b.objects.Keys
    && forall id :: id in b.rows && id in a.used ==> id in a.rows
  }

  ghost predicate AllFollow(a: State, moments: seq<State>) {
    forall m :: m in moments ==> Follows(a, m)
  }

  lemma FollowsOn(a: State, b: State, c: State)
    requires Valid(a) && Follows(a, b) && Follows(b, c)
    ensures Follows(a, c)
  {
    forall id | id in a.rows && id in c.rows && Resolved(a, id).Some? ensures Resolved(c, id) == Resolved(a, id) {
      assert id in a.used && id in b.used && id in b.rows;
    }
  }

  lemma AllFollowOn(a: State, b: State, moments: seq<State>)
    requires Valid(a) && Follows(a, b) && AllFollow(b, moments)
    ensures AllFollow(a, moments)
  {
    forall m | m in moments ensures Follows(a, m) {
      FollowsOn(a, b, m);
    }
  }

  function Uploaded(s: State, bytes: Bytes): State {
    s.(objects := s.objects[Hashed(Sha256(bytes)) := bytes])
  }

  function MovedRow(bytes: Bytes): Row {
    Row(S3, Hashed(Sha256(bytes)), Recorded(Sha256(bytes)))
  }

  function Moved(s: State, id: Id, bytes: Bytes): State {
    s.(rows := s.rows[id := MovedRow(bytes)])
  }

  lemma UploadFollows(s: State, bytes: Bytes)
    requires Valid(s)
    ensures Follows(s, Uploaded(s, bytes))
  {
    var t := Uploaded(s, bytes);
    forall id | id in s.rows && Resolved(s, id).Some? ensures Resolved(t, id) == Resolved(s, id) {
    }
  }

  lemma MoveFollows(s: State, id: Id, bytes: Bytes)
    requires Valid(s) && id in s.rows && Resolved(s, id) == Some(bytes)
    requires Hashed(Sha256(bytes)) in s.objects
    ensures Follows(s, Moved(s, id, bytes))
  {
  }

  // ---------- the rows a whole migration ends in ----------

  function FinalRow(s: State, row: Row): Row {
    if row.kind.Filesystem? && Stored(s, row).Some? then MovedRow(Stored(s, row).value) else row
  }

  function FinalRows(s: State): map<Id, Row> {
    map id | id in s.rows :: FinalRow(s, s.rows[id])
  }

  /** The row is still of the kind and under the reference it was read with. */
  predicate Matches(s: State, id: Id, was: Row) {
    id in s.rows && s.rows[id].kind == was.kind && s.rows[id].ref == was.ref
  }

  function FilesystemIds(s: State): set<Id> {
    set id | id in s.rows && s.rows[id].kind.Filesystem?
  }

  /** Some rows moved, the others as they were. */
  ghost predicate PartOfTheWay(a: State, b: State) {
    && b.files == a.files && b.rows.Keys == a.rows.Keys
    && forall id :: id in b.rows ==> b.rows[id] == a.rows[id] || b.rows[id] == FinalRow(a, a.rows[id])
  }

  lemma PartOfTheWayOn(a: State, b: State, c: State)
    requires PartOfTheWay(a, b) && PartOfTheWay(b, c)
    ensures PartOfTheWay(a, c)
  {
    forall id | id in c.rows ensures c.rows[id] == a.rows[id] || c.rows[id] == FinalRow(a, a.rows[id]) {
      assert id in b.rows;
    }
  }

  /** Whatever part of the way failed runs have gone, the end is the same. */
  lemma SameEnd(a: State, b: State)
    requires PartOfTheWay(a, b)
    ensures FinalRows(b) == FinalRows(a)
  {
    forall id | id in b.rows ensures FinalRow(b, b.rows[id]) == FinalRow(a, a.rows[id]) {
    }
  }

  lemma NothingLeftIsTheEnd(a: State, b: State)
    requires PartOfTheWay(a, b) && FilesystemIds(b) == {}
    ensures b.rows == FinalRows(a)
  {
    SameEnd(a, b);
    forall id | id in b.rows ensures b.rows[id] == FinalRow(b, b.rows[id]) {
      assert id !in FilesystemIds(b);
    }
  }

  /** A filesystem row past the last id seen. */
  predicate Waits(s: State, last: Option<Id>, id: Id) {
    id in s.rows && s.rows[id].kind.Filesystem? && (last.Some? ==> id > last.value)
  }

  // ---------- the migration ----------

  function Waiting(s: State, last: Option<Id>): set<Id> {
    set id | id in s.rows && Waits(s, last, id)
  }

  /** Others add no more rows than they have requests left. */
  ghost predicate Bounded(a: State, requests: nat, b: State, left: nat) {
    left <= requests && forall last :: |Waiting(b, last)| + left <= |Waiting(a, last)| + requests
  }

  /** Every state from one to another, and the last, follows from the first. */
  ghost predicate Trail(a: State, before: seq<State>, b: State, after: seq<State>) {
    && Follows(a, b) && |before| <= |after| && after[..|before|] == before
    && AllFollow(a, after[|before|..])
  }

  lemma TrailOn(a: State, m0: seq<State>, b: State, m1: seq<State>, c: State, m2: seq<State>)
    requires Valid(a) && Trail(a, m0, b, m1) && Trail(b, m1, c, m2)
    ensures Trail(a, m0, c, m2)
  {
    FollowsOn(a, b, c);
    AllFollowOn(a, b, m2[|m1|..]);
    assert m2[..|m0|] == m2[..|m1|][..|m0|];
    assert m2[|m0|..] == m1[|m0|..] + m2[|m1|..];
  }

  ghost predicate Link(a: State, m0: seq<State>, r0: nat, b: State, m1: seq<State>, r1: nat) {
    Trail(a, m0, b, m1) && Bounded(a, r0, b, r1) && (r0 == 0 ==> PartOfTheWay(a, b))
  }

  lemma LinkOn(a: State, m0: seq<State>, r0: nat, b: State, m1: seq<State>, r1: nat, c: State, m2: seq<State>, r2: nat)
    requires Valid(a) && Link(a, m0, r0, b, m1, r1) && Link(b, m1, r1, c, m2, r2)
    ensures Link(a, m0, r0, c, m2, r2)
  {
    TrailOn(a, m0, b, m1, c, m2);
    if r0 == 0 {
      PartOfTheWayOn(a, b, c);
    }
  }

  lemma SubsetIsSmaller(a: set<Id>, b: set<Id>)
    requires a <= b
    ensures |a| <= |b|
  {
    if a != b {
      var x :| x in b && x !in a;
      SubsetIsSmaller(a, b - {x});
    }
  }

  lemma OneMoreRow(a: State, b: State, id: Id)
    requires id !in a.rows && b.rows.Keys == a.rows.Keys + {id} && forall k :: k in a.rows ==> b.rows[k] == a.rows[k]
    ensures forall last :: |Waiting(b, last)| <= |Waiting(a, last)| + 1
  {
    forall last ensures |Waiting(b, last)| <= |Waiting(a, last)| + 1 {
      SubsetIsSmaller(Waiting(b, last), Waiting(a, last) + {id});
    }
  }

  lemma FewerWait(a: State, b: State)
    requires forall last :: Waiting(b, last) <= Waiting(a, last)
    ensures forall last :: |Waiting(b, last)| <= |Waiting(a, last)|
  {
    forall last ensures |Waiting(b, last)| <= |Waiting(a, last)| {
      SubsetIsSmaller(Waiting(b, last), Waiting(a, last));
    }
  }

  lemma StrictlyFewer(s: State, last: Option<Id>, id: Id)
    requires Waits(s, last, id)
    ensures |Waiting(s, Some(id))| < |Waiting(s, last)|
  {
    SubsetIsSmaller(Waiting(s, Some(id)), Waiting(s, last) - {id});
  }

  lemma FewerAfter(s: State, before: Id, id: Id)
    requires before <= id
    ensures |Waiting(s, Some(id))| <= |Waiting(s, Some(before))|
  {
    SubsetIsSmaller(Waiting(s, Some(id)), Waiting(s, Some(before)));
  }

  lemma OneFewerOnDisk(a: State, b: State, id: Id)
    requires id in a.rows && a.rows[id].kind.Filesystem? && id in b.rows && b.rows == a.rows[id := b.rows[id]] && !b.rows[id].kind.Filesystem?
    ensures |FilesystemIds(b)| + 1 == |FilesystemIds(a)|
  {
    assert FilesystemIds(a) == FilesystemIds(b) + {id};
  }

  lemma PageWaits(s: State, last: Option<Id>, page: seq<Id>)
    requires IsPage(s, last, page)
    ensures forall j :: 0 <= j < |page| ==> Waits(s, last, page[j])
    ensures AsRead(s, s.rows, page, 0)
    ensures forall id :: id in page ==> id in s.rows && s.rows[id].kind.Filesystem?
  {
    assert forall j :: 0 <= j < |page| ==> page[j] in page;
  }

  /** These rows are as they were read, from the disk. */
  predicate AsRead(s: State, read: map<Id, Row>, page: seq<Id>, k: nat) {
    forall j :: k <= j < |page| ==> IsAsRead(s, read, page[j])
  }

  predicate IsAsRead(s: State, read: map<Id, Row>, id: Id) {
    id in read && read[id].kind.Filesystem? && id in s.rows && s.rows[id] == read[id]
  }

  predicate OthersStay(a: State, b: State, id: Id) {
    forall other :: other in a.rows && other != id ==> other in b.rows && b.rows[other] == a.rows[other]
  }

  lemma AsReadOn(a: State, b: State, read: map<Id, Row>, page: seq<Id>, k: nat)
    requires k < |page| && (forall i, j :: 0 <= i < j < |page| ==> page[i] < page[j])
    requires AsRead(a, read, page, k) && OthersStay(a, b, page[k])
    ensures AsRead(b, read, page, k + 1)
  {
    forall j | k + 1 <= j < |page| ensures IsAsRead(b, read, page[j]) {
      assert IsAsRead(a, read, page[j]);
    }
  }

  /** The database, the attachment directory and the bucket. */
  class Server {
    var state: State
    // How many requests others will still make, whenever they make them.
    var requests: nat
    ghost var moments: seq<State>

    constructor (start: State, requests: nat)
      requires Valid(start)
      ensures state == start && this.requests == requests && moments == []
    {
      state, moments, this.requests := start, [], requests;
    }

    /** What every call leaves behind, alone on the server or not. */
    twostate predicate Followed()
      reads this
    {
      Link(old(state), old(moments), old(requests), state, moments, requests)
    }

    twostate lemma Unmoved()
      requires Valid(old(state)) && unchanged(this)
      ensures Followed()
    {
      assert moments[..|moments|] == moments;
    }

    /** One atomic change; `made` requests of others' are used up by it. */
    method Becomes(next: State, made: nat)
      requires Valid(state) && Follows(state, next) && made <= requests && Bounded(state, requests, next, requests - made)
      requires requests == 0 ==> PartOfTheWay(state, next)
      modifies this
      ensures state == next && requests == old(requests) - made && Followed()
    {
      state, requests := next, requests - made;
      moments := moments + [next];
      assert moments[..|old(moments)|] == old(moments);
    }

    method OneRequest()
      requires Valid(state) && requests > 0
      modifies this
      ensures Followed() && requests < old(requests)
    {
      var id: Id, row: Row, bytes: Bytes := *, *, *;
      if * {
        FewerWait(state, state);
        if id !in state.used {
          OneMoreRow(state, state.(rows := state.rows[id := row], used := state.used + {id}), id);
          Becomes(state.(rows := state.rows[id := row], used := state.used + {id}), 1);
        } else {
          Becomes(state, 1);
        }
      } else if * {
        FewerWait(state, state.(rows := state.rows - {id}));
        Becomes(state.(rows := state.rows - {id}), 1);
      } else {
        UploadFollows(state, bytes);
        FewerWait(state, Uploaded(state, bytes));
        Becomes(Uploaded(state, bytes), 1);
      }
    }

    /** Other requests: rows come and go, and objects are written; nobody touches the files. */
    method Others()
      requires Valid(state)
      modifies this
      ensures Followed() && (old(requests) == 0 ==> unchanged(this))
    {
      Unmoved();
      while requests > 0
        invariant Followed() && (old(requests) == 0 ==> unchanged(this))
        decreases requests
      {
        if * {
          return;
        }
        ghost var s, m, r := state, moments, requests;
        OneRequest();
        LinkOn(old(state), old(moments), old(requests), s, m, r, state, moments, requests);
      }
    }

    /** The next page of filesystem rows, by id. */
    method Query(last: Option<Id>) returns (ok: bool, page: seq<Id>, read: map<Id, Row>)
      ensures ok ==> IsPage(state, last, page) && read == state.rows
    {
      ok := *;
      page, read := [], state.rows;
      if ok {
        page := NextPage(state, last);
      }
    }

    method PutObject(bytes: Bytes) returns (ok: bool)
      requires Valid(state)
      modifies this
      ensures Followed() && state.rows == old(state.rows)
    {
      // An upload may succeed, fail, or fail after all having succeeded.
      ok := *;
      Unmoved();
      if * {
        UploadFollows(state, bytes);
        FewerWait(state, Uploaded(state, bytes));
        Becomes(Uploaded(state, bytes), 0);
      }
    }

    method ReadBack(sum: Digest) returns (r: Option<Bytes>)
      ensures r.Some? ==> Hashed(sum) in state.objects && state.objects[Hashed(sum)] == r.value
    {
      r := None;
      if * {
        r := if Hashed(sum) in state.objects then Some(state.objects[Hashed(sum)]) else None;
      }
    }

    /** The content of the row's file, once it is in the bucket and read back the same. */
    method CopyObject(row: Row) returns (copied: Option<Bytes>)
      requires Valid(state) && row.kind.Filesystem?
      modifies this
      ensures Followed() && state.rows == old(state.rows)
      ensures copied.Some? ==> Stored(state, row) == copied && Hashed(Sha256(copied.value)) in state.objects
    {
      Unmoved();
      if row.ref !in state.files || state.files[row.ref].Irregular? {
        return None;
      }
      var bytes := state.files[row.ref].bytes;
      var sum := Sha256(bytes);
      if row.checksum != NoSum && row.checksum != Recorded(sum) {
        return None;
      }
      var ok := PutObject(bytes);
      if !ok {
        return None;
      }
      copied := ReadBack(sum);
      if copied.Some? && (|copied.value| != |bytes| || Sha256(copied.value) != sum) {
        copied := None;
      }
    }

    /** Only the row as it was read is changed. It may be changed and the call fail all the same. */
    method UpdateRow(id: Id, was: Row, bytes: Bytes) returns (ok: bool, affected: nat)
      requires Valid(state) && Stored(state, was) == Some(bytes) && Hashed(Sha256(bytes)) in state.objects
      requires was.kind.Filesystem?
      modifies this
      ensures Followed() && affected <= 1
      ensures ok && Matches(old(state), id, was) ==> affected == 1 && state == Moved(old(state), id, bytes)
      ensures !Matches(old(state), id, was) ==> affected == 0 && state == old(state)
      ensures state != old(state) ==> state == Moved(old(state), id, bytes)
    {
      Unmoved();
      affected := 0;
      ok := *;
      var applied: bool := *;
      if ok || applied {
        if Matches(state, id, was) {
          MoveFollows(state, id, bytes);
          FewerWait(state, Moved(state, id, bytes));
          Becomes(Moved(state, id, bytes), 0);
          affected := 1;
        }
      }
    }

    method MoveRow(id: Id, was: Row) returns (ok: bool, affected: nat)
      requires Valid(state) && was.kind.Filesystem?
      modifies this
      ensures Followed() && affected <= 1
      ensures ok && old(requests) == 0 && id in old(state.rows) && old(state.rows)[id] == was ==> affected == 1 && Stored(old(state), was).Some? && state.rows == old(state.rows)[id := MovedRow(Stored(old(state), was).value)]
    {
      Others();
      ghost var s1, m1, r1 := state, moments, requests;
      var copied := CopyObject(was);
      LinkOn(old(state), old(moments), old(requests), s1, m1, r1, state, moments, requests);
      if copied.None? {
        return false, 0;
      }
      ghost var s2, m2, r2 := state, moments, requests;
      Others();
      LinkOn(old(state), old(moments), old(requests), s2, m2, r2, state, moments, requests);
      ghost var s3, m3, r3 := state, moments, requests;
      ok, affected := UpdateRow(id, was, copied.value);
      LinkOn(old(state), old(moments), old(requests), s3, m3, r3, state, moments, requests);
    }

    /** One row as it was read. `alone` says that nobody can have changed it since. */
    method MoveRead(id: Id, read: map<Id, Row>, ghost alone: bool) returns (ok: bool, moved: nat)
      requires Valid(state) && id in read && read[id].kind.Filesystem?
      requires alone ==> requests == 0 && id in state.rows && state.rows[id] == read[id]
      modifies this
      ensures Followed()
      ensures ok && alone ==> moved + |FilesystemIds(state)| == |FilesystemIds(old(state))| && OthersStay(old(state), state, id)
    {
      ok, moved := MoveRow(id, read[id]);
      if ok && alone {
        OneFewerOnDisk(old(state), state, id);
      }
    }

    /** The row that is next on a page. */
    method MoveNext(page: seq<Id>, k: nat, read: map<Id, Row>, ghost seen: Id, ghost alone: bool) returns (ok: bool, moved: nat)
      requires Valid(state) && k < |page| && page[k] in read && read[page[k]].kind.Filesystem? && seen <= page[k]
      requires forall i, j :: 0 <= i < j < |page| ==> page[i] < page[j]
      requires alone ==> requests == 0 && AsRead(state, read, page, k)
      modifies this
      ensures Followed()
      ensures |Waiting(state, Some(page[k]))| + requests <= |Waiting(old(state), Some(seen))| + old(requests)
      ensures ok && alone ==> moved + |FilesystemIds(state)| == |FilesystemIds(old(state))|
      ensures ok && alone ==> requests == 0 && AsRead(state, read, page, k + 1)
    {
      FewerAfter(state, seen, page[k]);
      if alone {
        assert IsAsRead(state, read, page[k]);
      }
      ok, moved := MoveRead(page[k], read, alone);
      if ok && alone {
        AsReadOn(old(state), state, read, page, k);
      }
    }

    /** One page of rows, in order. */
    method MovePage(page: seq<Id>, read: map<Id, Row>, last: Option<Id>) returns (ok: bool, migrated: nat)
      requires Valid(state) && page != [] && IsPage(state, last, page) && read == state.rows
      modifies this
      ensures Followed()
      ensures ok ==> |Waiting(state, Some(page[|page| - 1]))| + requests < |Waiting(old(state), last)| + old(requests)
      ensures ok && old(requests) == 0 ==> migrated + |FilesystemIds(state)| == |FilesystemIds(old(state))|
    {
      PageWaits(state, last, page);
      StrictlyFewer(state, last, page[0]);
      ok, migrated := MoveAll(page, read);
    }

    method MoveAll(page: seq<Id>, read: map<Id, Row>) returns (ok: bool, migrated: nat)
      requires Valid(state) && page != [] && forall i, j :: 0 <= i < j < |page| ==> page[i] < page[j]
      requires AsRead(state, read, page, 0)
      modifies this
      ensures Followed()
      ensures ok ==> |Waiting(state, Some(page[|page| - 1]))| + requests <= |Waiting(old(state), Some(page[0]))| + old(requests)
      ensures ok && old(requests) == 0 ==> migrated + |FilesystemIds(state)| == |FilesystemIds(old(state))|
    {
      Unmoved();
      migrated := 0;
      ghost var seen := page[0];
      for k := 0 to |page|
        invariant Followed() && seen == page[if k == 0 then 0 else k - 1]
        invariant |Waiting(state, Some(seen))| + requests <= |Waiting(old(state), Some(page[0]))| + old(requests)
        invariant old(requests) == 0 ==> migrated + |FilesystemIds(state)| == |FilesystemIds(old(state))|
        invariant old(requests) == 0 ==> requests == 0 && AsRead(state, read, page, k)
      {
        ghost var s, m, r := state, moments, requests;
        assert k > 0 ==> page[k - 1] < page[k];
        assert IsAsRead(old(state), read, page[k]);
        var done, moved := MoveNext(page, k, read, seen, old(requests) == 0);
        seen := page[k];
        LinkOn(old(state), old(moments), old(requests), s, m, r, state, moments, requests);
        if !done {
          return false, migrated;
        }
        migrated := migrated + moved;
      }
      ok := true;
    }

    /** The next page, if there is one: `end` says that nothing waits any more. */
    method NextPageMoved(last: Option<Id>) returns (ok: bool, end: bool, moved: nat, next: Option<Id>)
      requires Valid(state)
      modifies this
      ensures Followed()
      ensures ok && !end ==> |Waiting(state, next)| + requests < |Waiting(old(state), last)| + old(requests)
      ensures ok && old(requests) == 0 ==> moved + |FilesystemIds(state)| == |FilesystemIds(old(state))|
    {
      Others();
      end, moved, next := false, 0, last;
      var page, read;
      ok, page, read := Query(last);
      if !ok || page == [] {
        end := true;
        return;
      }
      ghost var s, m, r := state, moments, requests;
      ok, moved := MovePage(page, read, last);
      LinkOn(old(state), old(moments), old(requests), s, m, r, state, moments, requests);
      next := Some(page[|page| - 1]);
    }

    method Count() returns (ok: bool, remaining: nat)
      ensures ok ==> remaining == |FilesystemIds(state)|
    {
      ok, remaining := *, |FilesystemIds(state)|;
    }

    /**
     * Whatever fails and whoever else is at work, at every moment each row that was there
     * resolves to the bytes it had, and success means that no filesystem row is left.
     */
    method MigrateFilesystem() returns (ok: bool, migrated: nat)
      requires Valid(state)
      modifies this
      ensures Followed()
      ensures ok ==> FilesystemIds(state) == {}
      ensures ok && old(requests) == 0 ==> migrated == |FilesystemIds(old(state))| && state.rows == FinalRows(old(state))
    {
      Unmoved();
      migrated := 0;
      var last: Option<Id> := None;
      var end := false;
      while !end
        invariant Followed()
        invariant old(requests) == 0 ==> migrated + |FilesystemIds(state)| == |FilesystemIds(old(state))|
        decreases if end then 0 else 1, |Waiting(state, last)| + requests
      {
        ghost var s, m, r := state, moments, requests;
        var moved;
        ok, end, moved, last := NextPageMoved(last);
        LinkOn(old(state), old(moments), old(requests), s, m, r, state, moments, requests);
        migrated := migrated + moved;
        if !ok {
          return;
        }
      }
      var remaining;
      ok, remaining := Count();
      ok := ok && remaining == 0;
      if ok && old(requests) == 0 {
        NothingLeftIsTheEnd(old(state), state);
      }
    }
  }

  ghost predicate IsPage(s: State, last: Option<Id>, page: seq<Id>) {
    && |page| <= PAGE && (forall i, j :: 0 <= i < j < |page| ==> page[i] < page[j])
    && (forall id: Id :: id in page ==> Waits(s, last, id))
    && (forall id: Id :: Waits(s, last, id) ==> id in page || (|page| == PAGE && page[PAGE - 1] < id))
  }

  method NextPage(s: State, last: Option<Id>) returns (page: seq<Id>)
    ensures IsPage(s, last, page)
  {
    page := [];
    var waiting := set id | id in s.rows && Waits(s, last, id);
    while waiting != {} && |page| < PAGE
      invariant |page| <= PAGE && (forall i, j :: 0 <= i < j < |page| ==> page[i] < page[j])
      invariant forall id: Id :: id in waiting ==> Waits(s, last, id)
      invariant forall id: Id :: id in page ==> Waits(s, last, id) && id !in waiting
      invariant forall id: Id :: Waits(s, last, id) ==> id in page || id in waiting
      invariant forall i: nat, other: Id :: i < |page| && other in waiting ==> page[i] < other
      decreases |waiting|
    {
      var least := Least(waiting);
      page := page + [least];
      waiting := waiting - {least};
    }
  }

  method Least(ids: set<Id>) returns (least: Id)
    requires ids != {}
    ensures least in ids && forall id :: id in ids ==> least <= id
  {
    least :| least in ids;
    var left := ids - {least};
    while left != {}
      invariant left <= ids && least in ids && forall id :: id in ids && id !in left ==> least <= id
      decreases |left|
    {
      var id :| id in left;
      if id < least {
        least := id;
      }
      left := left - {id};
    }
  }

  // ---------- failed runs and then one that succeeds ----------

  /** Nobody else is at work: what each failed run leaves, and the last one ends in. */
  ghost predicate Chain(states: seq<State>) {
    states != [] && forall i :: 0 < i < |states| ==> PartOfTheWay(states[i - 1], states[i])
  }

  /** Any number of failed runs and then a successful one: the rows of one uninterrupted run. */
  lemma {:induction false} ResumedRunsEndTheSame(states: seq<State>)
    requires Chain(states) && FilesystemIds(states[|states| - 1]) == {}
    ensures states[|states| - 1].rows == FinalRows(states[0])
    decreases |states|
  {
    if |states| == 1 {
      NothingLeftIsTheEnd(states[0], states[0]);
    } else {
      var rest := states[1..];
      assert forall i :: 0 < i < |rest| ==> rest[i - 1] == states[i] && rest[i] == states[i + 1];
      ResumedRunsEndTheSame(rest);
      assert PartOfTheWay(states[1 - 1], states[1]);
      SameEnd(states[0], states[1]);
    }
  }
}
