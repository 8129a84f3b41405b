/**
 * Moving every secret in six tables from one master key to another, row by row: any call may
 * fail, with or without its effect, and the run may end between any two.
 *
 * A value sealed under one master key opens under no other, and the two keys differ.
 */
module KeyRotation {
  import opened Options

  type MasterKey = string

  datatype Form = Bare | DkimV1 | RelayV1

  /** A sealed value in one of its written forms, or any other text. */
  datatype Value = Sealed(form: Form, master: MasterKey, nonce: nat, plain: string) | Text(text: string)

  /** `OtherCredentials` are those that are no TOTP secret; no query finds them. */
  datatype Table = Domains | RotationKeys | TotpCredentials | Certificates | AcmeAccounts | Relays | OtherCredentials

  datatype Cell = Cell(table: Table, id: nat)

  type Values = map<Cell, Value>

  const EMPTY: Value := Text("")

  function FormOf(t: Table): Form {
    match t
    case Domains => DkimV1
    case RotationKeys => DkimV1
    case Relays => RelayV1
    case _ => Bare
  }

  /** Where an empty column means that there is no secret, rather than an unreadable one. */
  predicate EmptyIsNone(t: Table) {
    t.Domains? || t.TotpCredentials? || t.Certificates? || t.Relays?
  }

  /** What the server of that master key reads from a column. */
  function Opened(t: Table, v: Value, master: MasterKey): Option<string> {
    match v
    case Sealed(form, m, _, plain) => if form == FormOf(t) && m == master then Some(plain) else None
    case Text(_) => None
  }

  predicate Opens(values: Values, c: Cell, master: MasterKey) {
    c in values && c.table != OtherCredentials && Opened(c.table, values[c], master).Some?
  }

  predicate Unreadable(values: Values, c: Cell, master: MasterKey) {
    c in values && c.table != OtherCredentials && Opened(c.table, values[c], master).None? && !(EmptyIsNone(c.table) && values[c] == EMPTY)
  }

  /** The same secret under the new key; the nonce is drawn afresh. */
  predicate Moved(c: Cell, was: Value, now: Value, from: MasterKey, into: MasterKey) {
    Opened(c.table, was, from).Some? && Opened(c.table, now, into) == Opened(c.table, was, from)
  }

  /** A rotation key can only be stored again if it is not empty. */
  predicate CanMove(c: Cell, v: Value, from: MasterKey) {
    c.table.RotationKeys? ==> Opened(c.table, v, from) != Some("")
  }

  /** No value of the table is empty under its seal where that cannot be stored again. */
  ghost predicate Movable(values: Values, t: Table, from: MasterKey) {
    forall c: Cell :: c in values && c.table == t ==> CanMove(c, values[c], from)
  }

  /** What a caller can find out before a rotation. */
  ghost predicate NoneEmpty(values: Values, from: MasterKey) {
    forall c: Cell :: c in values && c.table == RotationKeys ==> Opened(c.table, values[c], from) != Some("")
  }

  ghost predicate PartOfTheWay(a: Values, b: Values, from: MasterKey, into: MasterKey) {
    && b.Keys == a.Keys
    && forall c :: c in a ==> b[c] == a[c] || (Opens(a, c, from) && CanMove(c, a[c], from) && Moved(c, a[c], b[c], from, into))
  }

  lemma PartOfTheWayOn(a: Values, b: Values, d: Values, from: MasterKey, into: MasterKey)
    requires from != into && PartOfTheWay(a, b, from, into) && PartOfTheWay(b, d, from, into)
    ensures PartOfTheWay(a, d, from, into)
  {
    forall c | c in a ensures d[c] == a[c] || (Opens(a, c, from) && CanMove(c, a[c], from) && Moved(c, a[c], d[c], from, into)) {
      assert c in b;
    }
  }

  ghost predicate Link(a: Values, m0: seq<Values>, b: Values, m1: seq<Values>, from: MasterKey, into: MasterKey) {
    && PartOfTheWay(a, b, from, into) && |m0| <= |m1| && m1[..|m0|] == m0
    && forall m :: m in m1[|m0|..] ==> PartOfTheWay(a, m, from, into)
  }

  lemma LinkOn(a: Values, m0: seq<Values>, b: Values, m1: seq<Values>, d: Values, m2: seq<Values>, from: MasterKey, into: MasterKey)
    requires from != into && Link(a, m0, b, m1, from, into) && Link(b, m1, d, m2, from, into)
    ensures Link(a, m0, d, m2, from, into)
  {
    PartOfTheWayOn(a, b, d, from, into);
    assert m2[..|m0|] == m2[..|m1|][..|m0|];
    assert m2[|m0|..] == m1[|m0|..] + m2[|m1|..];
    forall m | m in m2[|m1|..] ensures PartOfTheWay(a, m, from, into) {
      PartOfTheWayOn(a, b, m, from, into);
    }
  }

  lemma Still(a: Values, m: seq<Values>, from: MasterKey, into: MasterKey)
    ensures Link(a, m, a, m, from, into)
  {
    assert m[..|m|] == m;
  }

  function CellsOf(values: Values, t: Table): set<Cell> {
    set c | c in values && c.table == t
  }

  function Opening(values: Values, t: Table, master: MasterKey): set<Cell> {
    set c | c in values && c.table == t && Opens(values, c, master)
  }

  function Failing(values: Values, t: Table, master: MasterKey): set<Cell> {
    set c | c in values && c.table == t && Unreadable(values, c, master)
  }

  function One(counted: bool): nat {
    if counted then 1 else 0
  }

  class Database {
    /** Whether no call ever fails. */
    const reliable: bool
    var values: Values
    ghost var moments: seq<Values>

    constructor (values: Values, reliable: bool)
      ensures this.values == values && this.reliable == reliable && moments == []
    {
      this.values, this.reliable, moments := values, reliable, [];
    }

    twostate predicate Followed(from: MasterKey, into: MasterKey)
      reads this
    {
      Link(old(values), old(moments), values, moments, from, into)
    }

    method Update(c: Cell, v: Value, ghost from: MasterKey, ghost into: MasterKey)
      requires Opens(values, c, from) && CanMove(c, values[c], from) && Moved(c, values[c], v, from, into)
      modifies this
      ensures values == old(values)[c := v] && Followed(from, into)
    {
      values := values[c := v];
      moments := moments + [values];
      assert moments[..|old(moments)|] == old(moments);
    }

    /** One row: moved, counted as unreadable, or the end of the run. */
    method RotateRow(c: Cell, from: MasterKey, into: MasterKey) returns (ok: bool, processed: nat, failures: nat)
      requires from != into && c in values && c.table != OtherCredentials
      modifies this
      ensures Followed(from, into) && (forall d :: d in old(values) && d != c ==> d in values && values[d] == old(values)[d])
      ensures ok ==> processed == One(Opens(old(values), c, from))
      ensures ok ==> failures == One(Unreadable(old(values), c, from))
      ensures ok && Opens(old(values), c, from) ==> c in values && Moved(c, old(values)[c], values[c], from, into)
      ensures (ok ==> CanMove(c, old(values)[c], from)) && (reliable && CanMove(c, old(values)[c], from) ==> ok)
    {
      ok, processed, failures := true, 0, 0;
      var plain := Opened(c.table, values[c], from);
      if EmptyIsNone(c.table) && values[c] == EMPTY {
        assert plain.None?;
      } else if plain.None? {
        failures := 1;
      } else if c.table.RotationKeys? && plain.value == "" {
        ok := false;
      } else {
        ok := StoreSealed(c, plain.value, from, into);
        processed := One(ok);
      }
    }

    /** Sealing may fail, and so may the update, whether or not it was applied. */
    method StoreSealed(c: Cell, plain: string, ghost from: MasterKey, into: MasterKey) returns (ok: bool)
      requires Opens(values, c, from) && CanMove(c, values[c], from) && Opened(c.table, values[c], from) == Some(plain)
      modifies this
      ensures Followed(from, into) && values.Keys == old(values.Keys)
      ensures forall d :: d in old(values) && d != c ==> values[d] == old(values)[d]
      ensures ok ==> Moved(c, old(values)[c], values[c], from, into)
      ensures reliable ==> ok
    {
      Still(values, moments, from, into);
      var nonce: nat := *;
      ok := true;
      var applied := true;
      if !reliable {
        ok := *;
        if !ok {
          applied := *;
        }
      }
      if applied {
        Update(c, Sealed(FormOf(c.table), into, nonce, plain), from, into);
      }
    }

    /** One row of a table of which others are dealt with already. */
    method RotateNextRow(t: Table, c: Cell, ghost left: set<Cell>, ghost start: Values, from: MasterKey, into: MasterKey)
      returns (ok: bool, processed: nat, failures: nat)
      requires from != into && t != OtherCredentials && c in left && c.table == t && c in start
      requires Dealt(start, values, t, left, from, into) && Waiting(start, values, t, left)
      modifies this
      ensures Followed(from, into) && (forall d :: d in old(values) && d != c ==> d in values && values[d] == old(values)[d])
      ensures ok ==> Dealt(start, values, t, left - {c}, from, into) && Waiting(start, values, t, left - {c})
      ensures ok ==> processed == One(c in Opening(start, t, from))
      ensures ok ==> failures == One(c in Failing(start, t, from))
      ensures reliable && CanMove(c, start[c], from) ==> ok
    {
      ok, processed, failures := RotateRow(c, from, into);
      if ok {
        DealtWith(start, old(values), values, t, left, c, from, into);
      }
    }

    method RotateTable(t: Table, from: MasterKey, into: MasterKey) returns (ok: bool, processed: nat, failures: nat)
      requires from != into && t != OtherCredentials
      modifies this
      ensures Followed(from, into) && (forall c :: c in old(values) && c.table != t ==> values[c] == old(values)[c])
      ensures ok ==> Dealt(old(values), values, t, {}, from, into)
      ensures ok ==> processed == |Opening(old(values), t, from)| && failures == |Failing(old(values), t, from)|
      ensures (ok ==> Movable(old(values), t, from)) && (reliable && Movable(old(values), t, from) ==> ok)
    {
      Still(values, moments, from, into);
      ok, processed, failures := true, 0, 0;
      var left := CellsOf(values, t);
      ghost var opening, failing := Opening(values, t, from), Failing(values, t, from);
      NothingDealtYet(values, t, left, from, into);
      while left != {}
        invariant left <= CellsOf(old(values), t) && Followed(from, into)
        invariant Dealt(old(values), values, t, left, from, into) && Waiting(old(values), values, t, left)
        invariant processed == |opening - left| && failures == |failing - left|
        decreases |left|
      {
        var c :| c in left;
        ghost var v, m := values, moments;
        var done, p, f := RotateNextRow(t, c, left, old(values), from, into);
        LinkOn(old(values), old(moments), v, m, values, moments, from, into);
        if !done {
          return false, processed, failures;
        }
        OneFewerLeft(opening, left, c);
        OneFewerLeft(failing, left, c);
        left := left - {c};
        processed, failures := processed + p, failures + f;
      }
      assert left == {};
      DealtIsMovable(old(values), values, t, from, into);
      NoneLeft(opening);
      NoneLeft(failing);
      ok := true;
    }

    /** One more table, after some. */
    method RotateNext(t: Table, ghost done: set<Table>, ghost start: Values, from: MasterKey, into: MasterKey, before: Summary) returns (ok: bool, s: Summary)
      requires from != into && t != OtherCredentials && t !in done && AllMoved(start, values, done, from, into) && Untouched(start, values, done)
      requires before.Counts(start, done, from)
      modifies this
      ensures Followed(from, into)
      ensures ok ==> AllMoved(start, values, done + {t}, from, into) && Untouched(start, values, done + {t})
      ensures ok ==> s.Counts(start, done + {t}, from)
      ensures (ok ==> Movable(start, t, from)) && (reliable && Movable(start, t, from) ==> ok)
    {
      ghost var v := values;
      SameMovable(start, v, t, done, from);
      var p, f;
      ok, p, f := RotateTable(t, from, into);
      s := Summary(before.processed[t := p], before.failures + f);
      if ok {
        SameTable(start, v, t, done, from);
        FailuresAdd(start, t, done, from);
      }
    }

    /**
     * Whatever aborts it, each value is either as it was or the same secret under the new key;
     * a run that completes has moved every secret that opened under the old key. It completes,
     * if no call fails, exactly when no rotation key is empty under its seal.
     */
    method Rotate(from: MasterKey, into: MasterKey) returns (ok: bool, s: Summary)
      requires from != into
      modifies this
      ensures Followed(from, into)
      ensures ok ==> AllMoved(old(values), values, ALL, from, into) && s.Counts(old(values), ALL, from)
      ensures ok ==> NoneEmpty(old(values), from)
      ensures reliable && NoneEmpty(old(values), from) ==> ok
    {
      Still(values, moments, from, into);
      ok, s := true, Summary(map[], 0);
      var order := [Domains, RotationKeys, TotpCredentials, Certificates, AcmeAccounts, Relays];
      ghost var done: set<Table> := {};
      for i := 0 to |order|
        invariant done == Taken(order, i)
        invariant Followed(from, into) && AllMoved(old(values), values, done, from, into) && Untouched(old(values), values, done)
        invariant s.Counts(old(values), done, from) && (RotationKeys in done ==> NoneEmpty(old(values), from))
      {
        ghost var v, m := values, moments;
        NotYetTaken(order, i);
        ok, s := RotateNext(order[i], done, old(values), from, into, s);
        LinkOn(old(values), old(moments), v, m, values, moments, from, into);
        NoneEmptyIsMovable(old(values), order[i], from);
        if !ok {
          return;
        }
        done := done + {order[i]};
      }
      AllTaken(order);
      ok := true;
    }
  }

  ghost predicate Dealt(a: Values, b: Values, t: Table, left: set<Cell>, from: MasterKey, into: MasterKey) {
    forall c: Cell :: c.table == t && Opens(a, c, from) && c !in left ==>
      c in b && Moved(c, a[c], b[c], from, into) && CanMove(c, a[c], from)
  }

  lemma DealtIsMovable(a: Values, b: Values, t: Table, from: MasterKey, into: MasterKey)
    requires Dealt(a, b, t, {}, from, into) && t != OtherCredentials
    ensures Movable(a, t, from)
  {
    forall c: Cell | c in a && c.table == t ensures CanMove(c, a[c], from) {
      if Opens(a, c, from) {
        assert c !in {};
      }
    }
  }

  lemma SameMovable(a: Values, b: Values, t: Table, done: set<Table>, from: MasterKey)
    requires Untouched(a, b, done) && t !in done
    ensures Movable(a, t, from) <==> Movable(b, t, from)
  {
    forall c: Cell | c in a && c.table == t ensures a[c] == b[c] {
    }
  }

  lemma NoneEmptyIsMovable(a: Values, t: Table, from: MasterKey)
    ensures NoneEmpty(a, from) ==> Movable(a, t, from)
    ensures t == RotationKeys && Movable(a, t, from) ==> NoneEmpty(a, from)
  {
    forall c: Cell | c in a && c.table == RotationKeys ensures CanMove(c, a[c], from) <==> Opened(c.table, a[c], from) != Some("") {
    }
  }

  /** Rows elsewhere, and those still to come, are as they were. */
  ghost predicate Waiting(a: Values, b: Values, t: Table, left: set<Cell>) {
    b.Keys == a.Keys && forall c: Cell :: c in a && (c.table != t || c in left) ==> b[c] == a[c]
  }

  lemma NothingDealtYet(a: Values, t: Table, left: set<Cell>, from: MasterKey, into: MasterKey)
    requires left == CellsOf(a, t)
    ensures Dealt(a, a, t, left, from, into) && Waiting(a, a, t, left)
    ensures |Opening(a, t, from) - left| == 0 && |Failing(a, t, from) - left| == 0
  {
    assert Opening(a, t, from) - left == {} && Failing(a, t, from) - left == {};
  }

  lemma NoneLeft(all: set<Cell>)
    ensures all - {} == all
  {
  }

  lemma OneFewerLeft(all: set<Cell>, left: set<Cell>, c: Cell)
    requires c in left
    ensures |all - (left - {c})| == |all - left| + One(c in all)
  {
    assert all - (left - {c}) == (all - left) + (if c in all then {c} else {});
  }

  lemma DealtWith(a: Values, b: Values, d: Values, t: Table, left: set<Cell>, c: Cell, from: MasterKey, into: MasterKey)
    requires Dealt(a, b, t, left, from, into) && c in left && c in a && c in b && c.table == t && a[c] == b[c] && d.Keys == b.Keys
    requires forall e :: e in b && e != c ==> d[e] == b[e]
    requires Opens(b, c, from) ==> Moved(c, b[c], d[c], from, into) && CanMove(c, b[c], from)
    ensures Dealt(a, d, t, left - {c}, from, into)
  {
  }

  const ALL: set<Table> := {Domains, RotationKeys, TotpCredentials, Certificates, AcmeAccounts, Relays}

  ghost function Taken(order: seq<Table>, n: nat): set<Table>
    requires n <= |order|
  {
    if n == 0 then {} else Taken(order, n - 1) + {order[n - 1]}
  }

  lemma {:induction false} TakenHas(order: seq<Table>, n: nat)
    requires n <= |order|
    ensures forall t :: t in Taken(order, n) <==> t in order[..n]
  {
    if n > 0 {
      TakenHas(order, n - 1);
      assert order[..n] == order[..n - 1] + [order[n - 1]];
    }
  }

  lemma NotYetTaken(order: seq<Table>, n: nat)
    requires n < |order| && order == [Domains, RotationKeys, TotpCredentials, Certificates, AcmeAccounts, Relays]
    ensures order[n] !in Taken(order, n) && order[n] != OtherCredentials
  {
    TakenHas(order, n);
  }

  lemma AllTaken(order: seq<Table>)
    requires order == [Domains, RotationKeys, TotpCredentials, Certificates, AcmeAccounts, Relays]
    ensures Taken(order, |order|) == ALL
  {
    TakenHas(order, |order|);
    assert order[..|order|] == order;
  }

  ghost function Failed(values: Values, tables: set<Table>, master: MasterKey): set<Cell> {
    set c | c in values && c.table in tables && Unreadable(values, c, master)
  }

  datatype Summary = Summary(processed: map<Table, nat>, failures: nat) {
    /** Per table the secrets that opened, and over all tables those that did not. */
    ghost predicate Counts(a: Values, tables: set<Table>, from: MasterKey) {
      && (forall t :: t in tables ==> t in processed && processed[t] == |Opening(a, t, from)|)
      && failures == |Failed(a, tables, from)|
    }
  }

  ghost predicate AllMoved(a: Values, b: Values, tables: set<Table>, from: MasterKey, into: MasterKey) {
    forall c: Cell :: c.table in tables && Opens(a, c, from) ==> c in b && Moved(c, a[c], b[c], from, into)
  }

  ghost predicate Untouched(a: Values, b: Values, tables: set<Table>) {
    b.Keys == a.Keys && forall c: Cell :: c in a && c.table !in tables ==> b[c] == a[c]
  }

  lemma SameTable(a: Values, b: Values, t: Table, done: set<Table>, from: MasterKey)
    requires Untouched(a, b, done) && t !in done
    ensures Opening(b, t, from) == Opening(a, t, from) && Failing(b, t, from) == Failing(a, t, from)
  {
  }

  lemma FailuresAdd(a: Values, t: Table, done: set<Table>, from: MasterKey)
    requires t !in done
    ensures |Failed(a, done + {t}, from)| == |Failed(a, done, from)| + |Failing(a, t, from)|
  {
    assert Failed(a, done + {t}, from) == Failed(a, done, from) + Failing(a, t, from);
    assert Failed(a, done, from) !! Failing(a, t, from);
  }

  // ---------- aborted runs and then one that completes ----------

  /** States between runs, the first but one of which may have been cut off anywhere. */
  ghost predicate Chain(states: seq<Values>, from: MasterKey, into: MasterKey) {
    states != [] && forall i :: 0 < i < |states| ==> PartOfTheWay(states[i - 1], states[i], from, into)
  }

  lemma {:induction false} ChainIsPartOfTheWay(states: seq<Values>, from: MasterKey, into: MasterKey)
    requires from != into && Chain(states, from, into)
    ensures PartOfTheWay(states[0], states[|states| - 1], from, into)
    decreases |states|
  {
    if |states| > 1 {
      var n := |states| - 1;
      ChainIsPartOfTheWay(states[..n], from, into);
      assert PartOfTheWay(states[n - 1], states[n], from, into);
      PartOfTheWayOn(states[0], states[n - 1], states[n], from, into);
    }
  }

  /**
   * After any aborted runs and one that completes, every secret that opened under the old key
   * opens under the new one with the same plaintext, and everything else is what it was.
   */
  lemma RotationCompletes(states: seq<Values>, last: Values, from: MasterKey, into: MasterKey)
    requires from != into && Chain(states, from, into)
    requires PartOfTheWay(states[|states| - 1], last, from, into) && AllMoved(states[|states| - 1], last, ALL, from, into)
    ensures last.Keys == states[0].Keys
    ensures forall c: Cell :: Opens(states[0], c, from) ==> Opened(c.table, last[c], into) == Opened(c.table, states[0][c], from)
    ensures forall c: Cell :: c in states[0] && !Opens(states[0], c, from) ==> last[c] == states[0][c]
  {
    var first, almost := states[0], states[|states| - 1];
    ChainIsPartOfTheWay(states, from, into);
    PartOfTheWayOn(first, almost, last, from, into);
    forall c: Cell | Opens(first, c, from) ensures Opened(c.table, last[c], into) == Opened(c.table, first[c], from) {
      assert c in almost;
      if almost[c] == first[c] {
        assert Opens(almost, c, from) && c.table in ALL;
      } else {
        assert !Opens(almost, c, from);
        assert last[c] == almost[c];
      }
    }
  }

  // ---------- how often a run is repeated ----------

  /** No part of a run adds or removes an empty rotation key under the old key. */
  lemma EmptyStays(a: Values, b: Values, from: MasterKey, into: MasterKey)
    requires from != into && PartOfTheWay(a, b, from, into)
    ensures NoneEmpty(a, from) <==> NoneEmpty(b, from)
  {
    forall c: Cell | c in a && c.table == RotationKeys
      ensures Opened(c.table, a[c], from) == Some("") <==> Opened(c.table, b[c], from) == Some("")
    {
    }
  }

  lemma MovedStays(a: Values, b: Values, d: Values, from: MasterKey, into: MasterKey)
    requires from != into && AllMoved(a, b, ALL, from, into) && PartOfTheWay(b, d, from, into)
    ensures AllMoved(a, d, ALL, from, into)
  {
    forall c: Cell | c.table in ALL && Opens(a, c, from) ensures c in d && Moved(c, a[c], d[c], from, into) {
      assert Opened(c.table, b[c], into).Some? && !Opens(b, c, from);
    }
  }

  lemma MovedInParts(a: Values, b: Values, d: Values, from: MasterKey, into: MasterKey)
    requires from != into && PartOfTheWay(a, b, from, into) && AllMoved(b, d, ALL, from, into) && PartOfTheWay(b, d, from, into)
    ensures AllMoved(a, d, ALL, from, into)
  {
    forall c: Cell | c.table in ALL && Opens(a, c, from) ensures c in d && Moved(c, a[c], d[c], from, into) {
      if b[c] == a[c] {
        assert Opens(b, c, from);
      } else {
        assert Opened(c.table, b[c], into).Some? && !Opens(b, c, from) && d[c] == b[c];
      }
    }
  }

  /**
   * Runs one after another, each up to its own first failure. An empty rotation key stops every
   * one of them, and nothing else stops one in which no call fails; once a run has completed,
   * every secret that opened under the old key before the first opens under the new one.
   */
  method RotateRepeatedly(database: Database, runs: nat, from: MasterKey, into: MasterKey) returns (oks: seq<bool>)
    requires from != into
    modifies database
    ensures |oks| == runs && PartOfTheWay(old(database.values), database.values, from, into)
    ensures !NoneEmpty(old(database.values), from) ==> forall k :: 0 <= k < runs ==> !oks[k]
    ensures NoneEmpty(old(database.values), from) && database.reliable ==> forall k :: 0 <= k < runs ==> oks[k]
    ensures true in oks ==> AllMoved(old(database.values), database.values, ALL, from, into)
  {
    oks := [];
    ghost var first := database.values;
    while |oks| < runs
      invariant |oks| <= runs && PartOfTheWay(first, database.values, from, into)
      invariant !NoneEmpty(first, from) ==> forall k :: 0 <= k < |oks| ==> !oks[k]
      invariant NoneEmpty(first, from) && database.reliable ==> forall k :: 0 <= k < |oks| ==> oks[k]
      invariant true in oks ==> AllMoved(first, database.values, ALL, from, into)
    {
      ghost var before := database.values;
      var ok, _ := database.Rotate(from, into);
      PartOfTheWayOn(first, before, database.values, from, into);
      EmptyStays(first, before, from, into);
      if true in oks {
        MovedStays(first, before, database.values, from, into);
      } else if ok {
        MovedInParts(first, before, database.values, from, into);
      }
      oks := oks + [ok];
    }
  }

  /** A database that no run gets past, even if no call fails: one rotation key, sealed and empty. */
  method StuckDatabase(id: nat, nonce: nat, reliable: bool, runs: nat, from: MasterKey, into: MasterKey) returns (oks: seq<bool>)
    requires from != into
    ensures |oks| == runs && forall k :: 0 <= k < runs ==> !oks[k]
  {
    var c, v := Cell(RotationKeys, id), Sealed(DkimV1, from, nonce, "");
    var database := new Database(map[c := v], reliable);
    assert c in database.values && Opened(c.table, database.values[c], from) == Some("");
    oks := RotateRepeatedly(database, runs, from, into);
  }

  // ---------- what a later run counts ----------

  /** What runs so far have changed. */
  ghost function Changed(a: Values, b: Values): set<Cell>
    requires b.Keys == a.Keys
  {
    set c | c in a && b[c] != a[c]
  }

  lemma ChangedFails(a: Values, b: Values, c: Cell, from: MasterKey, into: MasterKey)
    requires from != into && PartOfTheWay(a, b, from, into) && c in a
    ensures c.table in ALL && Unreadable(b, c, from) <==> (c.table in ALL && Unreadable(a, c, from)) || b[c] != a[c]
    ensures b[c] != a[c] ==> !Unreadable(a, c, from)
  {
  }

  lemma FailedGrows(a: Values, b: Values, from: MasterKey, into: MasterKey)
    requires from != into && PartOfTheWay(a, b, from, into)
    ensures Failed(b, ALL, from) == Failed(a, ALL, from) + Changed(a, b) && Failed(a, ALL, from) !! Changed(a, b)
  {
    forall c | c in a
      ensures c in Failed(b, ALL, from) <==> c in Failed(a, ALL, from) || c in Changed(a, b)
      ensures c in Changed(a, b) ==> c !in Failed(a, ALL, from)
    {
      ChangedFails(a, b, c, from, into);
    }
  }

  lemma NothingChanged(a: Values, b: Values)
    requires b.Keys == a.Keys
    ensures |Changed(a, b)| == 0 <==> b == a
  {
    if Changed(a, b) == {} {
      forall c | c in a ensures b[c] == a[c] {
        assert c !in Changed(a, b);
      }
    } else {
      var c :| c in Changed(a, b);
    }
  }

  /**
   * A completing run reports as unreadable what was so before the first, and besides every
   * secret that earlier runs have moved; so it reports none exactly when there was none and
   * earlier runs moved nothing.
   */
  lemma FailuresOfTheLastRun(a: Values, b: Values, from: MasterKey, into: MasterKey, last: Summary)
    requires from != into && PartOfTheWay(a, b, from, into) && last.Counts(b, ALL, from)
    ensures Failed(b, ALL, from) == Failed(a, ALL, from) + Changed(a, b)
    ensures last.failures == |Failed(a, ALL, from)| + |Changed(a, b)|
    ensures last.failures == 0 <==> Failed(a, ALL, from) == {} && b == a
  {
    FailedGrows(a, b, from, into);
    NothingChanged(a, b);
  }
}
