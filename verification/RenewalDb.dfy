/**
 * Any number of renewals of a domain's certificates in one database: each reads a row, asks
 * the CA for a certificate with the same key, stores it as a new row and deletes the old one,
 * and may fail or end between any two of these.
 *
 * A certificate has one public key; a value sealed under one master key opens under no other.
 */
module RenewalDb {
  import opened Options

  type Pid = nat
  type Id = nat
  type Key = nat
  type MasterKey = nat
  type Time = nat

  datatype Certificate = Certificate(key: Key, names: set<string>, notAfter: Time)

  /** A stored private key: plain PEM, sealed, or what is neither. */
  datatype StoredKey = Plain(key: Key) | Sealed(master: MasterKey, key: Key) | Garbled

  datatype Row = Row(domain: string, certificate: Certificate, stored: StoredKey)

  /** `Issued` holds what passed the checks before it is stored. */
  datatype Phase = HasRow | HasKey(key: Key) | Issued(certificate: Certificate, key: Key) | HasStored(newId: Id)

  datatype Renewal = Renewal(master: Option<MasterKey>, id: Id, row: Row, phase: Phase)

  /** Ids grow; `next` has never been given out. */
  datatype Database = Database(now: Time, next: Id, rows: map<Id, Row>, renewals: map<Pid, Renewal>)

  datatype Action =
    | Tick(elapsed: nat)
    | Begin(pid: Pid, id: Id, master: Option<MasterKey>)
    | ReadKey(pid: Pid)
    | Answer(pid: Pid, certificate: Certificate)
    | Store(pid: Pid, acknowledged: bool)
    | DeleteOld(pid: Pid, done: bool)
    | Stop(pid: Pid)

  /** A plain PEM is taken as it is, whatever the master key. */
  function Opened(stored: StoredKey, master: Option<MasterKey>): Option<Key> {
    match stored
    case Plain(key) => Some(key)
    case Sealed(m, key) => if master == Some(m) then Some(key) else None
    case Garbled => None
  }

  /** The key a renewal must keep: refused unless it is the certificate's own. */
  function RenewalKey(row: Row, master: Option<MasterKey>): Option<Key> {
    match Opened(row.stored, master)
    case Some(key) => if key == row.certificate.key then Some(key) else None
    case None => None
  }

  /** `validateCertificate`. */
  predicate Servable(c: Certificate, key: Key, domain: string, now: Time) {
    c.key == key && domain in c.names && now <= c.notAfter
  }

  function StoredAs(key: Key, master: Option<MasterKey>): StoredKey {
    if master.Some? then Sealed(master.value, key) else Plain(key)
  }

  function Without(db: Database, pid: Pid): Database {
    db.(renewals := db.renewals - {pid})
  }

  function In(db: Database, pid: Pid, p: Phase): Database
    requires pid in db.renewals
  {
    db.(renewals := db.renewals[pid := db.renewals[pid].(phase := p)])
  }

  function Inserted(db: Database, row: Row): Database {
    db.(rows := db.rows[db.next := row], next := db.next + 1)
  }

  /** An action that cannot happen in a state leaves it as it is. */
  function Step(db: Database, a: Action): Database {
    match a
    case Tick(elapsed) => db.(now := db.now + elapsed)
    case Begin(pid, id, master) =>
      if pid in db.renewals || id !in db.rows then db
      else db.(renewals := db.renewals[pid := Renewal(master, id, db.rows[id], HasRow)])
    case Stop(pid) => Without(db, pid)
    case _ => if a.pid in db.renewals then RenewalStep(db, a, db.renewals[a.pid]) else db
  }

  function RenewalStep(db: Database, a: Action, r: Renewal): Database
    requires a.ReadKey? || a.Answer? || a.Store? || a.DeleteOld?
    requires a.pid in db.renewals && db.renewals[a.pid] == r
  {
    match (a, r.phase)
    case (ReadKey(pid), HasRow) =>
      var key := RenewalKey(r.row, r.master);
      if key.Some? then In(db, pid, HasKey(key.value)) else Without(db, pid)
    // The request carries the key; what the CA answers is checked all the same.
    case (Answer(pid, certificate), HasKey(key)) =>
      if Servable(certificate, key, r.row.domain, db.now) then In(db, pid, Issued(certificate, key)) else Without(db, pid)
    case (Store(pid, acknowledged), Issued(certificate, key)) =>
      if !Servable(certificate, key, r.row.domain, db.now) then Without(db, pid)
      else
        var stored := Inserted(db, Row(r.row.domain, certificate, StoredAs(key, r.master)));
        if acknowledged then In(stored, pid, HasStored(db.next)) else Without(stored, pid)
    case (DeleteOld(pid, done), HasStored(_)) =>
      Without(if done then db.(rows := db.rows - {r.id}) else db, pid)
    case _ => db
  }

  function Run(db: Database, actions: seq<Action>): Database
    decreases |actions|
  {
    if actions == [] then db else Run(Step(db, actions[0]), actions[1..])
  }

  // ---------- the invariant ----------

  predicate RowOf(db: Database, id: Id, domain: string) {
    id in db.rows && db.rows[id].domain == domain
  }

  /** Some row of the domain is newer than this one. */
  ghost predicate HasNewer(db: Database, id: Id, domain: string) {
    exists other: Id :: RowOf(db, other, domain) && other > id
  }

  ghost predicate IdsGrow(db: Database) {
    && (forall id: Id :: id in db.rows ==> id < db.next)
    && (forall pid :: pid in db.renewals ==> db.renewals[pid].id < db.next)
    && (forall pid, id :: pid in db.renewals && id in db.rows && id == db.renewals[pid].id ==> db.rows[id].domain == db.renewals[pid].row.domain)
  }

  /** A renewal that is about to delete its row leaves the domain a newer one. */
  ghost predicate OldIsReplaced(db: Database) {
    forall pid :: pid in db.renewals && db.renewals[pid].phase.HasStored? ==> HasNewer(db, db.renewals[pid].id, db.renewals[pid].row.domain)
  }

  ghost predicate Invariant(db: Database) {
    IdsGrow(db) && OldIsReplaced(db)
  }

  /** A row that goes leaves a newer one of its domain behind. */
  ghost predicate NeverEmptier(a: Database, b: Database) {
    forall id: Id, domain :: RowOf(a, id, domain) ==> RowOf(b, id, domain) || HasNewer(b, id, domain)
  }

  lemma NewerStays(a: Database, b: Database, id: Id, domain: string)
    requires HasNewer(a, id, domain) && NeverEmptier(a, b)
    ensures HasNewer(b, id, domain)
  {
    var other: Id :| RowOf(a, other, domain) && other > id;
    if !RowOf(b, other, domain) {
      var newer: Id :| RowOf(b, newer, domain) && newer > other;
    }
  }

  lemma DeleteStep(db: Database, pid: Pid)
    requires Invariant(db) && pid in db.renewals && db.renewals[pid].phase.HasStored?
    ensures NeverEmptier(db, db.(rows := db.rows - {db.renewals[pid].id}))
  {
    var r := db.renewals[pid];
    var b := db.(rows := db.rows - {r.id});
    forall id: Id, domain | RowOf(db, id, domain) ensures RowOf(b, id, domain) || HasNewer(b, id, domain) {
      if id == r.id {
        var other: Id :| RowOf(db, other, r.row.domain) && other > r.id;
        assert RowOf(b, other, domain);
      } else {
        assert RowOf(b, id, domain);
      }
    }
  }

  lemma InsertStep(db: Database, row: Row)
    requires IdsGrow(db)
    ensures NeverEmptier(db, Inserted(db, row)) && RowOf(Inserted(db, row), db.next, row.domain)
  {
    forall id: Id, domain | RowOf(db, id, domain) ensures RowOf(Inserted(db, row), id, domain) {
    }
  }

  lemma SameRows(a: Database, b: Database)
    requires a.rows == b.rows
    ensures NeverEmptier(a, b)
  {
    forall id: Id, domain | RowOf(a, id, domain) ensures RowOf(b, id, domain) {
    }
  }

  lemma StepNeverEmpties(db: Database, a: Action)
    requires Invariant(db)
    ensures NeverEmptier(db, Step(db, a))
  {
    var b := Step(db, a);
    if a.Store? && a.pid in db.renewals && db.renewals[a.pid].phase.Issued? && b.rows != db.rows {
      var r := db.renewals[a.pid];
      var row := Row(r.row.domain, r.phase.certificate, StoredAs(r.phase.key, r.master));
      InsertStep(db, row);
      assert b.rows == Inserted(db, row).rows;
      forall id: Id, domain | RowOf(db, id, domain) ensures RowOf(b, id, domain) {
        assert id < db.next;
      }
    } else if a.DeleteOld? && a.pid in db.renewals && db.renewals[a.pid].phase.HasStored? && a.done {
      DeleteStep(db, a.pid);
      var c := db.(rows := db.rows - {db.renewals[a.pid].id});
      forall id: Id, domain | RowOf(db, id, domain) ensures RowOf(b, id, domain) || HasNewer(b, id, domain) {
        assert RowOf(c, id, domain) ==> RowOf(b, id, domain);
        if HasNewer(c, id, domain) {
          var other: Id :| RowOf(c, other, domain) && other > id;
          assert RowOf(b, other, domain);
        }
      }
    } else {
      SameRows(db, b);
    }
  }

  lemma StepKeepsIds(db: Database, a: Action)
    requires IdsGrow(db)
    ensures IdsGrow(Step(db, a))
  {
  }

  lemma StepKeeps(db: Database, a: Action)
    requires Invariant(db)
    ensures Invariant(Step(db, a)) && NeverEmptier(db, Step(db, a))
  {
    StepNeverEmpties(db, a);
    var b := Step(db, a);
    StepKeepsIds(db, a);
    forall pid | pid in b.renewals && b.renewals[pid].phase.HasStored?
      ensures HasNewer(b, b.renewals[pid].id, b.renewals[pid].row.domain)
    {
      var r := b.renewals[pid];
      if pid in db.renewals && db.renewals[pid].phase.HasStored? {
        NewerStays(db, b, r.id, r.row.domain);
      } else {
        assert a.Store? && a.pid == pid && db.renewals[pid].id < db.next;
        assert RowOf(b, db.next, r.row.domain);
      }
    }
  }

  lemma NeverEmptierOn(a: Database, b: Database, c: Database)
    requires NeverEmptier(a, b) && NeverEmptier(b, c)
    ensures NeverEmptier(a, c)
  {
    forall id: Id, domain | RowOf(a, id, domain) ensures RowOf(c, id, domain) || HasNewer(c, id, domain) {
      if HasNewer(b, id, domain) {
        NewerStays(b, c, id, domain);
      }
    }
  }

  /** Through any renewals, however they end, a row of a domain goes only once a newer one is there. */
  lemma {:induction false} DomainKeepsARow(db: Database, actions: seq<Action>)
    requires Invariant(db)
    ensures Invariant(Run(db, actions)) && NeverEmptier(db, Run(db, actions))
    decreases |actions|
  {
    if actions == [] {
      SameRows(db, db);
    } else {
      StepKeeps(db, actions[0]);
      DomainKeepsARow(Step(db, actions[0]), actions[1..]);
      NeverEmptierOn(db, Step(db, actions[0]), Run(db, actions));
    }
  }

  // ---------- the key ----------

  /** Every row of the domain, and every renewal under way for it, is for this public key. */
  ghost predicate OneKey(db: Database, domain: string, key: Key) {
    && (forall id: Id :: RowOf(db, id, domain) ==> db.rows[id].certificate.key == key)
    && (forall pid :: pid in db.renewals && db.renewals[pid].row.domain == domain ==> ForKey(db.renewals[pid], key))
  }

  predicate ForKey(r: Renewal, key: Key) {
    && r.row.certificate.key == key
    && (r.phase.HasKey? ==> r.phase.key == key)
    && (r.phase.Issued? ==> r.phase.key == key && r.phase.certificate.key == key)
  }

  lemma StepKeepsKey(db: Database, a: Action, domain: string, key: Key)
    requires OneKey(db, domain, key)
    ensures OneKey(Step(db, a), domain, key)
  {
    if a.Begin? && RowOf(db, a.id, domain) {
      assert db.rows[a.id].certificate.key == key;
    }
    var b := Step(db, a);
    forall id: Id | RowOf(b, id, domain) ensures b.rows[id].certificate.key == key {
      if id in db.rows && b.rows[id] == db.rows[id] {
        assert RowOf(db, id, domain);
      }
    }
  }

  /** However often a domain is renewed, its certificates keep the public key they had. */
  lemma {:induction false} ServedKeyIsKept(db: Database, actions: seq<Action>, domain: string, key: Key)
    requires OneKey(db, domain, key)
    ensures OneKey(Run(db, actions), domain, key)
    decreases |actions|
  {
    if actions != [] {
      StepKeepsKey(db, actions[0], domain, key);
      ServedKeyIsKept(Step(db, actions[0]), actions[1..], domain, key);
    }
  }

  /** What a renewal adds can be served: its own key, for its domain, not expired when stored. */
  ghost predicate NewRowsServe(a: Database, b: Database) {
    forall id: Id :: id in b.rows && id !in a.rows ==> NewRowServes(b.rows[id])
  }

  ghost predicate NewRowServes(row: Row) {
    && row.domain in row.certificate.names
    && (exists master :: Opened(row.stored, master) == Some(row.certificate.key))
  }

  lemma StoreAddsServable(db: Database, a: Action)
    requires Invariant(db)
    ensures NewRowsServe(db, Step(db, a))
    ensures forall id: Id :: id in Step(db, a).rows && id !in db.rows ==> db.now <= Step(db, a).rows[id].certificate.notAfter
  {
    if a.Store? && a.pid in db.renewals && db.renewals[a.pid].phase.Issued? {
      var r := db.renewals[a.pid];
      assert Opened(StoredAs(r.phase.key, r.master), r.master) == Some(r.phase.key);
    }
  }

  // ---------- keys that do not open ----------

  predicate NoKey(row: Row, masters: set<Option<MasterKey>>) {
    forall master :: master in masters ==> RenewalKey(row, master).None?
  }

  /** No row of the domain has a key these masters open, and no renewal of it has got one. */
  ghost predicate Unopened(db: Database, domain: string, masters: set<Option<MasterKey>>) {
    && (forall id: Id :: RowOf(db, id, domain) ==> NoKey(db.rows[id], masters))
    && (forall pid :: pid in db.renewals && db.renewals[pid].row.domain == domain ==> Waits(db.renewals[pid], masters))
  }

  predicate Waits(r: Renewal, masters: set<Option<MasterKey>>) {
    r.phase.HasRow? && r.master in masters && NoKey(r.row, masters)
  }

  /** The master keys of the processes that begin a renewal, none at all included. */
  predicate BegunWith(actions: seq<Action>, masters: set<Option<MasterKey>>) {
    forall i :: 0 <= i < |actions| && actions[i].Begin? ==> actions[i].master in masters
  }

  ghost predicate SameRowsOf(a: Database, b: Database, domain: string) {
    forall id: Id :: (RowOf(a, id, domain) <==> RowOf(b, id, domain)) && (RowOf(a, id, domain) ==> b.rows[id] == a.rows[id])
  }

  lemma StepKeepsUnopened(db: Database, a: Action, domain: string, masters: set<Option<MasterKey>>)
    requires IdsGrow(db) && Unopened(db, domain, masters) && (a.Begin? ==> a.master in masters)
    ensures Unopened(Step(db, a), domain, masters) && SameRowsOf(db, Step(db, a), domain)
  {
    var b := Step(db, a);
    forall id: Id
      ensures RowOf(db, id, domain) <==> RowOf(b, id, domain)
      ensures RowOf(db, id, domain) ==> b.rows[id] == db.rows[id]
    {
      if (a.Store? || a.DeleteOld?) && a.pid in db.renewals && db.renewals[a.pid].row.domain == domain {
        assert Waits(db.renewals[a.pid], masters);
      }
    }
    forall pid | pid in b.renewals && b.renewals[pid].row.domain == domain ensures Waits(b.renewals[pid], masters) {
      if pid in db.renewals {
        assert Waits(db.renewals[pid], masters);
      } else {
        assert a.Begin? && RowOf(db, a.id, domain);
      }
    }
  }

  /**
   * While none of the master keys in use opens a key of the domain as its certificate's own, no
   * renewal, however many run and however they end, gives it a row, takes one or changes one.
   */
  lemma {:induction false} UnreadableKeyIsRefused(db: Database, actions: seq<Action>, domain: string, masters: set<Option<MasterKey>>)
    requires Invariant(db) && Unopened(db, domain, masters) && BegunWith(actions, masters)
    ensures Unopened(Run(db, actions), domain, masters) && SameRowsOf(db, Run(db, actions), domain)
    decreases |actions|
  {
    if actions != [] {
      assert actions[0].Begin? ==> actions[0].master in masters;
      StepKeepsUnopened(db, actions[0], domain, masters);
      StepKeeps(db, actions[0]);
      UnreadableKeyIsRefused(Step(db, actions[0]), actions[1..], domain, masters);
    }
  }

  /** One that opens is enough: a process that comes with it can give the domain a new row. */
  lemma ReadableKeyIsRenewed(db: Database, id: Id, pid: Pid, master: Option<MasterKey>)
    returns (actions: seq<Action>)
    requires Invariant(db) && id in db.rows && pid !in db.renewals && RenewalKey(db.rows[id], master).Some?
    ensures BegunWith(actions, {master})
    ensures var b := Run(db, actions);
      RowOf(b, db.next, db.rows[id].domain) && db.next !in db.rows && b.rows[db.next].certificate.key == db.rows[id].certificate.key
  {
    var row := db.rows[id];
    var key := RenewalKey(row, master).value;
    var certificate := Certificate(key, {row.domain}, db.now);
    var begin, read, answer, store := Begin(pid, id, master), ReadKey(pid), Answer(pid, certificate), Store(pid, true);
    actions := [begin, read, answer, store];
    var b := Step(Step(db, begin), read);
    assert b.renewals[pid].phase == HasKey(key);
    var c := Step(b, answer);
    assert c.renewals[pid].phase == Issued(certificate, key);
    RunFour(db, begin, read, answer, store);
  }

  lemma RunFour(db: Database, a: Action, b: Action, c: Action, d: Action)
    ensures Run(db, [a, b, c, d]) == Step(Step(Step(Step(db, a), b), c), d)
  {
    assert [a, b, c, d][1..] == [b, c, d] && [b, c, d][1..] == [c, d] && [c, d][1..] == [d];
    var t := Step(Step(db, a), b);
    assert Run(Step(t, c), [d]) == Run(Step(Step(t, c), d), []);
    assert Run(t, [c, d]) == Step(Step(Step(Step(db, a), b), c), d);
  }
}
