/** The store of the onion service's private key: at most one key, kept by transactions. */
module Onion {
  import opened Bytes
  import opened Transactions

  type Table = set<Bytes>

  /**
    What the database driver decides: which row a query limited to one gives, and whether an empty
    key is scanned into a nil slice.
  */
  datatype Driver = Driver(row: Table -> Bytes, nilsEmpty: bool)

  ghost predicate Lawful(db: Driver) {
    forall t: Table :: t != {} ==> db.row(t) in t
  }

  /** The key that is found, None standing for nil. */
  function Select(db: Driver, t: Table): Option<Bytes> {
    if t == {} || (db.nilsEmpty && db.row(t) == []) then None else Some(db.row(t))
  }

  function Store(db: Driver, key: Bytes): Table -> BodyResult<Table> {
    (t: Table) =>
      if Select(db, t).Some? && Select(db, t).value != key then BodyResult(t, Some(Other))
      else BodyResult(t + {key}, None)
  }

  function Delete(): Table -> BodyResult<Table> {
    (t: Table) => BodyResult({}, None)
  }

  predicate AtMostOne(t: Table) {
    |t| <= 1
  }

  lemma SameElement(t: Table, a: Bytes, b: Bytes)
    requires AtMostOne(t) && a in t && b in t
    ensures a == b
  {
    assert |t - {a}| == |t| - 1;
    assert b !in t - {a};
  }

  /**
    Exactly when storing keeps the table at one key: it fails only on a table that holds the empty
    key, with a driver that makes it nil.
  */
  lemma StoreKeepsAtMostOne(db: Driver, t: Table, key: Bytes)
    requires Lawful(db) && AtMostOne(t)
    ensures AtMostOne(Store(db, key)(t).view) <==> !(db.nilsEmpty && t == {[]} && key != [])
  {
    if t == {} {
      assert t + {key} == {key};
    } else {
      var row := db.row(t);
      forall x | x in t ensures x == row { SameElement(t, x, row); }
      assert t == {row};
      if row == key {
        assert t + {key} == t;
      } else {
        assert |t + {key}| == 2;
      }
    }
  }

  /** Who stores an empty key with such a driver ends up with two keys. */
  lemma EmptyKeyIsOverlooked(db: Driver, key: Bytes)
    requires Lawful(db) && db.nilsEmpty && key != []
    ensures Store(db, [])({}).view == {[]}
    ensures !AtMostOne(Store(db, key)({[]}).view)
  {
    var t: Table := {[]};
    assert {} + t == t && |t| == 1;
    StoreKeepsAtMostOne(db, t, key);
  }

  /** The calls of the store. */
  datatype Call = StoreKey(key: Bytes) | DeleteKey

  function Body(db: Driver, call: Call): Table -> BodyResult<Table> {
    match call
    case StoreKey(key) => Store(db, key)
    case DeleteKey => Delete()
  }

  /** What the store keeps: one key at most, and with a driver that overlooks it not the empty one. */
  predicate Good(db: Driver, t: Table) {
    AtMostOne(t) && (db.nilsEmpty ==> [] !in t)
  }

  predicate Harmless(db: Driver, call: Call) {
    call.StoreKey? && db.nilsEmpty ==> call.key != []
  }

  lemma BodyKeepsGood(db: Driver, call: Call, t: Table)
    requires Lawful(db) && Harmless(db, call) && Good(db, t)
    ensures Good(db, Body(db, call)(t).view)
  {
    if call.StoreKey? {
      StoreKeepsAtMostOne(db, t, call.key);
    }
  }

  /** Transactions of others that come in between are such calls as well. */
  ghost predicate OthersAreGood(db: Driver, fates: seq<Fate<Table>>) {
    forall i, t :: 0 <= i < |fates| && Good(db, t) ==> Good(db, fates[i].others(t))
  }

  lemma {:induction false} FoundIsGood(db: Driver, t: Table, fates: seq<Fate<Table>>)
    requires Good(db, t) && OthersAreGood(db, fates)
    ensures Good(db, Found(t, fates))
  {
    if fates != [] {
      FoundIsGood(db, t, fates[..|fates| - 1]);
    }
  }

  /** However often it is tried and wherever it fails, a call leaves a good table. */
  lemma CallKeepsGood(db: Driver, call: Call, numRetries: int, t: Table, fates: seq<Fate<Table>>, r: Outcome, t': Table)
    requires Lawful(db) && Harmless(db, call) && Good(db, t) && OthersAreGood(db, fates)
    requires Executes(Body(db, call), numRetries, t, fates, r, t')
    ensures Good(db, t')
  {
    FoundIsGood(db, t, fates);
    BodyKeepsGood(db, call, Found(t, fates));
  }

  /** One finished call of a run. */
  datatype Done = Done(call: Call, numRetries: int, fates: seq<Fate<Table>>, outcome: Outcome)

  /** `tables` are the tables before the first call and after each one. */
  ghost predicate IsRun(db: Driver, run: seq<Done>, tables: seq<Table>) {
    && |tables| == |run| + 1
    && forall i :: 0 <= i < |run| ==>
         Executes(Body(db, run[i].call), run[i].numRetries, tables[i], run[i].fates, run[i].outcome, tables[i + 1])
  }

  /** Over every run, with any pattern of failures, retries and interference: never two keys. */
  lemma {:induction false} NeverTwoKeys(db: Driver, run: seq<Done>, tables: seq<Table>)
    requires Lawful(db) && IsRun(db, run, tables) && tables[0] == {}
    requires forall i :: 0 <= i < |run| ==> Harmless(db, run[i].call) && OthersAreGood(db, run[i].fates)
    ensures forall i :: 0 <= i < |tables| ==> Good(db, tables[i])
  {
    if run != [] {
      var n := |run| - 1;
      NeverTwoKeys(db, run[..n], tables[..n + 1]);
      assert Good(db, tables[..n + 1][n]);
      CallKeepsGood(db, run[n].call, run[n].numRetries, tables[n], run[n].fates, run[n].outcome, tables[n + 1]);
      assert forall i :: 0 <= i <= n ==> tables[i] == tables[..n + 1][i];
    }
  }

  /** What a good table becomes: storing succeeds only as the one key, and never replaces another. */
  lemma StoredIsTheKey(db: Driver, key: Bytes, t: Table)
    requires Lawful(db) && Good(db, t)
    ensures Store(db, key)(t).error == None <==> t <= {key}
    ensures t <= {key} ==> Store(db, key)(t).view == {key}
  {
    if t != {} {
      var row := db.row(t);
      forall x | x in t ensures x == row { SameElement(t, x, row); }
      assert t == {row};
    }
  }

  class OnionStore {
    const driver: Driver
    const db: Database<Table>
    const numRetries: int

    constructor (driver: Driver, db: Database<Table>, numRetries: int)
      ensures this.driver == driver && this.db == db && this.numRetries == numRetries
    {
      this.driver, this.db, this.numRetries := driver, db, numRetries;
    }

    method StorePrivateKey(key: Bytes, fates: seq<Fate<Table>>) returns (r: Outcome, attempts: nat)
      requires db.tx == None && numRetries <= |fates|
      modifies db
      ensures db.tx == None && attempts <= |fates|
      ensures Executes(Body(driver, StoreKey(key)), numRetries, old(db.committed), fates[..attempts], r, db.committed)
      ensures r != Committed ==> db.committed == Found(old(db.committed), fates[..attempts])
      ensures Lawful(driver) && Good(driver, old(db.committed)) && OthersAreGood(driver, fates) && r == Committed ==>
                db.committed == {key} && Found(old(db.committed), fates[..attempts]) <= {key}
    {
      ghost var t := db.committed;
      r, attempts := db.ExecTx(Store(driver, key), numRetries, fates);
      if Lawful(driver) && Good(driver, t) && OthersAreGood(driver, fates) {
        FoundIsGood(driver, t, fates[..attempts]);
        StoredIsTheKey(driver, key, Found(t, fates[..attempts]));
      }
    }

    method DeletePrivateKey(fates: seq<Fate<Table>>) returns (r: Outcome, attempts: nat)
      requires db.tx == None && numRetries <= |fates|
      modifies db
      ensures db.tx == None && attempts <= |fates|
      ensures Executes(Body(driver, DeleteKey), numRetries, old(db.committed), fates[..attempts], r, db.committed)
      ensures db.committed == if r == Committed then {} else Found(old(db.committed), fates[..attempts])
    {
      r, attempts := db.ExecTx(Delete(), numRetries, fates);
    }
  }
}
