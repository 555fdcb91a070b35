/** Database transactions that are tried again after serialization failures. */
module Transactions {
  import opened Bytes

  datatype TxError = Serialization | Other

  /** What a transaction body leaves in its transaction, and the error it returns. */
  datatype BodyResult<D> = BodyResult(view: D, error: Option<TxError>)

  /**
    What the database does to one attempt: other transactions commit before it begins; beginning or
    committing can fail; and it can find a conflict that spoils the body, after any of its queries.
  */
  datatype Fate<!D> = Fate(others: D -> D, begins: bool, conflict: Option<D>, commits: bool)

  datatype Outcome = Committed | Failed | RetriesExceeded

  /** The database as it is when the last of these attempts begins, if we have committed nothing. */
  function Found<D>(d: D, fates: seq<Fate<D>>): D {
    if fates == [] then d
    else
      var n := |fates| - 1;
      fates[n].others(Found(d, fates[..n]))
  }

  function RunBody<D>(body: D -> BodyResult<D>, d: D, fate: Fate<D>): BodyResult<D> {
    if fate.conflict.Some? then BodyResult(fate.conflict.value, Some(Serialization)) else body(d)
  }

  /** The attempt ends in a serialization failure of its body: the only error that is tried again. */
  predicate MustRetry<D(==)>(body: D -> BodyResult<D>, d: D, fate: Fate<D>) {
    fate.begins && RunBody(body, d, fate).error == Some(Serialization)
  }

  predicate Clean<D(==)>(body: D -> BodyResult<D>, d: D, fate: Fate<D>) {
    fate.begins && RunBody(body, d, fate).error == None && fate.commits
  }

  /** Every one of these attempts ends in such a failure. */
  ghost predicate AllRetried<D(!new)>(body: D -> BodyResult<D>, d: D, fates: seq<Fate<D>>) {
    fates == [] ||
    (AllRetried(body, d, fates[..|fates| - 1]) && MustRetry(body, Found(d, fates), fates[|fates| - 1]))
  }

  function Limit(numRetries: int): nat {
    if numRetries < 0 then 0 else numRetries
  }

  /**
    What ExecTx promises. All attempts but the last end in a serialization failure. Success commits
    the effect of the last attempt, on the data it found; otherwise nothing of ours is committed.
  */
  ghost predicate Executes<D(!new)>(body: D -> BodyResult<D>, numRetries: int, d: D, fates: seq<Fate<D>>,
                                    r: Outcome, d': D)
  {
    && |fates| <= Limit(numRetries)
    && match r
       case Committed =>
         && fates != [] && AllRetried(body, d, fates[..|fates| - 1])
         && Clean(body, Found(d, fates), fates[|fates| - 1])
         && d' == body(Found(d, fates)).view
       case Failed =>
         && fates != [] && AllRetried(body, d, fates[..|fates| - 1])
         && !Clean(body, Found(d, fates), fates[|fates| - 1]) && !MustRetry(body, Found(d, fates), fates[|fates| - 1])
         && d' == Found(d, fates)
       case RetriesExceeded =>
         && |fates| == Limit(numRetries) && AllRetried(body, d, fates)
         && d' == Found(d, fates)
  }

  lemma {:induction false} RetriedBefore<D(!new)>(body: D -> BodyResult<D>, d: D, fates: seq<Fate<D>>, n: nat)
    requires n <= |fates| && AllRetried(body, d, fates)
    ensures AllRetried(body, d, fates[..n])
  {
    if n == |fates| {
      assert fates[..n] == fates;
    } else {
      assert fates[..|fates| - 1][..n] == fates[..n];
      RetriedBefore(body, d, fates[..|fates| - 1], n);
    }
  }

  lemma LastIsNotRetried<D(!new)>(body: D -> BodyResult<D>, numRetries: int, d: D, fates: seq<Fate<D>>,
                                  r: Outcome, d': D)
    requires Executes(body, numRetries, d, fates, r, d')
    ensures |fates| == Limit(numRetries) || (fates != [] && !AllRetried(body, d, fates))
    ensures fates != [] ==> AllRetried(body, d, fates[..|fates| - 1])
  {
  }

  /** The promise leaves no choice: how many attempts are made, their outcome and the data are determined. */
  lemma ExecutesIsDetermined<D(!new)>(body: D -> BodyResult<D>, numRetries: int, d: D, fates: seq<Fate<D>>,
                                      m: nat, r: Outcome, d': D, n: nat, q: Outcome, e': D)
    requires m <= n <= |fates|
    requires Executes(body, numRetries, d, fates[..m], r, d') && Executes(body, numRetries, d, fates[..n], q, e')
    ensures m == n && r == q && d' == e'
  {
    LastIsNotRetried(body, numRetries, d, fates[..m], r, d');
    LastIsNotRetried(body, numRetries, d, fates[..n], q, e');
    if m < n {
      assert fates[..n][..n - 1] == fates[..n - 1] && fates[..n - 1][..m] == fates[..m];
      RetriedBefore(body, d, fates[..n - 1], m);
    }
  }

  /** An attempt that the database spoils, or whose body reports a serialization failure. */
  predicate Spoiled<D(==)>(body: D -> BodyResult<D>, d: D, fate: Fate<D>) {
    fate.begins && (fate.conflict.Some? || body(d).error == Some(Serialization))
  }

  predicate SpoiledAt<D(==)>(body: D -> BodyResult<D>, d: D, fates: seq<Fate<D>>, i: nat)
    requires i < |fates|
  {
    Spoiled(body, Found(d, fates[..i + 1]), fates[i])
  }

  lemma SpoiledInPrefix<D(!new)>(body: D -> BodyResult<D>, d: D, fates: seq<Fate<D>>, n: nat, i: nat)
    requires i < n <= |fates|
    ensures SpoiledAt(body, d, fates[..n], i) == SpoiledAt(body, d, fates, i)
  {
    assert fates[..n][..i + 1] == fates[..i + 1];
  }

  lemma SpoiledLast<D(!new)>(body: D -> BodyResult<D>, d: D, fates: seq<Fate<D>>)
    requires fates != []
    ensures SpoiledAt(body, d, fates, |fates| - 1) == MustRetry(body, Found(d, fates), fates[|fates| - 1])
  {
    assert fates[..|fates| - 1 + 1] == fates;
  }

  lemma {:induction false} RetriedIff<D(!new)>(body: D -> BodyResult<D>, d: D, fates: seq<Fate<D>>)
    ensures AllRetried(body, d, fates) <==> forall i :: 0 <= i < |fates| ==> SpoiledAt(body, d, fates, i)
  {
    if fates != [] {
      var n := |fates| - 1;
      RetriedIff(body, d, fates[..n]);
      forall i | 0 <= i < n ensures SpoiledAt(body, d, fates[..n], i) == SpoiledAt(body, d, fates, i) {
        SpoiledInPrefix(body, d, fates, n, i);
      }
      SpoiledLast(body, d, fates);
    }
  }

  /** A spoiled attempt is followed by another one while attempts are left. */
  lemma SpoiledIsRetried<D(!new)>(body: D -> BodyResult<D>, numRetries: int, d: D, fates: seq<Fate<D>>,
                                  r: Outcome, d': D)
    requires Executes(body, numRetries, d, fates, r, d')
    requires forall i :: 0 <= i < |fates| ==> SpoiledAt(body, d, fates, i)
    ensures r == RetriesExceeded && |fates| == Limit(numRetries)
  {
    RetriedIff(body, d, fates);
    if fates != [] {
      SpoiledLast(body, d, fates);
    }
  }

  /** And the first that is not is the last one: it commits if nothing fails, and ends the call if something does. */
  lemma UnspoiledEnds<D(!new)>(body: D -> BodyResult<D>, numRetries: int, d: D, fates: seq<Fate<D>>,
                               r: Outcome, d': D)
    requires Executes(body, numRetries, d, fates, r, d') && fates != []
    requires !Spoiled(body, Found(d, fates), fates[|fates| - 1])
    ensures var last := fates[|fates| - 1];
            var done := last.begins && body(Found(d, fates)).error == None && last.commits;
            && r == (if done then Committed else Failed)
            && d' == (if done then body(Found(d, fates)).view else Found(d, fates))
    ensures forall i :: 0 <= i < |fates| - 1 ==> SpoiledAt(body, d, fates, i)
  {
    var n := |fates| - 1;
    RetriedIff(body, d, fates[..n]);
    forall i | 0 <= i < n ensures SpoiledAt(body, d, fates, i) {
      SpoiledInPrefix(body, d, fates, n, i);
    }
  }

  class Database<!D(!new)> {
    var committed: D
    var tx: Option<D> // the data as the open transaction sees it

    constructor (d: D)
      ensures committed == d && tx == None
    {
      committed, tx := d, None;
    }

    /** Discards the open transaction; without one it does nothing. */
    method Rollback()
      modifies this`tx
      ensures tx == None
    {
      tx := None;
    }

    method BeginTx(fate: Fate<D>) returns (ok: bool)
      modifies this
      ensures committed == fate.others(old(committed)) && ok == fate.begins
      ensures tx == if ok then Some(committed) else old(tx)
    {
      committed := fate.others(committed);
      if fate.begins {
        tx := Some(committed);
      }
      return fate.begins;
    }

    method Query(body: D -> BodyResult<D>, fate: Fate<D>) returns (error: Option<TxError>)
      requires tx.Some?
      modifies this`tx
      ensures error == RunBody(body, old(tx).value, fate).error
      ensures tx == Some(RunBody(body, old(tx).value, fate).view)
    {
      var result := RunBody(body, tx.value, fate);
      tx := Some(result.view);
      return result.error;
    }

    method Commit(fate: Fate<D>) returns (ok: bool)
      requires tx.Some?
      modifies this
      ensures ok == fate.commits && committed == (if ok then old(tx).value else old(committed)) && tx == None
    {
      if fate.commits {
        committed := tx.value;
      }
      tx := None;
      return fate.commits;
    }

    /** ExecTx; `fates` holds what happens to as many attempts as could be made. */
    method ExecTx(body: D -> BodyResult<D>, numRetries: int, fates: seq<Fate<D>>) returns (r: Outcome, attempts: nat)
      requires tx == None && numRetries <= |fates|
      modifies this
      ensures tx == None && attempts <= |fates|
      ensures Executes(body, numRetries, old(committed), fates[..attempts], r, committed)
    {
      ghost var d := committed;
      attempts := 0;
      while attempts < numRetries
        invariant attempts <= Limit(numRetries)
        invariant tx == None && committed == Found(d, fates[..attempts]) && AllRetried(body, d, fates[..attempts])
      {
        var fate := fates[attempts];
        assert fates[..attempts + 1][..attempts] == fates[..attempts];
        attempts := attempts + 1;
        var begun := BeginTx(fate);
        if !begun {
          return Failed, attempts;
        }
        var error := Query(body, fate);
        if error.Some? {
          Rollback();
          if error.value == Serialization {
            continue;
          }
          return Failed, attempts;
        }
        var done := Commit(fate);
        return if done then Committed else Failed, attempts;
      }
      return RetriesExceeded, attempts;
    }
  }
}
