/**
  The client's token store: at most one current token, kept in a file for paid tokens or a file
  for pending ones, with the file names of an earlier release still on disk at times.
*/
module TokenStore {
  import opened Bytes
  import opened TokenCodec

  /** What reading one token file gives. */
  datatype File = Absent | Unreadable | Holds(hash: Hash, pending: bool)

  datatype Disk = Disk(paid: File, pending: File, oldPaid: File, oldPending: File)

  /** The file CurrentToken reads: the paid one if it exists, else the pending one. */
  function Current(d: Disk): File {
    if d.paid != Absent then d.paid else d.pending
  }

  /**
    How a file write can go: all of it, none of it, only a part before an error or a crash, or
    all of it with an error or a crash right after.
  */
  datatype Fault = Clean | Untouched | Torn | LateError

  function Written(before: File, hash: Hash, pending: bool, fault: Fault): File {
    match fault
    case Clean => Holds(hash, pending)
    case Untouched => before
    case Torn => Unreadable
    case LateError => Holds(hash, pending)
  }

  datatype Outcome = Outcome(disk: Disk, ok: bool)

  /** `removed`: whether the pending file is gone after its token was promoted. */
  function AfterStore(d: Disk, hash: Hash, pending: bool, fault: Fault, removed: bool): Outcome {
    match Current(d)
    case Absent =>
      Outcome(if pending then d.(pending := Written(Absent, hash, true, fault))
              else d.(paid := Written(Absent, hash, false, fault)),
              fault == Clean)
    case Unreadable => Outcome(d, false)
    case Holds(hash0, pending0) =>
      if !pending0 || pending || hash0 != hash then Outcome(d, false)
      else if fault != Clean then Outcome(d.(paid := Written(d.paid, hash, false, fault)), false)
      else Outcome(d.(paid := Holds(hash, false), pending := if removed then Absent else d.pending), true)
  }

  function AfterRemove(d: Disk, works: bool): Outcome {
    if d.pending == Absent || !works then Outcome(d, false) else Outcome(d.(pending := Absent), true)
  }

  function RenamePaid(d: Disk): Disk {
    if d.paid == Absent && d.oldPaid != Absent then d.(paid := d.oldPaid, oldPaid := Absent) else d
  }

  function RenamePending(d: Disk): Disk {
    if d.pending == Absent && d.oldPending != Absent then d.(pending := d.oldPending, oldPending := Absent) else d
  }

  /** Opening the store moves token files from their old names to the current ones. */
  function Open(d: Disk): Disk {
    RenamePending(RenamePaid(d))
  }

  /** Each kind of token is in its own file, and the paid file was migrated. */
  ghost predicate Proper(d: Disk) {
    && (d.paid.Holds? ==> !d.paid.pending)
    && (d.pending.Holds? ==> d.pending.pending)
    && (d.oldPending.Holds? ==> d.oldPending.pending)
    && (d.paid == Absent ==> d.oldPaid == Absent)
  }

  // The one-token machine the store stands for.

  datatype Machine = Empty | Pending(hash: Hash) | Paid(hash: Hash) | Refusing

  function Abstract(d: Disk): Machine {
    match Current(d)
    case Absent => Empty
    case Unreadable => Refusing
    case Holds(hash, pending) => if pending then Pending(hash) else Paid(hash)
  }

  datatype Op =
    | Store(hash: Hash, pending: bool, fault: Fault, removed: bool)
    | Remove(works: bool)
    | Reopen
    | CrashWhileOpening

  function Do(d: Disk, op: Op): Disk {
    match op
    case Store(hash, pending, fault, removed) => AfterStore(d, hash, pending, fault, removed).disk
    case Remove(works) => AfterRemove(d, works).disk
    case Reopen => Open(d)
    case CrashWhileOpening => RenamePaid(d)
  }

  /** Writes are torn only by this operation, if at all. */
  predicate Tears(op: Op) {
    op.Store? && op.fault == Torn
  }

  /**
    The moves of the one-token machine. A paid token stays; a pending one becomes the same token
    paid, is removed, or is overshadowed by a torn paid file; a torn file makes the store refuse,
    until its removal if it is the pending one.
  */
  ghost predicate Moves(m: Machine, m': Machine, op: Op) {
    match m
    case Empty =>
      || m' == Empty
      || (op.Store? && m' == if op.pending then Pending(op.hash) else Paid(op.hash))
      || (m' == Refusing && Tears(op))
      || (op.Reopen? && !m'.Paid?)
    case Pending(h) =>
      || m' == m
      || (m' == Paid(h) && op.Store? && !op.pending && op.hash == h)
      || (m' == Empty && op.Remove?)
      || (m' == Refusing && Tears(op))
    case Paid(h) => m' == m
    case Refusing => m' == m || (m' == Empty && op.Remove?)
  }

  /** The two files refine the one-token machine under every operation, fault and crash. */
  lemma StoreRefinesMachine(d: Disk, op: Op)
    requires Proper(d)
    ensures Proper(Do(d, op))
    ensures Moves(Abstract(d), Abstract(Do(d, op)), op)
  {
  }

  /** When a token is stored: into an empty store, or as the paid form of the pending token there is. */
  lemma StoreSucceedsIff(d: Disk, hash: Hash, pending: bool, fault: Fault, removed: bool)
    ensures var o := AfterStore(d, hash, pending, fault, removed);
            var room := Abstract(d) == Empty || (Abstract(d) == Pending(hash) && !pending);
            && (o.ok <==> fault == Clean && room)
            && (o.ok ==> Abstract(o.disk) == if pending then Pending(hash) else Paid(hash))
            && (!room || fault == Untouched ==> o.disk == d)
            && (room && fault == LateError ==> Abstract(o.disk) == if pending then Pending(hash) else Paid(hash))
            && (room && fault == Torn ==> Abstract(o.disk) == Refusing)
  {
  }

  /** Promotion takes the pending file away, if that works; nothing else touches the files of old names. */
  lemma PromotionRemovesPending(d: Disk, hash: Hash, removed: bool)
    requires Proper(d) && Abstract(d) == Pending(hash)
    ensures var d' := AfterStore(d, hash, false, Clean, removed).disk;
            && d'.pending == (if removed then Absent else d.pending)
            && d'.oldPaid == d.oldPaid && d'.oldPending == d.oldPending
  {
  }

  /** Removing works exactly when there is a pending file, and a paid token does not notice. */
  lemma RemoveSucceedsIff(d: Disk, works: bool)
    ensures var o := AfterRemove(d, works);
            && (o.ok <==> d.pending != Absent && works)
            && o.disk.paid == d.paid && (o.ok ==> o.disk.pending == Absent) && (!o.ok ==> o.disk == d)
            && (o.ok && d.paid == Absent ==> Abstract(o.disk) == Empty)
  {
  }

  function DoAll(d: Disk, ops: seq<Op>): Disk
    decreases |ops|
  {
    if ops == [] then d else DoAll(Do(d, ops[0]), ops[1..])
  }

  /** A paid token is never lost or replaced, whatever is done to the store. */
  lemma {:induction false} PaidIsForever(d: Disk, ops: seq<Op>)
    requires Proper(d) && Abstract(d).Paid?
    ensures Proper(DoAll(d, ops)) && Abstract(DoAll(d, ops)) == Abstract(d)
    decreases |ops|
  {
    if ops != [] {
      StoreRefinesMachine(d, ops[0]);
      PaidIsForever(Do(d, ops[0]), ops[1..]);
    }
  }

  lemma {:induction false} RefusingStays(d: Disk, ops: seq<Op>)
    requires Proper(d) && Abstract(d) == Refusing
    requires forall i :: 0 <= i < |ops| ==> !ops[i].Remove?
    ensures Proper(DoAll(d, ops)) && Abstract(DoAll(d, ops)) == Refusing
    decreases |ops|
  {
    if ops != [] {
      StoreRefinesMachine(d, ops[0]);
      RefusingStays(Do(d, ops[0]), ops[1..]);
    }
  }

  /** A pending token leaves the store only by being paid, removed, or shadowed by a torn file. */
  lemma {:induction false} PendingLeavesOnlyKnown(d: Disk, ops: seq<Op>)
    requires Proper(d) && Abstract(d).Pending?
    requires forall i :: 0 <= i < |ops| ==> !ops[i].Remove?
    ensures Proper(DoAll(d, ops))
    ensures Abstract(DoAll(d, ops)) in {Abstract(d), Paid(Abstract(d).hash), Refusing}
    ensures (forall i :: 0 <= i < |ops| ==> !Tears(ops[i])) ==> Abstract(DoAll(d, ops)) != Refusing
    decreases |ops|
  {
    if ops != [] {
      StoreRefinesMachine(d, ops[0]);
      var d' := Do(d, ops[0]);
      if Abstract(d').Pending? {
        PendingLeavesOnlyKnown(d', ops[1..]);
      } else if Abstract(d').Paid? {
        PaidIsForever(d', ops[1..]);
      } else {
        RefusingStays(d', ops[1..]);
      }
    }
  }

  /** Opening is idempotent, also after a crash between the two renames. */
  lemma OpenIsIdempotent(d: Disk)
    ensures Open(Open(d)) == Open(d)
    ensures Open(RenamePaid(d)) == Open(d)
    ensures Open(d).paid == Absent ==> d.oldPaid == Absent
    ensures Open(d).pending == Absent ==> d.oldPending == Absent
  {
  }

  /** After opening the current token is the first there is: paid before pending, current names before old ones. */
  lemma OpenFindsToken(d: Disk)
    ensures Current(Open(d)) ==
            if d.paid != Absent then d.paid
            else if d.oldPaid != Absent then d.oldPaid
            else if d.pending != Absent then d.pending
            else d.oldPending
  {
  }

  /** No file is lost or doubled by that. */
  lemma OpenKeepsFiles(d: Disk)
    ensures (Open(d).paid, Open(d).oldPaid) == if d.paid == Absent then (d.oldPaid, Absent) else (d.paid, d.oldPaid)
    ensures (Open(d).pending, Open(d).oldPending) ==
            if d.pending == Absent then (d.oldPending, Absent) else (d.pending, d.oldPending)
  {
  }

  // The files themselves.

  datatype Lookup<+M> = NoToken | ReadError | Found(token: Token<M>)

  class FileStore<M(!new)> {
    const codec: MacaroonCodec<M>
    var paid: Option<Bytes>
    var pending: Option<Bytes>
    var oldPaid: Option<Bytes>
    var oldPending: Option<Bytes>

    ghost function ViewOf(file: Option<Bytes>): File {
      match file
      case None => Absent
      case Some(s) =>
        match Deserialize(codec, s)
        case None => Unreadable
        case Some(t) => Holds(t.paymentHash, t.IsPending())
    }

    ghost function View(): Disk
      reads this
    {
      Disk(ViewOf(paid), ViewOf(pending), ViewOf(oldPaid), ViewOf(oldPending))
    }

    /** NewFileStore on a directory with these files. */
    constructor (codec: MacaroonCodec<M>, paid: Option<Bytes>, pending: Option<Bytes>,
                 oldPaid: Option<Bytes>, oldPending: Option<Bytes>)
      ensures this.codec == codec
      ensures View() == Open(Disk(ViewOf(paid), ViewOf(pending), ViewOf(oldPaid), ViewOf(oldPending)))
    {
      this.codec, this.paid, this.pending, this.oldPaid, this.oldPending := codec, paid, pending, oldPaid, oldPending;
      new;
      if this.paid.None? && this.oldPaid.Some? {
        this.paid, this.oldPaid := this.oldPaid, None;
      }
      if this.pending.None? && this.oldPending.Some? {
        this.pending, this.oldPending := this.oldPending, None;
      }
    }

    function CurrentFile(): Option<Bytes>
      reads this
    {
      if paid.Some? then paid else pending
    }

    /** The paid file is read if it exists, else the pending one; a token comes back with all its fields. */
    method CurrentToken() returns (r: Lookup<M>)
      ensures match Current(View())
              case Absent => r == NoToken
              case Unreadable => r == ReadError
              case Holds(hash, isPending) =>
                r.Found? && r.token.paymentHash == hash && r.token.IsPending() == isPending
      ensures r.Found? ==> CurrentFile().Some? && Deserialize(codec, CurrentFile().value) == Some(r.token)
    {
      var file := if paid.Some? then paid else pending;
      if file.None? {
        return NoToken;
      }
      var t := DeserializeToken(codec, file.value);
      return if t.None? then ReadError else Found(t.value);
    }

    /** os.WriteFile: `cut` is how much reaches the disk when the write is torn. */
    method WriteFile(token: Token<M>, before: Option<Bytes>, fault: Fault, cut: nat)
      returns (file: Option<Bytes>, ok: bool)
      requires Lawful(codec) && |codec.marshal(token.mac)| < 0x1_0000_0000
      requires fault == Torn ==> cut < |Serialize(codec, token)|
      ensures ok <==> fault == Clean
      ensures ViewOf(file) == Written(ViewOf(before), token.paymentHash, token.IsPending(), fault)
      ensures ok ==> file.Some? && Deserialize(codec, file.value) == Some(token)
    {
      var bytes := Serialize(codec, token);
      ReadBack(codec, token);
      ok := fault == Clean;
      match fault {
        case Untouched => file := before;
        case Torn =>
          StrictPrefixRejected(codec, token, cut);
          file := Some(bytes[..cut]);
        case _ => file := Some(bytes);
      }
    }

    method StoreToken(token: Token<M>, fault: Fault, cut: nat, removeWorks: bool) returns (ok: bool)
      requires Lawful(codec) && |codec.marshal(token.mac)| < 0x1_0000_0000
      requires fault == Torn ==> cut < |Serialize(codec, token)|
      modifies this
      ensures Outcome(View(), ok) ==
              AfterStore(old(View()), token.paymentHash, token.IsPending(), fault, removeWorks)
      ensures ok ==> CurrentFile().Some? && Deserialize(codec, CurrentFile().value) == Some(token)
    {
      var current := CurrentToken();
      match current {
        case NoToken =>
          if token.IsPending() {
            pending, ok := WriteFile(token, pending, fault, cut);
          } else {
            paid, ok := WriteFile(token, paid, fault, cut);
          }
        case ReadError => ok := false;
        case Found(t) =>
          if !t.IsPending() || token.IsPending() || t.paymentHash != token.paymentHash {
            return false;
          }
          paid, ok := WriteFile(token, paid, fault, cut);
          if ok && removeWorks {
            pending := None;
          }
      }
    }

    method RemovePendingToken(works: bool) returns (ok: bool)
      modifies this
      ensures Outcome(View(), ok) == AfterRemove(old(View()), works)
    {
      if pending.None? || !works {
        return false;
      }
      pending := None;
      return true;
    }
  }
}
