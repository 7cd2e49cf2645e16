/**
 * The hard quota of the research replica: bytes and writes are reserved by three separate
 * statements before the object store is written, by any number of interleaved ingests, each of
 * which may fail at any point.
 */
module ReplicaQuota {
  import opened Basics

  const MAX_STORED_BYTES := 9_800_000_000
  const MAX_MONTHLY_WRITES := 990_000

  // ---------------------------------------------------------------------------------------
  // The usage row and its three statements
  // ---------------------------------------------------------------------------------------

  /** `period` numbers the month; there is at most one row. */
  datatype Usage = Usage(period: int, storedBytes: nat, writeOps: nat)

  /** INSERT OR IGNORE. */
  function Open(u: Option<Usage>, period: int): Option<Usage> {
    if u.None? then Some(Usage(period, 0, 0)) else u
  }

  /** A new month resets the write count. */
  function Roll(u: Option<Usage>, period: int): Option<Usage> {
    match u
    case Some(row) => if row.period != period then Some(Usage(period, row.storedBytes, 0)) else u
    case None => None
  }

  predicate Fits(u: Option<Usage>, bytes: nat, writes: nat) {
    && u.Some?
    && u.value.storedBytes + bytes <= MAX_STORED_BYTES
    && u.value.writeOps + writes <= MAX_MONTHLY_WRITES
  }

  /** The conditional increment; without a changed row the caller is rate limited. */
  function Charge(u: Option<Usage>, bytes: nat, writes: nat): Option<Usage> {
    if Fits(u, bytes, writes)
    then Some(u.value.(storedBytes := u.value.storedBytes + bytes, writeOps := u.value.writeOps + writes))
    else u
  }

  /** The three statements run one after another. */
  function Reserve(u: Option<Usage>, period: int, bytes: nat, writes: nat): Option<Usage> {
    Charge(Roll(Open(u, period), period), bytes, writes)
  }

  predicate Granted(u: Option<Usage>, period: int, bytes: nat, writes: nat) {
    Fits(Roll(Open(u, period), period), bytes, writes)
  }

  predicate WithinQuota(u: Option<Usage>) {
    u.Some? ==> u.value.storedBytes <= MAX_STORED_BYTES && u.value.writeOps <= MAX_MONTHLY_WRITES
  }

  // ---------------------------------------------------------------------------------------
  // Sums over maps
  // ---------------------------------------------------------------------------------------

  ghost function Sum<K>(m: map<K, nat>): nat
    decreases |m|
  {
    if m == map[] then 0 else
      var k :| k in m;
      assert |m - {k}| < |m| by { assert (m - {k}).Keys == m.Keys - {k}; }
      m[k] + Sum(m - {k})
  }

  lemma {:induction false} SumWithout<K>(m: map<K, nat>, k: K)
    requires k in m
    ensures Sum(m) == m[k] + Sum(m - {k})
    decreases |m|
  {
    var l :| l in m && Sum(m) == m[l] + Sum(m - {l});
    if l != k {
      assert |m - {l}| < |m| by { assert (m - {l}).Keys == m.Keys - {l}; }
      SumWithout(m - {l}, k);
      assert |m - {k}| < |m| by { assert (m - {k}).Keys == m.Keys - {k}; }
      SumWithout(m - {k}, l);
      assert m - {l} - {k} == m - {k} - {l};
    }
  }

  function At<K>(m: map<K, nat>, k: K): nat { if k in m then m[k] else 0 }

  lemma {:induction false} SumUpdate<K>(m: map<K, nat>, k: K, v: nat)
    ensures Sum(m[k := v]) == Sum(m) - At(m, k) + v
  {
    var n := m[k := v];
    SumWithout(n, k);
    assert n - {k} == m - {k};
    if k in m { SumWithout(m, k); } else { assert m - {k} == m; }
  }

  // ---------------------------------------------------------------------------------------
  // Interleaved ingests
  // ---------------------------------------------------------------------------------------

  datatype Blob = Blob(hash: int, bytes: nat)

  /** Program points of one ingest; each is followed by one storage access. */
  datatype Point = Checking | Opening | Rolling | Reserving | PuttingJournal | PuttingObject | Committing | Ended

  /** `epoch` is the reset under which the reservation was made. */
  datatype Ingest = Ingest(message: int, journal: nat, blob: Option<Blob>, period: int, at: Point, epoch: nat)

  /**
   * History besides the storage: `epoch` counts resets of the write count; `puts` counts the
   * writes reserved since the last one and made; `granted` and `made` hold, month by month, the
   * writes granted to the ingests dated in it and the ones these have made.
   */
  datatype World = World(
    usage: Option<Usage>, journals: map<int, nat>, objects: map<int, nat>, recorded: set<int>,
    ingests: map<int, Ingest>, epoch: nat, puts: nat, granted: map<int, nat>, made: map<int, nat>)

  function Bytes(i: Ingest): nat { i.journal + if i.blob.Some? then i.blob.value.bytes else 0 }

  function Writes(i: Ingest): nat { if i.blob.Some? then 2 else 1 }

  /** Reserved but not yet written. */
  function PendingBytes(i: Ingest): nat {
    match i.at
    case PuttingJournal => Bytes(i)
    case PuttingObject => Bytes(i) - i.journal
    case _ => 0
  }

  function PendingPuts(i: Ingest, epoch: nat): nat {
    if i.epoch != epoch then 0
    else match i.at
      case PuttingJournal => Writes(i)
      case PuttingObject => 1
      case _ => 0
  }

  function Pending(w: World): map<int, nat> { map c | c in w.ingests :: PendingBytes(w.ingests[c]) }

  function PendingWrites(w: World): map<int, nat> { map c | c in w.ingests :: PendingPuts(w.ingests[c], w.epoch) }

  function Move(w: World, c: int, i: Ingest): World { w.(ingests := w.ingests[c := i]) }

  function Plus(m: map<int, nat>, k: int, v: nat): map<int, nat> { m[k := At(m, k) + v] }

  predicate Grants(w: World, i: Ingest) { i.at == Reserving && Fits(w.usage, Bytes(i), Writes(i)) }

  /** The ingest after its access. */
  function Moved(w: World, i: Ingest): Ingest {
    match i.at
    case Checking => i.(at := if i.message in w.recorded then Ended else Opening)
    case Opening => i.(at := Rolling)
    case Rolling => i.(at := Reserving)
    case Reserving => if Grants(w, i) then i.(at := PuttingJournal, epoch := w.epoch) else i.(at := Ended)
    case PuttingJournal => i.(at := if i.blob.Some? then PuttingObject else Committing)
    case PuttingObject => if i.blob.None? then i else i.(at := Committing)
    case Committing => i.(at := Ended)
    case Ended => i
  }

  /** The next access of ingest `c`. */
  function Access(w: World, c: int): World
    requires c in w.ingests
  {
    var i := w.ingests[c];
    var v := Move(w, c, Moved(w, i));
    var puts := if i.epoch == w.epoch then w.puts + 1 else w.puts;
    match i.at
    case Opening => v.(usage := Open(w.usage, i.period))
    case Rolling =>
      var reset := w.usage.Some? && w.usage.value.period != i.period;
      v.(usage := Roll(w.usage, i.period), epoch := if reset then w.epoch + 1 else w.epoch,
         puts := if reset then 0 else w.puts)
    case Reserving =>
      if Grants(w, i)
      then v.(usage := Charge(w.usage, Bytes(i), Writes(i)), granted := Plus(w.granted, i.period, Writes(i)))
      else v
    case PuttingJournal =>
      v.(journals := w.journals[i.message := i.journal], puts := puts, made := Plus(w.made, i.period, 1))
    case PuttingObject =>
      if i.blob.None? then v
      else v.(objects := w.objects[i.blob.value.hash := i.blob.value.bytes], puts := puts,
              made := Plus(w.made, i.period, 1))
    case Committing => v.(recorded := w.recorded + {i.message})
    case _ => v
  }

  /** A new ingest, an access, or a failure that ends an ingest where it stands. */
  ghost predicate Step(w: World, v: World) {
    || (exists c, i: Ingest :: c !in w.ingests && i.at == Checking && v == Move(w, c, i))
    || (exists c :: c in w.ingests && v == Access(w, c))
    || (exists c :: c in w.ingests && v == Move(w, c, w.ingests[c].(at := Ended)))
  }

  ghost predicate Start(w: World) {
    && WithinQuota(w.usage) && w.ingests == map[]
    && Sum(w.journals) + Sum(w.objects) <= (if w.usage.Some? then w.usage.value.storedBytes else 0)
    && w.puts <= (if w.usage.Some? then w.usage.value.writeOps else 0)
  }

  ghost predicate Run(run: seq<World>) {
    run != [] && Start(run[0]) && forall n :: 0 <= n < |run| - 1 ==> Step(run[n], run[n + 1])
  }

  function Stored(u: Option<Usage>): nat { if u.Some? then u.value.storedBytes else 0 }

  function Ops(u: Option<Usage>): nat { if u.Some? then u.value.writeOps else 0 }

  predicate Consistent(w: World) {
    && (forall c :: c in w.ingests && w.ingests[c].at == PuttingObject ==> w.ingests[c].blob.Some?)
    && (forall c :: c in w.ingests && w.ingests[c].at in {PuttingJournal, PuttingObject} ==>
          w.ingests[c].epoch <= w.epoch)
  }

  /** Everything held or still to be written is covered by the reservations. */
  ghost predicate Covered(w: World) {
    && WithinQuota(w.usage) && Consistent(w)
    && Sum(w.journals) + Sum(w.objects) + Sum(Pending(w)) <= Stored(w.usage)
    && w.puts + Sum(PendingWrites(w)) <= Ops(w.usage)
  }

  /** Moving one ingest changes one entry of the pending sums. */
  lemma {:induction false} MoveEffect(w: World, c: int, i: Ingest)
    ensures Sum(Pending(Move(w, c, i)))
         == Sum(Pending(w)) - (if c in w.ingests then PendingBytes(w.ingests[c]) else 0) + PendingBytes(i)
    ensures Sum(PendingWrites(Move(w, c, i)))
         == Sum(PendingWrites(w)) - (if c in w.ingests then PendingPuts(w.ingests[c], w.epoch) else 0)
            + PendingPuts(i, w.epoch)
  {
    hide PendingBytes, PendingPuts, Sum;
    assert Pending(Move(w, c, i)) == Pending(w)[c := PendingBytes(i)];
    SumUpdate(Pending(w), c, PendingBytes(i));
    assert PendingWrites(Move(w, c, i)) == PendingWrites(w)[c := PendingPuts(i, w.epoch)];
    SumUpdate(PendingWrites(w), c, PendingPuts(i, w.epoch));
  }

  lemma {:induction false} SumZero<K>(m: map<K, nat>)
    requires forall k :: k in m ==> m[k] == 0
    ensures Sum(m) == 0
    decreases |m|
  {
    if m != map[] {
      var k :| k in m;
      assert |m - {k}| < |m| by { assert (m - {k}).Keys == m.Keys - {k}; }
      SumWithout(m, k);
      SumZero(m - {k});
    }
  }

  lemma {:induction false} BeginKeepsCovered(w: World, c: int, i: Ingest)
    requires Covered(w) && c !in w.ingests && i.at == Checking
    ensures Covered(Move(w, c, i))
  {
    hide Sum;
    MoveEffect(w, c, i);
  }

  lemma {:induction false} FailureKeepsCovered(w: World, c: int)
    requires Covered(w) && c in w.ingests
    ensures Covered(Move(w, c, w.ingests[c].(at := Ended)))
  {
    hide Sum;
    MoveEffect(w, c, w.ingests[c].(at := Ended));
  }

  /** Under a fresh epoch nothing is pending yet. */
  lemma {:induction false} RollKeepsCovered(w: World, c: int)
    requires Covered(w) && c in w.ingests && w.ingests[c].at == Rolling
    ensures Covered(Access(w, c))
  {
    hide Sum;
    var i, v := w.ingests[c], Access(w, c);
    var moved := Move(w, c, i.(at := Reserving));
    MoveEffect(w, c, i.(at := Reserving));
    assert Pending(v) == Pending(moved);
    if v.epoch == w.epoch {
      assert PendingWrites(v) == PendingWrites(moved);
    } else {
      assert forall d :: d in v.ingests ==> PendingPuts(v.ingests[d], v.epoch) == 0;
      SumZero(PendingWrites(v));
    }
  }

  lemma {:induction false} PutsKeepCovered(w: World, c: int)
    requires Covered(w) && c in w.ingests && (w.ingests[c].at == PuttingJournal || w.ingests[c].at == PuttingObject)
    ensures Covered(Access(w, c))
  {
    hide Sum;
    var i, v := w.ingests[c], Access(w, c);
    MoveEffect(w, c, v.ingests[c]);
    SamePending(Move(w, c, v.ingests[c]), v);
    if i.at == PuttingJournal {
      SumUpdate(w.journals, i.message, i.journal);
    } else {
      SumUpdate(w.objects, i.blob.value.hash, i.blob.value.bytes);
    }
  }

  lemma {:induction false} ChargeKeepsCovered(w: World, c: int)
    requires Covered(w) && c in w.ingests && w.ingests[c].at == Reserving
    ensures Covered(Access(w, c))
  {
    hide Sum, Pending, PendingWrites;
    var i, v := w.ingests[c], Access(w, c);
    MoveEffect(w, c, v.ingests[c]);
    SamePending(Move(w, c, v.ingests[c]), v);
    if Grants(w, i) {
      assert v.usage == Charge(w.usage, Bytes(i), Writes(i));
    } else {
      assert v.usage == w.usage;
    }
  }

  lemma {:induction false} SamePending(w: World, v: World)
    requires v.ingests == w.ingests && v.epoch == w.epoch
    ensures Pending(v) == Pending(w) && PendingWrites(v) == PendingWrites(w)
  {
    hide PendingBytes, PendingPuts;
  }

  lemma {:induction false} StatementsKeepCovered(w: World, c: int)
    requires Covered(w) && c in w.ingests
    requires w.ingests[c].at in {Checking, Opening, Committing, Ended}
    ensures Covered(Access(w, c))
  {
    hide Sum;
    var v := Access(w, c);
    MoveEffect(w, c, v.ingests[c]);
    SamePending(Move(w, c, v.ingests[c]), v);
  }

  lemma {:induction false} StepKeepsCovered(w: World, v: World)
    requires Covered(w) && Step(w, v)
    ensures Covered(v)
  {
    hide Covered, Access, Move;
    if c, i: Ingest :| c !in w.ingests && i.at == Checking && v == Move(w, c, i) {
      BeginKeepsCovered(w, c, i);
    } else if c :| c in w.ingests && v == Access(w, c) {
      match w.ingests[c].at
      case Rolling => RollKeepsCovered(w, c);
      case PuttingJournal => PutsKeepCovered(w, c);
      case PuttingObject => PutsKeepCovered(w, c);
      case Reserving => ChargeKeepsCovered(w, c);
      case _ => StatementsKeepCovered(w, c);
    } else {
      var c :| c in w.ingests && v == Move(w, c, w.ingests[c].(at := Ended));
      FailureKeepsCovered(w, c);
    }
  }

  lemma {:induction false} StartIsCovered(w: World)
    requires Start(w)
    ensures Covered(w)
  {
    hide Sum;
    SumZero(Pending(w));
    SumZero(PendingWrites(w));
  }

  /**
   * Quota bound: through any interleaving of ingests and any failures, the bytes held never
   * exceed the reserved bytes, nor these the limit; the writes made under reservations since the
   * last monthly reset never exceed the count, nor this the limit.
   */
  lemma {:induction false} QuotaHolds(run: seq<World>, n: nat)
    requires Run(run) && n < |run|
    ensures Covered(run[n])
    ensures Sum(run[n].journals) + Sum(run[n].objects) <= Stored(run[n].usage) <= MAX_STORED_BYTES
    ensures run[n].puts <= Ops(run[n].usage) <= MAX_MONTHLY_WRITES
    decreases n
  {
    hide Step, Sum;
    if n == 0 {
      StartIsCovered(run[0]);
    } else {
      QuotaHolds(run, n - 1);
      assert Step(run[n - 1], run[n - 1 + 1]);
      StepKeepsCovered(run[n - 1], run[n]);
    }
  }
}
