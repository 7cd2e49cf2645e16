/**
 * What an ingest stores against what it reserves: the bytes the replica really holds, journals and
 * objects, never exceed the reserved count, nor this the hard limit, over every run with crashes.
 */
module ReplicaUsage {
  import opened Basics
  import opened ReplicaQuota
  import opened ReplicaTables
  import opened ReplicaIngest

  /** The row before the charge: the stored bytes, and the writes if they are of this month. */
  function OpsOf(u: Option<Usage>, period: int): nat {
    if u.Some? && u.value.period == period then u.value.writeOps else 0
  }

  /** An object record carries the bytes its manifest names. */
  function BodyOf(r: Record): seq<Byte> {
    if r.kind == OBJECT && r.payload.manifest.Some? then r.payload.manifest.value.hash.content else []
  }

  /** The envelope is genuine: its id is that of its content, and what it claims its payload says too. */
  predicate Genuine(r: Record) {
    && r.id.schema == r.schema && r.id.kind == r.kind && r.id.key == r.key && r.id.payload == r.payload
    && (r.kind == DOCUMENT_VERSION || r.visibility == r.payload.visibility)
    && (r.kind == OBJECT ==> r.payload.manifest.Some?)
  }

  /** The chunks are the ones the manifest names, one by one and together. */
  predicate Carries(m: Manifest, chunks: seq<seq<Byte>>) {
    && |m.chunkHashes| == |chunks| && (forall i :: 0 <= i < |chunks| ==> m.chunkHashes[i].content == chunks[i])
    && m.hash.content == Flatten(chunks) && m.byteSize == |m.hash.content|
  }

  /** Which deliveries are accepted, and with which fault the others are refused. */
  lemma {:induction false} AcceptedIff(d: Delivery)
    ensures var r, chunks := d.record, if d.chunks.Some? then d.chunks.value else [];
      var unasked := r.kind != OBJECT && d.chunks.Some?;
      var undated := r.kind == ACCUMULATOR && !(r.payload.subject.Some? && r.payload.createdAt.Some?);
      var genuine := Genuine(r) && (r.kind == OBJECT ==> Carries(r.payload.manifest.value, chunks));
      Refusal(d) == if genuine && !unasked && !undated then None
                    else if genuine && unasked then Some(UNSUPPORTED_OPERATION)
                    else Some(INTEGRITY_FAILED)
  {
    hide Flatten;
    if d.record.kind == OBJECT && d.record.payload.manifest.Some? {
      var m, chunks := d.record.payload.manifest.value, Supplied(d);
      assert |m.chunkHashes| == |chunks| ==> forall i :: 0 <= i < |chunks| ==>
        (Sha(chunks[i]) == m.chunkHashes[i] <==> m.chunkHashes[i].content == chunks[i]);
    }
  }

  /** What is answered before anything is reserved; nothing changes. */
  lemma {:induction false} AnsweredAtOnce(s: Replica, d: Delivery, at: Moment, crash: Crash)
    requires Refusal(d).Some? || d.record.id in s.tables.messages || crash == BeforeReserve
    ensures IngestOnce(s, d, at, crash)
      == (s, if Refusal(d).Some? then Failed(Refusal(d).value)
             else if d.record.id in s.tables.messages then Replayed else Failed(STORE_UNAVAILABLE))
  {
    hide Refusal, Store;
  }

  lemma {:induction false} FlatBody(d: Delivery)
    requires Refusal(d).None?
    ensures IsObject(d.record) <==> d.record.kind == OBJECT
    ensures IsObject(d.record) ==> Flatten(Supplied(d)) == BodyOf(d.record)
    ensures !IsObject(d.record) ==> BodyOf(d.record) == []
  {
    hide Flatten;
    AcceptedRecord(d);
    if IsObject(d.record) { AcceptedObject(d); }
  }

  /** Everything an attempt on a new message leaves behind, by the point at which it stops. */
  lemma {:induction false} IngestOutcome(s: Replica, d: Delivery, at: Moment, crash: Crash)
    requires Refusal(d).None? && d.record.id !in s.tables.messages && crash != BeforeReserve
    ensures var (t, answer) := IngestOnce(s, d, at, crash);
      var r, isObject := d.record, d.record.kind == OBJECT;
      var bytes := d.journalBytes + |BodyOf(r)|;
      var writes := if isObject then 2 else 1;
      var stored, ops := Stored(s.usage), OpsOf(s.usage, at.period);
      if stored + bytes > 9_800_000_000 || ops + writes > 990_000 then
        answer == Failed(RATE_LIMITED) && t == s.(usage := Some(Usage(at.period, stored, ops)))
      else
        && t.usage == Some(Usage(at.period, stored + bytes, ops + writes))
        && t.journals == (if crash == AfterReserve then s.journals
                          else s.journals[r.id := Journal(r, d.journalBytes)])
        && t.blobs == (if isObject && crash != AfterReserve && crash != AfterJournal
                       then s.blobs[r.payload.manifest.value.hash := BodyOf(r)] else s.blobs)
        && t.tables == (if crash == NoCrash || crash == AfterCommit then Commit(s.tables, r, at.now) else s.tables)
        && t.accepted == (if crash == NoCrash then s.accepted + 1 else s.accepted)
        && answer == (if crash == NoCrash then Applied else Failed(STORE_UNAVAILABLE))
  {
    hide Refusal, Commit, Flatten, Verified, BodyOf;
    FlatBody(d);
    AcceptedRecord(d);
    ObjectHasManifest(d.record);
  }

  lemma {:induction false} ObjectHasManifest(r: Record)
    requires Verified(r)
    ensures r.kind == OBJECT ==> r.payload.manifest.Some?
  {
  }

  /** Only an attempt that runs through is APPLIED, and it reserves exactly what it stores. */
  lemma {:induction false} AppliedReservesItsBytes(s: Replica, d: Delivery, at: Moment, crash: Crash)
    requires IngestOnce(s, d, at, crash).1 == Applied
    ensures var t, isObject := IngestOnce(s, d, at, crash).0, d.record.kind == OBJECT;
      && Stored(t.usage) == Stored(s.usage) + d.journalBytes
           + (if isObject then |d.record.payload.manifest.value.hash.content| else 0)
      && Ops(t.usage) == OpsOf(s.usage, at.period) + (if isObject then 2 else 1)
      && d.record.id !in s.tables.messages && d.record.id in t.tables.messages
  {
    hide Store, Reserve, Granted, Refusal, Flatten;
    NotReplayed(s, d, at, crash);
    IngestOutcome(s, d, at, crash);
    CommitRecords(s.tables, d.record, at.now);
    AcceptedRecord(d);
  }

  lemma {:induction false} NotReplayed(s: Replica, d: Delivery, at: Moment, crash: Crash)
    requires IngestOnce(s, d, at, crash).1 == Applied
    ensures Refusal(d).None? && d.record.id !in s.tables.messages && crash != BeforeReserve
  {
    hide Store, Reserve, Granted, Refusal;
  }

  lemma {:induction false} CommitRecords(t: Tables, r: Record, now: int)
    ensures r.id in Commit(t, r, now).messages
  {
  }

  // ---------------------------------------------------------------------------------------
  // What is held
  // ---------------------------------------------------------------------------------------

  function JournalSizes(s: Replica): map<MessageId, nat> { map id | id in s.journals :: s.journals[id].bytes }

  function BlobSizes(s: Replica): map<Hash, nat> { map h | h in s.blobs :: |s.blobs[h]| }

  ghost function Held(s: Replica): nat { Sum(JournalSizes(s)) + Sum(BlobSizes(s)) }

  ghost predicate Covers(s: Replica) {
    Held(s) <= Stored(s.usage) <= 9_800_000_000 && Ops(s.usage) <= 990_000
  }

  lemma {:induction false} HeldAfterPuts(s: Replica, t: Replica, id: MessageId, j: Journal, h: Hash, body: seq<Byte>)
    requires t.journals in {s.journals, s.journals[id := j]} && t.blobs in {s.blobs, s.blobs[h := body]}
    ensures Held(t) <= Held(s) + j.bytes + if t.blobs == s.blobs then 0 else |body|
  {
    hide Sum;
    if t.journals == s.journals {
      assert JournalSizes(t) == JournalSizes(s);
    } else {
      assert JournalSizes(t) == JournalSizes(s)[id := j.bytes];
      SumUpdate(JournalSizes(s), id, j.bytes);
    }
    if t.blobs == s.blobs {
      assert BlobSizes(t) == BlobSizes(s);
    } else {
      assert BlobSizes(t) == BlobSizes(s)[h := |body|];
      SumUpdate(BlobSizes(s), h, |body|);
    }
  }

  lemma {:induction false} AttemptKeepsCovers(s: Replica, d: Delivery, at: Moment, crash: Crash)
    requires Covers(s)
    ensures Covers(IngestOnce(s, d, at, crash).0)
  {
    hide Store, Reserve, Granted, Refusal, Flatten, Held, BodyOf;
    if Refusal(d).None? && d.record.id !in s.tables.messages && crash != BeforeReserve {
      var t := IngestOnce(s, d, at, crash).0;
      IngestOutcome(s, d, at, crash);
      ObjectHasManifest(d.record) by { AcceptedRecord(d); }
      var h := if d.record.kind == OBJECT then d.record.payload.manifest.value.hash else Sha([]);
      if t.journals == s.journals && t.blobs == s.blobs { SameHeld(s, t); }
      HeldAfterPuts(s, t, d.record.id, Journal(d.record, d.journalBytes), h, BodyOf(d.record));
    }
  }

  lemma {:induction false} SameHeld(s: Replica, t: Replica)
    requires t.journals == s.journals && t.blobs == s.blobs
    ensures Held(t) == Held(s)
  {
    assert JournalSizes(t) == JournalSizes(s) && BlobSizes(t) == BlobSizes(s);
  }

  /**
   * Over every run of ingests with crashes, from an empty replica on: the journals and objects
   * held take no more bytes than are counted as stored, and these no more than the limit.
   */
  lemma {:induction false} HeldBytesAreReserved(s: Replica, attempts: seq<Attempt>)
    requires Covers(s)
    ensures Covers(IngestAll(s, attempts))
  {
    hide IngestOnce, Covers;
    if attempts != [] {
      var a := attempts[|attempts| - 1];
      HeldBytesAreReserved(s, attempts[..|attempts| - 1]);
      AttemptKeepsCovers(IngestAll(s, attempts[..|attempts| - 1]), a.delivery, a.at, a.crash);
    }
  }

  lemma {:induction false} EmptyIsCovered(usage: Option<Usage>)
    requires WithinQuota(usage)
    ensures Covers(Replica(usage, map[], map[], EMPTY, 0))
  {
    var s := Replica(usage, map[], map[], EMPTY, 0);
    assert JournalSizes(s) == map[] && BlobSizes(s) == map[];
  }

  // ---------------------------------------------------------------------------------------
  // The interleaved machine, one ingest alone
  // ---------------------------------------------------------------------------------------

  function Accesses(w: World, c: int, n: nat): (v: World)
    requires c in w.ingests
    ensures c in v.ingests
  {
    if n == 0 then w else Access(Accesses(w, c, n - 1), c)
  }

  /** The bytes and writes of an ingest, read from its fields. */
  function Need(i: Ingest): (nat, nat) {
    match i.blob case None => (i.journal, 1) case Some(b) => (i.journal + b.bytes, 2)
  }

  /**
   * Seven accesses take a new ingest to its end: a recorded message changes nothing; one that does
   * not fit leaves the opened row of its month; any other is charged, stored and recorded.
   */
  lemma {:induction false} LoneIngestEnds(w: World, c: int)
    requires c in w.ingests && w.ingests[c].at == Checking
    ensures var i, v := w.ingests[c], Accesses(w, c, 7);
      var (bytes, writes) := Need(i);
      var stored, ops := Stored(w.usage), OpsOf(w.usage, i.period);
      && v.ingests[c].at == Ended
      && (if i.message in w.recorded then v == Move(w, c, i.(at := Ended))
          else if stored + bytes > 9_800_000_000 || ops + writes > 990_000 then
            && v.usage == Some(Usage(i.period, stored, ops)) && v.journals == w.journals && v.objects == w.objects
            && v.recorded == w.recorded && v.granted == w.granted && v.made == w.made
          else
            && v.usage == Some(Usage(i.period, stored + bytes, ops + writes))
            && v.journals == w.journals[i.message := i.journal]
            && v.objects == (if i.blob.Some? then w.objects[i.blob.value.hash := i.blob.value.bytes] else w.objects)
            && v.recorded == w.recorded + {i.message}
            && At(v.granted, i.period) == At(w.granted, i.period) + writes
            && At(v.made, i.period) == At(w.made, i.period) + writes
            && v.epoch == (if w.usage.Some? && w.usage.value.period != i.period then w.epoch + 1 else w.epoch)
            && v.puts == (if v.epoch == w.epoch then w.puts else 0) + writes)
  {
    hide Access;
    var a := Accesses(w, c, 1);
    assert Accesses(w, c, 0) == w;
    BeforeCharge(w, c);
    if w.ingests[c].message in w.recorded {
      EndedStays(w, c, 1, 7);
    } else {
      ChargedAndStored(Accesses(w, c, 3), c);
      assert Accesses(w, c, 7) == Accesses(Accesses(w, c, 3), c, 4) by { AccessesAdd(w, c, 3, 4); }
    }
  }

  lemma {:induction false} AccessesAdd(w: World, c: int, m: nat, n: nat)
    requires c in w.ingests
    ensures Accesses(w, c, m + n) == Accesses(Accesses(w, c, m), c, n)
  {
    hide Access;
    if n > 0 {
      AccessesAdd(w, c, m, n - 1);
      assert m + n - 1 == m + (n - 1);
    }
  }

  lemma {:induction false} EndedStays(w: World, c: int, n: nat, m: nat)
    requires c in w.ingests && n <= m && Accesses(w, c, n).ingests[c].at == Ended
    ensures Accesses(w, c, m) == Accesses(w, c, n)
    decreases m - n
  {
    hide Access;
    if n < m {
      EndedIsLeft(Accesses(w, c, n), c);
      assert Accesses(w, c, n + 1) == Access(Accesses(w, c, n), c);
      EndedStays(w, c, n + 1, m);
    }
  }

  lemma {:induction false} EndedIsLeft(w: World, c: int)
    requires c in w.ingests && w.ingests[c].at == Ended
    ensures Access(w, c) == w
  {
    assert w.ingests[c := w.ingests[c]] == w.ingests;
  }

  lemma {:induction false} BeforeCharge(w: World, c: int)
    requires c in w.ingests && w.ingests[c].at == Checking
    ensures var i := w.ingests[c];
      if i.message in w.recorded then Access(w, c) == Move(w, c, i.(at := Ended))
      else
        var v := Accesses(w, c, 3);
        && v.ingests[c] == i.(at := Reserving)
        && v.usage == Some(Usage(i.period, Stored(w.usage), OpsOf(w.usage, i.period)))
        && v.journals == w.journals && v.objects == w.objects && v.recorded == w.recorded
        && v.granted == w.granted && v.made == w.made
        && v.epoch == (if w.usage.Some? && w.usage.value.period != i.period then w.epoch + 1 else w.epoch)
        && v.puts == (if v.epoch == w.epoch then w.puts else 0)
  {
    var a := Access(w, c);
    if w.ingests[c].message !in w.recorded {
      var b := Access(a, c);
      assert Accesses(w, c, 1) == a && Accesses(w, c, 2) == b;
    }
  }

  lemma {:induction false} ChargedAndStored(w: World, c: int)
    requires c in w.ingests && w.ingests[c].at == Reserving && w.usage.Some?
    ensures var i, v := w.ingests[c], Accesses(w, c, 4);
      var (bytes, writes) := Need(i);
      && v.ingests[c].at == Ended
      && (if w.usage.value.storedBytes + bytes > 9_800_000_000 || w.usage.value.writeOps + writes > 990_000 then
            && v.usage == w.usage && v.journals == w.journals && v.objects == w.objects
            && v.recorded == w.recorded && v.granted == w.granted && v.made == w.made
          else
            && v.usage == Some(Usage(w.usage.value.period, w.usage.value.storedBytes + bytes,
                                     w.usage.value.writeOps + writes))
            && Puts(w, v, i) && v.granted == Plus(w.granted, i.period, writes))
  {
    hide Access, Accesses, Plus, At;
    var a := Access(w, c);
    OneAccess(w, c);
    ChargeIsMade(w, c);
    AccessesAdd(w, c, 1, 3);
    if a.ingests[c].at == Ended {
      EndedForGood(a, c);
    } else {
      PutsAreMade(a, c);
      SamePuts(w, a, Accesses(a, c, 3), w.ingests[c], a.ingests[c]);
    }
  }

  lemma {:induction false} OneAccess(w: World, c: int)
    requires c in w.ingests
    ensures Accesses(w, c, 1) == Access(w, c)
  {
    assert Accesses(w, c, 0) == w;
  }

  lemma {:induction false} EndedForGood(w: World, c: int)
    requires c in w.ingests && w.ingests[c].at == Ended
    ensures Accesses(w, c, 3) == w
  {
    hide Access;
    assert Accesses(w, c, 0) == w;
    EndedStays(w, c, 0, 3);
  }

  lemma {:induction false} SamePuts(w: World, a: World, v: World, i: Ingest, j: Ingest)
    requires a.journals == w.journals && a.objects == w.objects && a.recorded == w.recorded && a.made == w.made
    requires a.epoch == w.epoch && a.puts == w.puts && j == i.(at := j.at, epoch := j.epoch) && Puts(a, v, j)
    ensures Puts(w, v, i)
  {
  }

  lemma {:induction false} ChargeIsMade(w: World, c: int)
    requires c in w.ingests && w.ingests[c].at == Reserving && w.usage.Some?
    ensures var i, a := w.ingests[c], Access(w, c);
      var (bytes, writes) := Need(i);
      var row := w.usage.value;
      var fits := row.storedBytes + bytes <= 9_800_000_000 && row.writeOps + writes <= 990_000;
      && a.journals == w.journals && a.objects == w.objects && a.recorded == w.recorded && a.made == w.made
      && a.epoch == w.epoch && a.puts == w.puts
      && a.ingests[c] == (if fits then i.(at := PuttingJournal, epoch := w.epoch) else i.(at := Ended))
      && a.usage == (if fits then Some(Usage(row.period, row.storedBytes + bytes, row.writeOps + writes)) else w.usage)
      && a.granted == (if fits then Plus(w.granted, i.period, writes) else w.granted)
  {
  }

  /** What the puts and the commit of an ingest change. */
  predicate Puts(w: World, v: World, i: Ingest) {
    var writes := Need(i).1;
    && v.journals == w.journals[i.message := i.journal]
    && v.objects == (if i.blob.Some? then w.objects[i.blob.value.hash := i.blob.value.bytes] else w.objects)
    && v.recorded == w.recorded + {i.message} && At(v.made, i.period) == At(w.made, i.period) + writes
    && v.epoch == w.epoch && v.puts == w.puts + writes
  }

  lemma {:induction false} PutsAreMade(w: World, c: int)
    requires c in w.ingests && w.ingests[c].at == PuttingJournal && w.ingests[c].epoch == w.epoch
    ensures var i, v := w.ingests[c], Accesses(w, c, 3);
      v.ingests[c].at == Ended && v.usage == w.usage && Puts(w, v, i) && v.granted == w.granted
  {
    var a := Access(w, c);
    var b := Access(a, c);
    assert Accesses(w, c, 0) == w && Accesses(w, c, 1) == a && Accesses(w, c, 2) == b;
  }
}
