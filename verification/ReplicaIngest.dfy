/**
 * One ingest of the research replica run to its end or to a crash: verification, replay check,
 * quota, journal, object, commit, health. Redelivery changes nothing, crashes are repaired by
 * sending the same record again, and no row is ready before its bytes are stored.
 */
module ReplicaIngest {
  import opened Basics
  import opened ReplicaQuota
  import opened ReplicaTables

  datatype Delivery = Delivery(record: Record, chunks: Option<seq<seq<Byte>>>, journalBytes: nat)

  /** The clock of one attempt: its month and its instant. */
  datatype Moment = Moment(period: int, now: int)

  datatype Fault = INTEGRITY_FAILED | UNSUPPORTED_OPERATION | RATE_LIMITED | STORE_UNAVAILABLE

  datatype Answer = Applied | Replayed | Failed(fault: Fault)

  /** Where an attempt stops. */
  datatype Crash = BeforeReserve | AfterReserve | AfterJournal | AfterObject | AfterCommit | NoCrash

  /** A journal object: the record it recovers, and its size. */
  datatype Journal = Journal(record: Record, bytes: nat)

  datatype Replica = Replica(
    usage: Option<Usage>, journals: map<MessageId, Journal>, blobs: map<Hash, seq<Byte>>, tables: Tables, accepted: nat)

  function Flatten(chunks: seq<seq<Byte>>): seq<Byte> {
    if chunks == [] then [] else Flatten(chunks[..|chunks| - 1]) + chunks[|chunks| - 1]
  }

  function Supplied(d: Delivery): seq<seq<Byte>> { if d.chunks.Some? then d.chunks.value else [] }

  /** Each chunk, their number, the whole and its size agree with the manifest. */
  predicate ChunksMatch(m: Manifest, chunks: seq<seq<Byte>>) {
    && |chunks| == |m.chunkHashes|
    && (forall i :: 0 <= i < |chunks| ==> Sha(chunks[i]) == m.chunkHashes[i])
    && Sha(Flatten(chunks)) == m.hash && |Flatten(chunks)| == m.byteSize
  }

  predicate IsObject(r: Record) { r.kind == OBJECT && r.payload.manifest.Some? }

  function Refusal(d: Delivery): Option<Fault> {
    if !Verified(d.record) then Some(INTEGRITY_FAILED)
    else if IsObject(d.record) && !ChunksMatch(d.record.payload.manifest.value, Supplied(d)) then Some(INTEGRITY_FAILED)
    else if d.record.kind != OBJECT && d.chunks.Some? then Some(UNSUPPORTED_OPERATION)
    else if !Ordered(d.record) then Some(INTEGRITY_FAILED)
    else None
  }

  function BytesOf(d: Delivery): nat { d.journalBytes + if IsObject(d.record) then |Flatten(Supplied(d))| else 0 }

  function WritesOf(d: Delivery): nat { if IsObject(d.record) then 2 else 1 }

  function JournalOf(d: Delivery): Journal { Journal(d.record, d.journalBytes) }

  function PutObject(blobs: map<Hash, seq<Byte>>, d: Delivery): map<Hash, seq<Byte>> {
    if IsObject(d.record) then blobs[d.record.payload.manifest.value.hash := Flatten(Supplied(d))] else blobs
  }

  /** The writes after the reservation: journal, object, commit, health counter. */
  function Store(s: Replica, d: Delivery, now: int, crash: Crash): (Replica, Answer) {
    var r := d.record;
    if crash == AfterReserve then (s, Failed(STORE_UNAVAILABLE))
    else
      var journaled := s.(journals := s.journals[r.id := JournalOf(d)]);
      if crash == AfterJournal then (journaled, Failed(STORE_UNAVAILABLE))
      else
        var stored := journaled.(blobs := PutObject(s.blobs, d));
        if crash == AfterObject then (stored, Failed(STORE_UNAVAILABLE))
        else
          var committed := stored.(tables := Commit(s.tables, r, now));
          if crash == AfterCommit then (committed, Failed(STORE_UNAVAILABLE))
          else if r.id in s.tables.messages then (committed, Replayed)
          else (committed.(accepted := s.accepted + 1), Applied)
  }

  function IngestOnce(s: Replica, d: Delivery, at: Moment, crash: Crash): (Replica, Answer) {
    if Refusal(d).Some? then (s, Failed(Refusal(d).value))
    else if d.record.id in s.tables.messages then (s, Replayed)
    else if crash == BeforeReserve then (s, Failed(STORE_UNAVAILABLE))
    else
      var reserved := s.(usage := Reserve(s.usage, at.period, BytesOf(d), WritesOf(d)));
      if !Granted(s.usage, at.period, BytesOf(d), WritesOf(d)) then (reserved, Failed(RATE_LIMITED))
      else Store(reserved, d, at.now, crash)
  }

  // ---------------------------------------------------------------------------------------
  // The store, statement by statement
  // ---------------------------------------------------------------------------------------

  lemma {:induction false} FlattenNext(chunks: seq<seq<Byte>>, n: nat)
    requires n < |chunks|
    ensures Flatten(chunks[..n + 1]) == Flatten(chunks[..n]) + chunks[n]
  {
    assert chunks[..n + 1][..n] == chunks[..n];
  }

  /** Size the body first, then copy each chunk at a moving offset. */
  method AssembleObject(chunks: seq<seq<Byte>>) returns (body: array<Byte>)
    ensures fresh(body) && body[..] == Flatten(chunks)
  {
    var size := 0;
    for i := 0 to |chunks|
      invariant size == |Flatten(chunks[..i])|
    {
      FlattenNext(chunks, i);
      size := size + |chunks[i]|;
    }
    assert chunks[..|chunks|] == chunks;
    body := new Byte[size];
    var offset := 0;
    for i := 0 to |chunks|
      invariant offset == |Flatten(chunks[..i])| <= size
      invariant body.Length == size == |Flatten(chunks)| && fresh(body)
      invariant body[..offset] == Flatten(chunks[..i])
    {
      FlattenNext(chunks, i);
      FlattenPrefix(chunks, i + 1);
      forall k | 0 <= k < |chunks[i]| {
        body[offset + k] := chunks[i][k];
      }
      assert body[..offset + |chunks[i]|] == Flatten(chunks[..i]) + chunks[i];
      offset := offset + |chunks[i]|;
    }
    assert body[..offset] == body[..];
  }

  lemma {:induction false} FlattenPrefix(chunks: seq<seq<Byte>>, n: nat)
    requires n <= |chunks|
    ensures |Flatten(chunks[..n])| <= |Flatten(chunks)|
    decreases |chunks| - n
  {
    if n == |chunks| {
      assert chunks[..n] == chunks;
    } else {
      FlattenNext(chunks, n);
      FlattenPrefix(chunks, n + 1);
    }
  }

  class ReplicaStore {
    var usage: Option<Usage>
    var journals: map<MessageId, Journal>
    var blobs: map<Hash, seq<Byte>>
    var messages: map<MessageId, MessageRow>
    var records: map<(Kind, int), RecordRow>
    var objects: map<Hash, ObjectRow>
    var links: map<LinkKey, Visibility>
    var accepted: nat

    /** The migrated tables: one usage row in the epoch month. */
    constructor (epochMonth: int)
      ensures State() == Replica(Some(Usage(epochMonth, 0, 0)), map[], map[], EMPTY, 0)
    {
      usage, journals, blobs := Some(Usage(epochMonth, 0, 0)), map[], map[];
      messages, records, objects, links, accepted := map[], map[], map[], map[], 0;
    }

    function AllTables(): Tables
      reads this
    {
      Tables(messages, records, objects, links)
    }

    function State(): Replica
      reads this
    {
      Replica(usage, journals, blobs, AllTables(), accepted)
    }

    method ReserveQuota(period: int, bytes: nat, writes: nat) returns (granted: bool)
      modifies this`usage
      ensures usage == Reserve(old(usage), period, bytes, writes)
      ensures granted == Granted(old(usage), period, bytes, writes)
    {
      if usage.None? { usage := Some(Usage(period, 0, 0)); }
      if usage.value.period != period { usage := Some(usage.value.(period := period, writeOps := 0)); }
      var row := usage.value;
      granted := row.storedBytes + bytes <= MAX_STORED_BYTES && row.writeOps + writes <= MAX_MONTHLY_WRITES;
      if granted {
        usage := Some(row.(storedBytes := row.storedBytes + bytes, writeOps := row.writeOps + writes));
      }
    }

    /** The statements of the batch in order. */
    method RunBatch(r: Record, now: int) returns (inserted: bool)
      modifies this`messages, this`records, this`objects, this`links
      ensures AllTables() == Commit(old(AllTables()), r, now)
      ensures inserted <==> r.id !in old(messages)
    {
      inserted := r.id !in messages;
      if inserted { messages := messages[r.id := MessageRow(r.kind, r.key, r.visibility, now)]; }
      var kept := (r.kind, r.key) in records && r.kind == EVIDENCE
        && records[(r.kind, r.key)].schema == V4 && r.schema != V4;
      if !kept { records := records[(r.kind, r.key) := RowOf(r, now)]; }
      if r.kind == OBJECT && r.payload.manifest.Some? {
        var m := r.payload.manifest.value;
        objects := objects[m.hash := ObjectRow(r.id, r.visibility, m.byteSize, now)];
      }
      if r.kind == DOCUMENT_VERSION {
        var rows := links;
        for i := 0 to |r.payload.links|
          invariant rows == AddLinks(old(links), r, i)
        {
          rows := rows[LinkKey(r.kind, r.key, r.payload.links[i]) := r.visibility];
        }
        links := rows;
      }
    }

    /** The checks before any access. */
    static method Check(d: Delivery) returns (refused: Option<Fault>)
      ensures refused == Refusal(d)
    {
      var r := d.record;
      if !Verified(r) { return Some(INTEGRITY_FAILED); }
      var chunks := if d.chunks.Some? then d.chunks.value else [];
      if r.kind == OBJECT && !ChunksMatch(r.payload.manifest.value, chunks) { return Some(INTEGRITY_FAILED); }
      if r.kind != OBJECT && d.chunks.Some? { return Some(UNSUPPORTED_OPERATION); }
      if !Ordered(r) { return Some(INTEGRITY_FAILED); }
      refused := None;
    }

    method StoreRecord(d: Delivery, body: array<Byte>, now: int, crash: Crash) returns (answer: Answer)
      requires IsObject(d.record) ==> body[..] == Flatten(Supplied(d))
      modifies this
      ensures (State(), answer) == Store(old(State()), d, now, crash)
    {
      hide Commit, Flatten;
      var r := d.record;
      if crash == AfterReserve { return Failed(STORE_UNAVAILABLE); }
      journals := journals[r.id := Journal(r, d.journalBytes)];
      if crash == AfterJournal { return Failed(STORE_UNAVAILABLE); }
      if r.kind == OBJECT && r.payload.manifest.Some? { blobs := blobs[r.payload.manifest.value.hash := body[..]]; }
      if crash == AfterObject { return Failed(STORE_UNAVAILABLE); }
      var inserted := RunBatch(r, now);
      if crash == AfterCommit { return Failed(STORE_UNAVAILABLE); }
      accepted := accepted + if inserted then 1 else 0;
      answer := if inserted then Applied else Replayed;
    }

    /** The whole ingest refines IngestOnce. */
    method IngestRecord(d: Delivery, at: Moment, crash: Crash) returns (answer: Answer)
      modifies this
      ensures (State(), answer) == IngestOnce(old(State()), d, at, crash)
    {
      hide Store, Reserve, Granted, Flatten, Refusal;
      var refused := Check(d);
      if refused.Some? { return Failed(refused.value); }
      var r := d.record;
      var isObject := r.kind == OBJECT && r.payload.manifest.Some?;
      var body := AssembleObject(if isObject && d.chunks.Some? then d.chunks.value else []);
      if r.id in messages { return Replayed; }
      if crash == BeforeReserve { return Failed(STORE_UNAVAILABLE); }
      EmptyObject();
      var bytes := d.journalBytes + body.Length;
      assert isObject ==> body[..] == Flatten(Supplied(d));
      assert bytes == BytesOf(d);
      var granted := ReserveQuota(at.period, bytes, if isObject then 2 else 1);
      if !granted { return Failed(RATE_LIMITED); }
      answer := StoreRecord(d, body, at.now, crash);
    }
  }

  lemma {:induction false} EmptyObject()
    ensures Flatten([]) == []
  {
  }

  // ---------------------------------------------------------------------------------------
  // Runs of ingests with crashes
  // ---------------------------------------------------------------------------------------

  datatype Attempt = Attempt(delivery: Delivery, at: Moment, crash: Crash)

  function IngestAll(s: Replica, attempts: seq<Attempt>): Replica {
    if attempts == [] then s
    else
      var a := attempts[|attempts| - 1];
      IngestOnce(IngestAll(s, attempts[..|attempts| - 1]), a.delivery, a.at, a.crash).0
  }

  predicate BlobsAreNamed(blobs: map<Hash, seq<Byte>>) {
    forall h :: h in blobs ==> blobs[h] == h.content
  }

  predicate JournalsAreSound(journals: map<MessageId, Journal>) {
    forall id :: id in journals ==>
      journals[id].record.id == id && Verified(journals[id].record) && Ordered(journals[id].record)
  }

  predicate MessagesAreJournaled(t: Tables, journals: map<MessageId, Journal>) {
    forall id :: id in t.messages ==> id in journals
  }

  predicate ObjectsAreReady(t: Tables, blobs: map<Hash, seq<Byte>>) {
    forall h :: h in t.objects ==>
      h in blobs && t.objects[h].byteSize == |h.content| && t.objects[h].id in t.messages
  }

  predicate RecordsAreRecorded(t: Tables) {
    forall k :: k in t.records ==> t.records[k].id in t.messages
  }

  /** Content-addressed storage, and no row before the bytes it stands for. */
  predicate Backed(s: Replica) {
    && BlobsAreNamed(s.blobs) && JournalsAreSound(s.journals)
    && MessagesAreJournaled(s.tables, s.journals)
    && ObjectsAreReady(s.tables, s.blobs) && RecordsAreRecorded(s.tables)
  }

  lemma {:induction false} AcceptedObject(d: Delivery)
    requires Refusal(d).None? && IsObject(d.record)
    ensures d.record.payload.manifest.value.hash.content == Flatten(Supplied(d))
    ensures d.record.payload.manifest.value.byteSize == |Flatten(Supplied(d))|
  {
  }

  lemma {:induction false} AcceptedRecord(d: Delivery)
    requires Refusal(d).None?
    ensures Verified(d.record) && Ordered(d.record)
  {
  }

  lemma {:induction false} PutsKeepNames(s: Replica, d: Delivery)
    requires Backed(s) && Refusal(d).None?
    ensures BlobsAreNamed(PutObject(s.blobs, d)) && JournalsAreSound(s.journals[d.record.id := JournalOf(d)])
  {
    hide Flatten, Refusal, Verified, Ordered;
    AcceptedRecord(d);
    if IsObject(d.record) { AcceptedObject(d); }
  }

  lemma {:induction false} CommitKeepsRecorded(t: Tables, r: Record, now: int)
    requires RecordsAreRecorded(t)
    ensures RecordsAreRecorded(Commit(t, r, now))
  {
    hide AddLinks, Guarded;
  }

  lemma {:induction false} CommitKeepsReady(s: Replica, d: Delivery, now: int)
    requires ObjectsAreReady(s.tables, s.blobs) && Refusal(d).None?
    ensures ObjectsAreReady(s.tables, PutObject(s.blobs, d))
    ensures ObjectsAreReady(Commit(s.tables, d.record, now), PutObject(s.blobs, d))
  {
    hide AddLinks, Guarded, RowOf, Flatten, Refusal;
    if IsObject(d.record) { AcceptedObject(d); }
  }

  lemma {:induction false} CommitKeepsJournaled(s: Replica, d: Delivery, now: int)
    requires MessagesAreJournaled(s.tables, s.journals)
    ensures MessagesAreJournaled(s.tables, s.journals[d.record.id := JournalOf(d)])
    ensures MessagesAreJournaled(Commit(s.tables, d.record, now), s.journals[d.record.id := JournalOf(d)])
  {
    hide AddLinks, Guarded, RowOf;
  }

  lemma {:induction false} StoreKeepsBacked(s: Replica, d: Delivery, now: int, crash: Crash)
    requires Backed(s) && Refusal(d).None?
    ensures Backed(Store(s, d, now, crash).0)
  {
    hide Refusal, Commit, PutObject, BlobsAreNamed, JournalsAreSound, MessagesAreJournaled, ObjectsAreReady,
      RecordsAreRecorded;
    PutsKeepNames(s, d);
    CommitKeepsRecorded(s.tables, d.record, now);
    CommitKeepsReady(s, d, now);
    CommitKeepsJournaled(s, d, now);
  }

  lemma {:induction false} AttemptKeepsBacked(s: Replica, d: Delivery, at: Moment, crash: Crash)
    requires Backed(s)
    ensures Backed(IngestOnce(s, d, at, crash).0)
  {
    hide Reserve, Granted, Refusal, Store, BlobsAreNamed, JournalsAreSound;
    if Refusal(d).None? {
      StoreKeepsBacked(s.(usage := Reserve(s.usage, at.period, BytesOf(d), WritesOf(d))), d, at.now, crash);
    }
  }

  /**
   * In every state of every run with crashes: an object row is ready only when exactly the
   * bytes its hash names are stored, and every recorded message has its recovery journal.
   */
  lemma {:induction false} RunIsBacked(s: Replica, attempts: seq<Attempt>)
    requires Backed(s)
    ensures Backed(IngestAll(s, attempts))
  {
    hide IngestOnce, Backed;
    if attempts != [] {
      var a := attempts[|attempts| - 1];
      RunIsBacked(s, attempts[..|attempts| - 1]);
      AttemptKeepsBacked(IngestAll(s, attempts[..|attempts| - 1]), a.delivery, a.at, a.crash);
    }
  }

  /** Redelivering a recorded message, with any clock, changes nothing at all. */
  lemma {:induction false} RedeliveryIsReplay(s: Replica, d: Delivery, at: Moment, crash: Crash)
    requires Refusal(d).None? && d.record.id in s.tables.messages
    ensures IngestOnce(s, d, at, crash) == (s, Replayed)
  {
  }

  /** Every table of a run is a history of commits, one per message, of sound records. */
  ghost predicate IsHistory(t: Tables, history: seq<Arrival>) {
    && t == CommitAll(EMPTY, history) && Sound(history)
    && forall i, j :: 0 <= i < j < |history| ==> history[i].record.id != history[j].record.id
  }

  lemma {:induction false} NextCommit(history: seq<Arrival>, a: Arrival)
    ensures CommitAll(EMPTY, history + [a]) == Commit(CommitAll(EMPTY, history), a.record, a.now)
  {
    assert (history + [a])[..|history|] == history;
  }

  lemma {:induction false} RunIsHistory(s: Replica, attempts: seq<Attempt>) returns (history: seq<Arrival>)
    requires s.tables == EMPTY
    ensures IsHistory(IngestAll(s, attempts).tables, history)
  {
    hide CommitAll, Commit, Reserve, Granted, Verified, Ordered, Refusal;
    if attempts == [] {
      history := [];
      assert CommitAll(EMPTY, []) == EMPTY by { NoCommit(); }
    } else {
      var before := attempts[..|attempts| - 1];
      var a := attempts[|attempts| - 1];
      var w := IngestAll(s, before);
      history := RunIsHistory(s, before);
      if IngestAll(s, attempts).tables != w.tables {
        var arrival := Arrival(a.delivery.record, a.at.now);
        AcceptedRecord(a.delivery);
        MessagesAreTheArrivals(history);
        NextCommit(history, arrival);
        forall i | 0 <= i < |history| ensures history[i].record.id != arrival.record.id {
          assert history[i] in history;
        }
        history := history + [arrival];
      }
    }
  }

  lemma {:induction false} NoCommit()
    ensures CommitAll(EMPTY, []) == EMPTY
  {
  }

  // ---------------------------------------------------------------------------------------
  // Crash and retry
  // ---------------------------------------------------------------------------------------

  function Retries(d: Delivery, tries: seq<(Moment, Crash)>): seq<Attempt> {
    seq(|tries|, i requires 0 <= i < |tries| => Attempt(d, tries[i].0, tries[i].1))
  }

  /** What is left of a delivery after attempts: nothing, some of its bytes, or one commit. */
  predicate Untouched(s: Replica, d: Delivery, t: Replica) {
    && t.tables == s.tables && t.accepted == s.accepted
    && t.journals in {s.journals, s.journals[d.record.id := JournalOf(d)]}
    && t.blobs in {s.blobs, PutObject(s.blobs, d)}
  }

  predicate Settled(s: Replica, d: Delivery, t: Replica, now: int) {
    && t.tables == Commit(s.tables, d.record, now)
    && t.journals == s.journals[d.record.id := JournalOf(d)] && t.blobs == PutObject(s.blobs, d)
    && s.accepted <= t.accepted <= s.accepted + 1
  }

  lemma {:induction false} AttemptSettles(s: Replica, d: Delivery, t: Replica, at: Moment, crash: Crash)
    requires Refusal(d).None? && d.record.id !in s.tables.messages && Untouched(s, d, t)
    ensures var r := IngestOnce(t, d, at, crash);
      && (r.1 == Applied || (r.1 != Failed(RATE_LIMITED) && crash == AfterCommit) ==> Settled(s, d, r.0, at.now))
      && (r.1 == Applied ==> r.0.accepted == s.accepted + 1)
      && (r.1 != Applied && (crash != AfterCommit || r.1 == Failed(RATE_LIMITED)) ==> Untouched(s, d, r.0))
      && r.1 != Replayed
      && (crash == NoCrash ==> r.1 in {Applied, Failed(RATE_LIMITED)})
  {
    hide Reserve, Granted, Refusal, Commit, Flatten, IsObject;
    var journaled := s.journals[d.record.id := JournalOf(d)];
    assert journaled[d.record.id := JournalOf(d)] == journaled;
    assert PutObject(PutObject(s.blobs, d), d) == PutObject(s.blobs, d);
  }

  lemma {:induction false} SettledIsRecorded(s: Replica, d: Delivery, t: Replica, now: int)
    requires Settled(s, d, t, now)
    ensures d.record.id in t.tables.messages
  {
  }

  lemma {:induction false} TriesSettle(s: Replica, d: Delivery, tries: seq<(Moment, Crash)>) returns (now: int)
    requires Refusal(d).None? && d.record.id !in s.tables.messages
    ensures var t := IngestAll(s, Retries(d, tries)); Untouched(s, d, t) || Settled(s, d, t, now)
  {
    hide IngestOnce, Untouched, Settled, Refusal;
    if tries == [] {
      now := 0;
      assert Untouched(s, d, s) by { NothingDone(s, d); }
    } else {
      var before, last := tries[..|tries| - 1], tries[|tries| - 1];
      assert Retries(d, tries)[..|before|] == Retries(d, before);
      var t := IngestAll(s, Retries(d, before));
      now := TriesSettle(s, d, before);
      if Untouched(s, d, t) {
        AttemptSettles(s, d, t, last.0, last.1);
        now := last.0.now;
      } else {
        SettledIsRecorded(s, d, t, now);
        RedeliveryIsReplay(t, d, last.0, last.1);
      }
    }
  }

  lemma {:induction false} NothingDone(s: Replica, d: Delivery)
    ensures Untouched(s, d, s)
  {
  }

  /**
   * Recovery: after any number of crashed attempts at any points, an attempt that runs through
   * and is not rate limited leaves the tables, journals and objects of a single ingest without
   * a crash; its answer is APPLIED or REPLAY.
   */
  lemma {:induction false} CrashThenRetry(s: Replica, d: Delivery, tries: seq<(Moment, Crash)>,
          at: Moment) returns (now: int)
    requires Refusal(d).None? && d.record.id !in s.tables.messages
    requires IngestOnce(IngestAll(s, Retries(d, tries)), d, at, NoCrash).1 != Failed(RATE_LIMITED)
    ensures var (t, answer) := IngestOnce(IngestAll(s, Retries(d, tries)), d, at, NoCrash);
      && answer in {Applied, Replayed}
      && t.tables == Commit(s.tables, d.record, now)
      && t.journals == s.journals[d.record.id := JournalOf(d)]
      && t.blobs == PutObject(s.blobs, d)
  {
    hide IngestOnce, Untouched, Refusal, Commit, PutObject;
    now := TriesSettle(s, d, tries);
    var t := IngestAll(s, Retries(d, tries));
    if Untouched(s, d, t) {
      AttemptSettles(s, d, t, at, NoCrash);
      now := at.now;
    } else {
      SettledIsRecorded(s, d, t, now);
      RedeliveryIsReplay(t, d, at, NoCrash);
    }
  }

  /**
   * The health counter is outside the commit: an attempt that fails between the two leaves a
   * recorded message that no retry ever counts.
   */
  lemma {:induction false} CrashAfterCommitIsNeverCounted(s: Replica, d: Delivery, at: Moment, later: Moment)
    requires Refusal(d).None? && d.record.id !in s.tables.messages
    requires Granted(s.usage, at.period, BytesOf(d), WritesOf(d))
    ensures var t := IngestOnce(s, d, at, AfterCommit).0;
      IngestOnce(t, d, later, NoCrash) == (t, Replayed) && t.accepted == s.accepted
      && IngestOnce(s, d, at, NoCrash).0 == t.(accepted := s.accepted + 1)
  {
    hide Reserve, Granted, Refusal, BytesOf, WritesOf, RowOf;
  }

  /** An attempt that records a new message and stops before the health update. */
  predicate Uncounts(s: Replica, a: Attempt) {
    && Refusal(a.delivery).None? && a.delivery.record.id !in s.tables.messages
    && Granted(s.usage, a.at.period, BytesOf(a.delivery), WritesOf(a.delivery)) && a.crash == AfterCommit
  }

  /** How many attempts of a run do so. */
  function Uncounted(s: Replica, attempts: seq<Attempt>): nat {
    if attempts == [] then 0
    else
      var before := attempts[..|attempts| - 1];
      Uncounted(s, before) + if Uncounts(IngestAll(s, before), attempts[|attempts| - 1]) then 1 else 0
  }

  lemma {:induction false} StoreCounts(s: Replica, d: Delivery, now: int, crash: Crash)
    requires d.record.id !in s.tables.messages
    ensures var t := Store(s, d, now, crash).0;
      |t.tables.messages| + s.accepted == |s.tables.messages| + t.accepted + if crash == AfterCommit then 1 else 0
  {
    hide RowOf, AddLinks, Guarded, PutObject;
    var r := d.record;
    var row := MessageRow(r.kind, r.key, r.visibility, now);
    assert s.tables.messages[r.id := row].Keys == s.tables.messages.Keys + {r.id};
  }

  lemma {:induction false} AttemptCounts(s: Replica, a: Attempt)
    ensures var t := IngestOnce(s, a.delivery, a.at, a.crash).0;
      |t.tables.messages| + s.accepted
      == |s.tables.messages| + t.accepted + if Uncounts(s, a) then 1 else 0
  {
    hide Reserve, Granted, Refusal, BytesOf, WritesOf, Store;
    if a.delivery.record.id !in s.tables.messages {
      var reserved := s.(usage := Reserve(s.usage, a.at.period, BytesOf(a.delivery), WritesOf(a.delivery)));
      StoreCounts(reserved, a.delivery, a.at.now, a.crash);
    }
  }

  /**
   * The accepted count over runs: the messages recorded are those counted and one for each
   * attempt that stopped between its commit and the health update.
   */
  lemma {:induction false} AcceptedCountOverRuns(s: Replica, attempts: seq<Attempt>)
    ensures var t := IngestAll(s, attempts);
      |t.tables.messages| - |s.tables.messages| == t.accepted - s.accepted + Uncounted(s, attempts)
  {
    hide IngestOnce, Uncounts;
    if attempts != [] {
      var before := attempts[..|attempts| - 1];
      AcceptedCountOverRuns(s, before);
      AttemptCounts(IngestAll(s, before), attempts[|attempts| - 1]);
    }
  }

  lemma {:induction false} NoneUncounted(s: Replica, attempts: seq<Attempt>)
    ensures Uncounted(s, attempts) == 0 <==>
            forall k :: 0 <= k < |attempts| ==> !Uncounts(IngestAll(s, attempts[..k]), attempts[k])
  {
    hide IngestAll, Uncounts;
    if attempts != [] {
      var n := |attempts| - 1;
      var before := attempts[..n];
      NoneUncounted(s, before);
      assert forall k :: 0 <= k < n ==> before[..k] == attempts[..k] && before[k] == attempts[k];
    }
  }

  /** From an exact count, the count covers every recorded message iff no attempt stopped there. */
  lemma {:induction false} AcceptedCountIsExactIff(s: Replica, attempts: seq<Attempt>)
    requires s.accepted == |s.tables.messages|
    ensures IngestAll(s, attempts).accepted == |IngestAll(s, attempts).tables.messages| <==>
            forall k :: 0 <= k < |attempts| ==> !Uncounts(IngestAll(s, attempts[..k]), attempts[k])
  {
    hide IngestAll, Uncounts, Uncounted;
    AcceptedCountOverRuns(s, attempts);
    NoneUncounted(s, attempts);
  }

  // ---------------------------------------------------------------------------------------
  // Order of arrival
  // ---------------------------------------------------------------------------------------

  /** A recorded accumulator snapshot, as the message table names it. */
  ghost predicate Recorded(t: Tables, key: int, p: Payload) {
    exists id :: id in t.messages && id.kind == ACCUMULATOR && id.key == key && id.payload == p
  }

  lemma {:induction false} RecordedAreSnapshots(t: Tables, history: seq<Arrival>, key: int, p: Payload)
    requires IsHistory(t, history)
    ensures Recorded(t, key, p) <==> (key, p) in Snapshots(history)
  {
    hide CommitAll, Commit;
    MessagesAreTheArrivals(history);
    if Recorded(t, key, p) {
      var id :| id in t.messages && id.kind == ACCUMULATOR && id.key == key && id.payload == p;
      var a :| a in history && a.record.id == id;
      var i :| 0 <= i < |history| && history[i] == a;
      assert Verified(history[i].record);
    }
    if (key, p) in Snapshots(history) {
      var i := SnapshotArrived(history, key, p);
      assert history[i] in history && Verified(history[i].record);
      assert history[i].record.id in t.messages;
    }
  }

  ghost predicate FixedSnapshots(t: Tables) {
    forall key, p, q :: Recorded(t, key, p) && Recorded(t, key, q) ==> p == q
  }

  lemma {:induction false} FixedHistory(t: Tables, history: seq<Arrival>)
    requires IsHistory(t, history) && FixedSnapshots(t)
    ensures SnapshotsAreFixed(history)
  {
    hide CommitAll, Recorded;
    forall i, j | 0 <= i < |history| && 0 <= j < |history|
      ensures SameSnapshotSamePayload(history[i].record, history[j].record)
    {
      var r, s := history[i].record, history[j].record;
      if r.kind == ACCUMULATOR && s.kind == ACCUMULATOR && r.key == s.key {
        assert history[i] in history && history[j] in history;
        RecordedAreSnapshots(t, history, r.key, r.payload);
        RecordedAreSnapshots(t, history, s.key, s.payload);
      }
    }
  }

  /**
   * Arrival-order independence of whole runs: two runs of ingests, in any order, with any
   * repeats, refusals and crashes, that recorded the same accumulator snapshots agree on the
   * current accumulator of every subject.
   */
  lemma {:induction false} RunsAgreeOnCurrent(s: Replica, a: seq<Attempt>, u: Replica, b: seq<Attempt>,
                           visibility: Visibility, subject: int, key: int)
    requires s.tables == EMPTY && u.tables == EMPTY
    requires var t, v := IngestAll(s, a).tables, IngestAll(u, b).tables;
      && FixedSnapshots(t) && FixedSnapshots(v)
      && (forall k, p :: Recorded(t, k, p) <==> Recorded(v, k, p))
      && IsCurrent(t, visibility, subject, key)
    ensures var t, v := IngestAll(s, a).tables, IngestAll(u, b).tables;
      && IsCurrent(v, visibility, subject, key)
      && v.records[(ACCUMULATOR, key)].payload == t.records[(ACCUMULATOR, key)].payload
  {
    hide CommitAll, Recorded, IngestAll, FixedSnapshots, IsCurrent;
    var t, v := IngestAll(s, a).tables, IngestAll(u, b).tables;
    var g := RunIsHistory(s, a);
    var h := RunIsHistory(u, b);
    FixedHistory(t, g);
    FixedHistory(v, h);
    forall k, p ensures (k, p) in Snapshots(g) <==> (k, p) in Snapshots(h) {
      RecordedAreSnapshots(t, g, k, p);
      RecordedAreSnapshots(v, h, k, p);
    }
    assert Snapshots(g) == Snapshots(h);
    CurrentDependsOnTheSet(g, h, visibility, subject, key);
  }
}
