/**
 * The relational side of the research replica: what one atomic commit of a record does, which
 * row survives any sequence of commits, and the current accumulator of a subject.
 *
 * Digests are injective, so they are modelled by what they digest: a content hash by the bytes,
 * a message id by generation, kind, key and payload.
 */
module ReplicaTables {
  import opened Basics

  type Byte = b: int | 0 <= b < 256

  datatype Hash = Sha(content: seq<Byte>)

  datatype Kind =
    | SOURCE | DOCUMENT_VERSION | EVIDENCE | COVERAGE | ACCUMULATOR | JOB | OBJECT | SOURCE_HEALTH | MARKET_SIGNAL

  /** The generations of the envelope; V4 is the latest. */
  datatype Schema = V2 | V3 | V4 | SIGNAL_V1

  datatype Visibility = PUBLIC | PRIVATE

  datatype Manifest = Manifest(hash: Hash, chunkHashes: seq<Hash>, byteSize: nat)

  datatype Link = Link(role: int, hash: Hash)

  /**
   * What the replica reads of a payload; `body` stands for the rest. `subject` is None when
   * blank, `createdAt` is None unless it is a UTC timestamp, `manifest` is that of an object and
   * `links` are the body and attachments of a document.
   */
  datatype Payload = Payload(
    body: int, visibility: Visibility, subject: Option<int>, createdAt: Option<int>,
    manifest: Option<Manifest>, links: seq<Link>)

  datatype MessageId = MessageId(schema: Schema, kind: Kind, key: int, payload: Payload)

  datatype Record = Record(
    kind: Kind, id: MessageId, schema: Schema, visibility: Visibility, key: int, payload: Payload)

  /** The envelope checks: recomputed message id, matching visibility. */
  predicate Verified(r: Record) {
    && r.id == MessageId(r.schema, r.kind, r.key, r.payload)
    && (r.kind != DOCUMENT_VERSION ==> r.payload.visibility == r.visibility)
    && (r.kind == OBJECT ==> r.payload.manifest.Some?)
  }

  /** An accumulator must name its subject and its UTC calculation time. */
  predicate Ordered(r: Record) {
    r.kind == ACCUMULATOR ==> r.payload.subject.Some? && r.payload.createdAt.Some?
  }

  // ---------------------------------------------------------------------------------------
  // The tables and one commit
  // ---------------------------------------------------------------------------------------

  datatype MessageRow = MessageRow(kind: Kind, key: int, visibility: Visibility, receivedAt: int)

  datatype RecordRow = RecordRow(
    id: MessageId, visibility: Visibility, schema: Schema, payload: Payload,
    subject: Option<int>, createdAt: Option<int>, updatedAt: int)

  datatype ObjectRow = ObjectRow(id: MessageId, visibility: Visibility, byteSize: nat, receivedAt: int)

  datatype LinkKey = LinkKey(kind: Kind, key: int, link: Link)

  datatype Tables = Tables(
    messages: map<MessageId, MessageRow>, records: map<(Kind, int), RecordRow>,
    objects: map<Hash, ObjectRow>, links: map<LinkKey, Visibility>)

  const EMPTY := Tables(map[], map[], map[], map[])

  function RowOf(r: Record, now: int): RecordRow {
    var ordering := r.kind == ACCUMULATOR;
    RecordRow(r.id, r.visibility, r.schema, r.payload,
              if ordering then r.payload.subject else None, if ordering then r.payload.createdAt else None, now)
  }

  /** The guard of the upsert: evidence stored as V4 is kept against an older generation. */
  predicate Guarded(t: Tables, r: Record) {
    && r.kind == EVIDENCE && r.schema != V4
    && (r.kind, r.key) in t.records && t.records[(r.kind, r.key)].schema == V4
  }

  function AddLinks(links: map<LinkKey, Visibility>, r: Record, n: nat): map<LinkKey, Visibility>
    requires n <= |r.payload.links|
  {
    if n == 0 then links else AddLinks(links, r, n - 1)[LinkKey(r.kind, r.key, r.payload.links[n - 1]) := r.visibility]
  }

  /** The atomic batch that records one message. */
  function Commit(t: Tables, r: Record, now: int): Tables {
    Tables(
      if r.id in t.messages then t.messages else t.messages[r.id := MessageRow(r.kind, r.key, r.visibility, now)],
      if Guarded(t, r) then t.records else t.records[(r.kind, r.key) := RowOf(r, now)],
      if r.kind == OBJECT && r.payload.manifest.Some?
      then t.objects[r.payload.manifest.value.hash :=
             ObjectRow(r.id, r.visibility, r.payload.manifest.value.byteSize, now)]
      else t.objects,
      if r.kind == DOCUMENT_VERSION then AddLinks(t.links, r, |r.payload.links|) else t.links)
  }

  /** One commit of a record at a time. */
  datatype Arrival = Arrival(record: Record, now: int)

  function CommitAll(t: Tables, history: seq<Arrival>): Tables {
    if history == [] then t
    else
      var a := history[|history| - 1];
      Commit(CommitAll(t, history[..|history| - 1]), a.record, a.now)
  }

  // ---------------------------------------------------------------------------------------
  // Which arrival a stored row comes from
  // ---------------------------------------------------------------------------------------

  predicate IsFor(a: Arrival, kind: Kind, key: int, latestOnly: bool) {
    a.record.kind == kind && a.record.key == key && (latestOnly ==> a.record.schema == V4)
  }

  /** The last arrival for a row, by position. */
  function LastFor(history: seq<Arrival>, kind: Kind, key: int, latestOnly: bool): (a: Option<Arrival>)
    ensures a.None? <==> forall i :: 0 <= i < |history| ==> !IsFor(history[i], kind, key, latestOnly)
    ensures a.Some? ==> a.value in history && IsFor(a.value, kind, key, latestOnly)
  {
    if history == [] then None
    else if IsFor(history[|history| - 1], kind, key, latestOnly) then Some(history[|history| - 1])
    else LastFor(history[..|history| - 1], kind, key, latestOnly)
  }

  /** The last arrival of the latest generation if there is one (evidence only), else the last one. */
  function Winner(history: seq<Arrival>, kind: Kind, key: int): Option<Arrival> {
    var latest := LastFor(history, kind, key, true);
    if kind == EVIDENCE && latest.Some? then latest else LastFor(history, kind, key, false)
  }

  /** The row shows its arrival: only an accumulator has ordering columns. */
  predicate Shows(row: RecordRow, a: Arrival) {
    && row.id == a.record.id && row.visibility == a.record.visibility && row.schema == a.record.schema
    && row.payload == a.record.payload && row.updatedAt == a.now
    && (a.record.kind == ACCUMULATOR ==>
          row.subject == a.record.payload.subject && row.createdAt == a.record.payload.createdAt)
    && (a.record.kind != ACCUMULATOR ==> row.subject == None && row.createdAt == None)
  }

  /** For every history of commits, each stored row is that of its winner, and no other row is stored. */
  lemma {:induction false} RowsAreWinners(history: seq<Arrival>, kind: Kind, key: int)
    ensures var t, w := CommitAll(EMPTY, history), Winner(history, kind, key);
      && ((kind, key) in t.records <==> w.Some?)
      && (w.Some? ==> Shows(t.records[(kind, key)], w.value))
      && (w.Some? ==> t.records[(kind, key)] == RowOf(w.value.record, w.value.now))
  {
    hide Shows, Commit, RowOf, Winner;
    if history != [] {
      var before, last := history[..|history| - 1], history[|history| - 1];
      RowsAreWinners(before, kind, key);
      RowNext(CommitAll(EMPTY, before), last, kind, key);
      WinnerNext(history, kind, key);
      RowShowsItsArrival(last);
      if Winner(before, kind, key).Some? { RowShowsItsArrival(Winner(before, kind, key).value); }
    } else {
      NoWinner(kind, key);
    }
    if Winner(history, kind, key).Some? { RowShowsItsArrival(Winner(history, kind, key).value); }
  }

  lemma {:induction false} NoWinner(kind: Kind, key: int)
    ensures Winner([], kind, key).None?
  {
  }

  /** What one commit does to one row. */
  lemma {:induction false} RowNext(t: Tables, a: Arrival, kind: Kind, key: int)
    ensures var records := Commit(t, a.record, a.now).records;
      if !IsFor(a, kind, key, false) || Guarded(t, a.record) then
        && ((kind, key) in records <==> (kind, key) in t.records)
        && ((kind, key) in t.records ==> records[(kind, key)] == t.records[(kind, key)])
      else (kind, key) in records && records[(kind, key)] == RowOf(a.record, a.now)
  {
    hide RowOf, AddLinks;
  }

  /** A later arrival wins unless it is older-generation evidence and a latest-generation one came before. */
  lemma {:induction false} WinnerNext(history: seq<Arrival>, kind: Kind, key: int)
    requires history != []
    ensures var w, last := Winner(history[..|history| - 1], kind, key), history[|history| - 1];
      && Winner(history, kind, key)
        == (if !IsFor(last, kind, key, false)
              || (kind == EVIDENCE && last.record.schema != V4 && w.Some? && w.value.record.schema == V4)
            then w else Some(last))
      && (w.Some? ==> IsFor(w.value, kind, key, false))
  {
  }

  lemma {:induction false} RowShowsItsArrival(a: Arrival)
    ensures Shows(RowOf(a.record, a.now), a)
    ensures RowOf(a.record, a.now).schema == a.record.schema
  {
  }

  /** Evidence once stored in the latest generation stays in it, whatever arrives later. */
  lemma {:induction false} EvidenceNeverRegresses(history: seq<Arrival>, later: seq<Arrival>, key: int)
    requires (EVIDENCE, key) in CommitAll(EMPTY, history).records
    requires CommitAll(EMPTY, history).records[(EVIDENCE, key)].schema == V4
    ensures (EVIDENCE, key) in CommitAll(EMPTY, history + later).records
    ensures CommitAll(EMPTY, history + later).records[(EVIDENCE, key)].schema == V4
  {
    hide CommitAll;
    RowsAreWinners(history, EVIDENCE, key);
    RowsAreWinners(history + later, EVIDENCE, key);
    var a := Winner(history, EVIDENCE, key).value;
    assert IsFor(a, EVIDENCE, key, true);
    var i :| 0 <= i < |history| && history[i] == a;
    assert (history + later)[i] == a;
  }

  /** The message table holds exactly the messages of the history. */
  lemma {:induction false} MessagesAreTheArrivals(history: seq<Arrival>)
    ensures forall id :: id in CommitAll(EMPTY, history).messages <==> exists a :: a in history && a.record.id == id
  {
    if history != [] {
      var before, last := history[..|history| - 1], history[|history| - 1];
      MessagesAreTheArrivals(before);
      assert history == before + [last];
      forall id ensures id in CommitAll(EMPTY, history).messages <==> exists a :: a in history && a.record.id == id {
        if id in CommitAll(EMPTY, before).messages {
          var a :| a in before && a.record.id == id;
          assert a in history;
        } else if id == last.record.id {
          assert last in history;
        }
      }
    }
  }

  /** The document names the object under this link. */
  predicate NamesLink(a: Arrival, k: LinkKey) {
    a.record.kind == DOCUMENT_VERSION == k.kind && a.record.key == k.key && k.link in a.record.payload.links
  }

  lemma {:induction false} AddedLinks(links: map<LinkKey, Visibility>, r: Record, n: nat, k: LinkKey)
    requires n <= |r.payload.links|
    ensures k in AddLinks(links, r, n) <==>
            k in links || (k.kind == r.kind && k.key == r.key && k.link in r.payload.links[..n])
  {
    if n > 0 {
      AddedLinks(links, r, n - 1, k);
      assert r.payload.links[..n] == r.payload.links[..n - 1] + [r.payload.links[n - 1]];
      assert k == LinkKey(k.kind, k.key, k.link);
    }
  }

  /** The link table holds exactly the links of the document versions that arrived. */
  lemma {:induction false} LinksAreTheDocuments(history: seq<Arrival>, k: LinkKey)
    ensures k in CommitAll(EMPTY, history).links <==> exists a :: a in history && NamesLink(a, k)
  {
    hide NamesLink, AddLinks;
    if history != [] {
      var before, last := history[..|history| - 1], history[|history| - 1];
      assert history == before + [last];
      LinksAreTheDocuments(before, k);
      LinksNext(CommitAll(EMPTY, before), last, k);
      if a :| a in before && NamesLink(a, k) {
        assert a in history;
      }
      assert last in history;
    }
  }

  lemma {:induction false} LinksNext(t: Tables, a: Arrival, k: LinkKey)
    ensures k in Commit(t, a.record, a.now).links <==> k in t.links || NamesLink(a, k)
  {
    hide AddLinks;
    var links := a.record.payload.links;
    AddedLinks(t.links, a.record, |links|, k);
    assert links[..|links|] == links;
  }

  predicate StoresObject(a: Arrival, h: Hash) {
    a.record.kind == OBJECT && a.record.payload.manifest.Some? && a.record.payload.manifest.value.hash == h
  }

  /** `i` is the first, or the last, place of the history for the row. */
  ghost predicate IsFirstMessage(history: seq<Arrival>, i: int, id: MessageId) {
    && 0 <= i < |history| && history[i].record.id == id
    && forall j :: 0 <= j < i ==> history[j].record.id != id
  }

  ghost predicate IsLastObject(history: seq<Arrival>, i: int, h: Hash) {
    && 0 <= i < |history| && StoresObject(history[i], h)
    && forall j :: i < j < |history| ==> !StoresObject(history[j], h)
  }

  ghost predicate IsLastLink(history: seq<Arrival>, i: int, k: LinkKey) {
    && 0 <= i < |history| && NamesLink(history[i], k)
    && forall j :: i < j < |history| ==> !NamesLink(history[j], k)
  }

  /** A message row is that of its first arrival; repeats are ignored. */
  lemma {:induction false} MessageRowsAreFirst(history: seq<Arrival>, id: MessageId) returns (i: int)
    requires id in CommitAll(EMPTY, history).messages
    ensures IsFirstMessage(history, i, id)
    ensures var r := history[i].record;
      CommitAll(EMPTY, history).messages[id] == MessageRow(r.kind, r.key, r.visibility, history[i].now)
  {
    var before, last := history[..|history| - 1], |history| - 1;
    if id in CommitAll(EMPTY, before).messages {
      i := MessageRowsAreFirst(before, id);
    } else {
      i := last;
      MessagesAreTheArrivals(before);
      forall j | 0 <= j < last ensures history[j].record.id != id {
        assert before[j] in before;
      }
    }
  }

  /** An object row is that of the last record of its bytes. */
  lemma {:induction false} ObjectRowsAreLast(history: seq<Arrival>, h: Hash) returns (i: int)
    ensures var t := CommitAll(EMPTY, history);
      && (h in t.objects <==> exists j :: 0 <= j < |history| && StoresObject(history[j], h))
      && (h in t.objects ==>
            && IsLastObject(history, i, h)
            && t.objects[h] == ObjectRow(history[i].record.id, history[i].record.visibility,
                                         history[i].record.payload.manifest.value.byteSize, history[i].now))
  {
    i := |history| - 1;
    if history != [] && !StoresObject(history[i], h) {
      var before := history[..i];
      var n := ObjectRowsAreLast(before, h);
      if h in CommitAll(EMPTY, before).objects {
        assert before[n] == history[n];
      }
      assert forall j :: 0 <= j < |before| ==> before[j] == history[j];
      i := n;
    }
  }

  /** A link row carries the visibility of the last document version that names it. */
  lemma {:induction false} LinkRowsAreLast(history: seq<Arrival>, k: LinkKey) returns (i: int)
    requires k in CommitAll(EMPTY, history).links
    ensures IsLastLink(history, i, k)
    ensures CommitAll(EMPTY, history).links[k] == history[i].record.visibility
  {
    hide AddLinks;
    i := |history| - 1;
    var before := history[..i];
    var last := history[i].record;
    LinksNext(CommitAll(EMPTY, before), history[i], k);
    AddedVisibility(CommitAll(EMPTY, before).links, last, |last.payload.links|, k);
    assert last.payload.links[..|last.payload.links|] == last.payload.links;
    if !NamesLink(history[i], k) {
      i := LinkRowsAreLast(before, k);
    }
  }

  lemma {:induction false} AddedVisibility(links: map<LinkKey, Visibility>, r: Record, n: nat, k: LinkKey)
    requires n <= |r.payload.links|
    ensures var added := AddLinks(links, r, n);
      k in added ==>
        added[k] == if k.kind == r.kind && k.key == r.key && k.link in r.payload.links[..n] then r.visibility
                    else if k in links then links[k] else r.visibility
    ensures k in AddLinks(links, r, n) <==>
            k in links || (k.kind == r.kind && k.key == r.key && k.link in r.payload.links[..n])
  {
    AddedLinks(links, r, n, k);
    if n > 0 {
      AddedVisibility(links, r, n - 1, k);
      assert r.payload.links[..n] == r.payload.links[..n - 1] + [r.payload.links[n - 1]];
      assert k == LinkKey(k.kind, k.key, k.link);
    }
  }

  // ---------------------------------------------------------------------------------------
  // The current accumulator
  // ---------------------------------------------------------------------------------------

  predicate Matches(row: RecordRow, visibility: Visibility, subject: int) {
    row.visibility == visibility && row.subject == Some(subject)
  }

  /** Later calculation first, the larger snapshot id on a tie. */
  predicate NotAfter(a: Option<int>, k: int, b: Option<int>, l: int) {
    a.Some? && b.Some? && (a.value < b.value || (a.value == b.value && k <= l))
  }

  predicate Listed(t: Tables, visibility: Visibility, subject: int, key: int) {
    (ACCUMULATOR, key) in t.records && Matches(t.records[(ACCUMULATOR, key)], visibility, subject)
  }

  /** The row the ordered query with LIMIT 1 returns. */
  ghost predicate IsCurrent(t: Tables, visibility: Visibility, subject: int, key: int) {
    && Listed(t, visibility, subject, key)
    && forall k :: Listed(t, visibility, subject, k) ==>
         NotAfter(t.records[(ACCUMULATOR, k)].createdAt, k, t.records[(ACCUMULATOR, key)].createdAt, key)
  }

  predicate Sound(history: seq<Arrival>) {
    forall i :: 0 <= i < |history| ==> Verified(history[i].record) && Ordered(history[i].record)
  }

  /** Snapshots with one id carry one payload. */
  predicate SnapshotsAreFixed(history: seq<Arrival>) {
    forall i, j :: 0 <= i < |history| && 0 <= j < |history| ==>
      SameSnapshotSamePayload(history[i].record, history[j].record)
  }

  predicate SameSnapshotSamePayload(r: Record, s: Record) {
    r.kind == ACCUMULATOR && s.kind == ACCUMULATOR && r.key == s.key ==> r.payload == s.payload
  }

  /** The accumulator snapshots that arrived. */
  function Snapshots(history: seq<Arrival>): set<(int, Payload)> {
    set a | a in history && a.record.kind == ACCUMULATOR :: (a.record.key, a.record.payload)
  }

  lemma {:induction false} SnapshotArrived(history: seq<Arrival>, key: int, p: Payload) returns (i: nat)
    requires (key, p) in Snapshots(history)
    ensures i < |history| && IsFor(history[i], ACCUMULATOR, key, false) && history[i].record.payload == p
  {
    var a :| a in history && a.record.kind == ACCUMULATOR && (a.record.key, a.record.payload) == (key, p);
    i :| 0 <= i < |history| && history[i] == a;
  }

  /** With fixed snapshots each accumulator row is just the snapshot under its key. */
  lemma {:induction false} RowsAreSnapshots(history: seq<Arrival>, key: int)
    requires Sound(history) && SnapshotsAreFixed(history)
    ensures var t := CommitAll(EMPTY, history);
      && ((ACCUMULATOR, key) in t.records <==> exists p :: (key, p) in Snapshots(history))
      && ((ACCUMULATOR, key) in t.records ==>
            var row := t.records[(ACCUMULATOR, key)];
            && (forall p :: (key, p) in Snapshots(history) ==> row.payload == p)
            && row.visibility == row.payload.visibility
            && row.subject == row.payload.subject && row.createdAt == row.payload.createdAt && row.createdAt.Some?)
  {
    hide CommitAll;
    RowsAreWinners(history, ACCUMULATOR, key);
    var w := Winner(history, ACCUMULATOR, key);
    if w.Some? {
      var i :| 0 <= i < |history| && history[i] == w.value;
      assert (key, w.value.record.payload) in Snapshots(history);
      forall p | (key, p) in Snapshots(history) ensures w.value.record.payload == p {
        var j := SnapshotArrived(history, key, p);
        assert SameSnapshotSamePayload(history[i].record, history[j].record);
      }
    } else {
      forall p ensures (key, p) !in Snapshots(history) {
        if (key, p) in Snapshots(history) {
          var _ := SnapshotArrived(history, key, p);
        }
      }
    }
  }

  /** The accumulator rows depend only on the set of snapshots. */
  lemma {:induction false} SameSnapshotsSameRows(g: seq<Arrival>, h: seq<Arrival>, key: int)
    requires Sound(g) && Sound(h) && SnapshotsAreFixed(g) && SnapshotsAreFixed(h)
    requires Snapshots(g) == Snapshots(h)
    ensures var t, u := CommitAll(EMPTY, g), CommitAll(EMPTY, h);
      && ((ACCUMULATOR, key) in t.records <==> (ACCUMULATOR, key) in u.records)
      && ((ACCUMULATOR, key) in t.records ==>
            var p, q := t.records[(ACCUMULATOR, key)], u.records[(ACCUMULATOR, key)];
            && p.payload == q.payload && p.visibility == q.visibility
            && p.subject == q.subject && p.createdAt == q.createdAt)
  {
    hide CommitAll, Snapshots, Sound, SnapshotsAreFixed;
    RowsAreSnapshots(g, key);
    RowsAreSnapshots(h, key);
    if (ACCUMULATOR, key) in CommitAll(EMPTY, g).records {
      var p :| (key, p) in Snapshots(g);
    }
  }

  /**
   * Arrival-order independence: histories with the same set of accumulator snapshots, in any
   * order and with any repeats, have the same current accumulator for every subject.
   */
  lemma {:induction false} CurrentDependsOnTheSet(g: seq<Arrival>, h: seq<Arrival>, visibility: Visibility,
          subject: int, key: int)
    requires Sound(g) && Sound(h) && SnapshotsAreFixed(g) && SnapshotsAreFixed(h)
    requires Snapshots(g) == Snapshots(h)
    requires IsCurrent(CommitAll(EMPTY, g), visibility, subject, key)
    ensures IsCurrent(CommitAll(EMPTY, h), visibility, subject, key)
    ensures CommitAll(EMPTY, h).records[(ACCUMULATOR, key)].payload
         == CommitAll(EMPTY, g).records[(ACCUMULATOR, key)].payload
  {
    hide CommitAll, Snapshots, Sound, SnapshotsAreFixed;
    SameSnapshotsSameRows(g, h, key);
    forall k
      ensures Listed(CommitAll(EMPTY, g), visibility, subject, k) == Listed(CommitAll(EMPTY, h), visibility, subject, k)
    {
      SameSnapshotsSameRows(g, h, k);
    }
    forall k | Listed(CommitAll(EMPTY, h), visibility, subject, k)
      ensures NotAfter(CommitAll(EMPTY, h).records[(ACCUMULATOR, k)].createdAt, k,
                       CommitAll(EMPTY, h).records[(ACCUMULATOR, key)].createdAt, key)
    {
      SameSnapshotsSameRows(g, h, k);
    }
  }

  /** There is at most one current row, so the query is a function of the tables. */
  lemma {:induction false} CurrentIsUnique(t: Tables, visibility: Visibility, subject: int, k: int, l: int)
    requires IsCurrent(t, visibility, subject, k) && IsCurrent(t, visibility, subject, l)
    ensures k == l
  {
  }

  predicate Dated(t: Tables, keys: set<int>) {
    forall k :: k in keys ==> (ACCUMULATOR, k) in t.records && t.records[(ACCUMULATOR, k)].createdAt.Some?
  }

  lemma {:induction false} LatestExists(t: Tables, keys: set<int>, some: int) returns (best: int)
    requires some in keys && Dated(t, keys)
    ensures best in keys
    ensures forall k :: k in keys ==>
      NotAfter(t.records[(ACCUMULATOR, k)].createdAt, k, t.records[(ACCUMULATOR, best)].createdAt, best)
    decreases |keys|
  {
    best := some;
    if other :| other in keys && other != some {
      var rest := LatestExists(t, keys - {some}, other);
      if NotAfter(t.records[(ACCUMULATOR, some)].createdAt, some, t.records[(ACCUMULATOR, rest)].createdAt, rest) {
        best := rest;
      }
    }
  }

  lemma {:induction false} ListedHasLatest(history: seq<Arrival>, visibility: Visibility, subject: int, some: int)
    requires Sound(history) && SnapshotsAreFixed(history)
    requires Listed(CommitAll(EMPTY, history), visibility, subject, some)
    ensures exists key :: IsCurrent(CommitAll(EMPTY, history), visibility, subject, key)
  {
    hide CommitAll, Snapshots, Sound, SnapshotsAreFixed;
    var t := CommitAll(EMPTY, history);
    var keys := set k | k in t.records && k.0 == ACCUMULATOR && Listed(t, visibility, subject, k.1) :: k.1;
    forall k ensures k in keys <==> Listed(t, visibility, subject, k) {
      assert Listed(t, visibility, subject, k) ==> (ACCUMULATOR, k) in t.records && (ACCUMULATOR, k).1 == k;
    }
    forall k | k in keys ensures (ACCUMULATOR, k) in t.records && t.records[(ACCUMULATOR, k)].createdAt.Some? {
      RowsAreSnapshots(history, k);
    }
    var best := LatestExists(t, keys, some);
    assert IsCurrent(t, visibility, subject, best);
  }

  predicate Concerns(p: Payload, visibility: Visibility, subject: int) {
    p.visibility == visibility && p.subject == Some(subject)
  }

  /** A subject has a current accumulator iff some snapshot of it arrived. */
  lemma {:induction false} CurrentExists(history: seq<Arrival>, visibility: Visibility, subject: int)
    requires Sound(history) && SnapshotsAreFixed(history)
    ensures (exists key :: IsCurrent(CommitAll(EMPTY, history), visibility, subject, key)) <==>
            exists k, p :: (k, p) in Snapshots(history) && Concerns(p, visibility, subject)
  {
    hide CommitAll, Snapshots, Sound, SnapshotsAreFixed;
    var t := CommitAll(EMPTY, history);
    if key :| IsCurrent(t, visibility, subject, key) {
      RowsAreSnapshots(history, key);
      var p :| (key, p) in Snapshots(history);
      assert Concerns(p, visibility, subject);
    }
    if k, p :| (k, p) in Snapshots(history) && Concerns(p, visibility, subject) {
      RowsAreSnapshots(history, k);
      ListedHasLatest(history, visibility, subject, k);
    }
  }

  /** Without fixed snapshots the order of arrival decides. */
  lemma {:induction false} ChangedSnapshotDependsOnOrder(a: Arrival, b: Arrival, visibility: Visibility, subject: int)
    requires Sound([a]) && Sound([b]) && a.record.kind == ACCUMULATOR && b.record.kind == ACCUMULATOR
    requires a.record.key == b.record.key && a.record.visibility == b.record.visibility == visibility
    requires a.record.payload.subject == b.record.payload.subject == Some(subject)
    ensures IsCurrent(CommitAll(EMPTY, [a, b]), visibility, subject, a.record.key)
    ensures IsCurrent(CommitAll(EMPTY, [b, a]), visibility, subject, a.record.key)
    ensures CommitAll(EMPTY, [a, b]).records[(ACCUMULATOR, a.record.key)].payload
         == CommitAll(EMPTY, [b, a]).records[(ACCUMULATOR, a.record.key)].payload
        <==> a.record.payload == b.record.payload
  {
    assert [a, b][..1] == [a] && [b, a][..1] == [b] && [a][..0] == [] && [b][..0] == [];
    assert Verified([a][0].record) && Ordered([a][0].record) && Verified([b][0].record) && Ordered([b][0].record);
    assert CommitAll(EMPTY, [a]) == Commit(EMPTY, a.record, a.now);
    assert CommitAll(EMPTY, [b]) == Commit(EMPTY, b.record, b.now);
  }
}
