/**
 * Every run of uploads: opens, chunks, deletes and housekeeping, with any number of closes
 * interleaved step by step.
 */
module AmigaUploadRuns {
  import opened Bytes
  import opened AmigaUploads
  import Crc32

  datatype Event =
    | OpenCall(q: Request, now: int, pick: Option<Id>, newId: Id, full: bool)
    | ChunkCall(device: Id, id: Id, offset: nat, data: seq<byte>)
    | CloseCall(closer: nat, device: Id, id: Id, crc: nat)
    | CloserStep(closer: nat, storedAs: string, replaced: set<Id>, now: int)
    | Release(id: Id)
    | Delete(ids: set<Id>)
    | ExpirePass(now: int)

  /** The rows, the closes under way or answered, and the ids given out so far. */
  datatype World = World(db: Db, closers: map<nat, Closer>, issued: set<Id>)

  /** Ids are never given out twice, and a row is only resumed as the query picks it. */
  predicate Possible(w: World, e: Event) {
    match e
    case OpenCall(q, now, pick, newId, _) => MayPick(w.db, q, now, pick) && newId !in w.issued
    case CloseCall(k, _, _, _) => k !in w.closers
    case CloserStep(k, _, _, _) => k in w.closers
    case _ => true
  }

  /** One step; what cannot happen changes nothing. */
  function Step(w: World, e: Event): World {
    if !Possible(w, e) then w
    else match e
      case OpenCall(q, now, pick, newId, full) =>
        World(Open(w.db, q, now, pick, newId, full).0, w.closers, w.issued + {newId})
      case ChunkCall(device, id, offset, data) => w.(db := StoreChunk(w.db, device, id, offset, data).0)
      case CloseCall(k, device, id, crc) => w.(closers := w.closers[k := Arrived(device, id, crc)])
      case CloserStep(k, storedAs, replaced, now) =>
        var (db, c) := StepCloser(w.db, w.closers[k], storedAs, replaced, now);
        World(db, w.closers[k := c], w.issued)
      case Release(id) => w.(db := ReleaseStaging(w.db, id))
      case Delete(ids) => w.(db := DeleteStash(w.db, ids))
      case ExpirePass(now) => w.(db := Expire(w.db, now))
  }

  ghost function Run(w: World, events: seq<Event>): World
    decreases |events|
  {
    if events == [] then w else Run(Step(w, events[0]), events[1..])
  }

  const EMPTY := World(Db(map[], map[]), map[], {})

  // ---- What every state keeps ----

  /** What of an upload is staged. */
  function Staged(db: Db, id: Id): seq<byte> {
    Content(Parts(db, id), |Parts(db, id)|)
  }

  predicate ChunkFits(c: Chunk, size: nat) {
    && 1 <= |c.data| <= UPLOAD_CHUNK
    && (|c.data| == UPLOAD_CHUNK || c.offset + |c.data| == size)
  }

  /** Chunks one after another from 0, all full but one that completes the file, up to `received`. */
  ghost predicate StagesWell(db: Db, id: Id, r: Row) {
    && InOrder(Parts(db, id))
    && |Staged(db, id)| == r.received <= r.size
    && forall i :: 0 <= i < |Parts(db, id)| ==> ChunkFits(Parts(db, id)[i], r.size)
  }

  ghost predicate RowKept(db: Db, id: Id, r: Row) {
    && (r.status == Receiving ==> StagesWell(db, id, r))
    && (r.status == Stored ==> r.blob.Some?)
    && (r.blob.Some? ==> r.status == Stored || r.status == Deleted)
    && (r.blob.Some? ==> |r.blob.value.of| == r.size && r.crc == Some(Crc32.Crc(r.blob.value.of)))
    && (r.source == Staging ==> r.sentName == None)
  }

  /** The row a close read is the row as it is, but for what settling it changes. */
  ghost predicate SameUpload(r: Row, seen: Row) {
    r.size == seen.size && r.source == seen.source && (r.status == Receiving ==> r.path == seen.path)
  }

  ghost predicate CloserKept(db: Db, issued: set<Id>, c: Closer) {
    && ((c.SawReceiving? || c.HasBytes?) ==> c.id in issued && (c.id in db.rows ==> SameUpload(db.rows[c.id], c.row)))
    && (c.LostRace? ==> c.otherwise.Refused?)
    && (c.HasBytes? ==> |c.bytes| == c.row.size && (IsReceiving(db, c.id) ==> Staged(db, c.id) == c.bytes))
  }

  ghost predicate Inv(w: World) {
    && (forall id :: id in w.db.rows ==> id in w.issued && RowKept(w.db, id, w.db.rows[id]))
    && (forall id :: id in w.db.chunks ==> IsReceiving(w.db, id))
    && (forall k :: k in w.closers ==> CloserKept(w.db, w.issued, w.closers[k]))
  }

  // ---- Chunks in order ----

  lemma {:induction false} ContentSame(parts: seq<Chunk>, more: seq<Chunk>, n: nat)
    requires n <= |parts| && n <= |more| && forall i :: 0 <= i < n ==> parts[i] == more[i]
    ensures Content(parts, n) == Content(more, n)
  {
    if n > 0 { ContentSame(parts, more, n - 1); }
  }

  lemma OneMoreChunk(parts: seq<Chunk>, c: Chunk)
    requires InOrder(parts) && c.offset == |Content(parts, |parts|)|
    ensures InOrder(parts + [c])
    ensures Content(parts + [c], |parts| + 1) == Content(parts, |parts|) + c.data
  {
    var more := parts + [c];
    forall i | 0 <= i < |more| ensures Follows(more, i) {
      ContentSame(parts, more, i);
      if i < |parts| { assert Follows(parts, i); }
    }
    ContentSame(parts, more, |parts|);
    assert more[|parts|] == c;
  }

  /** A resume offset: a whole number of chunks, or the whole file. */
  lemma {:induction false} OnBoundary(parts: seq<Chunk>, size: nat, n: nat)
    requires n <= |parts| && InOrder(parts)
    requires forall i :: 0 <= i < |parts| ==> ChunkFits(parts[i], size)
    ensures |Content(parts, n)| % UPLOAD_CHUNK == 0 || |Content(parts, n)| >= size
  {
    if n > 0 {
      OnBoundary(parts, size, n - 1);
      var c := parts[n - 1];
      assert ChunkFits(c, size) && Follows(parts, n - 1);
      assert |Content(parts, n)| == c.offset + |c.data|;
    }
  }

  // ---- Each step keeps it ----

  /** A row a step does not write. */
  ghost predicate Untouched(db: Db, after: Db, id: Id) {
    id in db.rows && id in after.rows && after.rows[id] == db.rows[id] && Parts(after, id) == Parts(db, id)
  }

  /** One row that is receiving afterwards, and no others. */
  lemma OneRowKeepsInv(w: World, after: World, id: Id)
    requires Inv(w) && after.closers == w.closers && w.issued <= after.issued && id in after.issued
    requires forall i :: i in after.db.rows && i != id ==> Untouched(w.db, after.db, i)
    requires IsReceiving(after.db, id) && RowKept(after.db, id, after.db.rows[id])
    requires id in w.db.rows ==> SameUpload(after.db.rows[id], w.db.rows[id]) && w.db.rows[id].status == Receiving
    requires id !in w.db.rows ==> id !in w.issued
    requires forall k :: k in w.closers ==> !(w.closers[k].HasBytes? && w.closers[k].id == id)
    requires forall i :: i in after.db.chunks ==> i == id || i in w.db.chunks
    requires forall i :: i in after.db.chunks ==> i in after.db.rows
    ensures Inv(after)
  {
    forall i | i in after.db.rows ensures RowKept(after.db, i, after.db.rows[i]) {
      if i != id { assert RowKept(w.db, i, w.db.rows[i]) && Untouched(w.db, after.db, i); }
    }
    forall k | k in after.closers ensures CloserKept(after.db, after.issued, after.closers[k]) {
      var c := after.closers[k];
      assert CloserKept(w.db, w.issued, c);
      if c.id in after.db.rows && c.id != id { assert Untouched(w.db, after.db, c.id); }
    }
  }

  lemma ChunkStagesWell(db: Db, e: Event)
    requires e.ChunkCall? && StoreChunk(db, e.device, e.id, e.offset, e.data).0 != db
    requires StagesWell(db, e.id, db.rows[e.id])
    ensures var after := StoreChunk(db, e.device, e.id, e.offset, e.data).0;
            StagesWell(after, e.id, after.rows[e.id]) && Staged(after, e.id) == Staged(db, e.id) + e.data
  {
    OneMoreChunk(Parts(db, e.id), Chunk(e.offset, e.data));
  }

  lemma ChunkKeepsInv(w: World, e: Event)
    requires Inv(w) && e.ChunkCall?
    ensures Inv(Step(w, e))
  {
    var after := Step(w, e);
    if after.db != w.db {
      var id := e.id;
      assert RowKept(w.db, id, w.db.rows[id]);
      ChunkStagesWell(w.db, e);
      forall k | k in w.closers ensures !(w.closers[k].HasBytes? && w.closers[k].id == id) {
        assert CloserKept(w.db, w.issued, w.closers[k]);
      }
      OneRowKeepsInv(w, after, id);
    }
  }

  lemma OpenKeepsInv(w: World, e: Event)
    requires Inv(w) && e.OpenCall?
    ensures Inv(Step(w, e))
  {
    var after := Step(w, e);
    if after.db != w.db {
      assert Parts(after.db, e.newId) == [];
      assert RowKept(after.db, e.newId, after.db.rows[e.newId]);
      forall k | k in w.closers ensures !(w.closers[k].HasBytes? && w.closers[k].id == e.newId) {
        assert CloserKept(w.db, w.issued, w.closers[k]);
      }
      OneRowKeepsInv(w, after, e.newId);
    } else {
      forall k | k in w.closers ensures CloserKept(w.db, after.issued, w.closers[k]) {
        assert CloserKept(w.db, w.issued, w.closers[k]);
      }
    }
  }

  /** Rows that leave receiving lose their chunks; nothing else of a row changes under a close. */
  lemma LeavingKeepsInv(w: World, after: Db)
    requires Inv(w)
    requires forall id :: id in after.rows ==>
      id in w.db.rows && after.rows[id].size == w.db.rows[id].size && after.rows[id].source == w.db.rows[id].source
      && (after.rows[id].status == Receiving ==> after.rows[id] == w.db.rows[id] && Parts(after, id) == Parts(w.db, id))
      && (after.rows[id].status != Receiving ==> RowKept(after, id, after.rows[id]))
    requires forall id :: id in after.chunks ==> IsReceiving(after, id)
    ensures Inv(w.(db := after))
  {
    forall i | i in after.rows ensures RowKept(after, i, after.rows[i]) {
      assert RowKept(w.db, i, w.db.rows[i]);
    }
    forall k | k in w.closers ensures CloserKept(after, w.issued, w.closers[k]) {
      assert CloserKept(w.db, w.issued, w.closers[k]);
    }
  }

  lemma DeleteKeepsInv(w: World, ids: set<Id>)
    requires Inv(w)
    ensures Inv(w.(db := DeleteRows(w.db, ids)))
  {
    forall id | id in w.db.rows ensures RowKept(w.db, id, w.db.rows[id]) {}
    LeavingKeepsInv(w, DeleteRows(w.db, ids));
  }

  lemma ReplaceKeepsInv(w: World, id: Id, replaced: set<Id>)
    requires Inv(w)
    ensures Inv(w.(db := Replace(w.db, id, replaced)))
  {
    forall i | i in w.db.rows ensures RowKept(w.db, i, w.db.rows[i]) {}
    LeavingKeepsInv(w, Replace(w.db, id, replaced));
  }

  lemma ExpireKeepsInv(w: World, now: int)
    requires Inv(w)
    ensures Inv(w.(db := Expire(w.db, now)))
  {
    forall id | id in w.db.rows ensures RowKept(w.db, id, w.db.rows[id]) {}
    LeavingKeepsInv(w, Expire(w.db, now));
  }

  lemma SettleKeepsInv(w: World, id: Id, row: Row)
    requires Inv(w) && id in w.db.rows && row.status != Receiving && RowKept(w.db, id, row)
    requires row.size == w.db.rows[id].size && row.source == w.db.rows[id].source
    ensures Inv(w.(db := Settle(w.db, id, row)))
  {
    forall i | i in w.db.rows ensures RowKept(w.db, i, w.db.rows[i]) {}
    LeavingKeepsInv(w, Settle(w.db, id, row));
  }

  lemma WriteKeepsInv(w: World, c: Closer, storedAs: string, replaced: set<Id>, now: int)
    requires Inv(w) && c.HasBytes? && CloserKept(w.db, w.issued, c)
    ensures Inv(w.(db := Write(w.db, c, storedAs, replaced, now).0))
  {
    if Crc32.Crc(c.bytes) != c.crc {
      if IsReceiving(w.db, c.id) {
        assert RowKept(w.db, c.id, w.db.rows[c.id]);
        SettleKeepsInv(w, c.id, w.db.rows[c.id].(status := FailedCrc, crc := Some(c.crc)));
      }
    } else {
      var w1 := w;
      if c.row.source != Staging {
        ReplaceKeepsInv(w, c.id, replaced);
        w1 := w.(db := Replace(w.db, c.id, replaced));
      }
      if IsReceiving(w1.db, c.id) {
        assert RowKept(w.db, c.id, w.db.rows[c.id]);
        SettleKeepsInv(w1, c.id, StoredRow(w1.db.rows[c.id], c, storedAs, now));
      }
    }
  }

  lemma CloserKeepsInv(w: World, e: Event)
    requires Inv(w) && e.CloserStep?
    ensures Inv(Step(w, e))
  {
    if Possible(w, e) {
      var c := w.closers[e.closer];
      assert CloserKept(w.db, w.issued, c);
      var (db, next) := StepCloser(w.db, c, e.storedAs, e.replaced, e.now);
      if c.HasBytes? { WriteKeepsInv(w, c, e.storedAs, e.replaced, e.now); }
      if c.Arrived? && Found(w.db, c.device, c.id) { assert RowKept(w.db, c.id, w.db.rows[c.id]); }
      assert CloserKept(db, w.issued, next);
    }
  }

  lemma StepKeepsInv(w: World, e: Event)
    requires Inv(w)
    ensures Inv(Step(w, e))
  {
    match e {
      case OpenCall(_, _, _, _, _) => OpenKeepsInv(w, e);
      case ChunkCall(_, _, _, _) => ChunkKeepsInv(w, e);
      case CloseCall(_, _, _, _) =>
      case CloserStep(_, _, _, _) => CloserKeepsInv(w, e);
      case Release(id) => DeleteKeepsInv(w, {id});
      case Delete(ids) => DeleteKeepsInv(w, StillThere(w.db, ids));
      case ExpirePass(now) => ExpireKeepsInv(w, now);
    }
  }

  lemma {:induction false} RunKeepsInv(w: World, events: seq<Event>)
    requires Inv(w)
    ensures Inv(Run(w, events))
    decreases |events|
  {
    if events != [] {
      StepKeepsInv(w, events[0]);
      RunKeepsInv(Step(w, events[0]), events[1..]);
    }
  }

  // ---- What a reader of a row may rely on ----

  /** In every reachable state a receiving row resumes at a chunk boundary. */
  lemma ResumesOnBoundary(events: seq<Event>, id: Id)
    requires IsReceiving(Run(EMPTY, events).db, id)
    ensures var db, r := Run(EMPTY, events).db, Run(EMPTY, events).db.rows[id];
            && StagesWell(db, id, r)
            && (r.received % UPLOAD_CHUNK == 0 || r.received == r.size)
  {
    RunKeepsInv(EMPTY, events);
    var db, r := Run(EMPTY, events).db, Run(EMPTY, events).db.rows[id];
    assert RowKept(db, id, r);
    OnBoundary(Parts(db, id), r.size, |Parts(db, id)|);
  }

  /** While a row is there, what was received of it never falls, and once settled it never receives again. */
  lemma NeverFalls(w: World, e: Event, id: Id)
    requires Inv(w) && id in w.issued
    ensures id in Step(w, e).issued
    ensures id !in w.db.rows ==> id !in Step(w, e).db.rows
    ensures id in w.db.rows && id in Step(w, e).db.rows ==>
              && w.db.rows[id].received <= Step(w, e).db.rows[id].received
              && (IsReceiving(Step(w, e).db, id) ==> IsReceiving(w.db, id))
  {
    if e.CloserStep? { CloserNeverFalls(w, e, id); } else { OtherNeverFalls(w, e, id); }
  }

  lemma CloserNeverFalls(w: World, e: Event, id: Id)
    requires Inv(w) && e.CloserStep?
    ensures id in w.db.rows <==> id in Step(w, e).db.rows
    ensures id in w.db.rows ==>
              && w.db.rows[id].received <= Step(w, e).db.rows[id].received
              && (IsReceiving(Step(w, e).db, id) ==> IsReceiving(w.db, id))
  {
    if id in w.db.rows { assert RowKept(w.db, id, w.db.rows[id]); }
    if Possible(w, e) { assert CloserKept(w.db, w.issued, w.closers[e.closer]); }
  }

  lemma OtherNeverFalls(w: World, e: Event, id: Id)
    requires Inv(w) && id in w.issued && !e.CloserStep?
    ensures id !in w.db.rows ==> id !in Step(w, e).db.rows
    ensures id in w.db.rows && id in Step(w, e).db.rows ==>
              && w.db.rows[id].received <= Step(w, e).db.rows[id].received
              && (IsReceiving(Step(w, e).db, id) ==> IsReceiving(w.db, id))
  {
  }

  // ---- What is stored is what was accepted ----

  /** The bytes this step takes into the upload: a chunk at the offset the row had reached. */
  function TakenBy(w: World, e: Event, id: Id): seq<byte> {
    if e.ChunkCall? && e.id == id && id in w.db.rows && id in Step(w, e).db.rows
       && Step(w, e).db.rows[id].received != w.db.rows[id].received
    then e.data else []
  }

  /** Every accepted chunk of a run, in order. */
  ghost function Accepted(w: World, events: seq<Event>, id: Id): seq<byte>
    decreases |events|
  {
    if events == [] then []
    else TakenBy(w, events[0], id) + Accepted(Step(w, events[0]), events[1..], id)
  }

  /** The file as far as it is known: what is staged, or what was stored. */
  ghost function FileOf(db: Db, id: Id): Option<seq<byte>> {
    if id !in db.rows then None
    else if db.rows[id].status == Receiving then Some(Staged(db, id))
    else if db.rows[id].blob.Some? then Some(db.rows[id].blob.value.of)
    else None
  }

  lemma WriteKeepsFile(db: Db, c: Closer, storedAs: string, replaced: set<Id>, now: int, id: Id)
    requires c.HasBytes? && id in db.rows && RowKept(db, id, db.rows[id])
    requires c.id in db.rows && IsReceiving(db, c.id) ==> Staged(db, c.id) == c.bytes
    requires FileOf(Write(db, c, storedAs, replaced, now).0, id).Some?
    ensures FileOf(db, id) == FileOf(Write(db, c, storedAs, replaced, now).0, id)
  {
    var db1 := if c.row.source == Staging then db else Replace(db, c.id, replaced);
    assert Parts(db1, id) == Parts(db, id) && FileOf(db1, id) == FileOf(db, id);
  }

  lemma CloserKeepsFile(w: World, e: Event, id: Id)
    requires Inv(w) && e.CloserStep? && Possible(w, e) && id in Step(w, e).db.rows && FileOf(Step(w, e).db, id).Some?
    ensures FileOf(w.db, id) == FileOf(Step(w, e).db, id)
  {
    var c := w.closers[e.closer];
    assert RowKept(w.db, id, w.db.rows[id]);
    if c.HasBytes? {
      assert CloserKept(w.db, w.issued, c);
      WriteKeepsFile(w.db, c, e.storedAs, e.replaced, e.now, id);
    }
  }

  /** Other than opening an upload or sending a chunk, no step changes a file that is still known after it. */
  lemma OthersKeepFile(w: World, e: Event, id: Id)
    requires Inv(w) && !e.OpenCall? && !e.ChunkCall? && FileOf(Step(w, e).db, id).Some?
    ensures FileOf(w.db, id) == FileOf(Step(w, e).db, id)
  {
    assert RowKept(w.db, id, w.db.rows[id]);
    if e.CloserStep? && Possible(w, e) { CloserKeepsFile(w, e, id); }
  }

  /** What is known of the file before: nothing, for an upload not opened yet. */
  ghost function Before(w: World, id: Id): seq<byte> {
    if FileOf(w.db, id).Some? then FileOf(w.db, id).value else []
  }

  ghost predicate KnownOrNew(w: World, id: Id) {
    FileOf(w.db, id).Some? || (id !in w.db.rows && id !in w.issued)
  }

  lemma OpenTakes(w: World, e: Event, id: Id)
    requires Inv(w) && e.OpenCall? && FileOf(Step(w, e).db, id).Some?
    ensures KnownOrNew(w, id) && FileOf(Step(w, e).db, id).value == Before(w, id)
  {
    assert id in w.db.rows ==> Parts(Step(w, e).db, id) == Parts(w.db, id);
    assert id !in w.db.rows ==> Parts(Step(w, e).db, id) == [];
  }

  lemma ChunkTakes(w: World, e: Event, id: Id)
    requires Inv(w) && e.ChunkCall? && FileOf(Step(w, e).db, id).Some?
    ensures KnownOrNew(w, id) && FileOf(Step(w, e).db, id).value == Before(w, id) + TakenBy(w, e, id)
  {
    assert RowKept(w.db, id, w.db.rows[id]);
    if TakenBy(w, e, id) != [] {
      ChunkStagesWell(w.db, e);
    } else {
      assert Parts(Step(w, e).db, id) == Parts(w.db, id);
    }
  }

  lemma StepTakes(w: World, e: Event, id: Id)
    requires Inv(w) && FileOf(Step(w, e).db, id).Some?
    ensures KnownOrNew(w, id) && FileOf(Step(w, e).db, id).value == Before(w, id) + TakenBy(w, e, id)
  {
    if e.OpenCall? {
      OpenTakes(w, e, id);
    } else if e.ChunkCall? {
      ChunkTakes(w, e, id);
    } else {
      OthersKeepFile(w, e, id);
    }
  }

  /** The same for a step after which the file may not be known, of an upload that is later. */
  lemma StepBefore(w: World, e: Event, id: Id)
    requires Inv(w) && KnownOrNew(Step(w, e), id)
    ensures KnownOrNew(w, id) && Before(Step(w, e), id) == Before(w, id) + TakenBy(w, e, id)
  {
    if FileOf(Step(w, e).db, id).Some? {
      StepTakes(w, e, id);
    }
  }

  lemma Associates(a: seq<byte>, b: seq<byte>, c: seq<byte>)
    ensures (a + b) + c == a + (b + c)
  {
  }

  lemma {:induction false} RunTakes(w: World, events: seq<Event>, id: Id)
    requires Inv(w) && KnownOrNew(Run(w, events), id)
    ensures KnownOrNew(w, id) && Before(Run(w, events), id) == Before(w, id) + Accepted(w, events, id)
    decreases |events|
  {
    if events == [] {
      assert Before(w, id) == Before(w, id) + [];
    } else {
      var w1 := Step(w, events[0]);
      StepKeepsInv(w, events[0]);
      RunTakes(w1, events[1..], id);
      StepBefore(w, events[0], id);
      Associates(Before(w, id), TakenBy(w, events[0], id), Accepted(w1, events[1..], id));
    }
  }

  /**
   * Whatever is interleaved with it, a file that was stored is its accepted chunks in order, all
   * of them, and has the CRC the board sent.
   */
  lemma StoredIsAccepted(events: seq<Event>, id: Id)
    requires var db := Run(EMPTY, events).db; id in db.rows && db.rows[id].blob.Some?
    ensures var r := Run(EMPTY, events).db.rows[id];
            && r.blob == Some(Sha256(Accepted(EMPTY, events, id)))
            && |Accepted(EMPTY, events, id)| == r.size
            && r.crc == Some(Crc32.Crc(Accepted(EMPTY, events, id)))
  {
    RunKeepsInv(EMPTY, events);
    var db := Run(EMPTY, events).db;
    assert RowKept(db, id, db.rows[id]);
    RunTakes(EMPTY, events, id);
    assert [] + Accepted(EMPTY, events, id) == Accepted(EMPTY, events, id);
  }

  /** The board sends pieces of `file`, each at its place: in any order, any of them any number of times. */
  predicate Honest(e: Event, id: Id, file: seq<byte>) {
    e.ChunkCall? && e.id == id ==> e.offset + |e.data| <= |file| && e.data == file[e.offset..e.offset + |e.data|]
  }

  /** A chunk is only taken where the file so far ends. */
  lemma TakenAtEnd(w: World, e: Event, id: Id)
    requires Inv(w) && TakenBy(w, e, id) != []
    ensures e.ChunkCall? && e.id == id && TakenBy(w, e, id) == e.data && e.offset == |Before(w, id)|
  {
    assert RowKept(w.db, id, w.db.rows[id]);
  }

  lemma PrefixGrows(file: seq<byte>, start: seq<byte>, data: seq<byte>)
    requires start <= file && |start| + |data| <= |file| && data == file[|start|..|start| + |data|]
    ensures start + data <= file
  {
  }

  lemma HonestStep(w: World, e: Event, id: Id, file: seq<byte>)
    requires Inv(w) && Honest(e, id, file) && Before(w, id) <= file
    ensures Before(Step(w, e), id) <= file
  {
    if FileOf(Step(w, e).db, id).Some? {
      StepTakes(w, e, id);
      var start, taken := Before(w, id), TakenBy(w, e, id);
      if taken != [] {
        TakenAtEnd(w, e, id);
        PrefixGrows(file, start, taken);
      } else {
        assert start + [] == start;
      }
    }
  }

  lemma {:induction false} HonestRun(w: World, events: seq<Event>, id: Id, file: seq<byte>)
    requires Inv(w) && Before(w, id) <= file && forall e :: e in events ==> Honest(e, id, file)
    ensures Before(Run(w, events), id) <= file
    decreases |events|
  {
    if events != [] {
      HonestStep(w, events[0], id, file);
      StepKeepsInv(w, events[0]);
      HonestRun(Step(w, events[0]), events[1..], id, file);
    }
  }

  /** So, with answers lost, chunks repeated and the upload reopened, what is stored is the file. */
  lemma HonestUploadStoresFile(events: seq<Event>, id: Id, file: seq<byte>)
    requires forall e :: e in events ==> Honest(e, id, file)
    requires var db := Run(EMPTY, events).db; id in db.rows && db.rows[id].blob.Some? && db.rows[id].size == |file|
    ensures Run(EMPTY, events).db.rows[id].blob == Some(Sha256(file))
  {
    HonestRun(EMPTY, events, id, file);
    RunKeepsInv(EMPTY, events);
    var db := Run(EMPTY, events).db;
    assert RowKept(db, id, db.rows[id]);
    assert db.rows[id].blob.value.of == file[..|file|] == file;
  }
}
