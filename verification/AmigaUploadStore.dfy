/**
 * The same calls as the code makes them, one statement after another on the rows
 * (src/lib/amiga-uploads.ts, deleteStash in src/lib/stash.ts).
 */
module AmigaUploadStore {
  import opened Bytes
  import opened AmigaUploads
  import opened AmigaUploadRuns
  import Crc32

  /** The rest of a close when nothing comes between its steps. */
  function CloseFrom(db: Db, c: Closer, storedAs: string, replaced: set<Id>, now: int): (Db, CloseAnswer)
    decreases match c case Arrived(_, _, _) => 4 case SawReceiving(_, _, _, _) => 3 case HasBytes(_, _, _, _, _) => 2
                      case LostRace(_, _, _, _) => 1 case Done(_, _, _, _) => 0
  {
    if c.Done? then (db, c.answer)
    else var (db1, c1) := StepCloser(db, c, storedAs, replaced, now); CloseFrom(db1, c1, storedAs, replaced, now)
  }

  lemma {:induction false} ContentGrows(parts: seq<Chunk>, m: nat, n: nat)
    requires m <= n <= |parts|
    ensures |Content(parts, m)| <= |Content(parts, n)|
    decreases n
  {
    if m < n { ContentGrows(parts, m, n - 1); }
  }

  /** Among the rows that match, one is as new as any. */
  lemma {:induction false} NewestExists(db: Db, q: Request, now: int, ids: set<Id>)
    requires ids != {} && forall id :: id in ids ==> id in db.rows && Matches(db.rows[id], id, q, now)
    ensures exists id :: id in ids && forall other :: other in ids ==> db.rows[other].created <= db.rows[id].created
    decreases |ids|
  {
    var one :| one in ids;
    var rest := ids - {one};
    if rest == {} {
      assert ids == {one};
    } else {
      NewestExists(db, q, now, rest);
      var best :| best in rest && forall other :: other in rest ==> db.rows[other].created <= db.rows[best].created;
      var id := if db.rows[one].created > db.rows[best].created then one else best;
      assert forall other :: other in ids ==> other == one || other in rest;
      assert id in ids && forall other :: other in ids ==> db.rows[other].created <= db.rows[id].created;
    }
  }

  /** An upload of the same file from the same board that it may go on with. */
  ghost predicate SameFile(r: Row, id: Id, q: Request, now: int) {
    && (r.device, r.path, r.size, r.date, r.source) == (q.device, q.path, q.size, q.date, q.source)
    && r.status == Receiving && r.expires > now && (r.source == Staging ==> q.get == Some(id))
  }

  // ---- What is taken ----

  /** This is the next piece of an upload: a full chunk, or any that ends the file. */
  ghost predicate IsNext(r: Row, device: Id, offset: nat, n: nat) {
    && r.device == device && r.status == Receiving && r.received == offset
    && ((n == 16384 && offset + n <= r.size) || (1 <= n <= 16384 && offset + n == r.size))
  }

  /** The next piece is taken and nothing else is: not a gap, a piece too short, too long or past the end. */
  lemma ChunksExact(db: Db, device: Id, id: Id, offset: nat, data: seq<byte>)
    ensures var (after, a) := StoreChunk(db, device, id, offset, data);
            && (after != db <==> id in db.rows && IsNext(db.rows[id], device, offset, |data|))
            && (after != db ==>
                  && a == Received(offset + |data|)
                  && after.rows == db.rows[id := db.rows[id].(received := offset + |data|)]
                  && after.chunks == db.chunks[id := Parts(db, id) + [Chunk(offset, data)]])
  {
    var after := StoreChunk(db, device, id, offset, data).0;
    if id in db.rows && IsNext(db.rows[id], device, offset, |data|) {
      assert after.rows[id].received != db.rows[id].received;
    }
  }

  /** The file from `at` on, sent as a board does: full chunks, and what is left. */
  ghost function SendRest(db: Db, device: Id, id: Id, file: seq<byte>, at: nat): Db
    decreases |file| - at
  {
    if at >= |file| then db
    else
      var end := if at + 16384 < |file| then at + 16384 else |file|;
      SendRest(StoreChunk(db, device, id, at, file[at..end]).0, device, id, file, end)
  }

  /** The upload has this much of the file, in order. */
  ghost predicate HasFirst(db: Db, device: Id, id: Id, file: seq<byte>, at: nat) {
    && id in db.rows && db.rows[id].device == device && db.rows[id].status == Receiving
    && db.rows[id].size == |file| && db.rows[id].received == at <= |file|
    && InOrder(Parts(db, id)) && Staged(db, id) == file[..at]
  }

  lemma OneMorePiece(db: Db, device: Id, id: Id, file: seq<byte>, at: nat, end: nat)
    requires HasFirst(db, device, id, file, at) && at < end <= |file|
    requires end == at + 16384 || (end == |file| && end <= at + 16384)
    ensures HasFirst(StoreChunk(db, device, id, at, file[at..end]).0, device, id, file, end)
    ensures StoreChunk(db, device, id, at, file[at..end]).0.rows == db.rows[id := db.rows[id].(received := end)]
  {
    ChunksExact(db, device, id, at, file[at..end]);
    OneMoreChunk(Parts(db, id), Chunk(at, file[at..end]));
    assert file[..at] + file[at..end] == file[..end];
  }

  lemma {:induction false} RestArrives(db: Db, device: Id, id: Id, file: seq<byte>, at: nat)
    requires HasFirst(db, device, id, file, at)
    ensures HasFirst(SendRest(db, device, id, file, at), device, id, file, |file|)
    ensures SendRest(db, device, id, file, at).rows == db.rows[id := db.rows[id].(received := |file|)]
    decreases |file| - at
  {
    if at < |file| {
      var end := if at + 16384 < |file| then at + 16384 else |file|;
      OneMorePiece(db, device, id, file, at, end);
      RestArrives(StoreChunk(db, device, id, at, file[at..end]).0, device, id, file, end);
    } else {
      assert db.rows[id := db.rows[id].(received := |file|)] == db.rows;
    }
  }

  /** With every byte in, a close with the file's CRC that nothing interrupts stores the file. */
  lemma FullCloses(db: Db, device: Id, id: Id, file: seq<byte>, storedAs: string, replaced: set<Id>, now: int)
    requires HasFirst(db, device, id, file, |file|)
    ensures var (after, a) := CloseFrom(db, Arrived(device, id, Crc32.Crc(file)), storedAs, replaced, now);
            && a == Named(db.rows[id].path)
            && id in after.rows && after.rows[id].status == Stored && after.rows[id].blob == Some(Sha256(file))
  {
    assert file[..|file|] == file;
    var c := Arrived(device, id, Crc32.Crc(file));
    var saw := SawReceiving(c.device, id, c.crc, db.rows[id]);
    var has := HasBytes(c.device, id, c.crc, db.rows[id], file);
    assert ReadRow(db, c) == saw && ReadChunks(db, saw) == has;
    var (after, done) := Write(db, has, storedAs, replaced, now);
    assert done == Done(c.device, id, c.crc, Named(db.rows[id].path));
    assert CloseFrom(db, c, storedAs, replaced, now) == CloseFrom(db, saw, storedAs, replaced, now);
    assert CloseFrom(db, saw, storedAs, replaced, now) == CloseFrom(db, has, storedAs, replaced, now);
    assert CloseFrom(db, has, storedAs, replaced, now) == CloseFrom(after, done, storedAs, replaced, now);
  }

  /**
   * From any open that makes a new row, in any reachable state: the file's pieces sent in order bring
   * the upload to its size, and a close with the file's CRC stores the file under the name sent.
   */
  lemma WholeUploadStores(events: seq<Event>, q: Request, start: int, newId: Id, full: bool, file: seq<byte>,
                          storedAs: string, replaced: set<Id>, now: int)
    requires Possible(Run(EMPTY, events), OpenCall(q, start, None, newId, full)) && q.size == |file|
    requires Open(Run(EMPTY, events).db, q, start, None, newId, full).1 == Fresh(newId)
    ensures var sent := SendRest(Open(Run(EMPTY, events).db, q, start, None, newId, full).0, q.device, newId, file, 0);
            var (after, a) := CloseFrom(sent, Arrived(q.device, newId, Crc32.Crc(file)), storedAs, replaced, now);
            && newId in sent.rows && sent.rows[newId].received == |file| && a == Named(q.path)
            && newId in after.rows && after.rows[newId].status == Stored
            && after.rows[newId].blob == Some(Sha256(file))
  {
    RunKeepsInv(EMPTY, events);
    var db := Open(Run(EMPTY, events).db, q, start, None, newId, full).0;
    assert Parts(db, newId) == [];
    RestArrives(db, q.device, newId, file, 0);
    FullCloses(SendRest(db, q.device, newId, file, 0), q.device, newId, file, storedAs, replaced, now);
  }

  /**
   * And from wherever a board has got that sends pieces of one file at their places, with answers lost
   * and chunks repeated: the pieces from its resume offset on complete the upload, and the close stores
   * that file.
   */
  lemma ResumedUploadStores(events: seq<Event>, id: Id, file: seq<byte>, storedAs: string, replaced: set<Id>, now: int)
    requires forall e :: e in events ==> Honest(e, id, file)
    requires IsReceiving(Run(EMPTY, events).db, id) && Run(EMPTY, events).db.rows[id].size == |file|
    ensures var db, r := Run(EMPTY, events).db, Run(EMPTY, events).db.rows[id];
            var sent := SendRest(db, r.device, id, file, r.received);
            var (after, a) := CloseFrom(sent, Arrived(r.device, id, Crc32.Crc(file)), storedAs, replaced, now);
            && id in sent.rows && sent.rows[id].received == |file| && a == Named(r.path)
            && id in after.rows && after.rows[id].status == Stored && after.rows[id].blob == Some(Sha256(file))
  {
    HonestRun(EMPTY, events, id, file);
    RunKeepsInv(EMPTY, events);
    var db, r := Run(EMPTY, events).db, Run(EMPTY, events).db.rows[id];
    assert RowKept(db, id, r);
    assert Staged(db, id) == file[..r.received];
    RestArrives(db, r.device, id, file, r.received);
    FullCloses(SendRest(db, r.device, id, file, r.received), r.device, id, file, storedAs, replaced, now);
  }

  /** A chunk sent again after it was taken changes nothing, and hears what it would have heard. */
  lemma ChunksRepeat(db: Db, device: Id, id: Id, offset: nat, data: seq<byte>)
    requires StoreChunk(db, device, id, offset, data).1.Received?
    ensures var (after, a) := StoreChunk(db, device, id, offset, data);
            StoreChunk(after, device, id, offset, data) == (after, a)
  {
  }

  /** A staging file handed on answers a repeat of its close as it did before, whatever the CRC. */
  lemma HandedOnAnswersOn(w: World, id: Id, crc: nat)
    requires Inv(w) && id in w.db.rows && w.db.rows[id].status == Stored && w.db.rows[id].source == Staging
    ensures SettledAnswer(ReleaseStaging(w.db, id).rows[id], crc) == SettledAnswer(w.db.rows[id], crc)
  {
    assert RowKept(w.db, id, w.db.rows[id]);
  }

  /**
   * After a delete the board's next chunk stores nothing, and its close hears that the upload is gone,
   * unless it was a staging file that had been stored, and the close has the CRC it was stored under.
   */
  lemma DeletedIsGone(db: Db, ids: set<Id>, id: Id, offset: nat, data: seq<byte>, crc: nat)
    requires id in ids && id in db.rows
    ensures var after, r := DeleteStash(db, ids), db.rows[id];
            && !StoreChunk(after, r.device, id, offset, data).1.Received?
            && (ReadRow(after, Arrived(r.device, id, crc)) == Done(r.device, id, crc, Refused(409, CodeGone)) <==>
                  !(r.source == Staging && r.blob.Some? && r.crc == Some(crc)))
  {
  }

  /** The daily pass's two statements. */
  function FailOverdue(db: Db, now: int): Db {
    Db(map i | i in db.rows :: Aged(db.rows[i], now),
       map i | i in db.chunks && !(i in db.rows && Overdue(db.rows[i], now)) :: db.chunks[i])
  }

  function DropOld(db: Db, now: int): Db {
    Db(map i | i in db.rows && !Old(db.rows[i], now) :: db.rows[i],
       map i | i in db.chunks && i in db.rows && !Old(db.rows[i], now) :: db.chunks[i])
  }

  lemma ExpireIsBoth(db: Db, now: int)
    ensures Expire(db, now) == DropOld(FailOverdue(db, now), now)
  {
  }

  class Store {
    var rows: map<Id, Row>
    var chunks: map<Id, seq<Chunk>>

    ghost function State(): Db
      reads this
    {
      Db(rows, chunks)
    }

    constructor (db: Db)
      ensures State() == db
    {
      rows, chunks := db.rows, db.chunks;
    }

    /** The newest row this request may resume, if there is one. */
    method FindSame(q: Request, now: int) returns (pick: Option<Id>)
      ensures MayPick(State(), q, now, pick)
    {
      var same := set id | id in rows && Matches(rows[id], id, q, now);
      if same == {} {
        forall id | id in rows ensures !Matches(rows[id], id, q, now) { assert id !in same; }
        return None;
      }
      NewestExists(State(), q, now, same);
      var id :| id in same && forall other :: other in same ==> rows[other].created <= rows[id].created;
      forall other | other in rows && Matches(rows[other], other, q, now)
        ensures rows[other].created <= rows[id].created
      {
        assert other in same;
      }
      return Some(id);
    }

    method OpenUpload(q: Request, now: int, newId: Id, full: bool) returns (o: Opened)
      modifies this
      ensures exists pick ::
                && MayPick(old(State()), q, now, pick)
                && (State(), o) == Open(old(State()), q, now, pick, newId, full)
      ensures o.Resumed? <==>
                && 0 <= q.size <= 4194304 && q.path != ""
                && exists id :: id in old(rows) && SameFile(old(rows)[id], id, q, now)
      ensures o.Fresh? <==>
                && 0 <= q.size <= 4194304 && q.path != "" && (q.source == Staging || !full)
                && forall id :: id in old(rows) ==> !SameFile(old(rows)[id], id, q, now)
      ensures o.Fresh? ==> State() == old(State()).(rows := old(rows)[newId := NewRow(q, now)])
      ensures o.Resumed? ==>
                && o.id in old(rows) && SameFile(old(rows)[o.id], o.id, q, now) && o.offset == old(rows)[o.id].received
                && State() == old(State())
                && forall id :: id in old(rows) && SameFile(old(rows)[id], id, q, now) ==>
                     old(rows)[id].created <= old(rows)[o.id].created
    {
      var pick := FindSame(q, now);
      if q.size < 0 { return BadSize; }
      if q.size > UPLOAD_FILE_MAX { return BadSize; }
      if q.path == "" { return BadName; }
      if pick.Some? { return Resumed(pick.value, rows[pick.value].received); }
      if q.source != Staging && full { return Full; }
      rows := rows[newId := NewRow(q, now)];
      o := Fresh(newId);
    }

    method StoreChunkRow(device: Id, id: Id, offset: nat, data: seq<byte>) returns (a: ChunkAnswer)
      modifies this
      ensures (State(), a) == StoreChunk(old(State()), device, id, offset, data)
      ensures State() != old(State()) <==> id in old(rows) && IsNext(old(rows)[id], device, offset, |data|)
      ensures State() != old(State()) ==> a == Received(offset + |data|)
      ensures !a.Received? ==> State() == old(State())
      ensures a.Received? ==>
                && IsReceiving(old(State()), id) && old(rows)[id].device == device && 1 <= |data| <= UPLOAD_CHUNK
                && if offset < old(rows)[id].received then State() == old(State()) && a.n == old(rows)[id].received
                   else
                     && offset == old(rows)[id].received && a.n == offset + |data| <= old(rows)[id].size
                     && rows == old(rows)[id := old(rows)[id].(received := a.n)]
                     && Staged(State(), id) == Staged(old(State()), id) + data
                     && forall i :: i != id ==> Parts(State(), i) == Parts(old(State()), i)
    {
      ChunksExact(State(), device, id, offset, data);
      if |data| < 1 || |data| > UPLOAD_CHUNK { return BadChunk; }
      if id !in rows || rows[id].device != device || rows[id].status != Receiving { return NoUpload; }
      var r := rows[id];
      if offset < r.received { return Received(r.received); }
      if offset > r.received { return Gap(r.received); }
      var end := offset + |data|;
      if end > r.size || (|data| != UPLOAD_CHUNK && end != r.size) { return BadChunk; }
      var parts := if id in chunks then chunks[id] else [];
      ContentSame(parts, parts + [Chunk(offset, data)], |parts|);
      chunks := chunks[id := parts + [Chunk(offset, data)]];
      rows := rows[id := r.(received := end)];
      a := Received(end);
    }

    /** The chunks read into a buffer of the file's size. */
    method ReadBytes(id: Id, size: nat) returns (bytes: Option<seq<byte>>)
      ensures bytes == Assembled(Parts(State(), id), size)
    {
      var parts := if id in chunks then chunks[id] else [];
      var buffer := new byte[size];
      var at, k := 0, 0;
      while k < |parts|
        invariant 0 <= k <= |parts| && 0 <= at <= size && buffer[..at] == Content(parts, k)
        invariant forall i :: 0 <= i < k ==> Follows(parts, i)
      {
        var p := parts[k];
        if p.offset != at {
          assert !Follows(parts, k);
          return None;
        }
        if at + |p.data| > size {
          ContentGrows(parts, k + 1, |parts|);
          return None;
        }
        ghost var before := buffer[..at];
        forall i | 0 <= i < |p.data| { buffer[at + i] := p.data[i]; }
        assert buffer[..at + |p.data|] == before + p.data;
        assert Follows(parts, k);
        at := at + |p.data|;
        k := k + 1;
      }
      if at != size { return None; }
      assert buffer[..] == buffer[..at];
      bytes := Some(buffer[..]);
    }

    /** The row as it is now decides. */
    method Lost(device: Id, id: Id, crc: nat, otherwise: CloseAnswer) returns (a: CloseAnswer)
      ensures Reread(State(), LostRace(device, id, crc, otherwise)) == Done(device, id, crc, a)
    {
      if id !in rows || rows[id].device != device { return Refused(404, CodeGone); }
      var settled := SettledAnswer(rows[id], crc);
      if settled.Some? && !(settled.value.Refused? && settled.value.code == CodeGone) { return settled.value; }
      a := otherwise;
    }

    /** The failed close's transaction. */
    method FailCrc(id: Id, crc: nat) returns (hit: bool)
      modifies this
      ensures hit == IsReceiving(old(State()), id)
      ensures State() == if hit then Settle(old(State()), id, old(rows)[id].(status := FailedCrc, crc := Some(crc)))
                         else old(State())
    {
      hit := id in rows && rows[id].status == Receiving;
      if hit {
        rows := rows[id := rows[id].(status := FailedCrc, crc := Some(crc))];
        chunks := chunks - {id};
      }
    }

    /** The good close's transaction. */
    method StoreFile(c: Closer, storedAs: string, replaced: set<Id>, now: int) returns (hit: bool)
      requires c.HasBytes? && Crc32.Crc(c.bytes) == c.crc
      modifies this
      ensures State() == Write(old(State()), c, storedAs, replaced, now).0
      ensures Write(old(State()), c, storedAs, replaced, now).1 ==
                if hit then Done(c.device, c.id, c.crc, Named(c.row.path))
                else LostRace(c.device, c.id, c.crc, Refused(404, CodeGone))
      ensures hit == IsReceiving(old(State()), c.id)
      ensures hit ==>
                && c.id in rows && rows[c.id].status == Stored && rows[c.id].crc == Some(c.crc)
                && rows[c.id].blob == Some(Sha256(c.bytes)) && Parts(State(), c.id) == []
                && rows[c.id].expires == now + (if c.row.source == Staging then UPLOAD_RESUME_MS else UPLOAD_KEEP_MS)
                && (c.row.source != Staging ==> rows[c.id].path == storedAs && NameOf(rows[c.id]) == c.row.path)
      ensures forall i :: i in old(rows) && i != c.id ==>
                && i in rows && Parts(State(), i) == Parts(old(State()), i)
                && (rows[i] == old(rows)[i]
                    || (i in replaced && c.row.source != Staging && rows[i] == old(rows)[i].(status := Deleted)))
    {
      if c.row.source != Staging {
        rows := map i | i in rows ::
          if i in replaced && i != c.id && rows[i].status == Stored then rows[i].(status := Deleted) else rows[i];
      }
      hit := c.id in rows && rows[c.id].status == Receiving;
      if hit {
        var r := rows[c.id].(
          status := Stored, crc := Some(c.crc), blob := Some(Sha256(c.bytes)), received := c.row.size);
        if c.row.source == Staging {
          r := r.(expires := now + UPLOAD_RESUME_MS);
        } else {
          r := r.(expires := now + UPLOAD_KEEP_MS,
                  path := storedAs, sentName := if storedAs == c.row.path then None else Some(c.row.path));
        }
        rows := rows[c.id := r];
        chunks := chunks - {c.id};
      }
    }

    method CloseUpload(device: Id, id: Id, crc: nat, storedAs: string, replaced: set<Id>, now: int)
      returns (a: CloseAnswer)
      modifies this
      ensures (State(), a) == CloseFrom(old(State()), Arrived(device, id, crc), storedAs, replaced, now)
    {
      if id !in rows || rows[id].device != device { return Refused(404, CodeGone); }
      var r := rows[id];
      var settled := SettledAnswer(r, crc);
      if settled.Some? { return settled.value; }
      ghost var saw := SawReceiving(device, id, crc, r);
      assert CloseFrom(State(), Arrived(device, id, crc), storedAs, replaced, now)
          == CloseFrom(State(), saw, storedAs, replaced, now);
      var bytes := ReadBytes(id, r.size);
      if bytes.None? {
        ghost var lost := LostRace(device, id, crc, Refused(409, CodeSize));
        assert CloseFrom(State(), saw, storedAs, replaced, now) == CloseFrom(State(), lost, storedAs, replaced, now);
        a := Lost(device, id, crc, Refused(409, CodeSize));
        ghost var done := Done(device, id, crc, a);
        assert CloseFrom(State(), lost, storedAs, replaced, now) == CloseFrom(State(), done, storedAs, replaced, now);
        return;
      }
      ghost var has := HasBytes(device, id, crc, r, bytes.value);
      assert CloseFrom(State(), saw, storedAs, replaced, now) == CloseFrom(State(), has, storedAs, replaced, now);
      var hit;
      if Crc32.Crc(bytes.value) != crc {
        hit := FailCrc(id, crc);
        a := Refused(409, CodeCrc);
      } else {
        hit := StoreFile(HasBytes(device, id, crc, r, bytes.value), storedAs, replaced, now);
        a := Named(r.path);
      }
      ghost var next := Write(old(State()), has, storedAs, replaced, now).1;
      assert CloseFrom(old(State()), has, storedAs, replaced, now) == CloseFrom(State(), next, storedAs, replaced, now);
      // Nothing has come between, so the guarded update has found the row receiving.
      assert hit;
    }

    method ReleaseStagingRow(id: Id)
      modifies this
      ensures State() == ReleaseStaging(old(State()), id)
      ensures id in old(rows) && old(rows)[id].source == Staging ==>
                && rows == old(rows)[id := rows[id]] && rows[id].status == Deleted
                && forall i :: i != id ==> Parts(State(), i) == Parts(old(State()), i)
      ensures id !in old(rows) || old(rows)[id].source != Staging ==> State() == old(State())
      ensures ReleaseStaging(State(), id) == State()
    {
      if id in rows && rows[id].source == Staging && rows[id].status != Deleted {
        rows := rows[id := rows[id].(status := Deleted)];
        chunks := chunks - {id};
        assert rows == DeleteRows(old(State()), {id}).rows;
      }
    }

    method DeleteFromStash(ids: set<Id>) returns (n: nat)
      modifies this
      ensures State() == DeleteStash(old(State()), ids)
      ensures n == |StillThere(old(State()), ids)|
      ensures rows.Keys == old(rows).Keys
      ensures forall i :: i in rows ==> rows[i] == if i in ids then old(rows)[i].(status := Deleted) else old(rows)[i]
      ensures forall i :: i !in ids ==> Parts(State(), i) == Parts(old(State()), i)
      ensures StillThere(State(), ids) == {}
    {
      var done := StillThere(Db(rows, chunks), ids);
      rows := map i | i in rows :: if i in done then rows[i].(status := Deleted) else rows[i];
      chunks := chunks - done;
      n := |done|;
    }

    method FailOverdueRows(now: int)
      modifies this
      ensures State() == FailOverdue(old(State()), now)
    {
      var failed := set i | i in rows && Overdue(rows[i], now);
      rows := map i | i in rows :: if i in failed then rows[i].(status := FailedExpired) else rows[i];
      chunks := chunks - failed;
    }

    method DropOldRows(now: int)
      modifies this
      ensures State() == DropOld(old(State()), now)
    {
      var deleted := set i | i in rows && Old(rows[i], now);
      rows := rows - deleted;
      chunks := map i | i in chunks && i in rows :: chunks[i];
    }

    method ExpireUploads(now: int)
      modifies this
      ensures State() == Expire(old(State()), now)
      ensures forall i :: i in rows <==>
                i in old(rows)
                && var r := old(rows)[i];
                   && !(r.status == Stored && r.expires <= now)
                   && !(r.status == Receiving && r.expires <= now && r.created < now - 2592000000)
                   && !(r.status != Receiving && r.status != Stored && r.created < now - 2592000000)
                   && !(r.source == Staging && r.created < now - 86400000)
      ensures forall i :: i in rows ==>
                var r := old(rows)[i];
                rows[i] == if r.status == Receiving && r.expires <= now then r.(status := FailedExpired) else r
    {
      ExpireIsBoth(State(), now);
      FailOverdueRows(now);
      DropOldRows(now);
    }
  }
}
