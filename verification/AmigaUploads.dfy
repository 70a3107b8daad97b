/**
 * Files a board sends up in chunks (src/lib/amiga-uploads.ts, src/lib/stash.ts): what each
 * statement or transaction does to the upload rows and their staged chunks, as a function of them.
 *
 * A blob's digest is modelled as the bytes it names.
 */
module AmigaUploads {
  import opened Bytes
  import Crc32

  type Id = nat

  const UPLOAD_CHUNK: nat := 16384
  const UPLOAD_FILE_MAX: nat := 4194304
  const UPLOAD_RESUME_MS: nat := 86400000
  const UPLOAD_KEEP_MS: nat := 2592000000

  /** From a Transfer, a copy into STASH:, or a copy between volumes. */
  datatype Source = Amiga | Copied | Staging

  datatype Status = Receiving | Stored | FailedCrc | FailedExpired | Deleted

  datatype Blob = Sha256(of: seq<byte>)

  datatype Row = Row(
    device: Id, source: Source, path: string, size: nat, date: string, created: int, expires: int,
    status: Status, received: nat, crc: Option<nat>, blob: Option<Blob>, sentName: Option<string>)

  datatype Chunk = Chunk(offset: nat, data: seq<byte>)

  datatype Db = Db(rows: map<Id, Row>, chunks: map<Id, seq<Chunk>>)

  function Parts(db: Db, id: Id): seq<Chunk> {
    if id in db.chunks then db.chunks[id] else []
  }

  /** The first n chunks, one after another. */
  function Content(parts: seq<Chunk>, n: nat): seq<byte>
    requires n <= |parts|
  {
    if n == 0 then [] else Content(parts, n - 1) + parts[n - 1].data
  }

  // ---- Open ----

  /** What a board sends to open an upload; `path` is what cleaning left of the name. */
  datatype Request = Request(device: Id, source: Source, path: string, size: int, date: string, get: Option<Id>)

  datatype Opened = Resumed(id: Id, offset: nat) | Fresh(id: Id) | BadSize | BadName | Full

  /** A row this request would resume. */
  predicate Matches(row: Row, id: Id, q: Request, now: int) {
    && row.device == q.device && row.status == Receiving && row.path == q.path && row.size == q.size
    && row.date == q.date && row.expires > now && row.source == q.source
    && (q.source == Staging ==> q.get == Some(id))
  }

  predicate IsNewest(db: Db, q: Request, now: int, id: Id) {
    && id in db.rows && Matches(db.rows[id], id, q, now)
    && forall other :: other in db.rows && Matches(db.rows[other], other, q, now) ==>
                         db.rows[other].created <= db.rows[id].created
  }

  predicate NoneMatches(db: Db, q: Request, now: int) {
    forall id :: id in db.rows ==> !Matches(db.rows[id], id, q, now)
  }

  /** The row the database's order by, limit 1 may answer. */
  predicate MayPick(db: Db, q: Request, now: int, pick: Option<Id>) {
    match pick
    case Some(id) => IsNewest(db, q, now, id)
    case None => NoneMatches(db, q, now)
  }

  /** `newId` is the id a new row would get, `full` whether the organisation's area is. */
  function Open(db: Db, q: Request, now: int, pick: Option<Id>, newId: Id, full: bool): (Db, Opened)
    requires pick.Some? ==> pick.value in db.rows
  {
    if q.size < 0 || q.size > UPLOAD_FILE_MAX then (db, BadSize)
    else if q.path == "" then (db, BadName)
    else match pick
      case Some(id) => (db, Resumed(id, db.rows[id].received))
      case None =>
        if q.source != Staging && full then (db, Full)
        else (db.(rows := db.rows[newId := NewRow(q, now)]), Fresh(newId))
  }

  function NewRow(q: Request, now: int): Row
    requires q.size >= 0
  {
    Row(q.device, q.source, q.path, q.size, q.date, now, now + UPLOAD_RESUME_MS, Receiving, 0, None, None, None)
  }

  // ---- Chunks ----

  datatype ChunkAnswer = Received(n: nat) | BadChunk | NoUpload | Gap(received: nat)

  function StoreChunk(db: Db, device: Id, id: Id, offset: nat, data: seq<byte>): (Db, ChunkAnswer) {
    if |data| < 1 || |data| > UPLOAD_CHUNK then (db, BadChunk)
    else if id !in db.rows || db.rows[id].device != device || db.rows[id].status != Receiving then (db, NoUpload)
    else
      var r := db.rows[id];
      var end := offset + |data|;
      if offset < r.received then (db, Received(r.received))
      else if offset > r.received then (db, Gap(r.received))
      else if end > r.size || (|data| != UPLOAD_CHUNK && end != r.size) then (db, BadChunk)
      else (Db(db.rows[id := r.(received := end)],
               db.chunks[id := Parts(db, id) + [Chunk(offset, data)]]), Received(end))
  }

  // ---- Close ----

  datatype Code = CodeCrc | CodeSize | CodeGone

  datatype CloseAnswer = Named(name: string) | Refused(status: nat, code: Code)

  /** The name the board sent, whatever the file was stored as. */
  function NameOf(r: Row): string {
    if r.sentName.Some? then r.sentName.value else r.path
  }

  /** What a close of a settled row answers. */
  function SettledAnswer(r: Row, crc: nat): Option<CloseAnswer> {
    if r.status == Receiving then None
    else if r.crc == Some(crc) && r.status == Deleted && r.source == Staging && r.blob.Some? then Some(Named(r.path))
    else if r.crc == Some(crc) && r.status == Stored then Some(Named(NameOf(r)))
    else if r.crc == Some(crc) && r.status == FailedCrc then Some(Refused(409, CodeCrc))
    else Some(Refused(409, CodeGone))
  }

  /** Chunk i is where the ones before it end. */
  predicate Follows(parts: seq<Chunk>, i: nat)
    requires i < |parts|
  {
    parts[i].offset == |Content(parts, i)|
  }

  predicate InOrder(parts: seq<Chunk>) {
    forall i :: 0 <= i < |parts| ==> Follows(parts, i)
  }

  /** The file the chunks make, if they are all in. */
  function Assembled(parts: seq<Chunk>, size: nat): Option<seq<byte>> {
    if InOrder(parts) && |Content(parts, |parts|)| == size then Some(Content(parts, |parts|)) else None
  }

  /** Where a close has got to; each step is one statement or transaction. */
  datatype Closer =
    | Arrived(device: Id, id: Id, crc: nat)
    | SawReceiving(device: Id, id: Id, crc: nat, row: Row)
    | HasBytes(device: Id, id: Id, crc: nat, row: Row, bytes: seq<byte>)
    | LostRace(device: Id, id: Id, crc: nat, otherwise: CloseAnswer)
    | Done(device: Id, id: Id, crc: nat, answer: CloseAnswer)

  predicate Found(db: Db, device: Id, id: Id) {
    id in db.rows && db.rows[id].device == device
  }

  /** The first read of the row. */
  function ReadRow(db: Db, c: Closer): Closer
    requires c.Arrived?
  {
    if !Found(db, c.device, c.id) then Done(c.device, c.id, c.crc, Refused(404, CodeGone))
    else
      var r := db.rows[c.id];
      match SettledAnswer(r, c.crc)
      case Some(a) => Done(c.device, c.id, c.crc, a)
      case None => SawReceiving(c.device, c.id, c.crc, r)
  }

  function ReadChunks(db: Db, c: Closer): Closer
    requires c.SawReceiving?
  {
    match Assembled(Parts(db, c.id), c.row.size)
    case None => LostRace(c.device, c.id, c.crc, Refused(409, CodeSize))
    case Some(bytes) => HasBytes(c.device, c.id, c.crc, c.row, bytes)
  }

  predicate IsReceiving(db: Db, id: Id) {
    id in db.rows && db.rows[id].status == Receiving
  }

  /** The guarded update: failed when the CRC is wrong, stored (as `storedAs`) when it is right. */
  function Write(db: Db, c: Closer, storedAs: string, replaced: set<Id>, now: int): (Db, Closer)
    requires c.HasBytes?
  {
    if Crc32.Crc(c.bytes) != c.crc then
      if IsReceiving(db, c.id) then
        (Settle(db, c.id, db.rows[c.id].(status := FailedCrc, crc := Some(c.crc))),
         Done(c.device, c.id, c.crc, Refused(409, CodeCrc)))
      else (db, LostRace(c.device, c.id, c.crc, Refused(404, CodeGone)))
    else
      var db1 := if c.row.source == Staging then db else Replace(db, c.id, replaced);
      if IsReceiving(db1, c.id) then
        (Settle(db1, c.id, StoredRow(db1.rows[c.id], c, storedAs, now)), Done(c.device, c.id, c.crc, Named(c.row.path)))
      else (db1, LostRace(c.device, c.id, c.crc, Refused(404, CodeGone)))
  }

  function Settle(db: Db, id: Id, row: Row): Db {
    Db(db.rows[id := row], db.chunks - {id})
  }

  /** A stored file is kept from now on, a staging one only for its day. */
  function StoredRow(r: Row, c: Closer, storedAs: string, now: int): Row
    requires c.HasBytes?
  {
    var s := r.(status := Stored, crc := Some(c.crc), blob := Some(Sha256(c.bytes)), received := c.row.size);
    if c.row.source == Staging then s.(expires := now + UPLOAD_RESUME_MS)
    else s.(expires := now + UPLOAD_KEEP_MS,
            path := storedAs, sentName := if storedAs == c.row.path then None else Some(c.row.path))
  }

  /** A fetch answered Replace: the stored files it replaces are deleted. */
  function Replace(db: Db, id: Id, replaced: set<Id>): Db {
    db.(rows := map i | i in db.rows ::
      if i in replaced && i != id && db.rows[i].status == Stored then db.rows[i].(status := Deleted) else db.rows[i])
  }

  /** The row read again after a lost race decides. */
  function Reread(db: Db, c: Closer): Closer
    requires c.LostRace?
  {
    if !Found(db, c.device, c.id) then Done(c.device, c.id, c.crc, Refused(404, CodeGone))
    else match SettledAnswer(db.rows[c.id], c.crc)
      case Some(a) => Done(c.device, c.id, c.crc, if a.Refused? && a.code == CodeGone then c.otherwise else a)
      case None => Done(c.device, c.id, c.crc, c.otherwise)
  }

  function StepCloser(db: Db, c: Closer, storedAs: string, replaced: set<Id>, now: int): (Db, Closer) {
    match c
    case Arrived(_, _, _) => (db, ReadRow(db, c))
    case SawReceiving(_, _, _, _) => (db, ReadChunks(db, c))
    case HasBytes(_, _, _, _, _) => Write(db, c, storedAs, replaced, now)
    case LostRace(_, _, _, _) => (db, Reread(db, c))
    case Done(_, _, _, _) => (db, c)
  }

  // ---- Deletes and housekeeping ----

  /** Status deleted, chunks gone. */
  function DeleteRows(db: Db, ids: set<Id>): Db {
    Db(map i | i in db.rows :: if i in ids then db.rows[i].(status := Deleted) else db.rows[i], db.chunks - ids)
  }

  /** Of these ids, the rows not deleted yet. */
  function StillThere(db: Db, ids: set<Id>): set<Id> {
    set i | i in ids && i in db.rows && db.rows[i].status != Deleted
  }

  /** deleteStash. */
  function DeleteStash(db: Db, ids: set<Id>): Db {
    DeleteRows(db, StillThere(db, ids))
  }

  /** releaseStaging: any other row is left alone. */
  function ReleaseStaging(db: Db, id: Id): Db {
    if id in db.rows && db.rows[id].source == Staging && db.rows[id].status != Deleted then DeleteRows(db, {id}) else db
  }

  predicate Overdue(r: Row, now: int) {
    r.status == Receiving && r.expires <= now
  }

  /** Rows the daily pass drops, once the overdue ones have failed. */
  predicate Old(r: Row, now: int) {
    || (r.status == Stored && r.expires <= now)
    || ((r.status == FailedCrc || r.status == FailedExpired || r.status == Deleted) && r.created < now - UPLOAD_KEEP_MS)
    || (r.source == Staging && r.created < now - UPLOAD_RESUME_MS)
  }

  function Aged(r: Row, now: int): Row {
    if Overdue(r, now) then r.(status := FailedExpired) else r
  }

  /** A row the daily pass leaves as it is. */
  predicate Untroubled(r: Row, now: int) {
    !Overdue(r, now) && !Old(r, now)
  }

  /** expireUploads. */
  function Expire(db: Db, now: int): Db {
    Db(map i | i in db.rows && !Old(Aged(db.rows[i], now), now) :: Aged(db.rows[i], now),
       map i | i in db.chunks && i in db.rows && Untroubled(db.rows[i], now) :: db.chunks[i])
  }
}
