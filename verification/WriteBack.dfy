/**
 * Boards writing their disks back (src/lib/device-write.ts, src/lib/disk-write.ts,
 * src/lib/disk-holder.ts, src/lib/disk-history/store.ts, src/lib/mount.ts): what each call does
 * to the rows of one organisation, as a function of them.
 *
 * A digest is modelled as the image it names. Staged tracks live in their session's row, which is
 * what their cascading foreign key amounts to.
 */
module WriteBack {
  import opened Bytes
  import opened DiskImage

  type Id = nat
  type Token = nat

  datatype Digest = Sha256(of: Image)

  datatype Disk = Disk(head: Digest, hfe: bool, wp: bool, history: seq<Digest>)

  datatype Device = Device(
    desiredDisk: Option<Id>, desiredSha: Option<Digest>, desiredVersion: nat,
    mountedDisk: Option<Id>, mountedSha: Option<Digest>, mountedVersion: Option<nat>,
    lastError: Option<(Digest, Digest)>)

  datatype Session = Session(disk: Id, lastSeq: nat, token: Token, base: Digest, staged: map<nat, seq<byte>>)

  /** A session is keyed by its board and its mount. */
  datatype Key = Key(device: Id, mount: nat)

  datatype Db = Db(disks: map<Id, Disk>, devices: map<Id, Device>, sessions: map<Key, Session>)

  /** What a route answers. */
  datatype Outcome =
    | Staged(track: nat) | Duplicate
    | Closed(sha: Digest) | Unchanged(sha: Digest)
    | InvalidBody | NotFound | NotMounted | Behind | WriteProtected | Incomplete | Conflict
    | Mismatch(sha: Digest)
    | ServerError

  predicate Ok(o: Outcome) {
    o.Staged? || o.Duplicate? || o.Closed? || o.Unchanged?
  }

  // ---- recordVersion: the only writer of a disk's new image ----

  datatype Recorded = Stale | Failed | Same | Recorded(sha: Digest)

  /** A compare-and-set of the head, against the digest the caller read. */
  function Record(disk: Disk, headSha: Digest, next: Image): (Disk, Recorded) {
    if disk.history != [] && disk.history[|disk.history| - 1] != headSha then (disk, Stale)
    else if TrackBytes(|headSha.of|).None? || |next| != |headSha.of| then (disk, Failed)
    else if next == headSha.of then (disk, Same)
    else
      var history := if disk.history == [] then [headSha] else disk.history;
      (disk.(head := Sha256(next), history := history + [Sha256(next)]), Recorded(Sha256(next)))
  }

  // ---- What a person or a board does outside a write session ----

  /** setDesired: copies the disk's head digest and raises the version. */
  function Mount(db: Db, device: Id, disk: Id): Db {
    if device in db.devices && disk in db.disks then
      var d := db.devices[device];
      db.(devices := db.devices[device := d.(
            desiredDisk := Some(disk), desiredSha := Some(db.disks[disk].head),
            desiredVersion := d.desiredVersion + 1)])
    else db
  }

  /** clearDesired. */
  function Eject(db: Db, device: Id): Db {
    if device in db.devices then
      var d := db.devices[device];
      db.(devices := db.devices[device := d.(
            desiredDisk := None, desiredSha := None, desiredVersion := d.desiredVersion + 1)])
    else db
  }

  /** recordStatus: what the board says it holds; never touches what is desired. */
  function Report(db: Db, device: Id, disk: Option<Id>, sha: Option<Digest>, version: Option<nat>): Db {
    if device in db.devices then
      db.(devices := db.devices[device := db.devices[device].(
            mountedDisk := disk, mountedSha := sha, mountedVersion := version)])
    else db
  }

  /** The write-protect flag, applied live: every board that wants the disk is bumped. */
  function Protect(db: Db, disk: Id, wp: bool): Db {
    if disk in db.disks && (wp || !db.disks[disk].hfe) then
      Db(db.disks[disk := db.disks[disk].(wp := wp)],
         map id | id in db.devices ::
           if db.devices[id].desiredDisk == Some(disk) then Bump(db.devices[id]) else db.devices[id],
         db.sessions)
    else db
  }

  function Bump(d: Device): Device {
    d.(desiredVersion := d.desiredVersion + 1)
  }

  // ---- A board's write session ----

  datatype Held = Current | HeldBehind | InSession | NotHeld

  /** holdsMount: whether this board may write under this mount. */
  function HoldsMount(db: Db, device: Id, disk: Id, mount: nat): Held {
    if device !in db.devices || db.devices[device].mountedDisk != Some(disk) then NotHeld
    else
      var d := db.devices[device];
      if d.mountedVersion == Some(mount) then
        if d.desiredDisk == Some(disk) && d.desiredVersion > mount then HeldBehind else Current
      else
        var key := Key(device, mount);
        if key in db.sessions && db.sessions[key].disk == disk then InSession else NotHeld
  }

  function DiskTrackBytes(disk: Disk): Option<nat> {
    if disk.hfe then None else TrackBytes(|disk.head.of|)
  }

  /** The board's other sessions are dropped: power was lost before they closed. */
  function DropOthers(sessions: map<Key, Session>, device: Id, mount: nat, token: Token): map<Key, Session> {
    map k | k in sessions && !(k.device == device && (k.mount != mount || sessions[k].token != token)) :: sessions[k]
  }

  /** stageTrack. */
  function Stage(db: Db, device: Id, disk: Id, mount: nat, track: nat, seqNo: nat, token: Token, data: seq<byte>)
    : (Db, Outcome)
  {
    if !IsTrackUpload(track, data, TRACK_DATA_BYTES) && !IsTrackUpload(track, data, HD_TRACK_DATA_BYTES) then
      (db, InvalidBody)
    else
      var held := HoldsMount(db, device, disk, mount);
      if held.NotHeld? then (db, NotMounted)
      else if disk !in db.disks then (db, NotFound)
      else
        var row := db.disks[disk];
        var bytes := DiskTrackBytes(row);
        if bytes.Some? && |data| != bytes.value then (db, InvalidBody)
        else
          var key := Key(device, mount);
          if key in db.sessions && db.sessions[key].token == token then
            StageOpen(db, key, track, seqNo, data)
          else if held.InSession? then (db, NotMounted)
          else if row.wp || row.hfe then (db, WriteProtected)
          else if held.HeldBehind? then (db, Behind)
          else
            var row0 := Session(disk, 0, token, row.head, map[]);
            StageOpen(db.(sessions := DropOthers(db.sessions, device, mount, token)[key := row0]),
                      key, track, seqNo, data)
  }

  /** The upload into its open session: idempotent on its sequence number. */
  function StageOpen(db: Db, key: Key, track: nat, seqNo: nat, data: seq<byte>): (Db, Outcome)
    requires key in db.sessions
  {
    var s := db.sessions[key];
    if seqNo <= s.lastSeq then (db, Duplicate)
    else (db.(sessions := db.sessions[key := s.(lastSeq := seqNo, staged := s.staged[track := data])]), Staged(track))
  }

  /** A close, as the board asks for it. */
  datatype Close = Close(device: Id, disk: Id, mount: nat, seqNo: nat, sha: Digest, token: Token)

  function SessionOf(db: Db, q: Close): Option<Session> {
    var key := Key(q.device, q.mount);
    if key in db.sessions && db.sessions[key].token == q.token then Some(db.sessions[key]) else None
  }

  /** What a close finds before it writes anything: an answer, or a digest to settle on. */
  datatype Finding = Answer(o: Outcome) | EndsEmpty | Settles(db: Db, sha: Digest)

  /** closeSession up to and including recordVersion. */
  function CloseRecord(db: Db, q: Close): Finding {
    if HoldsMount(db, q.device, q.disk, q.mount).NotHeld? then Answer(NotMounted)
    else if q.disk !in db.disks then Answer(NotFound)
    else
      var disk := db.disks[q.disk];
      var session := SessionOf(db, q);
      if session.Some? && q.seqNo != session.value.lastSeq then Answer(Incomplete)
      else if session.Some? && session.value.staged != map[] then
        var base := session.value.base.of;
        if !Fits(session.value.staged, |base|) then Answer(ServerError)
        else
          var (written, r) := Record(disk, disk.head, Overlay(base, session.value.staged));
          match r
          case Stale => Answer(Conflict)
          case Failed => Answer(ServerError)
          case Same => Settles(db, disk.head)
          case Recorded(sha) => Settles(db.(disks := db.disks[q.disk := written]), sha)
      else if q.sha == disk.head then EndsEmpty
      else Settles(db, disk.head)
  }

  function DropSession(db: Db, q: Close): Db {
    if SessionOf(db, q).Some? then db.(sessions := db.sessions - {Key(q.device, q.mount)}) else db
  }

  /** What the batch makes of this board: it holds `sha`, unless the digests disagree. */
  function Settled(d: Device, q: Close, sha: Digest): Device {
    var d1 := if sha != q.sha then d.(lastError := Some((q.sha, sha))) else d.(mountedSha := Some(sha));
    if d1.desiredDisk == Some(q.disk) then
      var d2 := d1.(desiredSha := Some(sha));
      if sha != q.sha then Bump(d2) else d2
    else d1
  }

  /** What it makes of any other: one that wants this disk but not its head is sent for it. */
  function Sent(d: Device, disk: Id, sha: Digest): Device {
    if d.desiredDisk == Some(disk) && d.desiredSha.Some? && d.desiredSha != Some(sha) then
      Bump(d.(desiredSha := Some(sha)))
    else d
  }

  /** The rest of closeSession: one batch. */
  function CloseBatch(db: Db, q: Close, sha: Digest): Db {
    DropSession(db, q).(devices := map id | id in db.devices ::
      if id == q.device then Settled(db.devices[id], q, sha) else Sent(db.devices[id], q.disk, sha))
  }

  function CloseSession(db: Db, q: Close): (Db, Outcome) {
    match CloseRecord(db, q)
    case Answer(o) => (db, o)
    case EndsEmpty => (DropSession(db, q), Unchanged(q.sha))
    case Settles(db1, sha) => (CloseBatch(db1, q, sha), if sha != q.sha then Mismatch(sha) else Closed(sha))
  }

  // ---- A browser edit: check, record, repoint ----

  predicate Holds(d: Device, sha: Digest) {
    d.mountedSha == Some(sha) || d.desiredSha == Some(sha)
  }

  /** findHolder answers a device. */
  predicate HasHolder(db: Db, sha: Digest) {
    exists id :: id in db.devices && Holds(db.devices[id], sha)
  }

  /** applyDiskEdit up to its read: the head it will edit, unless it is refused. */
  function EditCheck(db: Db, disk: Id): Option<Digest> {
    if disk !in db.disks || db.disks[disk].hfe || HasHolder(db, db.disks[disk].head) then None
    else Some(db.disks[disk].head)
  }

  function EditRecord(db: Db, disk: Id, from: Digest, next: Image): (Db, Recorded) {
    if disk !in db.disks then (db, Failed)
    else
      var (written, r) := Record(db.disks[disk], from, next);
      (db.(disks := db.disks[disk := written]), r)
  }

  /** repointLateMounts: boards that want this disk at its old digest. */
  function Repoint(db: Db, disk: Id, from: Digest, to: Digest): Db {
    db.(devices := map id | id in db.devices :: Late(db.devices[id], disk, from, to))
  }

  function Late(d: Device, disk: Id, from: Digest, to: Digest): Device {
    if d.desiredDisk == Some(disk) && d.desiredSha == Some(from) then Bump(d.(desiredSha := Some(to))) else d
  }

  /** The three steps with nothing between them. */
  function Edit(db: Db, disk: Id, next: Image): Db {
    match EditCheck(db, disk)
    case None => db
    case Some(from) =>
      var (db1, r) := EditRecord(db, disk, from, next);
      if r.Recorded? then Repoint(db1, disk, from, r.sha) else db1
  }
}
