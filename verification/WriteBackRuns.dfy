/**
 * What every run of calls keeps: a board that wants a disk wants its current head, and is told
 * whenever that changes.
 */
module WriteBackRuns {
  import opened Bytes
  import opened DiskImage
  import opened WriteBack

  datatype Event =
    | MountDisk(device: Id, disk: Id)
    | EjectDisk(device: Id)
    | ReportStatus(device: Id, held: Option<Id>, sha: Option<Digest>, version: Option<nat>)
    | SetProtect(disk: Id, wp: bool)
    | Upload(device: Id, disk: Id, mount: nat, track: nat, seqNo: nat, token: Token, data: seq<byte>)
    | CloseCall(q: Close)
    | EditCall(disk: Id, next: Image)

  /** One call, taken on its own. */
  function Step(db: Db, e: Event): Db {
    match e
    case MountDisk(device, disk) => Mount(db, device, disk)
    case EjectDisk(device) => Eject(db, device)
    case ReportStatus(device, held, sha, version) => Report(db, device, held, sha, version)
    case SetProtect(disk, wp) => Protect(db, disk, wp)
    case Upload(device, disk, mount, track, seqNo, token, data) =>
      Stage(db, device, disk, mount, track, seqNo, token, data).0
    case CloseCall(q) => CloseSession(db, q).0
    case EditCall(disk, next) => Edit(db, disk, next)
  }

  ghost function Run(db: Db, events: seq<Event>): Db
    decreases |events|
  {
    if events == [] then db else Run(Step(db, events[0]), events[1..])
  }

  /** The board wants nothing, or a disk of this library at its current head. */
  ghost predicate WantsHead(d: Device, disks: map<Id, Disk>) {
    match d.desiredDisk
    case None => d.desiredSha == None
    case Some(disk) => disk in disks && d.desiredSha == Some(disks[disk].head)
  }

  /** A disk's history, once it has begun, ends at its head. */
  ghost predicate EndsAtHead(disk: Disk) {
    disk.history != [] ==> disk.history[|disk.history| - 1] == disk.head
  }

  ghost predicate Inv(db: Db) {
    && (forall id :: id in db.devices ==> WantsHead(db.devices[id], db.disks))
    && (forall id :: id in db.disks ==> EndsAtHead(db.disks[id]))
  }

  // ---- Each call keeps it ----

  lemma UploadTouchesSessionsOnly(db: Db, e: Event)
    requires e.Upload?
    ensures Step(db, e).disks == db.disks && Step(db, e).devices == db.devices
  {
  }

  /** A close that settles has written at most its disk, and settles on that disk's head. */
  lemma CloseSettlesOnHead(db: Db, q: Close)
    requires CloseRecord(db, q).Settles? && forall id :: id in db.disks ==> EndsAtHead(db.disks[id])
    ensures var f := CloseRecord(db, q);
            && f.db.devices == db.devices && q.disk in f.db.disks
            && f.db.disks == db.disks[q.disk := f.db.disks[q.disk]]
            && f.sha == f.db.disks[q.disk].head && EndsAtHead(f.db.disks[q.disk])
  {
    if q.disk in db.disks { assert EndsAtHead(db.disks[q.disk]) && db.disks == db.disks[q.disk := db.disks[q.disk]]; }
  }

  /** Whether it closes or is sent, a board that wants the closed disk comes to want its head; no other moves. */
  lemma BoardComes(d: Device, was: map<Id, Disk>, now: map<Id, Disk>, q: Close, sha: Digest)
    requires WantsHead(d, was) && q.disk in now && now == was[q.disk := now[q.disk]] && now[q.disk].head == sha
    ensures WantsHead(Settled(d, q, sha), now) && WantsHead(Sent(d, q.disk, sha), now)
  {
  }

  lemma CloseKeepsInv(db: Db, q: Close)
    requires Inv(db)
    ensures Inv(CloseSession(db, q).0)
  {
    var f := CloseRecord(db, q);
    if f.Settles? {
      CloseSettlesOnHead(db, q);
      forall id | id in db.devices
        ensures WantsHead(Settled(db.devices[id], q, f.sha), f.db.disks)
        ensures WantsHead(Sent(db.devices[id], q.disk, f.sha), f.db.disks) {
        BoardComes(db.devices[id], db.disks, f.db.disks, q, f.sha);
      }
      assert CloseBatch(f.db, q, f.sha).disks == f.db.disks;
    }
  }

  /** A refused edit changes nothing; one that goes through finds no board that wants the disk. */
  lemma EditKeepsInv(db: Db, disk: Id, next: Image)
    requires Inv(db)
    ensures Inv(Edit(db, disk, next))
  {
    var check := EditCheck(db, disk);
    if check.Some? {
      var from := check.value;
      var (db1, r) := EditRecord(db, disk, from, next);
      forall id | id in db.devices ensures db.devices[id].desiredDisk != Some(disk) {
        assert WantsHead(db.devices[id], db.disks) && !Holds(db.devices[id], from);
      }
      forall id | id in db.devices
        ensures WantsHead(db.devices[id], db1.disks) && Late(db.devices[id], disk, from, Sha256(next))
            == db.devices[id] {
        assert WantsHead(db.devices[id], db.disks);
      }
    }
  }

  lemma StepKeepsInv(db: Db, e: Event)
    requires Inv(db)
    ensures Inv(Step(db, e))
  {
    match e {
      case CloseCall(q) => CloseKeepsInv(db, q);
      case EditCall(disk, next) => EditKeepsInv(db, disk, next);
      case Upload(_, _, _, _, _, _, _) => UploadTouchesSessionsOnly(db, e);
      case _ =>
    }
  }

  lemma {:induction false} RunKeepsInv(db: Db, events: seq<Event>)
    requires Inv(db)
    ensures Inv(Run(db, events))
    decreases |events|
  {
    if events != [] {
      StepKeepsInv(db, events[0]);
      RunKeepsInv(Step(db, events[0]), events[1..]);
    }
  }

  /** In every run of calls taken one at a time, each board that wants a disk wants that disk's current head. */
  lemma BoardsWantHeads(db: Db, events: seq<Event>, id: Id)
    requires Inv(db) && id in Run(db, events).devices && Run(db, events).devices[id].desiredDisk.Some?
    ensures var end := Run(db, events);
            var d := end.devices[id];
            d.desiredDisk.value in end.disks && d.desiredSha == Some(end.disks[d.desiredDisk.value].head)
  {
    RunKeepsInv(db, events);
    assert WantsHead(Run(db, events).devices[id], Run(db, events).disks);
  }

  // ---- A board is told whenever what it should hold changes ----

  /** Its version rises, or the change is the answer to its own close, of the bytes it said it holds. */
  ghost predicate Announced(was: Device, now: Device, id: Id, e: Event) {
    && was.desiredVersion <= now.desiredVersion
    && (now.desiredSha != was.desiredSha ==>
          || now.desiredVersion > was.desiredVersion
          || (e.CloseCall? && e.q.device == id && now.desiredSha == now.mountedSha == Some(e.q.sha)))
  }

  lemma EveryChangeAnnounced(db: Db, e: Event, id: Id)
    requires Inv(db) && id in db.devices
    ensures id in Step(db, e).devices && Announced(db.devices[id], Step(db, e).devices[id], id, e)
  {
    match e {
      case CloseCall(q) =>
        var f := CloseRecord(db, q);
        if f.Settles? { assert f.db.devices == db.devices; }
      case EditCall(disk, next) =>
        var check := EditCheck(db, disk);
        if check.Some? {
          assert EditRecord(db, disk, check.value, next).0.devices == db.devices;
        }
      case Upload(_, _, _, _, _, _, _) => UploadTouchesSessionsOnly(db, e);
      case _ =>
    }
  }

  /**
   * Over any run without a close of its own, a board whose desired digest has changed has been told:
   * its version is higher.
   */
  lemma {:induction false} NeverSilent(db: Db, events: seq<Event>, id: Id)
    requires Inv(db) && id in db.devices
    requires forall e :: e in events ==> !(e.CloseCall? && e.q.device == id)
    ensures id in Run(db, events).devices
    ensures db.devices[id].desiredVersion <= Run(db, events).devices[id].desiredVersion
    ensures Run(db, events).devices[id].desiredSha != db.devices[id].desiredSha ==>
              db.devices[id].desiredVersion < Run(db, events).devices[id].desiredVersion
    decreases |events|
  {
    if events != [] {
      EveryChangeAnnounced(db, events[0], id);
      StepKeepsInv(db, events[0]);
      NeverSilent(Step(db, events[0]), events[1..], id);
    }
  }

  // ---- Which uploads are taken ----

  /**
   * An open session outlives its mount: while the board still holds the disk, its uploads are taken
   * whatever versions it was bumped to and reported since, and whether or not the disk has been
   * write-protected.
   */
  lemma OpenSessionsGoOn(db: Db, key: Key, track: nat, seqNo: nat, data: seq<byte>)
    requires key in db.sessions && db.sessions[key].disk in db.disks && key.device in db.devices
    requires db.devices[key.device].mountedDisk == Some(db.sessions[key].disk)
    requires DiskTrackBytes(db.disks[db.sessions[key].disk]).Some?
    requires IsTrackUpload(track, data, DiskTrackBytes(db.disks[db.sessions[key].disk]).value)
    ensures var s := db.sessions[key];
            var o := Stage(db, key.device, s.disk, key.mount, track, seqNo, s.token, data).1;
            o == if seqNo <= s.lastSeq then Duplicate else Staged(track)
  {
  }

  /**
   * A new session is only opened by a board at its mount, of a disk that is not protected, and over
   * the digest the board was last told to hold, its version acknowledged, if it still wants the disk.
   */
  lemma SessionsOpenAtHeads(db: Db, device: Id, disk: Id, mount: nat, track: nat, seqNo: nat, token: Token,
                            data: seq<byte>)
    requires Inv(db)
    ensures var (after, o) := Stage(db, device, disk, mount, track, seqNo, token, data);
            var key := Key(device, mount);
            key in after.sessions && (key in db.sessions ==> db.sessions[key].token != token)
            && after.sessions[key].token == token ==>
              && device in db.devices && disk in db.disks && !db.disks[disk].wp && !db.disks[disk].hfe
              && db.devices[device].mountedDisk == Some(disk) && db.devices[device].mountedVersion == Some(mount)
              && after.sessions[key].base == db.disks[disk].head
              && (db.devices[device].desiredDisk == Some(disk) ==>
                    && db.devices[device].desiredVersion <= mount
                    && db.devices[device].desiredSha == Some(after.sessions[key].base))
  {
    if device in db.devices { assert WantsHead(db.devices[device], db.disks); }
  }

  /** An upload that is repeated after it was taken changes nothing, and is answered as taken. */
  lemma UploadsRepeat(db: Db, device: Id, disk: Id, mount: nat, track: nat, seqNo: nat, token: Token, data: seq<byte>)
    requires Stage(db, device, disk, mount, track, seqNo, token, data).1.Staged?
    ensures var after := Stage(db, device, disk, mount, track, seqNo, token, data).0;
            Stage(after, device, disk, mount, track, seqNo, token, data) == (after, Duplicate)
  {
  }

  /** Recording twice is recording once: the image is the head already. */
  lemma RecordsRepeat(disk: Disk, next: Image)
    requires EndsAtHead(disk) && Record(disk, disk.head, next).1.Recorded?
    ensures var after := Record(disk, disk.head, next).0;
            EndsAtHead(after) && Record(after, after.head, next) == (after, Same)
  {
  }

  /**
   * An image is recorded if and only if the head read is still the last, the sizes are right and it is
   * another image.
   */
  lemma RecordExact(disk: Disk, headSha: Digest, next: Image)
    ensures Record(disk, headSha, next).1.Recorded? <==>
              && (disk.history == [] || disk.history[|disk.history| - 1] == headSha)
              && FloppySize(|headSha.of|) && |next| == |headSha.of| && next != headSha.of
    ensures Record(disk, headSha, next).1.Recorded? ==> Record(disk, headSha, next).0.head == Sha256(next)
    ensures !Record(disk, headSha, next).1.Recorded? ==> Record(disk, headSha, next).0 == disk
  {
  }

  /**
   * A new session is opened if and only if the board holds the disk at this very mount, has no bump
   * of it to acknowledge, and sends a track of the disk's size to a disk that may be written.
   */
  lemma NewSessionsExact(db: Db, device: Id, disk: Id, mount: nat, track: nat, seqNo: nat, token: Token,
                         data: seq<byte>)
    requires Key(device, mount) in db.sessions ==> db.sessions[Key(device, mount)].token != token
    requires seqNo > 0
    ensures Stage(db, device, disk, mount, track, seqNo, token, data).1 == Staged(track) <==>
              && device in db.devices && disk in db.disks && !db.disks[disk].wp && !db.disks[disk].hfe
              && db.devices[device].mountedDisk == Some(disk) && db.devices[device].mountedVersion == Some(mount)
              && !(db.devices[device].desiredDisk == Some(disk) && db.devices[device].desiredVersion > mount)
              && track < 160 && (|data| == 5632 || |data| == 11264)
              && (FloppySize(|db.disks[disk].head.of|) ==> 160 * |data| == |db.disks[disk].head.of|)
  {
  }

  /**
   * A close of a session with tracks answers 200 if and only if the board still holds the disk, sends
   * the number of its last upload, and holds what the tracks over the base come to.
   */
  lemma ClosesExact(db: Db, q: Close)
    requires SessionOf(db, q).Some? && SessionOf(db, q).value.staged != map[]
    requires q.disk in db.disks && EndsAtHead(db.disks[q.disk])
    ensures var s, head := SessionOf(db, q).value, db.disks[q.disk].head;
            CloseSession(db, q).1 == Closed(q.sha) <==>
              && q.device in db.devices && db.devices[q.device].mountedDisk == Some(q.disk)
              && (db.devices[q.device].mountedVersion == Some(q.mount) || s.disk == q.disk)
              && q.seqNo == s.lastSeq && FloppySize(|s.base.of|) && |s.base.of| == |head.of|
              && (forall t :: t in s.staged ==> t < 160 && 160 * |s.staged[t]| == |s.base.of|)
              && q.sha == Sha256(Overlay(s.base.of, s.staged))
  {
  }

  // ---- Who writes a disk ----

  /**
   * An edit changes a disk if and only if it may: the disk is not a preserved original, no board holds
   * its image or wants it, and the edit makes another image of the same size. It then has that image.
   */
  lemma EditsExactly(db: Db, disk: Id, next: Image)
    requires disk in db.disks && EndsAtHead(db.disks[disk])
    ensures var was, now := db.disks[disk].head, Edit(db, disk, next).disks;
            && disk in now
            && (now[disk].head != was <==>
                  && !db.disks[disk].hfe && FloppySize(|was.of|) && |next| == |was.of| && next != was.of
                  && forall id :: id in db.devices ==>
                       db.devices[id].mountedSha != Some(was) && db.devices[id].desiredSha != Some(was))
            && (now[disk].head != was ==> now[disk].head == Sha256(next))
  {
    var was := db.disks[disk].head;
    RecordExact(db.disks[disk], was, next);
    if HasHolder(db, was) {
      var id :| id in db.devices && Holds(db.devices[id], was);
      assert db.devices[id].mountedSha == Some(was) || db.devices[id].desiredSha == Some(was);
    } else {
      forall id | id in db.devices
        ensures db.devices[id].mountedSha != Some(was) && db.devices[id].desiredSha != Some(was) {
        assert !Holds(db.devices[id], was);
      }
    }
  }

  /** The session a close speaks for has tracks, all of those the board says it sent. */
  predicate ClosesTracks(db: Db, q: Close) {
    var s := SessionOf(db, q);
    s.Some? && s.value.staged != map[] && s.value.lastSeq == q.seqNo && Fits(s.value.staged, |s.value.base.of|)
  }

  /**
   * A disk's image only changes by a close of a session with tracks, of a board that holds the mount,
   * to their overlay; or by an edit, to its image, while no board holds or wants the disk.
   */
  lemma OnlyWritersWrite(db: Db, e: Event, disk: Id)
    requires disk in db.disks
    ensures disk in Step(db, e).disks
    ensures Step(db, e).disks[disk].head != db.disks[disk].head ==>
              if e.CloseCall? then
                && e.q.disk == disk && ClosesTracks(db, e.q) && !HoldsMount(db, e.q.device, disk, e.q.mount).NotHeld?
                && var s := SessionOf(db, e.q).value;
                   Step(db, e).disks[disk].head == Sha256(Overlay(s.base.of, s.staged))
              else
                && e.EditCall? && e.disk == disk && !db.disks[disk].hfe && !HasHolder(db, db.disks[disk].head)
                && Step(db, e).disks[disk].head == Sha256(e.next)
  {
    match e {
      case Upload(_, _, _, _, _, _, _) => UploadTouchesSessionsOnly(db, e);
      case CloseCall(q) =>
        var f := CloseRecord(db, q);
        if f.Settles? { assert CloseBatch(f.db, q, f.sha).disks == f.db.disks; }
      case _ =>
    }
  }

  // ---- One edit in flight ----

  ghost predicate Writes(e: Event, disk: Id) {
    (e.CloseCall? && e.q.disk == disk) || (e.EditCall? && e.disk == disk)
  }

  /** This board wants `disk` at the digest an edit of it started from. */
  predicate WantsOld(d: Device, disk: Id, from: Digest) {
    d.desiredDisk == Some(disk) && d.desiredSha == Some(from)
  }

  /** As Inv, but boards that want `disk` may still want what it was before the edit. */
  ghost predicate InFlight(db: Db, disk: Id, from: Digest) {
    && disk in db.disks
    && (forall id :: id in db.devices ==> WantsHead(db.devices[id], db.disks) || WantsOld(db.devices[id], disk, from))
    && (forall id :: id in db.disks ==> EndsAtHead(db.disks[id]))
  }

  lemma RecordLeavesInFlight(db: Db, disk: Id, from: Digest, next: Image)
    requires Inv(db) && EditRecord(db, disk, from, next).1.Recorded?
    requires disk in db.disks && (db.disks[disk].history == [] ==> db.disks[disk].head == from)
    ensures InFlight(EditRecord(db, disk, from, next).0, disk, from)
  {
    var db1 := EditRecord(db, disk, from, next).0;
    forall id | id in db.devices ensures WantsHead(db.devices[id], db1.disks) || WantsOld(db.devices[id], disk, from) {
      assert WantsHead(db.devices[id], db.disks);
      assert EndsAtHead(db.disks[disk]);
    }
  }

  /** The same for a board that may still want this disk at what it was before the edit. */
  lemma BoardFollows(d: Device, was: map<Id, Disk>, now: map<Id, Disk>, q: Close, sha: Digest, disk: Id, from: Digest)
    requires WantsHead(d, was) || WantsOld(d, disk, from)
    requires q.disk in now && now == was[q.disk := now[q.disk]] && now[q.disk].head == sha
    ensures WantsHead(Settled(d, q, sha), now) || WantsOld(Settled(d, q, sha), disk, from)
    ensures WantsHead(Sent(d, q.disk, sha), now) || WantsOld(Sent(d, q.disk, sha), disk, from)
  {
  }

  lemma CloseKeepsInFlight(db: Db, q: Close, disk: Id, from: Digest)
    requires InFlight(db, disk, from)
    ensures InFlight(CloseSession(db, q).0, disk, from)
  {
    var f := CloseRecord(db, q);
    if f.Settles? {
      CloseSettlesOnHead(db, q);
      var after := CloseBatch(f.db, q, f.sha);
      assert after.disks == f.db.disks;
      forall id | id in after.devices
        ensures WantsHead(after.devices[id], after.disks) || WantsOld(after.devices[id], disk, from) {
        BoardFollows(db.devices[id], db.disks, f.db.disks, q, f.sha, disk, from);
      }
    }
  }

  /** Another edit, of this disk or not, is refused unless nobody wants the head it starts from. */
  lemma EditKeepsInFlight(db: Db, other: Id, next: Image, disk: Id, from: Digest)
    requires InFlight(db, disk, from)
    ensures InFlight(Edit(db, other, next), disk, from)
  {
    var check := EditCheck(db, other);
    if check.Some? {
      var (db1, r) := EditRecord(db, other, check.value, next);
      forall id | id in db.devices
        ensures Late(db.devices[id], other, check.value, Sha256(next)) == db.devices[id]
        ensures WantsHead(db.devices[id], db1.disks) || WantsOld(db.devices[id], disk, from) {
        assert !Holds(db.devices[id], check.value);
        assert WantsHead(db.devices[id], db.disks) || WantsOld(db.devices[id], disk, from);
      }
      assert r.Recorded? ==> Repoint(db1, other, check.value, r.sha).devices == db.devices;
    }
  }

  lemma StepKeepsInFlight(db: Db, e: Event, disk: Id, from: Digest)
    requires InFlight(db, disk, from)
    ensures InFlight(Step(db, e), disk, from)
  {
    match e {
      case CloseCall(q) => CloseKeepsInFlight(db, q, disk, from);
      case EditCall(other, next) => EditKeepsInFlight(db, other, next, disk, from);
      case Upload(_, _, _, _, _, _, _) => UploadTouchesSessionsOnly(db, e);
      case _ =>
    }
  }

  lemma {:induction false} RunKeepsInFlight(db: Db, events: seq<Event>, disk: Id, from: Digest)
    requires InFlight(db, disk, from)
    ensures InFlight(Run(db, events), disk, from)
    decreases |events|
  {
    if events != [] {
      StepKeepsInFlight(db, events[0], disk, from);
      RunKeepsInFlight(Step(db, events[0]), events[1..], disk, from);
    }
  }

  /** A head only moves into history: a disk with none still has the head it had. */
  lemma StepHistory(db: Db, e: Event, disk: Id)
    requires Inv(db) && disk in db.disks
    ensures disk in Step(db, e).disks
    ensures Step(db, e).disks[disk].history == [] ==>
              db.disks[disk].history == [] && Step(db, e).disks[disk].head == db.disks[disk].head
  {
    match e {
      case Upload(_, _, _, _, _, _, _) => UploadTouchesSessionsOnly(db, e);
      case _ =>
    }
  }

  lemma {:induction false} RunHistory(db: Db, events: seq<Event>, disk: Id)
    requires Inv(db) && disk in db.disks
    ensures disk in Run(db, events).disks
    ensures Run(db, events).disks[disk].history == [] ==>
              db.disks[disk].history == [] && Run(db, events).disks[disk].head == db.disks[disk].head
    decreases |events|
  {
    if events != [] {
      StepHistory(db, events[0], disk);
      StepKeepsInv(db, events[0]);
      RunHistory(Step(db, events[0]), events[1..], disk);
    }
  }

  lemma RepointLands(db: Db, disk: Id, from: Digest, to: Digest)
    requires InFlight(db, disk, from) && from != to
    ensures Inv(Repoint(db, disk, from, to)) <==>
              || db.disks[disk].head == to
              || forall id :: id in db.devices ==> !WantsOld(db.devices[id], disk, from)
  {
    var after := Repoint(db, disk, from, to);
    if db.disks[disk].head == to || forall id :: id in db.devices ==> !WantsOld(db.devices[id], disk, from) {
      forall id | id in after.devices ensures WantsHead(after.devices[id], after.disks) {
        assert WantsHead(db.devices[id], db.disks) || WantsOld(db.devices[id], disk, from);
      }
    } else {
      var id :| id in db.devices && WantsOld(db.devices[id], disk, from);
      assert !WantsHead(after.devices[id], after.disks);
    }
  }

  /**
   * An edit as three separate steps, with any calls whatever between them, closes and other edits of
   * this disk included. Every board that wants a disk ends at its head if and only if the repoint
   * finds this disk still at what the edit recorded, or no board that wants it at what the edit read.
   */
  lemma RepointExact(db: Db, disk: Id, from: Digest, next: Image, before: seq<Event>, during: seq<Event>)
    requires Inv(db) && EditCheck(db, disk) == Some(from)
    ensures var (db1, r) := EditRecord(Run(db, before), disk, from, next);
            var end := Run(db1, during);
            if r.Recorded? then
              && r.sha == Sha256(next) && disk in end.disks
              && (Inv(Repoint(end, disk, from, r.sha)) <==>
                    || end.disks[disk].head == r.sha
                    || forall id :: id in end.devices ==> !WantsOld(end.devices[id], disk, from))
            else Inv(end)
  {
    RunKeepsInv(db, before);
    RunHistory(db, before, disk);
    var db0 := Run(db, before);
    var (db1, r) := EditRecord(db0, disk, from, next);
    if r.Recorded? {
      RecordLeavesInFlight(db0, disk, from, next);
      RunKeepsInFlight(db1, during, disk, from);
      assert InFlight(Run(db1, during), disk, from);
      RepointLands(Run(db1, during), disk, from, Sha256(next));
    } else {
      assert db1.disks == db0.disks;
      RunKeepsInv(db1, during);
    }
  }

  lemma {:induction false} HeadStays(db: Db, events: seq<Event>, disk: Id)
    requires disk in db.disks && forall e :: e in events ==> !Writes(e, disk)
    ensures disk in Run(db, events).disks && Run(db, events).disks[disk].head == db.disks[disk].head
    decreases |events|
  {
    if events != [] {
      assert !Writes(events[0], disk);
      OnlyWritersWrite(db, events[0], disk);
      HeadStays(Step(db, events[0]), events[1..], disk);
    }
  }

  /**
   * So however boards were mounted meanwhile they end at the head, if nobody else writes this disk
   * before the repoint.
   */
  lemma LateMountsRepaired(db: Db, disk: Id, from: Digest, next: Image, before: seq<Event>, during: seq<Event>)
    requires Inv(db) && EditCheck(db, disk) == Some(from)
    requires forall e :: e in during ==> !Writes(e, disk)
    ensures var (db1, r) := EditRecord(Run(db, before), disk, from, next);
            r.Recorded? ==> Inv(Repoint(Run(db1, during), disk, from, r.sha))
  {
    RepointExact(db, disk, from, next, before, during);
    RunHistory(db, before, disk);
    HeadStays(EditRecord(Run(db, before), disk, from, next).0, during, disk);
  }

  lemma StepWants(db: Db, e: Event, id: Id, disk: Id)
    requires id in db.devices && db.devices[id].desiredDisk != Some(disk) && e != MountDisk(id, disk)
    ensures id in Step(db, e).devices && Step(db, e).devices[id].desiredDisk != Some(disk)
  {
    match e {
      case Upload(_, _, _, _, _, _, _) => UploadTouchesSessionsOnly(db, e);
      case CloseCall(q) =>
        var f := CloseRecord(db, q);
        if f.Settles? { assert f.db.devices == db.devices; }
      case EditCall(d, next) =>
        var check := EditCheck(db, d);
        if check.Some? { assert EditRecord(db, d, check.value, next).0.devices == db.devices; }
      case _ =>
    }
  }

  lemma {:induction false} RunWants(db: Db, events: seq<Event>, id: Id, disk: Id)
    requires id in db.devices && db.devices[id].desiredDisk != Some(disk) && MountDisk(id, disk) !in events
    ensures id in Run(db, events).devices && Run(db, events).devices[id].desiredDisk != Some(disk)
    decreases |events|
  {
    if events != [] {
      StepWants(db, events[0], id, disk);
      RunWants(Step(db, events[0]), events[1..], id, disk);
    }
  }

  /** The repoint never touches a board that did not ask for the disk after the holder check. */
  lemma OnlyLateMountsRepointed(db: Db, disk: Id, from: Digest, next: Image, before: seq<Event>, during: seq<Event>,
          id: Id)
    requires Inv(db) && EditCheck(db, disk) == Some(from) && id in db.devices
    requires MountDisk(id, disk) !in before && MountDisk(id, disk) !in during
    ensures var end := Run(EditRecord(Run(db, before), disk, from, next).0, during);
            id in end.devices && Repoint(end, disk, from, Sha256(next)).devices[id] == end.devices[id]
  {
    assert WantsHead(db.devices[id], db.disks) && !Holds(db.devices[id], from);
    RunWants(db, before, id, disk);
    var db1 := EditRecord(Run(db, before), disk, from, next).0;
    assert db1.devices == Run(db, before).devices;
    RunWants(db1, during, id, disk);
  }

  // ---- Where the repoint leaves a board behind ----

  /** One board that holds nothing, and one disk nobody wants. */
  function Shelf(head: Digest): Db {
    Db(map[0 := Disk(head, false, false, [])],
       map[7 := Device(None, None, 0, None, None, None, None)], map[])
  }

  lemma RunOne(db: Db, e: Event)
    ensures Run(db, [e]) == Step(db, e)
  {
    assert Run(Step(db, e), []) == Step(db, e);
  }

  lemma RunThree(db: Db, e: Event, f: Event, g: Event)
    ensures Run(db, [e, f, g]) == Step(Step(Step(db, e), f), g)
  {
    assert [e, f, g][1..] == [f, g] && [f, g][1..] == [g];
    RunOne(Step(Step(db, e), f), g);
  }

  /** The board's calls before the edit records. */
  function MountAndUpload(image: Image, data: seq<byte>): seq<Event> {
    [MountDisk(7, 0), ReportStatus(7, Some(0), Some(Sha256(image)), Some(1)), Upload(7, 0, 1, 0, 1, 0, data)]
  }

  /** What they leave: the board has the disk, and its session has the track. */
  function Uploaded(head: Digest, data: seq<byte>): Db {
    Db(Shelf(head).disks, map[7 := Device(Some(0), Some(head), 1, Some(0), Some(head), Some(1), None)],
       map[Key(7, 1) := Session(0, 1, 0, head, map[0 := data])])
  }

  lemma UploadsUnchanged(image: Image, data: seq<byte>)
    requires TrackBytes(|image|) == Some(|data|)
    ensures Run(Shelf(Sha256(image)), MountAndUpload(image, data)) == Uploaded(Sha256(image), data)
  {
    var db, e := Shelf(Sha256(image)), MountAndUpload(image, data);
    RunThree(db, e[0], e[1], e[2]);
  }

  /** The same once the edit has recorded. */
  function Edited(head: Digest, next: Digest, data: seq<byte>): Db {
    Uploaded(head, data).(disks := map[0 := Disk(next, false, false, [head, next])])
  }

  /** And once the board has written its image back. */
  function WrittenBack(head: Digest, next: Digest): Db {
    Db(map[0 := Disk(head, false, false, [head, next, head])],
       map[7 := Device(Some(0), Some(head), 1, Some(0), Some(head), Some(1), None)], map[])
  }

  lemma EditsUploaded(image: Image, next: Image, data: seq<byte>)
    requires TrackBytes(|image|) == Some(|data|) && |next| == |image| && next != image
    ensures EditRecord(Uploaded(Sha256(image), data), 0, Sha256(image), next)
         == (Edited(Sha256(image), Sha256(next), data), Recorded(Sha256(next)))
  {
    var from, to := Sha256(image), Sha256(next);
    assert [from] + [to] == [from, to];
    assert Uploaded(from, data).disks[0 := Disk(to, false, false, [from, to])] == Edited(from, to, data).disks;
  }

  lemma WritesBack(image: Image, next: Image, data: seq<byte>)
    requires TrackBytes(|image|) == Some(|data|) && data == image[..|data|] && |next| == |image| && next != image
    ensures CloseSession(Edited(Sha256(image), Sha256(next), data), Close(7, 0, 1, 1, Sha256(image), 0)).0
         == WrittenBack(Sha256(image), Sha256(next))
  {
    var db, q := Edited(Sha256(image), Sha256(next), data), Close(7, 0, 1, 1, Sha256(image), 0);
    assert Overlay(image, map[0 := data]) == image;
    var from, to, after := Sha256(image), Sha256(next), WrittenBack(Sha256(image), Sha256(next));
    assert [from, to] + [from] == [from, to, from];
    assert db.disks[0 := Disk(from, false, false, [from, to, from])] == after.disks;
    assert CloseRecord(db, q) == Settles(db.(disks := after.disks), from);
    assert CloseBatch(db.(disks := after.disks), q, from).devices == after.devices;
  }

  lemma SentAstray(from: Digest, to: Digest)
    requires from != to
    ensures !Inv(Repoint(WrittenBack(from, to), 0, from, to))
  {
    var after := Repoint(WrittenBack(from, to), 0, from, to);
    assert !WantsHead(after.devices[7], after.disks);
  }

  /** The close, after the edit has recorded. */
  lemma ClosesOld(image: Image, next: Image, data: seq<byte>)
    requires TrackBytes(|image|) == Some(|data|) && data == image[..|data|] && |next| == |image| && next != image
    ensures Run(Edited(Sha256(image), Sha256(next), data), [CloseCall(Close(7, 0, 1, 1, Sha256(image), 0))])
         == WrittenBack(Sha256(image), Sha256(next))
  {
    RunOne(Edited(Sha256(image), Sha256(next), data), CloseCall(Close(7, 0, 1, 1, Sha256(image), 0)));
    WritesBack(image, next, data);
  }

  /**
   * A run in which it does. Board 7 takes the disk between the edit's check and its record, and
   * uploads a track that has not changed; the edit records; the board closes, which puts the image it
   * holds back at the head. The repoint then sends the board for the edit's image, and it wants a
   * digest that is not its disk's head.
   */
  lemma RepointMisses(image: Image, next: Image, data: seq<byte>)
    requires TrackBytes(|image|) == Some(|data|) && data == image[..|data|] && |next| == |image| && next != image
    ensures var from, to, db := Sha256(image), Sha256(next), Shelf(Sha256(image));
            var (db1, r) := EditRecord(Run(db, MountAndUpload(image, data)), 0, from, next);
            var end := Run(db1, [CloseCall(Close(7, 0, 1, 1, from, 0))]);
            && Inv(db) && EditCheck(db, 0) == Some(from) && r == Recorded(to)
            && 0 in end.disks && end.disks[0].head == from && !Inv(Repoint(end, 0, from, to))
  {
    UploadsUnchanged(image, data);
    EditsUploaded(image, next, data);
    ClosesOld(image, next, data);
    SentAstray(Sha256(image), Sha256(next));
  }
}
