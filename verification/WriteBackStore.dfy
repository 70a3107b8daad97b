/**
 * The same calls as the code makes them, one statement after another on the rows
 * (src/lib/device-write.ts, src/lib/disk-write.ts, src/lib/disk-holder.ts).
 */
module WriteBackStore {
  import opened Bytes
  import opened DiskImage
  import opened WriteBack

  class Store {
    var disks: map<Id, Disk>
    var devices: map<Id, Device>
    var sessions: map<Key, Session>

    ghost function State(): Db
      reads this
    {
      Db(disks, devices, sessions)
    }

    constructor (db: Db)
      ensures State() == db
    {
      disks, devices, sessions := db.disks, db.devices, db.sessions;
    }

    method ReadHolds(device: Id, disk: Id, mount: nat) returns (held: Held)
      ensures held == HoldsMount(State(), device, disk, mount)
    {
      if device !in devices { return NotHeld; }
      var row := devices[device];
      if row.mountedDisk != Some(disk) { return NotHeld; }
      if row.mountedVersion == Some(mount) {
        var bumped := row.desiredDisk == Some(disk) && row.desiredVersion > mount;
        return if bumped then HeldBehind else Current;
      }
      var key := Key(device, mount);
      held := if key in sessions && sessions[key].disk == disk then InSession else NotHeld;
    }

    method StageTrack(device: Id, disk: Id, mount: nat, track: nat, seqNo: nat, token: Token, data: seq<byte>)
      returns (o: Outcome)
      modifies this
      ensures (State(), o) == Stage(old(State()), device, disk, mount, track, seqNo, token, data)
      ensures disks == old(disks) && devices == old(devices)
      ensures var key := Key(device, mount);
              var open := key in old(sessions) && old(sessions)[key].token == token;
              match o
              case Staged(t) =>
                && t == track && disk in disks && key in sessions
                && (open ==> old(sessions)[key].lastSeq < seqNo && sessions == old(sessions)[key := sessions[key]])
                && sessions[key] == (if open then old(sessions)[key]
                                     else Session(disk, 0, token, disks[disk].head, map[])).(
                     lastSeq := seqNo, staged := sessions[key].staged)
                && sessions[key].staged == (if open then old(sessions)[key].staged else map[])[track := data]
              case Duplicate =>
                if open then seqNo <= old(sessions)[key].lastSeq && sessions == old(sessions)
                else seqNo == 0 && disk in disks && key in sessions
                     && sessions[key] == Session(disk, 0, token, disks[disk].head, map[])
              case _ => sessions == old(sessions)
      ensures forall k: Key :: k in old(sessions) && k.device != device ==>
                k in sessions && sessions[k] == old(sessions)[k]
      ensures forall k: Key :: k in sessions && k != Key(device, mount) ==>
                k in old(sessions) && sessions[k] == old(sessions)[k]
    {
      if !IsTrackUpload(track, data, TRACK_DATA_BYTES) && !IsTrackUpload(track, data, HD_TRACK_DATA_BYTES) {
        return InvalidBody;
      }
      var held := ReadHolds(device, disk, mount);
      if held.NotHeld? { return NotMounted; }
      if disk !in disks { return NotFound; }
      var row := disks[disk];
      var trackBytes := DiskTrackBytes(row);
      if trackBytes.Some? && |data| != trackBytes.value { return InvalidBody; }
      var key := Key(device, mount);
      var lastSeq := 0;
      if key in sessions && sessions[key].token == token {
        lastSeq := sessions[key].lastSeq;
      } else {
        if held.InSession? { return NotMounted; }
        if row.wp || row.hfe { return WriteProtected; }
        if held.HeldBehind? { return Behind; }
        sessions := DropOthers(sessions, device, mount, token);
        sessions := sessions[key := Session(disk, 0, token, row.head, map[])];
      }
      if seqNo <= lastSeq { return Duplicate; }
      var s := sessions[key];
      sessions := sessions[key := s.(lastSeq := seqNo, staged := s.staged[track := data])];
      o := Staged(track);
    }

    /** recordVersion. */
    method RecordVersion(disk: Id, headSha: Digest, next: Image) returns (r: Recorded)
      requires disk in disks
      modifies `disks
      ensures disks == old(disks)[disk := Record(old(disks)[disk], headSha, next).0]
      ensures r == Record(old(disks)[disk], headSha, next).1
      ensures !r.Recorded? ==> disks == old(disks)
      ensures r.Recorded? ==>
                var was, now := old(disks)[disk], disks[disk];
                && disks == old(disks)[disk := now] && now.head == r.sha == Sha256(next) != headSha
                && |now.history| >= 2 && now.history[|now.history| - 2..] == [headSha, now.head]
                && (was.history != [] ==> was.history + [now.head] == now.history)
    {
      var row := disks[disk];
      assert disks == disks[disk := row];
      var history := row.history;
      if history != [] && history[|history| - 1] != headSha { return Stale; }
      if TrackBytes(|headSha.of|).None? || |next| != |headSha.of| { return Failed; }
      if next == headSha.of { return Same; }
      var sha := Sha256(next);
      if history == [] { history := [headSha]; }
      row := row.(history := history + [sha]);
      row := row.(head := sha);
      disks := disks[disk := row];
      r := Recorded(sha);
    }

    method Close(q: WriteBack.Close) returns (o: Outcome)
      modifies this
      ensures (State(), o) == CloseSession(old(State()), q)
    {
      var held := ReadHolds(q.device, q.disk, q.mount);
      if held.NotHeld? { return NotMounted; }
      if q.disk !in disks { return NotFound; }
      var disk := disks[q.disk];
      var key := Key(q.device, q.mount);
      var open := key in sessions && sessions[key].token == q.token;
      if open && q.seqNo != sessions[key].lastSeq { return Incomplete; }
      var sha := disk.head;
      if open && sessions[key].staged != map[] {
        var base := sessions[key].base.of;
        if !Fits(sessions[key].staged, |base|) { return ServerError; }
        var r := RecordVersion(q.disk, disk.head, Overlay(base, sessions[key].staged));
        match r {
          case Stale =>
            assert disks == old(disks);
            return Conflict;
          case Failed =>
            assert disks == old(disks);
            return ServerError;
          case Same => assert disks == old(disks);
          case Recorded(recorded) => sha := recorded;
        }
      } else if q.sha == disk.head {
        if open { sessions := sessions - {key}; }
        return Unchanged(q.sha);
      }
      SettleBoards(q, sha);
      o := if sha != q.sha then Mismatch(sha) else Closed(sha);
    }

    /** The close's batch. */
    method SettleBoards(q: WriteBack.Close, sha: Digest)
      modifies `sessions, `devices
      ensures State() == CloseBatch(old(State()), q, sha)
    {
      var key := Key(q.device, q.mount);
      if key in sessions && sessions[key].token == q.token { sessions := sessions - {key}; }
      SettleThisBoard(q, sha);
      devices := map id | id in devices ::
        if id != q.device then Sent(devices[id], q.disk, sha) else devices[id];
    }

    /** Its two statements about the board that closes. */
    method SettleThisBoard(q: WriteBack.Close, sha: Digest)
      modifies `devices
      ensures devices == if q.device in old(devices)
                         then old(devices)[q.device := Settled(old(devices)[q.device], q, sha)] else old(devices)
    {
      var mismatch := sha != q.sha;
      if q.device in devices {
        var d := devices[q.device];
        d := if mismatch then d.(lastError := Some((q.sha, sha))) else d.(mountedSha := Some(sha));
        if d.desiredDisk == Some(q.disk) {
          d := d.(desiredSha := Some(sha));
          if mismatch { d := Bump(d); }
        }
        devices := devices[q.device := d];
      }
    }

    method FindHolder(sha: Digest) returns (held: bool)
      ensures held == HasHolder(State(), sha)
      ensures held <==> exists id ::
                id in devices && (devices[id].mountedSha == Some(sha) || devices[id].desiredSha == Some(sha))
    {
      held := exists id :: id in devices && Holds(devices[id], sha);
    }

    method RepointLateMounts(disk: Id, from: Digest, to: Digest)
      modifies `devices
      ensures State() == Repoint(old(State()), disk, from, to)
    {
      devices := map id | id in devices :: Late(devices[id], disk, from, to);
    }

    /** applyDiskEdit, for an edit that makes `next` of the image it is given (None: it is refused). */
    method ApplyDiskEdit(disk: Id, edit: Image -> Option<Image>) returns (sha: Option<Digest>)
      modifies this
      ensures disk !in old(disks) ==> State() == old(State()) && sha == None
      ensures disk in old(disks) ==>
                match edit(old(disks)[disk].head.of)
                case None => State() == old(State()) && sha == None
                case Some(next) =>
                  && State() == Edit(old(State()), disk, next)
                  && (sha.Some? ==> disks[disk].head == sha.value == Sha256(next))
                  && (sha.Some? <==>
                        var was := old(disks)[disk];
                        && !was.hfe && (was.history == [] || was.history[|was.history| - 1] == was.head)
                        && FloppySize(|was.head.of|) && |next| == |was.head.of|
                        && forall id :: id in old(devices) ==>
                             && old(devices)[id].mountedSha != Some(was.head)
                             && old(devices)[id].desiredSha != Some(was.head))
    {
      if disk !in disks || disks[disk].hfe { return None; }
      var from := disks[disk].head;
      var held := FindHolder(from);
      if held { return None; }
      var next := edit(from.of);
      if next.None? { return None; }
      var r := RecordVersion(disk, from, next.value);
      match r {
        case Recorded(to) =>
          RepointLateMounts(disk, from, to);
          sha := Some(to);
        case Same => sha := Some(from);
        case _ => sha := None;
      }
    }
  }
}
