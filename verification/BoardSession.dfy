/** One board writing its disk back over a network that loses answers (src/lib/device-write.ts). */
module BoardSession {
  import opened Bytes
  import opened DiskImage
  import opened WriteBack
  import opened WriteBackRuns

  // The board's side is wifi-floppy/firmware/src/uploader.c. It has one request out at a time and
  // gives up on one whose answer is lost: the next upload, of that track again or of another, goes
  // out under a fresh number, whether or not the last one arrived. It asks for a close once the last
  // upload of every track has been answered, and may write on if that close goes unanswered.

  /** An upload; its number is its place in the log, from 1. */
  datatype Sent = Sent(track: nat, data: seq<byte>)

  /**
   * What the board knows: its boot's token, the mount it writes under, every upload it has tried in
   * its session, the tracks whose last upload has not been answered with a 200, and how many uploads
   * it had tried when it last asked for a close.
   */
  datatype Board = Board(disk: Id, mount: nat, token: Token, log: seq<Sent>, unheard: set<nat>, asked: nat)

  /**
   * `used`: the tokens and mounts the board has written under; `base`: the head its session on the
   * server was opened at; `settled`: how many of its uploads it had tried when a close last left it
   * without one.
   */
  datatype World = World(db: Db, board: Board, used: set<(Token, nat)>, base: Digest, settled: nat)

  datatype Move =
    | Other(e: Event)
    | Restart(disk: Id, mount: nat, token: Token)
    | Send(track: nat, data: seq<byte>)
    | Deliver(n: nat, heard: bool)
    | DeliverClose(sha: Digest, heard: bool)

  /**
   * A request may arrive any number of times, and late: after uploads with higher numbers, but not
   * after a close that the board asked for later. Only the newest is still listened for.
   */
  ghost predicate Enabled(w: World, m: Move, id: Id) {
    var b := w.board;
    match m
    case Other(e) => !(e.Upload? && e.device == id) && !(e.CloseCall? && e.q.device == id)
    case Restart(disk, mount, token) => (token, mount) !in w.used
    case Send(_, _) => true
    case Deliver(n, heard) => b.asked < n <= |b.log| && (heard ==> n == |b.log|)
    case DeliverClose(_, _) => b.log != [] && b.unheard == {}
  }

  function OpenRow(db: Db, b: Board, id: Id): Option<Session> {
    var key := Key(id, b.mount);
    if key in db.sessions && db.sessions[key].token == b.token then Some(db.sessions[key]) else None
  }

  function StageNth(w: World, n: nat, id: Id): (Db, Outcome)
    requires 0 < n <= |w.board.log|
  {
    var b := w.board;
    Stage(w.db, id, b.disk, b.mount, b.log[n - 1].track, n, b.token, b.log[n - 1].data)
  }

  function CloseOf(b: Board, sha: Digest, id: Id): Close {
    Close(id, b.disk, b.mount, |b.log|, sha, b.token)
  }

  /** The board's session is over: closed, or the server's image wins. */
  function Cleared(b: Board): Board {
    b.(log := [], unheard := {}, asked := 0)
  }

  ghost function Next(w: World, m: Move, id: Id): World
    requires Enabled(w, m, id)
  {
    var b := w.board;
    match m
    case Other(e) => w.(db := Step(w.db, e))
    case Restart(disk, mount, token) =>
      w.(board := Board(disk, mount, token, [], {}, 0), used := w.used + {(token, mount)}, settled := 0)
    case Send(track, data) => w.(board := b.(log := b.log + [Sent(track, data)], unheard := b.unheard + {track}))
    case Deliver(n, heard) =>
      var (after, o) := StageNth(w, n, id);
      var over := heard && o.WriteProtected?;
      w.(db := after,
         board := if over then Cleared(b)
                  else if heard && Ok(o) then b.(unheard := b.unheard - {b.log[n - 1].track})
                  else b,
         base := if OpenRow(w.db, b, id).None? && b.disk in w.db.disks then w.db.disks[b.disk].head else w.base,
         settled := if over then 0 else w.settled)
    case DeliverClose(sha, heard) =>
      var (after, o) := CloseSession(w.db, CloseOf(b, sha, id));
      var over := heard && (Ok(o) || o.Mismatch?);
      w.(db := after,
         board := if over then Cleared(b) else b.(asked := |b.log|),
         settled := if over then 0 else if OpenRow(after, b, id).None? then |b.log| else w.settled)
  }

  /** The last upload of each track among those numbered from + 1 to n. */
  function Latest(log: seq<Sent>, from: nat, n: nat): map<nat, seq<byte>>
    requires n <= |log|
  {
    if n <= from then map[] else Latest(log, from, n - 1)[log[n - 1].track := log[n - 1].data]
  }

  lemma {:induction false} LatestIsLast(log: seq<Sent>, from: nat, n: nat, t: nat)
    requires n <= |log|
    ensures t in Latest(log, from, n) <==> exists k :: from <= k < n && log[k].track == t
    ensures t in Latest(log, from, n) ==>
              exists k :: from <= k < n && log[k].track == t && log[k].data == Latest(log, from, n)[t]
                          && forall j :: k < j < n ==> log[j].track != t
  {
    if n > from { LatestIsLast(log, from, n - 1, t); }
  }

  lemma {:induction false} LatestOfMore(log: seq<Sent>, more: seq<Sent>, from: nat, n: nat)
    requires n <= |log| <= |more| && forall k :: 0 <= k < |log| ==> more[k] == log[k]
    ensures Latest(more, from, n) == Latest(log, from, n)
  {
    if n > from { LatestOfMore(log, more, from, n - 1); }
  }

  function StagedIn(row: Option<Session>): map<nat, seq<byte>> {
    if row.Some? then row.value.staged else map[]
  }

  function LastSeqOf(row: Option<Session>): nat {
    if row.Some? then row.value.lastSeq else 0
  }

  /** Both have the same of track t, or neither has it. */
  predicate Agree(a: map<nat, seq<byte>>, b: map<nat, seq<byte>>, t: nat) {
    (t in a <==> t in b) && (t in a ==> a[t] == b[t])
  }

  /** The last upload of track t has arrived, as far as the board's session goes. */
  predicate Arrived(b: Board, row: Option<Session>, t: nat) {
    t !in b.unheard || (b.log != [] && LastSeqOf(row) == |b.log| && b.log[|b.log| - 1].track == t)
  }

  /** What the server has staged of each track that has arrived is its last upload since the last close. */
  ghost predicate Kept(w: World, id: Id) {
    var b, row := w.board, OpenRow(w.db, w.board, id);
    && w.settled <= b.asked <= |b.log|
    && (b.token, b.mount) in w.used
    && (forall k: Key :: k in w.db.sessions && k.device == id ==> (w.db.sessions[k].token, k.mount) in w.used)
    && (row.Some? ==> w.settled < row.value.lastSeq <= |b.log| && row.value.base == w.base)
    && (forall k :: w.settled <= k < |b.log| && b.log[k].track !in b.unheard ==> k < LastSeqOf(row))
    && (forall t :: Arrived(b, row, t) ==> Agree(StagedIn(row), Latest(b.log, w.settled, |b.log|), t))
  }

  /** Nothing but a board's own uploads and closes touches its sessions. */
  lemma OthersLeaveSessions(db: Db, e: Event, id: Id)
    requires !(e.Upload? && e.device == id) && !(e.CloseCall? && e.q.device == id)
    ensures forall k: Key :: k.device == id ==>
              ((k in Step(db, e).sessions) == (k in db.sessions))
              && (k in db.sessions ==> Step(db, e).sessions[k] == db.sessions[k])
  {
  }

  lemma OtherKeeps(w: World, e: Event, id: Id)
    requires Kept(w, id) && Enabled(w, Other(e), id)
    ensures Kept(Next(w, Other(e), id), id)
  {
    OthersLeaveSessions(w.db, e, id);
  }

  lemma SendKeeps(w: World, track: nat, data: seq<byte>, id: Id)
    requires Kept(w, id)
    ensures Kept(Next(w, Send(track, data), id), id)
  {
    var b, after := w.board, Next(w, Send(track, data), id).board;
    LatestOfMore(b.log, after.log, w.settled, |b.log|);
    forall t | Arrived(after, OpenRow(w.db, b, id), t)
      ensures Agree(StagedIn(OpenRow(w.db, b, id)), Latest(after.log, w.settled, |after.log|), t) {
      assert Arrived(b, OpenRow(w.db, b, id), t);
    }
  }

  /** An upload is refused, or repeats one no later than the last, or becomes the last. */
  lemma DeliverStages(w: World, n: nat, id: Id)
    requires 0 < n <= |w.board.log|
    ensures var b, row := w.board, OpenRow(w.db, w.board, id);
            var (after, o) := StageNth(w, n, id);
            var row1 := OpenRow(after, b, id);
            if o.Staged? then
              && LastSeqOf(row) < n == LastSeqOf(row1) && row1.Some? && (row.None? ==> b.disk in w.db.disks)
              && row1.value.base == (if row.Some? then row.value.base else w.db.disks[b.disk].head)
              && row1.value.staged == StagedIn(row)[b.log[n - 1].track := b.log[n - 1].data]
            else after == w.db && (o.Duplicate? ==> n <= LastSeqOf(row)) && (o.WriteProtected? ==> row.None?)
    ensures forall k: Key :: k.device == id && k != Key(id, w.board.mount) && k in StageNth(w, n, id).0.sessions ==>
              k in w.db.sessions && StageNth(w, n, id).0.sessions[k] == w.db.sessions[k]
  {
  }

  lemma DeliverKeeps(w: World, n: nat, heard: bool, id: Id)
    requires Kept(w, id) && Enabled(w, Deliver(n, heard), id)
    ensures Kept(Next(w, Deliver(n, heard), id), id)
  {
    var b, row, after := w.board, OpenRow(w.db, w.board, id), Next(w, Deliver(n, heard), id);
    DeliverStages(w, n, id);
    var o, row1 := StageNth(w, n, id).1, OpenRow(after.db, after.board, id);
    var last := Latest(b.log, w.settled, |b.log|);
    if after.board.log == b.log {
      forall t | Arrived(after.board, row1, t) ensures Agree(StagedIn(row1), last, t) {
        if t == b.log[n - 1].track && o.Staged? {
          assert b.log[n - 1].track in b.unheard;
        } else {
          assert Arrived(b, row, t);
        }
      }
    }
  }

  lemma CloseKeeps(w: World, sha: Digest, heard: bool, id: Id)
    requires Kept(w, id) && Enabled(w, DeliverClose(sha, heard), id)
    ensures Kept(Next(w, DeliverClose(sha, heard), id), id)
  {
  }

  lemma NextKeeps(w: World, m: Move, id: Id)
    requires Kept(w, id) && Enabled(w, m, id)
    ensures Kept(Next(w, m, id), id)
  {
    match m {
      case Other(e) => OtherKeeps(w, e, id);
      case Send(track, data) => SendKeeps(w, track, data, id);
      case Deliver(n, heard) => DeliverKeeps(w, n, heard, id);
      case DeliverClose(sha, heard) => CloseKeeps(w, sha, heard, id);
      case Restart(disk, mount, token) => BootIsFresh(w, disk, mount, token, id);
    }
  }

  ghost predicate AllEnabled(w: World, moves: seq<Move>, id: Id)
    decreases |moves|
  {
    moves == [] || (Enabled(w, moves[0], id) && AllEnabled(Next(w, moves[0], id), moves[1..], id))
  }

  ghost function After(w: World, moves: seq<Move>, id: Id): World
    requires AllEnabled(w, moves, id)
    decreases |moves|
  {
    if moves == [] then w else After(Next(w, moves[0], id), moves[1..], id)
  }

  lemma {:induction false} RunKeeps(w: World, moves: seq<Move>, id: Id)
    requires Kept(w, id) && AllEnabled(w, moves, id)
    ensures Kept(After(w, moves, id), id)
    decreases |moves|
  {
    if moves != [] {
      NextKeeps(w, moves[0], id);
      RunKeeps(Next(w, moves[0], id), moves[1..], id);
    }
  }

  /** A boot under a token and mount the rows have never seen is a good start, whatever they hold. */
  lemma BootIsFresh(w: World, disk: Id, mount: nat, token: Token, id: Id)
    requires Enabled(w, Restart(disk, mount, token), id)
    requires forall k: Key :: k in w.db.sessions && k.device == id ==> (w.db.sessions[k].token, k.mount) in w.used
    ensures Kept(Next(w, Restart(disk, mount, token), id), id)
  {
  }

  lemma AgreeOnAll(a: map<nat, seq<byte>>, b: map<nat, seq<byte>>)
    requires forall t :: Agree(a, b, t)
    ensures a == b
  {
    forall t | t in a || t in b ensures t in a && t in b && a[t] == b[t] { assert Agree(a, b, t); }
  }

  /** When it asks for a close, what it has sent since the last one is exactly what the server has staged. */
  lemma AllArrived(w: World, id: Id)
    requires Kept(w, id) && w.board.log != [] && w.board.unheard == {}
    ensures var b, row := w.board, OpenRow(w.db, w.board, id);
            if row.None? then w.settled == |b.log|
            else && row.value.lastSeq == |b.log| && row.value.staged != map[]
                 && row.value.staged == Latest(b.log, w.settled, |b.log|)
  {
    var b, row := w.board, OpenRow(w.db, w.board, id);
    var last := Latest(b.log, w.settled, |b.log|);
    if w.settled < |b.log| {
      assert b.log[|b.log| - 1].track !in b.unheard;
      assert row.Some?;
      forall t ensures Agree(row.value.staged, last, t) { assert Arrived(b, row, t); }
      AgreeOnAll(row.value.staged, last);
      assert b.log[|b.log| - 1].track in last;
    }
  }

  /**
   * A close that answers 200 after any such run, with tracks staged, leaves the disk at the head
   * the session was opened over with the last upload of each track this boot has sent since its last
   * close, and at the digest the board said it holds. Nothing else is in it, the board is never told
   * a track is missing, and a close that finds no session has nothing left to record.
   */
  lemma CloseLands(w: World, moves: seq<Move>, sha: Digest, id: Id)
    requires Kept(w, id) && AllEnabled(w, moves, id)
    requires Enabled(After(w, moves, id), DeliverClose(sha, true), id)
    ensures var end := After(w, moves, id);
            var b, row := end.board, OpenRow(end.db, end.board, id);
            var (after, o) := CloseSession(end.db, CloseOf(b, sha, id));
            && o != Incomplete
            && (row.None? ==> end.settled == |b.log|)
            && (o.Closed? && row.Some? ==>
                  && b.disk in after.disks && after.disks[b.disk].head == sha == o.sha
                  && TrackBytes(|end.base.of|).Some?
                  && sha.of == Overlay(end.base.of, Latest(b.log, end.settled, |b.log|)))
  {
    RunKeeps(w, moves, id);
    AllArrived(After(w, moves, id), id);
  }

  // ---- Uploads that arrive after the close ----

  /**
   * An upload that is one of this disk's tracks changes nothing, whenever it arrives, if and only if
   * the board does not hold the mount, or the row there has the board's token and got as far, or
   * there is no such row and none may be opened.
   */
  lemma LateUploads(db: Db, device: Id, disk: Id, mount: nat, n: nat, token: Token, s: Sent)
    requires n > 0 && disk in db.disks && DiskTrackBytes(db.disks[disk]).Some?
    requires IsTrackUpload(s.track, s.data, DiskTrackBytes(db.disks[disk]).value)
    ensures var held, key := HoldsMount(db, device, disk, mount), Key(device, mount);
            Stage(db, device, disk, mount, s.track, n, token, s.data).0 == db <==>
              || held.NotHeld?
              || if key in db.sessions && db.sessions[key].token == token then n <= db.sessions[key].lastSeq
                 else held.InSession? || held.HeldBehind? || db.disks[disk].wp
  {
    var after, key := Stage(db, device, disk, mount, s.track, n, token, s.data).0, Key(device, mount);
    if after == db && key in db.sessions { assert after.sessions[key].lastSeq == db.sessions[key].lastSeq; }
  }

  /** A board that holds a disk, at its first mount. */
  function Holder(head: Digest): Db {
    Db(map[0 := Disk(head, false, false, [])],
       map[7 := Device(Some(0), Some(head), 1, Some(0), Some(head), Some(1), None)], map[])
  }

  /** The upload and the close that arrive in time. */
  function ClosedInTime(image: Image, data: seq<byte>): (Db, Outcome)
    requires TrackBytes(|image|).Some?
  {
    var db := Stage(Holder(Sha256(image)), 7, 0, 1, 0, 2, 0, data).0;
    CloseSession(db, Close(7, 0, 1, 2, Sha256(Overlay(image, map[0 := data])), 0))
  }

  lemma ClosesInTime(image: Image, data: seq<byte>)
    requires TrackBytes(|image|) == Some(|data|)
    ensures var sha := Sha256(Overlay(image, map[0 := data]));
            var (db, o) := ClosedInTime(image, data);
            && o == Closed(sha) && db.sessions == map[] && 0 in db.disks && db.disks[0].head == sha
            && !db.disks[0].hfe && !db.disks[0].wp && HoldsMount(db, 7, 0, 1) == Current
  {
    var db := Stage(Holder(Sha256(image)), 7, 0, 1, 0, 2, 0, data).0;
    assert db.sessions == map[Key(7, 1) := Session(0, 2, 0, Sha256(image), map[0 := data])];
  }

  /**
   * A run in which one does harm. Upload 1 of track 0 is given up on, upload 2 of it arrives, and the
   * close is answered 200. Then upload 1 arrives: it opens a session of its own, over the new head.
   * The board's next write, number 1 again, is answered as a duplicate and not staged; and had the
   * late upload been number 2, its close would be told that an upload is missing.
   */
  lemma LateUploadHarms(image: Image, first: seq<byte>, second: seq<byte>, next: Sent, sha: Digest)
    requires TrackBytes(|image|) == Some(|first|) && |second| == |first|
    requires IsTrackUpload(next.track, next.data, |first|)
    ensures var head := Sha256(Overlay(image, map[0 := second]));
            var (closed, o) := ClosedInTime(image, second);
            var late := Stage(closed, 7, 0, 1, 0, 1, 0, first);
            var later := Stage(closed, 7, 0, 1, 0, 2, 0, first).0;
            && o == Closed(head) && late.1 == Staged(0)
            && late.0.sessions == map[Key(7, 1) := Session(0, 1, 0, head, map[0 := first])]
            && Stage(late.0, 7, 0, 1, next.track, 1, 0, next.data) == (late.0, Duplicate)
            && CloseSession(later, Close(7, 0, 1, 1, sha, 0)) == (later, Incomplete)
  {
    ClosesInTime(image, second);
    var (db, _) := ClosedInTime(image, second);
    assert DropOthers(db.sessions, 7, 1, 0) == map[];
    assert Stage(db, 7, 0, 1, 0, 1, 0, first).0.sessions[Key(7, 1)].staged == map[0 := first];
  }

  // ---- A close that dies between its record and its batch ----

  /** What such a close leaves behind: the version, and nothing else. */
  function Crashed(db: Db, q: Close): Db {
    match CloseRecord(db, q)
    case Settles(db1, _) => db1
    case _ => db
  }

  function CrashedTimes(db: Db, q: Close, n: nat): Db {
    if n == 0 then db else Crashed(CrashedTimes(db, q, n - 1), q)
  }

  /** The retry finds its image already recorded, and settles on the same digest. */
  lemma RetrySettles(db: Db, q: Close)
    ensures CloseSession(Crashed(db, q), q) == CloseSession(db, q)
  {
    var f := CloseRecord(db, q);
    if f.Settles? && f.db != db {
      var base, row := SessionOf(db, q).value.base.of, SessionOf(db, q).value;
      var next := Overlay(base, row.staged);
      assert CloseRecord(f.db, q) == Settles(f.db, Sha256(next));
    }
  }

  /** However often it dies there, the close that gets through answers and leaves what one that never died would. */
  lemma {:induction false} CrashesAreHarmless(db: Db, q: Close, n: nat)
    ensures CloseSession(CrashedTimes(db, q, n), q) == CloseSession(db, q)
  {
    if n > 0 {
      CrashesAreHarmless(db, q, n - 1);
      RetrySettles(CrashedTimes(db, q, n - 1), q);
    }
  }
}
