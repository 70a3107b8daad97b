/**
 * Closes of one upload racing each other: at most one settles it, all of them answer alike, and
 * none answers ok for a file that was never stored.
 */
module AmigaCloseRaces {
  import opened Bytes
  import opened AmigaUploads
  import opened AmigaUploadRuns
  import Crc32

  /** An upload with every byte in, and what its closes say. */
  datatype Race = Race(device: Id, id: Id, crc: nat, path: string, bytes: seq<byte>)

  /** What every close of it should hear. */
  function Verdict(t: Race): CloseAnswer {
    if Crc32.Crc(t.bytes) == t.crc then Named(t.path) else Refused(409, CodeCrc)
  }

  /** A staging file that was stored and has been handed on: its row still gives its name. */
  predicate KeepsName(r: Row, name: string) {
    r.status == Deleted && r.source == Staging && r.blob.Some? && r.path == name
  }

  /** Settled, its row is what the verdict says. */
  ghost predicate SettledRight(r: Row, t: Race) {
    && r.crc == Some(t.crc)
    && match Verdict(t)
       case Named(name) => (r.status == Stored && NameOf(r) == name) || KeepsName(r, name)
       case Refused(_, _) => r.status == FailedCrc
  }

  ghost predicate RowRaces(db: Db, t: Race) {
    && t.id in db.rows && db.rows[t.id].device == t.device && db.rows[t.id].size == |t.bytes|
    && if db.rows[t.id].status == Receiving
       then db.rows[t.id].received == |t.bytes| && db.rows[t.id].path == t.path && Staged(db, t.id) == t.bytes
       else SettledRight(db.rows[t.id], t)
  }

  ghost predicate CloserRaces(db: Db, c: Closer, t: Race) {
    c.id == t.id ==>
      if c.device != t.device then c.Arrived? || c.Done? else
      && c.crc == t.crc
      && match c
         case Arrived(_, _, _) => true
         case SawReceiving(_, _, _, row) => row.path == t.path && row.size == |t.bytes|
         case HasBytes(_, _, _, row, bytes) => row.path == t.path && row.size == |t.bytes| && bytes == t.bytes
         case LostRace(_, _, _, _) => !IsReceiving(db, t.id)
         case Done(_, _, _, answer) => answer == Verdict(t)
  }

  ghost predicate Racing(w: World, t: Race) {
    && Inv(w) && RowRaces(w.db, t)
    && forall k :: k in w.closers ==> CloserRaces(w.db, w.closers[k], t)
  }

  /**
   * Anything but a delete of this upload, a close of it by its board with another CRC, or a daily
   * pass that fails or drops it. A staging file may be handed on, or deleted, once it is stored.
   */
  predicate Spares(w: World, e: Event, t: Race) {
    match e
    case CloseCall(_, device, id, crc) => id == t.id && device == t.device ==> crc == t.crc
    case CloserStep(_, _, replaced, _) => t.id !in replaced
    case Release(id) => id == t.id && t.id in w.db.rows && w.db.rows[id].source == Staging ==> MayGo(w.db.rows[id])
    case Delete(ids) => t.id in ids && t.id in w.db.rows ==> MayGo(w.db.rows[t.id])
    case ExpirePass(now) => t.id in w.db.rows ==> Untroubled(w.db.rows[t.id], now)
    case _ => true
  }

  /** A staging file that is stored, or was before it was deleted. */
  predicate MayGo(r: Row) {
    r.source == Staging && r.blob.Some?
  }

  ghost predicate AllSpare(w: World, events: seq<Event>, t: Race)
    decreases |events|
  {
    events == [] || (Spares(w, events[0], t) && AllSpare(Step(w, events[0]), events[1..], t))
  }

  /** A step that leaves the upload as it is, or deletes it once it is a stored staging file. */
  ghost predicate Left(db: Db, after: Db, id: Id) {
    || Untouched(db, after, id)
    || (id in db.rows && id in after.rows && MayGo(db.rows[id]) && after.rows[id] == db.rows[id].(status := Deleted))
  }

  lemma LeftRaces(db: Db, after: Db, t: Race)
    requires RowRaces(db, t) && Left(db, after, t.id) && RowKept(db, t.id, db.rows[t.id])
    ensures RowRaces(after, t) && (IsReceiving(after, t.id) ==> IsReceiving(db, t.id))
  {
  }

  lemma OpenLeaves(w: World, e: Event, t: Race)
    requires Inv(w) && RowRaces(w.db, t) && e.OpenCall? && Possible(w, e)
    ensures Left(w.db, Step(w, e).db, t.id)
  {
  }

  lemma ChunkLeaves(w: World, e: Event, t: Race)
    requires RowRaces(w.db, t) && e.ChunkCall?
    ensures Left(w.db, Step(w, e).db, t.id)
  {
  }

  lemma DeleteLeaves(w: World, e: Event, t: Race)
    requires RowRaces(w.db, t) && Inv(w) && Spares(w, e, t) && (e.Release? || e.Delete?)
    ensures Left(w.db, Step(w, e).db, t.id)
  {
  }

  lemma PassLeaves(w: World, e: Event, t: Race)
    requires RowRaces(w.db, t) && Spares(w, e, t) && e.ExpirePass?
    ensures Left(w.db, Step(w, e).db, t.id)
  {
  }

  lemma OtherRaces(db: Db, after: Db, c: Closer, t: Race)
    requires CloserRaces(db, c, t) && (IsReceiving(after, t.id) ==> IsReceiving(db, t.id))
    ensures CloserRaces(after, c, t)
  {
  }

  /** A close's own step of this upload. */
  lemma OwnRaces(db: Db, c: Closer, storedAs: string, replaced: set<Id>, now: int, t: Race)
    requires c.id == t.id && t.id !in replaced && RowRaces(db, t) && CloserRaces(db, c, t)
    requires RowKept(db, t.id, db.rows[t.id]) && (c.HasBytes? ==> SameUpload(db.rows[t.id], c.row))
    requires (c.LostRace? ==> c.otherwise.Refused?) && (t.id in db.chunks ==> IsReceiving(db, t.id))
    ensures var (after, next) := StepCloser(db, c, storedAs, replaced, now);
            RowRaces(after, t) && CloserRaces(after, next, t) && (IsReceiving(after, t.id) ==> IsReceiving(db, t.id))
  {
  }

  lemma OtherCloserLeaves(w: World, e: Event, t: Race)
    requires RowRaces(w.db, t) && Spares(w, e, t) && e.CloserStep? && Possible(w, e) && w.closers[e.closer].id != t.id
    ensures Left(w.db, Step(w, e).db, t.id)
  {
  }

  lemma CloserRacesOn(w: World, e: Event, t: Race)
    requires Racing(w, t) && Spares(w, e, t) && e.CloserStep? && Possible(w, e)
    ensures Racing(Step(w, e), t)
  {
    var c, after := w.closers[e.closer], Step(w, e);
    StepKeepsInv(w, e);
    assert CloserRaces(w.db, c, t) && CloserKept(w.db, w.issued, c);
    assert RowKept(w.db, t.id, w.db.rows[t.id]);
    if c.id == t.id {
      OwnRaces(w.db, c, e.storedAs, e.replaced, e.now, t);
    } else {
      OtherCloserLeaves(w, e, t);
      LeftRaces(w.db, after.db, t);
    }
    assert IsReceiving(after.db, t.id) ==> IsReceiving(w.db, t.id);
    forall k | k in after.closers ensures CloserRaces(after.db, after.closers[k], t) {
      if k != e.closer { OtherRaces(w.db, after.db, w.closers[k], t); }
    }
  }

  lemma OthersRaceOn(w: World, e: Event, t: Race)
    requires Racing(w, t) && Spares(w, e, t) && !e.CloserStep?
    ensures Racing(Step(w, e), t)
  {
    var after := Step(w, e);
    StepKeepsInv(w, e);
    assert RowKept(w.db, t.id, w.db.rows[t.id]);
    if after.db != w.db {
      match e {
        case OpenCall(_, _, _, _, _) => OpenLeaves(w, e, t);
        case ChunkCall(_, _, _, _) => ChunkLeaves(w, e, t);
        case ExpirePass(_) => PassLeaves(w, e, t);
        case _ => DeleteLeaves(w, e, t);
      }
    }
    LeftRaces(w.db, after.db, t);
    forall k | k in after.closers ensures CloserRaces(after.db, after.closers[k], t) {
      if k in w.closers { OtherRaces(w.db, after.db, w.closers[k], t); }
    }
  }

  lemma {:induction false} RunRacesOn(w: World, events: seq<Event>, t: Race)
    requires Racing(w, t) && AllSpare(w, events, t)
    ensures Racing(Run(w, events), t)
    decreases |events|
  {
    if events != [] {
      if events[0].CloserStep? && Possible(w, events[0]) {
        CloserRacesOn(w, events[0], t);
      } else if !events[0].CloserStep? {
        OthersRaceOn(w, events[0], t);
      }
      RunRacesOn(Step(w, events[0]), events[1..], t);
    }
  }

  /**
   * Once every byte is in, all its board's closes with one CRC give the same answer and name,
   * however their steps, other uploads', resent chunks and daily passes are interleaved, until
   * somebody deletes the upload, a close has another CRC, or it is so old that a pass takes it. A
   * staging file may be handed on, and deleted, as soon as it is stored.
   */
  lemma SameAnswer(w: World, events: seq<Event>, t: Race, k: nat)
    requires Inv(w) && IsReceiving(w.db, t.id) && RowRaces(w.db, t)
    requires forall j :: j in w.closers ==> w.closers[j].id != t.id
    requires AllSpare(w, events, t)
    requires k in Run(w, events).closers && Run(w, events).closers[k].Done?
    requires Run(w, events).closers[k].id == t.id && Run(w, events).closers[k].device == t.device
    ensures Run(w, events).closers[k].answer == Verdict(t)
  {
    RunRacesOn(w, events, t);
  }

  // ---- At most one close settles ----

  /** A close's guarded update finds the row receiving. */
  predicate Settles(w: World, e: Event, id: Id) {
    && e.CloserStep? && Possible(w, e) && w.closers[e.closer].HasBytes? && w.closers[e.closer].id == id
    && IsReceiving(w.db, id)
  }

  ghost function Settlings(w: World, events: seq<Event>, id: Id): nat
    decreases |events|
  {
    if events == [] then 0
    else (if Settles(w, events[0], id) then 1 else 0) + Settlings(Step(w, events[0]), events[1..], id)
  }

  lemma SettledForGood(w: World, e: Event, id: Id)
    requires Inv(w) && Settles(w, e, id)
    ensures !IsReceiving(Step(w, e).db, id) && id in Step(w, e).issued
  {
  }

  lemma {:induction false} NothingLeftToSettle(w: World, events: seq<Event>, id: Id)
    requires Inv(w) && id in w.issued && !IsReceiving(w.db, id)
    ensures Settlings(w, events, id) == 0
    decreases |events|
  {
    if events != [] {
      StepKeepsInv(w, events[0]);
      NeverFalls(w, events[0], id);
      NothingLeftToSettle(Step(w, events[0]), events[1..], id);
    }
  }

  /** In every run, deletes, other CRCs and all: one close at most decides what becomes of an upload. */
  lemma {:induction false} AtMostOneSettles(w: World, events: seq<Event>, id: Id)
    requires Inv(w)
    ensures Settlings(w, events, id) <= 1
    decreases |events|
  {
    if events != [] {
      StepKeepsInv(w, events[0]);
      if Settles(w, events[0], id) {
        SettledForGood(w, events[0], id);
        NothingLeftToSettle(Step(w, events[0]), events[1..], id);
      } else {
        AtMostOneSettles(Step(w, events[0]), events[1..], id);
      }
    }
  }

  // ---- No ok without a stored file ----

  /** The upload is stored, under this CRC, and the board sent it under this name. */
  predicate StoredNow(w: World, id: Id, crc: nat, name: string) {
    && id in w.db.rows && w.db.rows[id].status == Stored
    && w.db.rows[id].crc == Some(crc) && NameOf(w.db.rows[id]) == name
  }

  /** It was so at some moment of the run. */
  ghost predicate StoredSometime(w: World, events: seq<Event>, id: Id, crc: nat, name: string)
    decreases |events|
  {
    StoredNow(w, id, crc, name)
    || (events != [] && StoredSometime(Step(w, events[0]), events[1..], id, crc, name))
  }

  /** A staging file handed on since: its row still says it was stored. */
  predicate HandedOn(w: World, id: Id, crc: nat, name: string) {
    id in w.db.rows && KeepsName(w.db.rows[id], name) && w.db.rows[id].crc == Some(crc)
  }

  lemma HandedOnWasStored(w: World, e: Event, id: Id, crc: nat, name: string)
    requires Inv(w) && HandedOn(Step(w, e), id, crc, name)
    ensures HandedOn(w, id, crc, name) || StoredNow(w, id, crc, name)
  {
    if id in w.db.rows { assert RowKept(w.db, id, w.db.rows[id]); }
  }

  /** A close that answers ok does so in the step that stores the file, or because the row says it was. */
  lemma OkNow(w: World, e: Event, k: nat)
    requires Inv(w) && k in Step(w, e).closers && Step(w, e).closers[k].Done? && Step(w, e).closers[k].answer.Named?
    ensures var c := Step(w, e).closers[k];
            || (k in w.closers && w.closers[k] == c)
            || StoredNow(w, c.id, c.crc, c.answer.name) || HandedOn(w, c.id, c.crc, c.answer.name)
            || StoredNow(Step(w, e), c.id, c.crc, c.answer.name)
  {
    if e.CloserStep? && e.closer == k && Possible(w, e) {
      var c := w.closers[k];
      assert CloserKept(w.db, w.issued, c);
      if c.id in w.db.rows { assert RowKept(w.db, c.id, w.db.rows[c.id]); }
      if c.HasBytes? { assert StoredNow(Step(w, e), c.id, c.crc, c.row.path); }
    }
  }

  lemma {:induction false} OkFromHere(w: World, events: seq<Event>, k: nat)
    requires Inv(w) && k in Run(w, events).closers
    requires Run(w, events).closers[k].Done? && Run(w, events).closers[k].answer.Named?
    ensures var c := Run(w, events).closers[k];
            || (k in w.closers && w.closers[k] == c)
            || HandedOn(w, c.id, c.crc, c.answer.name)
            || StoredSometime(w, events, c.id, c.crc, c.answer.name)
    decreases |events|
  {
    if events != [] {
      var w1, c := Step(w, events[0]), Run(w, events).closers[k];
      StepKeepsInv(w, events[0]);
      OkFromHere(w1, events[1..], k);
      assert StoredNow(w1, c.id, c.crc, c.answer.name) ==> StoredSometime(w1, events[1..], c.id, c.crc, c.answer.name);
      if HandedOn(w1, c.id, c.crc, c.answer.name) {
        HandedOnWasStored(w, events[0], c.id, c.crc, c.answer.name);
      } else if k in w1.closers && w1.closers[k] == c {
        OkNow(w, events[0], k);
      }
    }
  }

  /**
   * In every run, with deletes wherever they like: a close that answered ok, with a name, is of a
   * file that was stored under the CRC it sent and that name.
   */
  lemma OkMeansStored(events: seq<Event>, k: nat)
    requires var w := Run(EMPTY, events); k in w.closers && w.closers[k].Done? && w.closers[k].answer.Named?
    ensures var c := Run(EMPTY, events).closers[k]; StoredSometime(EMPTY, events, c.id, c.crc, c.answer.name)
  {
    OkFromHere(EMPTY, events, k);
  }
}
