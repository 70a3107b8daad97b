/**
 * The set operations (addDisksToSet, reorderSet, moveDiskOut and undoMove in
 * src/lib/disk-set-store.ts), and what each leaves of a library nobody else is changing.
 *
 * Lists the code reads from the database come in as they were read, in any order.
 */
module DiskSetOps {
  import opened Bytes
  import opened DiskSet
  import opened DiskSetLibrary
  import opened DiskSetUnchanged

  /** requireGame finds the title. */
  predicate TitleThere(lib: Lib, org: Id, game: Id) {
    game in lib.games && lib.games[game].org == org && lib.games[game].local
  }

  predicate LocalDisk(lib: Lib, org: Id, d: Id) {
    d in lib.disks && lib.disks[d].org == org && lib.disks[d].local
  }

  function Row(lib: Lib, d: Id): SetDisk
    requires d in lib.disks
  {
    SetDisk(d, lib.disks[d].at.game, lib.disks[d].at.no)
  }

  function Rows(lib: Lib, ids: seq<Id>): (s: seq<SetDisk>)
    requires forall d :: d in ids ==> d in lib.disks
    ensures |s| == |ids| && forall i :: 0 <= i < |ids| ==> s[i] == Row(lib, ids[i])
  {
    seq(|ids|, i requires 0 <= i < |ids| => Row(lib, ids[i]))
  }

  /** [...new Set(ids)]. */
  function Dedupe(ids: seq<Id>): seq<Id> {
    if ids == [] then []
    else
      var before := Dedupe(ids[..|ids| - 1]);
      if ids[|ids| - 1] in before then before else before + [ids[|ids| - 1]]
  }

  function Done(l: Option<Lib>): Result<Lib> {
    if l.Some? then Ok(l.value) else Err(Aborted)
  }

  // ---- Reorder ----

  function Reorder(lib: Lib, org: Id, game: Id, ids: seq<Id>, disks: seq<SetDisk>, devs: seq<DeviceRef>): Result<Lib> {
    if !TitleThere(lib, org, game) then Err(NotFound)
    else match PlanReorder(game, disks, ids, devs)
      case Err(e) => Err(e)
      case Ok(plan) => Done(Batch(lib, org, None, plan, devs, []))
  }

  /** These disks, in this order, at the numbers after `start`. */
  function Seat(s: seq<SetDisk>, game: Id, start: int): (r: seq<SetDisk>)
    ensures |r| == |s| && forall i :: 0 <= i < |s| ==> r[i] == SetDisk(s[i].id, game, start + i + 1)
  {
    seq(|s|, i requires 0 <= i < |s| => SetDisk(s[i].id, game, start + i + 1))
  }

  /** A disk that no move names is where it was, and one that a move names is where it says. */
  lemma MovedPlaces(lib: Lib, org: Id, rs: seq<Renumber>)
    requires AllLand(lib, org, rs)
    ensures forall i :: 0 <= i < |rs| ==> Moved(lib, rs).disks[rs[i].disk].at == rs[i].to
    ensures forall d :: d in lib.disks && (forall i :: 0 <= i < |rs| ==> rs[i].disk != d) ==>
              Moved(lib, rs).disks[d] == lib.disks[d]
    ensures forall d :: d in lib.disks ==>
              Moved(lib, rs).disks[d].org == lib.disks[d].org && Moved(lib, rs).disks[d].local == lib.disks[d].local
  {
    forall i | 0 <= i < |rs| ensures NewPlace(rs, rs[i].disk) == Some(rs[i].to) { NewPlaceIs(rs, i); }
    forall d | forall i :: 0 <= i < |rs| ==> rs[i].disk != d ensures NewPlace(rs, d) == None { NoNewPlace(rs, d); }
  }

  /** A title all of whose disks are numbered anew. */
  lemma RenumberedOrder(lib: Lib, org: Id, game: Id, s: seq<SetDisk>, rs: seq<Renumber>, k: nat)
    requires Lists(lib, org, game, s) && AllLand(lib, org, rs)
    requires k + |s| <= |rs| && rs[k..k + |s|] == Number(s, game, 0)
    requires forall i :: 0 <= i < |rs| && !(k <= i < k + |s|) ==> rs[i].to.game != game
    ensures IsOrder(Moved(lib, rs), org, game, Seat(s, game, 0))
  {
    var l, r := Moved(lib, rs), Seat(s, game, 0);
    MovedPlaces(lib, org, rs);
    forall i | 0 <= i < |s|
      ensures rs[k + i] == Renumber(s[i].id, Place(game, i + 1), s[i].game) && Listed(l, org, game, r[i])
    {
      assert rs[k + i] == rs[k..k + |s|][i] == Number(s, game, 0)[i];
      assert s[i] in s;
    }
    forall x: SetDisk | Listed(l, org, game, x) ensures x in r {
      SomeMove(lib, org, game, s, rs, k, x);
      var j :| 0 <= j < |rs| && rs[j].disk == x.id;
      assert rs[j].to == Place(game, x.no);
      assert rs[k + (j - k)] == Renumber(s[j - k].id, Place(game, j - k + 1), s[j - k].game);
      assert r[j - k] == x;
    }
  }

  lemma SomeMove(lib: Lib, org: Id, game: Id, s: seq<SetDisk>, rs: seq<Renumber>, k: nat, x: SetDisk)
    requires Lists(lib, org, game, s) && AllLand(lib, org, rs) && k + |s| <= |rs|
    requires forall i :: 0 <= i < |s| ==> rs[k + i].disk == s[i].id
    requires Listed(Moved(lib, rs), org, game, x)
    ensures exists j :: 0 <= j < |rs| && rs[j].disk == x.id
  {
    MovedPlaces(lib, org, rs);
    if x in s {
      var i :| 0 <= i < |s| && s[i] == x;
      assert rs[k + i].disk == x.id;
    }
  }

  lemma NumberLands(lib: Lib, org: Id, game: Id, s: seq<SetDisk>, to: Id, start: int)
    requires Distinct(s) && to in lib.games && forall x: SetDisk :: x in s ==> Listed(lib, org, x.game, x)
    ensures AllLand(lib, org, Number(s, to, start))
  {
  }

  lemma OrderedListing(lib: Lib, org: Id, game: Id, disks: seq<SetDisk>, ids: seq<Id>)
    requires Lists(lib, org, game, disks) && Orders(ids, disks)
    ensures Lists(lib, org, game, InOrder(disks, ids))
  {
    var s := InOrder(disks, ids);
    forall x: SetDisk | x in disks ensures x in s { AllPlaced(disks, s, x); }
  }

  /** As many distinct disks of the list as it has are all of them. */
  lemma {:induction false} AllPlaced(disks: seq<SetDisk>, s: seq<SetDisk>, x: SetDisk)
    requires Distinct(disks) && Distinct(s) && |s| == |disks| && (forall y :: y in s ==> y in disks) && x in disks
    ensures x in s
  {
    var have := set y | y in disks;
    var placed := set y | y in s;
    DistinctCount(disks);
    DistinctCount(s);
    if x !in s {
      assert placed <= have - {x};
      Smaller(placed, have - {x});
    }
  }

  lemma {:induction false} DistinctCount(s: seq<SetDisk>)
    requires Distinct(s)
    ensures |set y | y in s| == |s|
  {
    if s != [] {
      var front, last := s[..|s| - 1], s[|s| - 1];
      DistinctCount(front);
      assert s == front + [last];
      assert (set y | y in s) == (set y | y in front) + {last};
    }
  }

  lemma {:induction false} Smaller<T>(a: set<T>, b: set<T>)
    requires a <= b
    ensures |a| <= |b|
  {
    if a != {} {
      var x :| x in a;
      Smaller(a - {x}, b - {x});
    }
  }

  /** What every operation keeps: no disk lost, boards told right, and titles it is not about as they were. */
  ghost predicate Keeps(lib: Lib, l: Lib, org: Id, about: set<Id>) {
    && l.disks.Keys == lib.disks.Keys && Keyed(l) && BoardsRight(l) && l.devices.Keys == lib.devices.Keys
    && (forall v :: v in lib.devices ==> WrittenTrue(lib.devices[v], l.devices[v], l.disks))
    && (forall d :: d in lib.disks ==> l.disks[d].org == lib.disks[d].org && l.disks[d].local == lib.disks[d].local)
    && (forall d :: d in lib.disks && lib.disks[d].at.game !in about ==> l.disks[d] == lib.disks[d])
    && (forall d :: d in lib.disks && l.disks[d] != lib.disks[d] ==> l.disks[d].at.game in about)
    && (forall g :: g in lib.games && g !in about ==> g in l.games && l.games[g] == lib.games[g])
  }

  /** The moves made and the boards written, the deletes keep all that is right. */
  lemma MovedKeeps(lib: Lib, org: Id, l0: Lib, rs: seq<Renumber>, l1: Lib, emptied: seq<Id>, about: set<Id>)
    requires Keyed(lib) && l0.disks == lib.disks && l0.devices == lib.devices
    requires forall g :: g in lib.games ==> g in l0.games && l0.games[g] == lib.games[g]
    requires AllLand(l0, org, rs) && l1 == Moved(l0, rs).(devices := l1.devices) && Keyed(l1)
    requires l1.devices.Keys == lib.devices.Keys && BoardsRight(l1)
    requires forall v :: v in lib.devices ==> WrittenTrue(lib.devices[v], l1.devices[v], l1.disks)
    requires forall i :: 0 <= i < |rs| ==> rs[i].from in about && rs[i].to.game in about
    requires forall g :: g in emptied ==> g in about
    ensures var l := DeleteEmptied(l1, org, emptied); l.disks == Moved(l0, rs).disks && Keeps(lib, l, org, about)
  {
    MovedPlaces(l0, org, rs);
    EmptiedHoldNothing(l1, org, emptied);
    OnlyMovesChange(lib, l0, org, rs, DeleteEmptied(l1, org, emptied), about);
  }

  /** Which titles go depends on the titles and the disks alone. */
  lemma GamesLeft(l1: Lib, games: map<Id, Game>, org: Id, emptied: seq<Id>)
    requires Keyed(l1) && l1.games == games
    ensures var l := DeleteEmptied(l1, org, emptied);
            l.games == DeleteEmptied(l.(games := games), org, emptied).games
  {
    EmptiedHoldNothing(l1, org, emptied);
  }

  lemma PlannedBatch(lib: Lib, org: Id, insert: Option<Id>, plan: Plan, first: seq<Renumber>, second: seq<Renumber>,
                     devs: seq<DeviceRef>)
    requires Keyed(lib) && BoardsRight(lib) && ListsDevices(lib, org, devs)
    requires insert.Some? ==> insert.value !in lib.games
    requires AllLand(WithTitle(lib, org, insert), org, plan.renumber) && Merges(plan, first, second, devs)
    ensures var l0 := WithTitle(lib, org, insert);
            var l1 := ApplyPlan(l0, org, plan, devs);
            && l1.Some? && l1.value == Moved(l0, plan.renumber).(devices := l1.value.devices) && Keyed(l1.value)
            && l1.value.devices.Keys == lib.devices.Keys && BoardsRight(l1.value)
            && forall v :: v in lib.devices ==> WrittenTrue(lib.devices[v], l1.value.devices[v], l1.value.disks)
  {
    var l0 := WithTitle(lib, org, insert);
    PlanLands(l0, org, plan, first, second, devs);
    MovedPlaces(l0, org, plan.renumber);
  }

  /** A batch whose plan all lands. */
  lemma BatchLands(lib: Lib, org: Id, insert: Option<Id>, plan: Plan, first: seq<Renumber>, second: seq<Renumber>,
                   devs: seq<DeviceRef>, emptied: seq<Id>, about: set<Id>)
    requires Keyed(lib) && BoardsRight(lib) && ListsDevices(lib, org, devs)
    requires insert.Some? ==> insert.value !in lib.games && insert.value in about
    requires AllLand(WithTitle(lib, org, insert), org, plan.renumber)
    requires Merges(plan, first, second, devs)
    requires forall i :: 0 <= i < |plan.renumber| ==>
               plan.renumber[i].from in about && plan.renumber[i].to.game in about
    requires forall g :: g in emptied ==> g in about
    ensures Batch(lib, org, insert, plan, devs, emptied).Some?
    ensures var l := Batch(lib, org, insert, plan, devs, emptied).value;
            && l.disks == Moved(lib, plan.renumber).disks && Keeps(lib, l, org, about)
            && l.games == DeleteEmptied(l.(games := WithTitle(lib, org, insert).games), org, emptied).games
  {
    var l0, rs := WithTitle(lib, org, insert), plan.renumber;
    PlannedBatch(lib, org, insert, plan, first, second, devs);
    var l1 := ApplyPlan(l0, org, plan, devs).value;
    assert Moved(l0, rs).disks == Moved(lib, rs).disks;
    MovedKeeps(lib, org, l0, rs, l1, emptied, about);
    GamesLeft(l1, l0.games, org, emptied);
  }

  lemma OnlyMovesChange(lib: Lib, l0: Lib, org: Id, rs: seq<Renumber>, l: Lib, about: set<Id>)
    requires l0.disks == lib.disks && AllLand(l0, org, rs) && l.disks == Moved(l0, rs).disks
    requires forall i :: 0 <= i < |rs| ==> rs[i].from in about && rs[i].to.game in about
    ensures forall d :: d in lib.disks && lib.disks[d].at.game !in about ==> l.disks[d] == lib.disks[d]
    ensures forall d :: d in lib.disks && l.disks[d] != lib.disks[d] ==> l.disks[d].at.game in about
  {
    MovedPlaces(l0, org, rs);
    forall d | d in lib.disks && lib.disks[d].at.game !in about ensures forall i :: 0 <= i < |rs| ==> rs[i].disk != d {
      forall i | 0 <= i < |rs| ensures rs[i].disk != d { assert Hits(l0, org, rs[i]); }
    }
    forall d | d in lib.disks && l.disks[d] != lib.disks[d] ensures l.disks[d].at.game in about {
      assert exists i :: 0 <= i < |rs| && rs[i].disk == d;
    }
  }

  /** A reorder leaves the title's disks in the order asked for, numbered 1..N. */
  lemma ReorderNumbers(lib: Lib, org: Id, game: Id, ids: seq<Id>, disks: seq<SetDisk>, devs: seq<DeviceRef>)
    requires Keyed(lib) && BoardsRight(lib) && Lists(lib, org, game, disks) && ListsDevices(lib, org, devs)
    requires TitleThere(lib, org, game)
    ensures Reorder(lib, org, game, ids, disks, devs).Ok? <==> Orders(ids, disks)
    ensures Reorder(lib, org, game, ids, disks, devs).Ok? ==>
              var l := Reorder(lib, org, game, ids, disks, devs).value;
              IsOrder(l, org, game, Seat(InOrder(disks, ids), game, 0)) && Keeps(lib, l, org, {game})
  {
    if Orders(ids, disks) {
      var s := InOrder(disks, ids);
      var rs := Number(s, game, 0);
      var plan := Plan(rs, [], DeviceUpdates(rs, devs));
      OrderedListing(lib, org, game, disks, ids);
      NumberLands(lib, org, game, s, game, 0);
      NoUpdates(devs);
      assert Merges(plan, rs, [], devs);
      BatchLands(lib, org, None, plan, rs, [], devs, [], {game});
      assert rs[0..|s|] == rs;
      RenumberedOrder(lib, org, game, s, rs, 0);
    }
  }

  // ---- Move a disk out ----

  function MoveOut(lib: Lib, org: Id, disk: Id, newId: Id, remaining: seq<SetDisk>, devs: seq<DeviceRef>): Result<Lib> {
    if !LocalDisk(lib, org, disk) then Err(NotFound)
    else if remaining == [] then Err(NotInASet)
    else if !TitleThere(lib, org, lib.disks[disk].at.game) then Err(NotFound)
    else
      var plan := PlanMoveOut(Row(lib, disk), newId, remaining, devs);
      Done(Batch(lib, org, Some(newId), plan, devs, plan.emptied))
  }

  /** A title's disks but one. */
  ghost predicate ListsOthers(lib: Lib, org: Id, game: Id, disk: Id, s: seq<SetDisk>) {
    Distinct(s) && forall x: SetDisk :: x in s <==> Listed(lib, org, game, x) && x.id != disk
  }

  /** A title some of whose disks go to a new one, and the rest are numbered anew. */
  lemma SplitOrder(lib: Lib, org: Id, game: Id, out: seq<SetDisk>, rest: seq<SetDisk>, newId: Id)
    requires newId != game && newId in lib.games && game in lib.games && NoDiskLeft(lib, newId)
    requires Distinct(out) && Distinct(rest)
    requires forall x: SetDisk :: x in out || x in rest <==> Listed(lib, org, game, x)
    requires forall x: SetDisk, y: SetDisk :: x in out && y in rest ==> x.id != y.id
    ensures var rs := Number(out, newId, 0) + Number(rest, game, 0);
            && AllLand(lib, org, rs)
            && IsOrder(Moved(lib, rs), org, newId, Seat(out, newId, 0))
            && IsOrder(Moved(lib, rs), org, game, Seat(rest, game, 0))
  {
    var rs, n := Number(out, newId, 0) + Number(rest, game, 0), |out|;
    forall i | 0 <= i < |rs| ensures Hits(lib, org, rs[i]) && rs[i].to.game in lib.games {
      if i < n { assert out[i] in out; } else { assert rest[i - n] in rest; }
    }
    forall i, j | 0 <= i < j < |rs| ensures rs[i].disk != rs[j].disk {
      if i < n <= j { assert out[i] in out && rest[j - n] in rest; }
    }
    MovedPlaces(lib, org, rs);
    var l, a, b := Moved(lib, rs), Seat(out, newId, 0), Seat(rest, game, 0);
    forall i | 0 <= i < |a| ensures Listed(l, org, newId, a[i]) { assert rs[i].disk == a[i].id; }
    forall i | 0 <= i < |b| ensures Listed(l, org, game, b[i]) { assert rs[n + i].disk == b[i].id; }
    forall x: SetDisk | Listed(l, org, newId, x) ensures x in a { SplitListed(lib, org, game, out, rest, newId, x); }
    forall x: SetDisk | Listed(l, org, game, x) ensures x in b { SplitListed(lib, org, game, out, rest, newId, x); }
  }

  lemma SplitListed(lib: Lib, org: Id, game: Id, out: seq<SetDisk>, rest: seq<SetDisk>, newId: Id, x: SetDisk)
    requires newId != game && NoDiskLeft(lib, newId)
    requires forall y: SetDisk :: y in out || y in rest <==> Listed(lib, org, game, y)
    requires var rs := Number(out, newId, 0) + Number(rest, game, 0);
             AllLand(lib, org, rs) && (x.game == newId || x.game == game) && Listed(Moved(lib, rs), org, x.game, x)
    ensures if x.game == newId then x in Seat(out, newId, 0) else x in Seat(rest, game, 0)
  {
    var rs, n := Number(out, newId, 0) + Number(rest, game, 0), |out|;
    MovedPlaces(lib, org, rs);
    SomeSplit(lib, org, game, out, rest, newId, x);
    var i :| 0 <= i < |rs| && rs[i].disk == x.id;
    if i < n {
      assert Seat(out, newId, 0)[i] == x;
    } else {
      assert Seat(rest, game, 0)[i - n] == x;
    }
  }

  lemma SomeSplit(lib: Lib, org: Id, game: Id, out: seq<SetDisk>, rest: seq<SetDisk>, newId: Id, x: SetDisk)
    requires newId != game && NoDiskLeft(lib, newId)
    requires forall y: SetDisk :: y in out || y in rest <==> Listed(lib, org, game, y)
    requires var rs := Number(out, newId, 0) + Number(rest, game, 0);
             AllLand(lib, org, rs) && (x.game == newId || x.game == game) && Listed(Moved(lib, rs), org, x.game, x)
    ensures var rs := Number(out, newId, 0) + Number(rest, game, 0); exists i :: 0 <= i < |rs| && rs[i].disk == x.id
  {
    var rs := Number(out, newId, 0) + Number(rest, game, 0);
    MovedPlaces(lib, org, rs);
    forall y | y in out || y in rest ensures exists i :: 0 <= i < |rs| && rs[i].disk == y.id {
      if y in out {
        var i :| 0 <= i < |out| && out[i] == y;
        assert rs[i].disk == y.id;
      } else {
        var i :| 0 <= i < |rest| && rest[i] == y;
        assert rs[|out| + i].disk == y.id;
      }
    }
    assert (forall i :: 0 <= i < |rs| ==> rs[i].disk != x.id) ==> Listed(lib, org, x.game, x);
  }

  lemma SplitLands(lib: Lib, org: Id, game: Id, out: seq<SetDisk>, rest: seq<SetDisk>, newId: Id,
                   plan: Plan, first: seq<Renumber>, second: seq<Renumber>, devs: seq<DeviceRef>)
    requires Keyed(lib) && BoardsRight(lib) && ListsDevices(lib, org, devs)
    requires newId !in lib.games && game in lib.games
    requires Distinct(out) && Distinct(rest)
    requires forall x: SetDisk :: x in out || x in rest <==> Listed(lib, org, game, x)
    requires forall x: SetDisk, y: SetDisk :: x in out && y in rest ==> x.id != y.id
    requires plan.renumber == Number(out, newId, 0) + Number(rest, game, 0) && Merges(plan, first, second, devs)
    ensures var b := Batch(lib, org, Some(newId), plan, devs, []);
            && b.Some? && Keeps(lib, b.value, org, {game, newId})
            && b.value.games == lib.games[newId := Game(org, true)]
            && IsOrder(b.value, org, newId, Seat(out, newId, 0)) && IsOrder(b.value, org, game, Seat(rest, game, 0))
  {
    var rs := plan.renumber;
    var l0 := lib.(games := lib.games[newId := Game(org, true)]);
    forall x: SetDisk ensures Listed(l0, org, game, x) == Listed(lib, org, game, x) {}
    SplitOrder(l0, org, game, out, rest, newId);
    forall i | 0 <= i < |rs| ensures rs[i].from in {game, newId} && rs[i].to.game in {game, newId} {
      if i < |out| { assert out[i] in out; } else { assert rest[i - |out|] in rest; }
    }
    BatchLands(lib, org, Some(newId), plan, first, second, devs, [], {game, newId});
    assert Moved(l0, rs).disks == Moved(lib, rs).disks;
  }

  /** The disk alone in its new title as disk 1, and the set it left numbered 1..N in its order. */
  lemma MoveOutNumbers(lib: Lib, org: Id, disk: Id, newId: Id, remaining: seq<SetDisk>, devs: seq<DeviceRef>)
    requires Keyed(lib) && BoardsRight(lib) && ListsDevices(lib, org, devs) && newId !in lib.games
    requires LocalDisk(lib, org, disk) && ListsOthers(lib, org, lib.disks[disk].at.game, disk, remaining)
    requires TitleThere(lib, org, lib.disks[disk].at.game)
    ensures MoveOut(lib, org, disk, newId, remaining, devs).Ok? <==> remaining != []
    ensures remaining != [] ==>
              var l, game := MoveOut(lib, org, disk, newId, remaining, devs).value, lib.disks[disk].at.game;
              && IsOrder(l, org, newId, [SetDisk(disk, newId, 1)])
              && IsOrder(l, org, game, Seat(SortByNo(remaining), game, 0))
              && Keeps(lib, l, org, {game, newId})
  {
    if remaining != [] { MoveOutLands(lib, org, disk, newId, remaining, devs); }
  }

  lemma MoveOutLands(lib: Lib, org: Id, disk: Id, newId: Id, remaining: seq<SetDisk>, devs: seq<DeviceRef>)
    requires Keyed(lib) && BoardsRight(lib) && ListsDevices(lib, org, devs) && newId !in lib.games && remaining != []
    requires LocalDisk(lib, org, disk) && ListsOthers(lib, org, lib.disks[disk].at.game, disk, remaining)
    requires TitleThere(lib, org, lib.disks[disk].at.game)
    ensures var plan, game := PlanMoveOut(Row(lib, disk), newId, remaining, devs), lib.disks[disk].at.game;
            var b := Batch(lib, org, Some(newId), plan, devs, plan.emptied);
            && b.Some? && IsOrder(b.value, org, newId, [SetDisk(disk, newId, 1)])
            && IsOrder(b.value, org, game, Seat(SortByNo(remaining), game, 0))
            && Keeps(lib, b.value, org, {game, newId})
  {
    var x := Row(lib, disk);
    SortSorts(remaining);
    var plan := PlanMoveOut(x, newId, remaining, devs);
    NoUpdates(devs);
    assert Merges(plan, plan.renumber, [], devs);
    SplitLands(lib, org, x.game, [x], SortByNo(remaining), newId, plan, plan.renumber, [], devs);
    assert Seat([x], newId, 0) == [SetDisk(disk, newId, 1)];
  }
}
