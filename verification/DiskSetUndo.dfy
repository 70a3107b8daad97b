/**
 * Adding titles to a set and undoing it (addDisksToSet and undoMove in src/lib/disk-set-store.ts):
 * the grouping of disks comes back, in whatever order the snapshots are undone.
 *
 * The set keeps what it had, in its order, and each restored title has its own disks, numbered
 * from one.
 */
module DiskSetUndo {
  import opened Bytes
  import opened DiskSet
  import opened DiskSetLibrary
  import opened DiskSetUnchanged
  import opened DiskSetOps

  // ---- Undo ----

  function WithoutIds(s: seq<SetDisk>, ids: seq<Id>): seq<SetDisk> {
    if s == [] then []
    else WithoutIds(s[..|s| - 1], ids) + if s[|s| - 1].id in ids then [] else [s[|s| - 1]]
  }

  /** What undoMove plans, with the disks of the title they sit in as read; `snap` is the snapshot's disks. */
  function UndoPlan(lib: Lib, org: Id, snap: seq<Id>, newId: Id, left: seq<SetDisk>,
          devs: seq<DeviceRef>): Result<Plan> {
    if snap == [] || |Dedupe(snap)| != |snap| then Err(NotFound)
    else if exists d :: d in snap && !LocalDisk(lib, org, d) then Err(NotFound)
    else
      var moving := Rows(lib, snap);
      var game := moving[0].game;
      if |Titles(moving)| != 1 then Err(StaleUndo)
      else if game !in lib.games || lib.games[game].org != org then Err(NotFound)
      else
        var rest := SortByNo(WithoutIds(left, snap));
        if rest == [] then Err(StaleUndo)
        else
          var first, second := Number(moving, newId, 0), Number(rest, game, 0);
          Ok(Plan(first + second, [], DeviceUpdates(first, devs) + DeviceUpdates(second, devs)))
  }

  function Undo(lib: Lib, org: Id, snap: seq<Id>, newId: Id, left: seq<SetDisk>, devs: seq<DeviceRef>): Result<Lib> {
    match UndoPlan(lib, org, snap, newId, left, devs)
    case Err(e) => Err(e)
    case Ok(plan) => Done(Batch(lib, org, Some(newId), plan, devs, []))
  }

  // ---- Sets as lists of ids in disk order ----

  /** The title's disks, in order, are these. */
  ghost predicate HoldsInOrder(lib: Lib, org: Id, game: Id, ids: seq<Id>) {
    (forall d :: d in ids ==> d in lib.disks) && IsOrder(lib, org, game, Rows(lib, ids))
  }

  function Numbered(ids: seq<Id>, game: Id): (s: seq<SetDisk>)
    ensures |s| == |ids| && forall i :: 0 <= i < |ids| ==> s[i] == SetDisk(ids[i], game, i + 1)
  {
    seq(|ids|, i requires 0 <= i < |ids| => SetDisk(ids[i], game, i + 1))
  }

  /** The title's disks are these, numbered 1..k. */
  ghost predicate Restored(lib: Lib, org: Id, game: Id, ids: seq<Id>) {
    IsOrder(lib, org, game, Numbered(ids, game))
  }

  lemma RestoredHolds(lib: Lib, org: Id, game: Id, ids: seq<Id>)
    requires Restored(lib, org, game, ids)
    ensures HoldsInOrder(lib, org, game, ids)
  {
    forall i | 0 <= i < |ids| ensures ids[i] in lib.disks && Row(lib, ids[i]) == Numbered(ids, game)[i] {
      assert Numbered(ids, game)[i] in Numbered(ids, game);
    }
    assert Rows(lib, ids) == Numbered(ids, game);
  }

  /** What an operation is not about stays as it was. */
  lemma KeepsOrder(lib: Lib, l: Lib, org: Id, about: set<Id>, game: Id, s: seq<SetDisk>)
    requires Keeps(lib, l, org, about) && game !in about && IsOrder(lib, org, game, s)
    ensures IsOrder(l, org, game, s)
  {
    forall x: SetDisk ensures Listed(l, org, game, x) <==> Listed(lib, org, game, x) {}
  }

  /** What an undo asks of its snapshot: every disk of it is still this organisation's, and local. */
  ghost predicate AllLocal(lib: Lib, org: Id, ids: seq<Id>) {
    forall d :: d in ids ==> LocalDisk(lib, org, d)
  }

  ghost predicate NoneTwice(ids: seq<Id>) {
    forall i, j :: 0 <= i < j < |ids| ==> ids[i] != ids[j]
  }

  lemma HeldOnce(lib: Lib, org: Id, game: Id, ids: seq<Id>)
    requires HoldsInOrder(lib, org, game, ids)
    ensures NoneTwice(ids)
  {
    var s := Rows(lib, ids);
    forall i, j | 0 <= i < j < |ids| ensures ids[i] != ids[j] { assert Less(s[i], s[j]); }
  }

  lemma SomeOnce(a: seq<Id>, ids: seq<Id>, b: seq<Id>)
    requires NoneTwice(a + ids + b)
    ensures NoneTwice(ids)
  {
    var all := a + ids + b;
    forall i, j | 0 <= i < j < |ids| ensures ids[i] != ids[j] {
      assert all[|a| + i] == ids[i] && all[|a| + j] == ids[j];
    }
  }

  lemma {:induction false} NothingTwice(ids: seq<Id>)
    requires NoneTwice(ids)
    ensures Dedupe(ids) == ids
  {
    if ids != [] { NothingTwice(ids[..|ids| - 1]); }
  }

  lemma {:induction false} OneTitle(s: seq<SetDisk>, game: Id)
    requires s != [] && forall x :: x in s ==> x.game == game
    ensures Titles(s) == [game]
  {
    var front := s[..|s| - 1];
    assert s[|s| - 1] in s;
    if front != [] { OneTitle(front, game); }
  }

  lemma {:induction false} DedupeIsDistinct(ids: seq<Id>)
    ensures forall i, j :: 0 <= i < j < |Dedupe(ids)| ==> Dedupe(ids)[i] != Dedupe(ids)[j]
  {
    if ids != [] { DedupeIsDistinct(ids[..|ids| - 1]); }
  }

  lemma {:induction false} TitlesHas(s: seq<SetDisk>)
    ensures forall g: Id :: g in Titles(s) <==> exists x :: x in s && x.game == g
    ensures forall i, j :: 0 <= i < j < |Titles(s)| ==> Titles(s)[i] != Titles(s)[j]
  {
    if s != [] {
      var front, last := s[..|s| - 1], s[|s| - 1];
      TitlesHas(front);
      assert s == front + [last];
      forall g: Id ensures g in Titles(s) <==> exists x :: x in s && x.game == g {
        if g == last.game { assert last in s; }
        if x :| x in front && x.game == g { assert x in s; }
      }
    }
  }

  lemma {:induction false} WithoutHas(s: seq<SetDisk>, ids: seq<Id>)
    requires Distinct(s)
    ensures Distinct(WithoutIds(s, ids)) && forall x: SetDisk :: x in WithoutIds(s, ids) <==> x in s && x.id !in ids
  {
    if s != [] {
      var front, last := s[..|s| - 1], s[|s| - 1];
      WithoutHas(front, ids);
      assert s == front + [last];
      forall i | 0 <= i < |WithoutIds(front, ids)| ensures WithoutIds(front, ids)[i].id != last.id {
        assert WithoutIds(front, ids)[i] in front;
      }
    }
  }

  /** What is left, one by one. */
  lemma LeftAt(lib: Lib, a: seq<Id>, snap: seq<Id>, b: seq<Id>)
    requires (forall d :: d in a + snap + b ==> d in lib.disks) && NoneTwice(a + snap + b)
    requires (forall d :: d in snap ==> d in lib.disks) && (forall d :: d in a + b ==> d in lib.disks)
    ensures forall i :: 0 <= i < |a + b| ==>
              Rows(lib, a + b)[i] == Rows(lib, a + snap + b)[Back(|a|, |snap|, i)] && (a + b)[i] !in snap
    ensures forall i :: 0 <= i < |snap| ==> Rows(lib, snap)[i] == Rows(lib, a + snap + b)[|a| + i]
  {
    var ids := a + snap + b;
    forall i | 0 <= i < |a + b| ensures ids[Back(|a|, |snap|, i)] == (a + b)[i] && (a + b)[i] !in snap {
      var k := Back(|a|, |snap|, i);
      assert ids[k] == (a + b)[i];
      forall j | 0 <= j < |snap| ensures snap[j] != ids[k] { assert ids[|a| + j] == snap[j]; }
    }
    forall i | 0 <= i < |snap| ensures ids[|a| + i] == snap[i] {}
  }

  /** The rest of a set, in order, is the set without what is taken out of its middle. */
  lemma RestInOrder(lib: Lib, org: Id, game: Id, a: seq<Id>, snap: seq<Id>, b: seq<Id>)
    requires HoldsInOrder(lib, org, game, a + snap + b) && NoneTwice(a + snap + b)
    ensures (forall d :: d in snap ==> d in lib.disks) && (forall d :: d in a + b ==> d in lib.disks)
    ensures Sorted(Rows(lib, a + b)) && Distinct(Rows(lib, snap)) && Distinct(Rows(lib, a + b))
    ensures forall x: SetDisk :: x in Rows(lib, a + b) <==> Listed(lib, org, game, x) && x.id !in snap
    ensures forall x: SetDisk :: x in Rows(lib, snap) <==> Listed(lib, org, game, x) && x.id in snap
  {
    var ids := a + snap + b;
    var s := Rows(lib, ids);
    forall d | d in a + b || d in snap ensures d in lib.disks { assert d in ids; }
    LeftAt(lib, a, snap, b);
    forall i | 0 <= i < |snap| ensures Listed(lib, org, game, Rows(lib, snap)[i]) { assert s[|a| + i] in s; }
    forall i | 0 <= i < |a + b| ensures Listed(lib, org, game, Rows(lib, a + b)[i]) {
      assert s[Back(|a|, |snap|, i)] in s;
    }
    forall x: SetDisk | Listed(lib, org, game, x)
      ensures if x.id in snap then x in Rows(lib, snap) else x in Rows(lib, a + b)
    {
      assert x in s;
      Somewhere(lib, a, snap, b, x);
    }
  }

  /** Where the i-th of what is left was before. */
  function Back(before: nat, taken: nat, i: nat): nat {
    if i < before then i else i + taken
  }

  lemma Somewhere(lib: Lib, a: seq<Id>, snap: seq<Id>, b: seq<Id>, x: SetDisk)
    requires (forall d :: d in a + snap + b ==> d in lib.disks) && x in Rows(lib, a + snap + b)
    requires (forall d :: d in snap ==> d in lib.disks) && (forall d :: d in a + b ==> d in lib.disks)
    ensures if x.id in snap then x in Rows(lib, snap) else x in Rows(lib, a + b)
  {
    var ids := a + snap + b;
    var k :| 0 <= k < |ids| && Rows(lib, ids)[k] == x;
    if k < |a| {
      assert Rows(lib, a + b)[k] == x;
    } else if k < |a| + |snap| {
      assert Rows(lib, snap)[k - |a|] == x && snap[k - |a|] == x.id;
    } else {
      assert Rows(lib, a + b)[k - |snap|] == x;
    }
    if x.id in snap {
      var j :| 0 <= j < |snap| && snap[j] == x.id;
      assert Rows(lib, snap)[j] == x;
    }
  }

  /** What such an undo plans: the snapshot in its order, and the rest of the set in its. */
  lemma UndoPlanned(lib: Lib, org: Id, game: Id, a: seq<Id>, snap: seq<Id>, b: seq<Id>, newId: Id, left: seq<SetDisk>,
          devs: seq<DeviceRef>)
    requires game in lib.games && lib.games[game].org == org && HoldsInOrder(lib, org, game, a + snap + b)
    requires AllLocal(lib, org, snap) && snap != [] && a + b != [] && Lists(lib, org, game, left)
    ensures (forall d :: d in snap ==> d in lib.disks) && (forall d :: d in a + b ==> d in lib.disks)
    ensures var first, second := Number(Rows(lib, snap), newId, 0), Number(Rows(lib, a + b), game, 0);
            UndoPlan(lib, org, snap, newId, left, devs)
            == Ok(Plan(first + second, [], DeviceUpdates(first, devs) + DeviceUpdates(second, devs)))
  {
    HeldOnce(lib, org, game, a + snap + b);
    RestInOrder(lib, org, game, a, snap, b);
    SomeOnce(a, snap, b);
    NothingTwice(snap);
    var moving, others := Rows(lib, snap), Rows(lib, a + b);
    OneTitle(moving, game);
    WithoutHas(left, snap);
    SortSorts(WithoutIds(left, snap));
    assert moving[0] in moving;
    OneOrder(SortByNo(WithoutIds(left, snap)), others);
  }

  /**
   * Undoing a snapshot whose disks are together in a set that has others: they are a title of their
   * own again, numbered 1..k in their order, and the set is numbered 1..N without them.
   */
  lemma UndoOne(lib: Lib, org: Id, game: Id, a: seq<Id>, snap: seq<Id>, b: seq<Id>, newId: Id, left: seq<SetDisk>,
          devs: seq<DeviceRef>)
    requires Keyed(lib) && BoardsRight(lib) && game in lib.games && lib.games[game].org == org && newId !in lib.games
    requires HoldsInOrder(lib, org, game, a + snap + b) && AllLocal(lib, org, snap) && snap != [] && a + b != []
    requires Lists(lib, org, game, left) && ListsDevices(lib, org, devs)
    ensures Undo(lib, org, snap, newId, left, devs).Ok?
    ensures var l := Undo(lib, org, snap, newId, left, devs).value;
            && Restored(l, org, newId, snap) && Restored(l, org, game, a + b)
            && Keeps(lib, l, org, {game, newId}) && l.games == lib.games[newId := Game(org, true)]
  {
    UndoPlanned(lib, org, game, a, snap, b, newId, left, devs);
    HeldOnce(lib, org, game, a + snap + b);
    RestInOrder(lib, org, game, a, snap, b);
    var moving, rest := Rows(lib, snap), Rows(lib, a + b);
    var first, second := Number(moving, newId, 0), Number(rest, game, 0);
    var plan := Plan(first + second, [], DeviceUpdates(first, devs) + DeviceUpdates(second, devs));
    SplitLands(lib, org, game, moving, rest, newId, plan, first, second, devs);
    assert Seat(moving, newId, 0) == Numbered(snap, newId);
    assert Seat(rest, game, 0) == Numbered(a + b, game);
  }

  // ---- When an undo is refused ----

  lemma {:induction false} DedupeDrops(ids: seq<Id>)
    ensures |Dedupe(ids)| <= |ids| && (|Dedupe(ids)| == |ids| ==> Dedupe(ids) == ids)
  {
    if ids != [] { DedupeDrops(ids[..|ids| - 1]); }
  }

  lemma DedupeExact(ids: seq<Id>)
    ensures |Dedupe(ids)| == |ids| <==> NoneTwice(ids)
  {
    DedupeDrops(ids);
    DedupeIsDistinct(ids);
    if NoneTwice(ids) { NothingTwice(ids); }
  }

  lemma OneTitleExact(s: seq<SetDisk>)
    requires s != []
    ensures |Titles(s)| == 1 <==> forall x :: x in s ==> x.game == s[0].game
  {
    TitlesHas(s);
    if |Titles(s)| == 1 {
      forall x | x in s ensures x.game == s[0].game {
        assert x.game in Titles(s) && s[0].game in Titles(s);
      }
    } else if forall x :: x in s ==> x.game == s[0].game {
      OneTitle(s, s[0].game);
    }
  }

  /** The disks are this organisation's, local, and all in this title of its. */
  ghost predicate Together(lib: Lib, org: Id, snap: seq<Id>, game: Id) {
    && game in lib.games && lib.games[game].org == org
    && forall d :: d in snap ==>
         d in lib.disks && lib.disks[d].org == org && lib.disks[d].local && lib.disks[d].at.game == game
  }

  /** The title has a disk of the organisation that is not among these. */
  ghost predicate HasAnother(lib: Lib, org: Id, snap: seq<Id>, game: Id) {
    exists d :: d in lib.disks && lib.disks[d].org == org && lib.disks[d].at.game == game && d !in snap
  }

  lemma RestExact(lib: Lib, org: Id, snap: seq<Id>, game: Id, left: seq<SetDisk>)
    requires Lists(lib, org, game, left)
    ensures SortByNo(WithoutIds(left, snap)) != [] <==> HasAnother(lib, org, snap, game)
  {
    var rest := WithoutIds(left, snap);
    WithoutHas(left, snap);
    SortSorts(rest);
    if rest != [] {
      assert rest[0] in rest && Listed(lib, org, game, rest[0]);
    }
    if d :| d in lib.disks && lib.disks[d].org == org && lib.disks[d].at.game == game && d !in snap {
      assert Listed(lib, org, game, SetDisk(d, game, lib.disks[d].at.no));
      assert SetDisk(d, game, lib.disks[d].at.no) in rest;
    }
  }

  lemma UndoPlanExact(lib: Lib, org: Id, snap: seq<Id>, newId: Id, left: seq<SetDisk>, devs: seq<DeviceRef>)
    requires snap != [] && snap[0] in lib.disks ==> Lists(lib, org, lib.disks[snap[0]].at.game, left)
    ensures UndoPlan(lib, org, snap, newId, left, devs).Ok? <==>
              && snap != [] && NoneTwice(snap)
              && exists game :: Together(lib, org, snap, game) && HasAnother(lib, org, snap, game)
  {
    DedupeExact(snap);
    if snap != [] && forall d :: d in snap ==> LocalDisk(lib, org, d) {
      var moving, game := Rows(lib, snap), lib.disks[snap[0]].at.game;
      OneTitleExact(moving);
      RestExact(lib, org, snap, game, left);
      assert snap[0] in snap && moving[0].game == game;
      if |Titles(moving)| == 1 {
        forall d | d in snap ensures lib.disks[d].at.game == game {
          var i :| 0 <= i < |snap| && snap[i] == d;
          assert moving[i] in moving;
        }
      }
      forall g | Together(lib, org, snap, g) ensures g == game && |Titles(moving)| == 1 {
        forall x | x in moving ensures x.game == game {
          var i :| 0 <= i < |moving| && moving[i] == x;
          assert snap[i] in snap;
        }
      }
    }
  }

  lemma RowsHave(lib: Lib, ids: seq<Id>, x: SetDisk)
    requires forall d :: d in ids ==> d in lib.disks
    ensures x in Rows(lib, ids) <==> x.id in ids && x == Row(lib, x.id)
  {
    if x.id in ids && x == Row(lib, x.id) {
      var i :| 0 <= i < |ids| && ids[i] == x.id;
      assert Rows(lib, ids)[i] == x;
    }
  }

  /** The snapshot and what is left are the title's disks, each once. */
  lemma SplitOf(lib: Lib, org: Id, snap: seq<Id>, game: Id, left: seq<SetDisk>)
    requires Together(lib, org, snap, game) && NoneTwice(snap) && Lists(lib, org, game, left)
    ensures var moving, rest := Rows(lib, snap), SortByNo(WithoutIds(left, snap));
            && Distinct(moving) && Distinct(rest)
            && (forall x: SetDisk :: x in moving || x in rest <==> Listed(lib, org, game, x))
            && (forall x: SetDisk, y: SetDisk :: x in moving && y in rest ==> x.id != y.id)
  {
    WithoutHas(left, snap);
    SortSorts(WithoutIds(left, snap));
    forall x: SetDisk ensures x in Rows(lib, snap) <==> x.id in snap && Listed(lib, org, game, x) {
      RowsHave(lib, snap, x);
    }
  }

  /** Such an undo goes through: every move lands. */
  lemma TogetherLands(lib: Lib, org: Id, snap: seq<Id>, game: Id, newId: Id, left: seq<SetDisk>, devs: seq<DeviceRef>)
    requires Keyed(lib) && newId !in lib.games && snap != [] && NoneTwice(snap)
    requires Together(lib, org, snap, game) && HasAnother(lib, org, snap, game) && Lists(lib, org, game, left)
    requires UndoPlan(lib, org, snap, newId, left, devs).Ok?
    ensures Undo(lib, org, snap, newId, left, devs).Ok?
  {
    var l0, moving, rest := WithTitle(lib, org, Some(newId)), Rows(lib, snap), SortByNo(WithoutIds(left, snap));
    assert snap[0] in snap && moving[0].game == game;
    var rs := Number(moving, newId, 0) + Number(rest, game, 0);
    assert AllLand(l0, org, rs) by {
      SplitOf(lib, org, snap, game, left);
      forall x: SetDisk ensures Listed(l0, org, game, x) == Listed(lib, org, game, x) {}
      SplitOrder(l0, org, game, moving, rest, newId);
    }
    MovesLand(l0, org, rs, |rs|);
  }

  /**
   * An undo goes through if and only if the snapshot names some disks, none twice, that are the
   * organisation's own local disks, still all together in one of its titles, and that title has
   * another disk of the organisation; anything else is refused.
   */
  lemma UndoExact(lib: Lib, org: Id, snap: seq<Id>, newId: Id, left: seq<SetDisk>, devs: seq<DeviceRef>)
    requires Keyed(lib) && newId !in lib.games
    requires snap != [] && snap[0] in lib.disks ==> Lists(lib, org, lib.disks[snap[0]].at.game, left)
    ensures Undo(lib, org, snap, newId, left, devs).Ok? <==>
              && snap != [] && NoneTwice(snap)
              && exists game :: Together(lib, org, snap, game) && HasAnother(lib, org, snap, game)
  {
    UndoPlanExact(lib, org, snap, newId, left, devs);
    if UndoPlan(lib, org, snap, newId, left, devs).Ok? {
      var game :| Together(lib, org, snap, game) && HasAnother(lib, org, snap, game);
      assert snap[0] in snap;
      TogetherLands(lib, org, snap, game, newId, left, devs);
    }
  }

  lemma TogetherPlans(lib: Lib, org: Id, snap: seq<Id>, game: Id, newId: Id, left: seq<SetDisk>, devs: seq<DeviceRef>)
    requires snap != [] && NoneTwice(snap) && Lists(lib, org, game, left)
    requires Together(lib, org, snap, game) && HasAnother(lib, org, snap, game)
    ensures var first, rest := Number(Rows(lib, snap), newId, 0), SortByNo(WithoutIds(left, snap));
            var second := Number(rest, game, 0);
            UndoPlan(lib, org, snap, newId, left, devs)
            == Ok(Plan(first + second, [], DeviceUpdates(first, devs) + DeviceUpdates(second, devs)))
  {
    assert snap[0] in snap;
    UndoPlanExact(lib, org, snap, newId, left, devs);
  }

  /**
   * And what it does then, wherever in the title the disks are: they are a title of their own in the
   * snapshot's order, numbered 1..k, and the others are numbered 1..N in the order they had.
   */
  lemma UndoMoves(lib: Lib, org: Id, snap: seq<Id>, game: Id, newId: Id, left: seq<SetDisk>, devs: seq<DeviceRef>)
    requires Keyed(lib) && BoardsRight(lib) && newId !in lib.games && snap != [] && NoneTwice(snap)
    requires Together(lib, org, snap, game) && HasAnother(lib, org, snap, game)
    requires Lists(lib, org, game, left) && ListsDevices(lib, org, devs)
    ensures var r := Undo(lib, org, snap, newId, left, devs);
            && r.Ok? && Restored(r.value, org, newId, snap)
            && IsOrder(r.value, org, game, Seat(SortByNo(WithoutIds(left, snap)), game, 0))
            && Keeps(lib, r.value, org, {game, newId})
  {
    TogetherPlans(lib, org, snap, game, newId, left, devs);
    SplitOf(lib, org, snap, game, left);
    var moving, rest := Rows(lib, snap), SortByNo(WithoutIds(left, snap));
    var first, second := Number(moving, newId, 0), Number(rest, game, 0);
    var plan := Plan(first + second, [], DeviceUpdates(first, devs) + DeviceUpdates(second, devs));
    SplitLands(lib, org, game, moving, rest, newId, plan, first, second, devs);
    assert Seat(moving, newId, 0) == Numbered(snap, newId);
  }

  // ---- Undoing all of an add's snapshots, in any order ----

  function Flat(snaps: seq<seq<Id>>): seq<Id> {
    if snaps == [] then [] else snaps[0] + Flat(snaps[1..])
  }

  function Without(snaps: seq<seq<Id>>, j: nat): seq<seq<Id>>
    requires j < |snaps|
  {
    snaps[..j] + snaps[j + 1..]
  }

  lemma {:induction false} FlatAppend(a: seq<seq<Id>>, b: seq<seq<Id>>)
    ensures Flat(a + b) == Flat(a) + Flat(b)
  {
    if a == [] {
      assert a + b == b;
    } else {
      assert (a + b)[1..] == a[1..] + b;
      FlatAppend(a[1..], b);
    }
  }

  lemma FlatAround(before: seq<seq<Id>>, snap: seq<Id>, after: seq<seq<Id>>)
    ensures Flat(before + [snap] + after) == Flat(before) + snap + Flat(after)
  {
    FlatOne(snap);
    FlatAppend(before, [snap]);
    FlatAppend(before + [snap], after);
  }

  lemma FlatSplit(snaps: seq<seq<Id>>, before: seq<seq<Id>>, snap: seq<Id>, after: seq<seq<Id>>)
    requires snaps == before + [snap] + after
    ensures Flat(snaps) == Flat(before) + snap + Flat(after)
  {
    FlatAround(before, snap, after);
  }

  lemma SplitAt(snaps: seq<seq<Id>>, j: nat)
    requires j < |snaps|
    ensures snaps == snaps[..j] + [snaps[j]] + snaps[j + 1..]
  {
  }

  lemma FlatAt(snaps: seq<seq<Id>>, j: nat)
    requires j < |snaps|
    ensures Flat(snaps) == Flat(snaps[..j]) + snaps[j] + Flat(snaps[j + 1..])
  {
    SplitAt(snaps, j);
    FlatSplit(snaps, snaps[..j], snaps[j], snaps[j + 1..]);
  }

  lemma FlatWithout(snaps: seq<seq<Id>>, j: nat)
    requires j < |snaps|
    ensures Flat(Without(snaps, j)) == Flat(snaps[..j]) + Flat(snaps[j + 1..])
  {
    FlatAppend(snaps[..j], snaps[j + 1..]);
  }

  lemma FlatOne(snap: seq<Id>)
    ensures Flat([snap]) == snap
  {
    assert [snap][1..] == [];
    assert Flat([snap]) == snap + Flat([]);
  }

  /** One undo: which of the snapshots left, the new title's id, and what was read. */
  datatype UndoCall = UndoCall(which: nat, newId: Id, left: seq<SetDisk>, devs: seq<DeviceRef>)

  /** A set that holds its own disks and then those of the snapshots not undone yet. */
  ghost predicate Holding(lib: Lib, org: Id, game: Id, own: seq<Id>, pending: seq<seq<Id>>) {
    && Keyed(lib) && BoardsRight(lib) && game in lib.games && lib.games[game].org == org
    && own != [] && (forall snap :: snap in pending ==> snap != [])
    && HoldsInOrder(lib, org, game, own + Flat(pending)) && AllLocal(lib, org, Flat(pending))
  }

  /** Each call undoes one snapshot that is left, under an id not used before, with lists as they are then. */
  ghost predicate Undoes(lib: Lib, org: Id, game: Id, pending: seq<seq<Id>>, calls: seq<UndoCall>)
    decreases |calls|
  {
    calls != [] ==>
      var c := calls[0];
      && c.which < |pending| && c.newId !in lib.games
      && Lists(lib, org, game, c.left) && ListsDevices(lib, org, c.devs)
      && var r := Undo(lib, org, pending[c.which], c.newId, c.left, c.devs);
         r.Ok? ==> Undoes(r.value, org, game, Without(pending, c.which), calls[1..])
  }

  /** The library after the calls; one refused ends it. */
  ghost function UndoAll(lib: Lib, org: Id, pending: seq<seq<Id>>, calls: seq<UndoCall>): Result<Lib>
    decreases |calls|
  {
    if calls == [] then Ok(lib)
    else if calls[0].which >= |pending| then Err(NotFound)
    else match Undo(lib, org, pending[calls[0].which], calls[0].newId, calls[0].left, calls[0].devs)
      case Err(e) => Err(e)
      case Ok(l) => UndoAll(l, org, Without(pending, calls[0].which), calls[1..])
  }

  /** Which snapshot each call undoes. */
  ghost function Undone(pending: seq<seq<Id>>, calls: seq<UndoCall>): seq<seq<Id>>
    decreases |calls|
  {
    if calls == [] || calls[0].which >= |pending| then []
    else [pending[calls[0].which]] + Undone(Without(pending, calls[0].which), calls[1..])
  }

  lemma LocalLeft(lib: Lib, org: Id, pending: seq<seq<Id>>, j: nat)
    requires j < |pending| && AllLocal(lib, org, Flat(pending))
    ensures AllLocal(lib, org, pending[j]) && AllLocal(lib, org, Flat(Without(pending, j)))
  {
    FlatAt(pending, j);
    FlatWithout(pending, j);
    forall d | d in pending[j] || d in Flat(Without(pending, j)) ensures LocalDisk(lib, org, d) {
      assert d in Flat(pending);
    }
  }

  lemma StillLocal(lib: Lib, l: Lib, org: Id, about: set<Id>, ids: seq<Id>)
    requires Keeps(lib, l, org, about) && AllLocal(lib, org, ids)
    ensures AllLocal(l, org, ids)
  {
  }

  lemma UndoStep(lib: Lib, org: Id, game: Id, own: seq<Id>, pending: seq<seq<Id>>, c: UndoCall)
    requires Holding(lib, org, game, own, pending) && c.which < |pending| && c.newId !in lib.games
    requires Lists(lib, org, game, c.left) && ListsDevices(lib, org, c.devs)
    ensures var r := Undo(lib, org, pending[c.which], c.newId, c.left, c.devs);
            && r.Ok? && Holding(r.value, org, game, own, Without(pending, c.which))
            && Restored(r.value, org, c.newId, pending[c.which])
            && Restored(r.value, org, game, own + Flat(Without(pending, c.which)))
            && Keeps(lib, r.value, org, {game, c.newId}) && r.value.games == lib.games[c.newId := Game(org, true)]
  {
    var j, snap := c.which, pending[c.which];
    var a, b := own + Flat(pending[..j]), Flat(pending[j + 1..]);
    FlatAt(pending, j);
    FlatWithout(pending, j);
    assert own + Flat(pending) == a + snap + b;
    assert own + Flat(Without(pending, j)) == a + b;
    assert a[0] == own[0];
    assert snap in pending;
    LocalLeft(lib, org, pending, j);
    UndoOne(lib, org, game, a, snap, b, c.newId, c.left, c.devs);
    StillHolding(lib, Undo(lib, org, snap, c.newId, c.left, c.devs).value, org, game, own, pending, j, c.newId);
  }

  lemma StillHolding(lib: Lib, l: Lib, org: Id, game: Id, own: seq<Id>, pending: seq<seq<Id>>, j: nat, newId: Id)
    requires Holding(lib, org, game, own, pending) && j < |pending| && newId !in lib.games
    requires Keeps(lib, l, org, {game, newId}) && l.games == lib.games[newId := Game(org, true)]
    requires Restored(l, org, game, own + Flat(Without(pending, j)))
    ensures Holding(l, org, game, own, Without(pending, j))
  {
    RestoredHolds(l, org, game, own + Flat(Without(pending, j)));
    LocalLeft(lib, org, pending, j);
    StillLocal(lib, l, org, {game, newId}, Flat(Without(pending, j)));
    forall s | s in Without(pending, j) ensures s in pending {}
  }

  lemma {:induction false} OthersKept(lib: Lib, org: Id, game: Id, own: seq<Id>, pending: seq<seq<Id>>,
          calls: seq<UndoCall>, other: Id, s: seq<SetDisk>)
    requires Holding(lib, org, game, own, pending) && Undoes(lib, org, game, pending, calls)
    requires IsOrder(lib, org, other, s) && other != game && other in lib.games
    ensures UndoAll(lib, org, pending, calls).Ok? && IsOrder(UndoAll(lib, org, pending, calls).value, org, other, s)
    decreases |calls|
  {
    if calls != [] {
      var c := calls[0];
      UndoStep(lib, org, game, own, pending, c);
      var l := Undo(lib, org, pending[c.which], c.newId, c.left, c.devs).value;
      KeepsOrder(lib, l, org, {game, c.newId}, other, s);
      OthersKept(l, org, game, own, Without(pending, c.which), calls[1..], other, s);
    }
  }

  /**
   * The snapshots undone, in any order and however many of them: each is a title of its own again,
   * its disks in their order, numbered 1..k; the set is left with its own disks and those of the
   * snapshots not undone.
   */
  lemma {:induction false} UndosRestore(lib: Lib, org: Id, game: Id, own: seq<Id>, pending: seq<seq<Id>>,
          calls: seq<UndoCall>)
    requires Holding(lib, org, game, own, pending) && Undoes(lib, org, game, pending, calls)
    ensures var r := UndoAll(lib, org, pending, calls);
            && r.Ok? && |Undone(pending, calls)| == |calls| <= |pending|
            && (forall k :: 0 <= k < |calls| ==> Restored(r.value, org, calls[k].newId, Undone(pending, calls)[k]))
            && (calls != [] && |calls| == |pending| ==>
                  Restored(r.value, org, game, own))
            && BoardsRight(r.value) && r.value.disks.Keys == lib.disks.Keys
    decreases |calls|
  {
    if calls != [] {
      var c := calls[0];
      var rest := Without(pending, c.which);
      UndoStep(lib, org, game, own, pending, c);
      var l := Undo(lib, org, pending[c.which], c.newId, c.left, c.devs).value;
      UndosRestore(l, org, game, own, rest, calls[1..]);
      OthersKept(l, org, game, own, rest, calls[1..], c.newId, Numbered(pending[c.which], c.newId));
      if |calls| == 1 == |pending| { assert own + Flat(rest) == own; }
    }
  }

  /** As many calls as snapshots: each snapshot is undone once. */
  lemma {:induction false} EachUndone(pending: seq<seq<Id>>, calls: seq<UndoCall>)
    requires |Undone(pending, calls)| == |calls| == |pending|
    ensures multiset(Undone(pending, calls)) == multiset(pending)
    decreases |calls|
  {
    if calls != [] {
      var j := calls[0].which;
      EachUndone(Without(pending, j), calls[1..]);
      assert pending == pending[..j] + [pending[j]] + pending[j + 1..];
    }
  }
}
