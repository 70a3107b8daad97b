/**
 * Adding whole titles to a set, and undoing the add.
 */
module DiskSetAdd {
  import opened Bytes
  import opened DiskSet
  import opened DiskSetLibrary
  import opened DiskSetUnchanged
  import opened DiskSetOps
  import opened DiskSetUndo

  /** Of a plan's moves, those of the disks of one source title, as its snapshot names them. */
  function Snapshot(rs: seq<Renumber>, all: seq<SetDisk>, game: Id): seq<Id> {
    if rs == [] then []
    else
      var last := rs[|rs| - 1];
      var x := DiskIn(all, last.disk);
      Snapshot(rs[..|rs| - 1], all, game) + if x.Some? && x.value.game == game then [last.disk] else []
  }

  function Snapshots(rs: seq<Renumber>, all: seq<SetDisk>, titles: seq<Id>): seq<seq<Id>> {
    seq(|titles|, i requires 0 <= i < |titles| => Snapshot(rs, all, titles[i]))
  }

  datatype Added = Added(lib: Lib, undo: seq<seq<Id>>)

  /** What addDisksToSet plans, by disk ids: each brings its whole title. `own` and `all` are lists as read. */
  function AddPlan(lib: Lib, org: Id, target: Id, ids: seq<Id>, own: seq<SetDisk>, all: seq<SetDisk>,
                   devs: seq<DeviceRef>, compact: bool): Result<Plan>
  {
    var picks := Dedupe(ids);
    if ids == [] then Err(NothingToAdd)
    else if !TitleThere(lib, org, target) then Err(NotFound)
    else if exists d :: d in picks && !LocalDisk(lib, org, d) then Err(NotFound)
    else
      var picked := Rows(lib, picks);
      if exists x :: x in picked && x.game == target then Err(SameTitle)
      else if exists g :: g in Titles(picked) && !TitleThere(lib, org, g) then Err(NotFound)
      else PlanAdd(target, own, picked, all, devs, compact)
  }

  function AddDisks(lib: Lib, org: Id, target: Id, ids: seq<Id>, own: seq<SetDisk>, all: seq<SetDisk>,
                    devs: seq<DeviceRef>, compact: bool): Result<Added>
  {
    match AddPlan(lib, org, target, ids, own, all, devs, compact)
    case Err(e) => Err(e)
    case Ok(plan) =>
      match Batch(lib, org, None, plan, devs, plan.emptied)
      case None => Err(Aborted)
      case Some(l) => Ok(Added(l, Snapshots(plan.renumber, all, plan.emptied)))
  }

  /** Every disk of these titles, in no particular order. */
  ghost predicate ListsAll(lib: Lib, org: Id, titles: seq<Id>, all: seq<SetDisk>) {
    Distinct(all) && forall x: SetDisk :: x in all <==> x.game in titles && Listed(lib, org, x.game, x)
  }

  lemma {:induction false} OfGameHas(s: seq<SetDisk>, game: Id)
    requires Distinct(s)
    ensures Distinct(OfGame(s, game)) && forall x: SetDisk :: x in OfGame(s, game) <==> x in s && x.game == game
  {
    if s != [] {
      var front, last := s[..|s| - 1], s[|s| - 1];
      OfGameHas(front, game);
      assert s == front + [last];
      forall i | 0 <= i < |OfGame(front, game)| ensures OfGame(front, game)[i].id != last.id {
        assert OfGame(front, game)[i] in front;
      }
    }
  }

  /** The title's disks, in order, as the plan sorts them from all it read. */
  lemma SourceOrder(lib: Lib, org: Id, titles: seq<Id>, all: seq<SetDisk>, game: Id)
    requires ListsAll(lib, org, titles, all) && game in titles
    ensures IsOrder(lib, org, game, SortByNo(OfGame(all, game)))
  {
    OfGameHas(all, game);
    SortSorts(OfGame(all, game));
  }

  function Ids(s: seq<SetDisk>): (ids: seq<Id>)
    ensures |ids| == |s| && forall i :: 0 <= i < |s| ==> ids[i] == s[i].id
  {
    seq(|s|, i requires 0 <= i < |s| => s[i].id)
  }

  // ---- What an add moves ----

  /** One of the first n titles. */
  predicate Among(titles: seq<Id>, n: nat, game: Id)
    requires n <= |titles|
  {
    exists i :: 0 <= i < n && titles[i] == game
  }

  lemma AmongMore(titles: seq<Id>, n: nat, game: Id)
    requires 0 < n <= |titles|
    ensures Among(titles, n, game) <==> Among(titles, n - 1, game) || titles[n - 1] == game
  {
  }

  lemma {:induction false} InTitlesHas(all: seq<SetDisk>, titles: seq<Id>, n: nat)
    requires n <= |titles| && Distinct(all) && forall i, j :: 0 <= i < j < |titles| ==> titles[i] != titles[j]
    ensures Distinct(InTitles(all, titles, n))
    ensures forall x: SetDisk :: x in InTitles(all, titles, n) <==> x in all && Among(titles, n, x.game)
  {
    if n > 0 {
      var last := titles[n - 1];
      InTitlesHas(all, titles, n - 1);
      OfGameHas(all, last);
      SortSorts(OfGame(all, last));
      SortedIsDistinct(SortByNo(OfGame(all, last)), all);
      AppendDistinct(all, InTitles(all, titles, n - 1), SortByNo(OfGame(all, last)));
      forall x: SetDisk ensures x in InTitles(all, titles, n) <==> x in all && Among(titles, n, x.game) {
        AmongMore(titles, n, x.game);
      }
    }
  }

  lemma SortedIsDistinct(s: seq<SetDisk>, all: seq<SetDisk>)
    requires Sorted(s) && Distinct(all) && forall x :: x in s ==> x in all
    ensures Distinct(s)
  {
    forall i, j | 0 <= i < j < |s| ensures s[i].id != s[j].id {
      assert s[i] in all && s[j] in all && Less(s[i], s[j]);
    }
  }

  lemma AppendDistinct(all: seq<SetDisk>, a: seq<SetDisk>, b: seq<SetDisk>)
    requires Distinct(all) && Distinct(a) && Distinct(b)
    requires (forall x :: x in a ==> x in all) && (forall x :: x in b ==> x in all)
    requires (forall x, y :: x in a && y in b ==> x.game != y.game)
    ensures Distinct(a + b)
  {
    forall i, j | 0 <= i < |a| && 0 <= j < |b| ensures a[i].id != b[j].id { assert a[i] in a && b[j] in b; }
  }

  lemma {:induction false} OfGameAppend(a: seq<SetDisk>, b: seq<SetDisk>, game: Id)
    ensures OfGame(a + b, game) == OfGame(a, game) + OfGame(b, game)
    decreases |b|
  {
    if b == [] {
      assert a + b == a;
    } else {
      assert (a + b)[..|a + b| - 1] == a + b[..|b| - 1];
      OfGameAppend(a, b[..|b| - 1], game);
    }
  }

  lemma {:induction false} OfGameAllOrNone(s: seq<SetDisk>, game: Id)
    ensures (forall x :: x in s ==> x.game == game) ==> OfGame(s, game) == s
    ensures (forall x :: x in s ==> x.game != game) ==> OfGame(s, game) == []
  {
    if s != [] {
      OfGameAllOrNone(s[..|s| - 1], game);
      assert s[|s| - 1] in s;
      assert s == s[..|s| - 1] + [s[|s| - 1]];
    }
  }

  lemma SortedOfTitle(all: seq<SetDisk>, title: Id, game: Id)
    requires Distinct(all)
    ensures OfGame(SortByNo(OfGame(all, title)), game) == if game == title then SortByNo(OfGame(all, title)) else []
  {
    OfGameHas(all, title);
    SortSorts(OfGame(all, title));
    OfGameAllOrNone(SortByNo(OfGame(all, title)), game);
  }

  /** Of what an add moves, one title's disks are that title's in its order. */
  lemma {:induction false} MovedOfTitle(all: seq<SetDisk>, titles: seq<Id>, n: nat, game: Id)
    requires n <= |titles| && Distinct(all) && forall i, j :: 0 <= i < j < |titles| ==> titles[i] != titles[j]
    ensures OfGame(InTitles(all, titles, n), game) == if Among(titles, n, game) then SortByNo(OfGame(all, game)) else []
  {
    if n > 0 {
      MovedOfTitle(all, titles, n - 1, game);
      SortedOfTitle(all, titles[n - 1], game);
      JoinedOfTitle(InTitles(all, titles, n - 1), SortByNo(OfGame(all, titles[n - 1])), game);
      AmongMore(titles, n, game);
    }
  }

  lemma JoinedOfTitle(a: seq<SetDisk>, b: seq<SetDisk>, game: Id)
    ensures OfGame(a, game) == [] ==> OfGame(a + b, game) == OfGame(b, game)
    ensures OfGame(b, game) == [] ==> OfGame(a + b, game) == OfGame(a, game)
  {
    OfGameAppend(a, b, game);
  }

  /** The snapshot of a source title names its disks in their order. */
  lemma {:induction false} SnapshotIs(s: seq<SetDisk>, all: seq<SetDisk>, target: Id, start: int, game: Id)
    requires Distinct(all) && forall x :: x in s ==> x in all || (DiskIn(all, x.id) == None && x.game != game)
    ensures Snapshot(Number(s, target, start), all, game) == Ids(OfGame(s, game))
  {
    if s != [] {
      var front, last := s[..|s| - 1], s[|s| - 1];
      assert s == front + [last];
      SnapshotIs(front, all, target, start, game);
      assert Number(s, target, start)[..|s| - 1] == Number(front, target, start);
      if last in all {
        var x := DiskIn(all, last.id).value;
        assert x in all && x == last;
      }
    }
  }

  /** The titles' disks, title by title. */
  function TitleOrders(all: seq<SetDisk>, titles: seq<Id>): (os: seq<seq<Id>>)
    ensures |os| == |titles| && forall i :: 0 <= i < |titles| ==> os[i] == Ids(SortByNo(OfGame(all, titles[i])))
  {
    seq(|titles|, i requires 0 <= i < |titles| => Ids(SortByNo(OfGame(all, titles[i]))))
  }

  lemma FlatTake(snaps: seq<seq<Id>>, n: nat)
    requires 0 < n <= |snaps|
    ensures Flat(snaps[..n]) == Flat(snaps[..n - 1]) + snaps[n - 1]
  {
    var last := [snaps[n - 1]];
    assert Flat(last) == snaps[n - 1] + Flat(last[1..]) == snaps[n - 1];
    FlatAppend(snaps[..n - 1], last);
    assert snaps[..n] == snaps[..n - 1] + last;
  }

  lemma {:induction false} FlatOrders(all: seq<SetDisk>, titles: seq<Id>, n: nat)
    requires n <= |titles|
    ensures Flat(TitleOrders(all, titles)[..n]) == Ids(InTitles(all, titles, n))
  {
    if n > 0 {
      FlatOrders(all, titles, n - 1);
      FlatTake(TitleOrders(all, titles), n);
      IdsAppend(InTitles(all, titles, n - 1), SortByNo(OfGame(all, titles[n - 1])));
    }
  }

  lemma IdsAppend(a: seq<SetDisk>, b: seq<SetDisk>)
    ensures Ids(a + b) == Ids(a) + Ids(b)
  {
  }

  // ---- What an add leaves ----

  /** The disks that stay in a title, and then those numbered into it. */
  lemma GatheredOrder(lib: Lib, org: Id, target: Id, stay: seq<SetDisk>, s: seq<SetDisk>, start: int)
    requires AllLand(lib, org, Number(s, target, start))
    requires forall x :: x in stay ==> Listed(lib, org, target, x)
    requires forall x, y :: x in stay && y in s ==> x.id != y.id
    requires forall x: SetDisk :: Listed(lib, org, target, x) ==> x in stay || x in s
    requires Sorted(stay + Seat(s, target, start))
    ensures IsOrder(Moved(lib, Number(s, target, start)), org, target, stay + Seat(s, target, start))
  {
    var rs, put := Number(s, target, start), stay + Seat(s, target, start);
    var l := Moved(lib, rs);
    MovedPlaces(lib, org, rs);
    forall i | 0 <= i < |put| ensures Listed(l, org, target, put[i]) {
      if i < |stay| {
        assert stay[i] in stay;
        forall j | 0 <= j < |rs| ensures rs[j].disk != stay[i].id { assert s[j] in s; }
      } else {
        assert rs[i - |stay|].disk == put[i].id;
      }
    }
    forall x: SetDisk | Listed(l, org, target, x) ensures x in put {
      if j :| 0 <= j < |rs| && rs[j].disk == x.id {
        assert put[|stay| + j] == x;
      } else {
        assert Listed(lib, org, target, x);
        forall j | 0 <= j < |s| ensures s[j].id != x.id { assert rs[j].disk == s[j].id; }
        var i :| 0 <= i < |stay| && stay[i] == x;
        assert put[i] == x;
      }
    }
  }

  /** The set after an add: renumbered from 1, or its own numbers kept and fresh ones after them. */
  function AfterAdd(own: seq<SetDisk>, moved: seq<SetDisk>, target: Id, compact: bool): seq<SetDisk> {
    if compact then Seat(SortByNo(own) + moved, target, 0) else SortByNo(own) + Seat(moved, target, MaxNo(own))
  }

  lemma AddedOrder(lib: Lib, org: Id, target: Id, own: seq<SetDisk>, moved: seq<SetDisk>, compact: bool)
    requires Lists(lib, org, target, own) && target in lib.games && Distinct(moved)
    requires forall x :: x in moved ==> Listed(lib, org, x.game, x) && x.game != target
    ensures var rs := Incoming(own, moved, target, compact);
            AllLand(lib, org, rs) && IsOrder(Moved(lib, rs), org, target, AfterAdd(own, moved, target, compact))
  {
    SortSorts(own);
    SortedIsDistinct(SortByNo(own), own);
    if compact {
      var s := SortByNo(own) + moved;
      forall i, j | 0 <= i < |own| && 0 <= j < |moved| ensures SortByNo(own)[i].id != moved[j].id {
        assert SortByNo(own)[i] in SortByNo(own) && moved[j] in moved;
      }
      forall x: SetDisk | x in s ensures Listed(lib, org, x.game, x) {}
      NumberLands(lib, org, target, s, target, 0);
      assert [] + Seat(s, target, 0) == Seat(s, target, 0);
      GatheredOrder(lib, org, target, [], s, 0);
    } else {
      NumberLands(lib, org, target, moved, target, MaxNo(own));
      var put := SortByNo(own) + Seat(moved, target, MaxNo(own));
      forall i, j | 0 <= i < j < |put| ensures Less(put[i], put[j]) {
        if i < |own| { assert SortByNo(own)[i] in SortByNo(own); }
      }
      GatheredOrder(lib, org, target, SortByNo(own), moved, MaxNo(own));
    }
  }

  /** What an add asks for before it writes anything. */
  predicate Addable(lib: Lib, org: Id, target: Id, ids: seq<Id>) {
    && ids != [] && TitleThere(lib, org, target)
    && (forall d :: d in Dedupe(ids) ==> LocalDisk(lib, org, d) && lib.disks[d].at.game != target)
    && (forall d :: d in Dedupe(ids) ==> TitleThere(lib, org, lib.disks[d].at.game))
  }

  /** The titles the picked disks bring, in the order the picks meet them. */
  function Sources(lib: Lib, ids: seq<Id>): seq<Id>
    requires forall d :: d in Dedupe(ids) ==> d in lib.disks
  {
    Titles(Rows(lib, Dedupe(ids)))
  }

  lemma {:induction false} DedupeHas(ids: seq<Id>)
    ensures forall d: Id :: d in Dedupe(ids) <==> d in ids
  {
    if ids != [] {
      DedupeHas(ids[..|ids| - 1]);
      assert ids == ids[..|ids| - 1] + [ids[|ids| - 1]];
    }
  }

  lemma SourcesThere(lib: Lib, org: Id, target: Id, ids: seq<Id>)
    requires Addable(lib, org, target, ids)
    ensures var titles := Sources(lib, ids);
            && titles != [] && (forall i, j :: 0 <= i < j < |titles| ==> titles[i] != titles[j])
            && (forall g :: g in titles ==> g != target && TitleThere(lib, org, g))
            && (exists x :: x in Rows(lib, Dedupe(ids)))
            && (forall x :: x in Rows(lib, Dedupe(ids)) ==> x.game != target)
  {
    var picks := Dedupe(ids);
    var picked := Rows(lib, picks);
    DedupeHas(ids);
    TitlesHas(picked);
    assert ids[0] in picks;
    var i :| 0 <= i < |picks| && picks[i] == ids[0];
    assert picked[i] in picked;
    forall x | x in picked ensures x.game != target && TitleThere(lib, org, x.game) {
      var k :| 0 <= k < |picked| && picked[k] == x;
      assert picks[k] in picks;
    }
    assert picked[i].game in Titles(picked);
  }

  /** What an add numbers, and from what number on. */
  function Incoming(own: seq<SetDisk>, moved: seq<SetDisk>, target: Id, compact: bool): seq<Renumber> {
    Number(Arriving(own, moved, compact), target, StartsAt(own, compact))
  }

  function Arriving(own: seq<SetDisk>, moved: seq<SetDisk>, compact: bool): seq<SetDisk> {
    if compact then SortByNo(own) + moved else moved
  }

  function StartsAt(own: seq<SetDisk>, compact: bool): int {
    if compact then 0 else MaxNo(own)
  }

  lemma SourcesMoved(lib: Lib, org: Id, titles: seq<Id>, all: seq<SetDisk>)
    requires ListsAll(lib, org, titles, all) && forall i, j :: 0 <= i < j < |titles| ==> titles[i] != titles[j]
    ensures var moved := InTitles(all, titles, |titles|);
            Distinct(moved) && forall x: SetDisk :: x in moved <==> x in all
  {
    InTitlesHas(all, titles, |titles|);
    forall x | x in all ensures Among(titles, |titles|, x.game) {
      assert x.game in titles;
    }
  }

  /** A source's snapshot names all its disks, in order. */
  lemma SnapshotOf(own: seq<SetDisk>, all: seq<SetDisk>, titles: seq<Id>, target: Id, compact: bool, i: nat)
    requires i < |titles| && Distinct(all) && forall i, j :: 0 <= i < j < |titles| ==> titles[i] != titles[j]
    requires Distinct(own)
    requires forall x :: x in own ==> x.game == target && x.game != titles[i] && forall y :: y in all ==> y.id != x.id
    ensures var moved := InTitles(all, titles, |titles|);
            var planned := Number(Arriving(own, moved, compact), target, StartsAt(own, compact));
            Snapshot(planned, all, titles[i]) == TitleOrders(all, titles)[i]
  {
    var moved, game := InTitles(all, titles, |titles|), titles[i];
    SortSorts(own);
    InTitlesHas(all, titles, |titles|);
    SnapshotIs(Arriving(own, moved, compact), all, target, StartsAt(own, compact), game);
    MovedOfTitle(all, titles, |titles|, game);
    OfGameAllOrNone(SortByNo(own), game);
    JoinedOfTitle(SortByNo(own), moved, game);
    assert Among(titles, |titles|, game);
  }

  /** The plan of an add, with its snapshots. */
  lemma AddPlanned(lib: Lib, org: Id, target: Id, titles: seq<Id>, own: seq<SetDisk>, all: seq<SetDisk>, compact: bool)
    requires Lists(lib, org, target, own) && ListsAll(lib, org, titles, all) && target in lib.games && target !in titles
    requires forall i, j :: 0 <= i < j < |titles| ==> titles[i] != titles[j]
    ensures var moved := InTitles(all, titles, |titles|);
            var rs := Incoming(own, moved, target, compact);
            && AllLand(lib, org, rs) && IsOrder(Moved(lib, rs), org, target, AfterAdd(own, moved, target, compact))
            && Snapshots(rs, all, titles) == TitleOrders(all, titles)
  {
    var moved := InTitles(all, titles, |titles|);
    SourcesMoved(lib, org, titles, all);
    AddedOrder(lib, org, target, own, moved, compact);
    forall x, y | x in own && y in all ensures x.id != y.id {
      assert Listed(lib, org, target, x) && Listed(lib, org, y.game, y);
    }
    forall i | 0 <= i < |titles|
      ensures Snapshot(Incoming(own, moved, target, compact), all, titles[i]) == TitleOrders(all, titles)[i]
    {
      assert titles[i] in titles;
      SnapshotOf(own, all, titles, target, compact, i);
    }
  }

  /** A source title after an add: none of the organisation's disks is left in it, and it stays only for others'. */
  ghost predicate Emptied(l: Lib, org: Id, game: Id) {
    IsOrder(l, org, game, []) && (game in l.games <==> !NoDiskLeft(l, game))
  }

  /** The batch of an add that moves all of its sources' disks. */
  lemma AddLands(lib: Lib, org: Id, target: Id, titles: seq<Id>, all: seq<SetDisk>, devs: seq<DeviceRef>,
          s: seq<SetDisk>, start: int)
    requires Keyed(lib) && BoardsRight(lib) && ListsDevices(lib, org, devs) && ListsAll(lib, org, titles, all)
    requires target in lib.games && target !in titles && forall g :: g in titles ==> TitleThere(lib, org, g)
    requires AllLand(lib, org, Number(s, target, start))
    requires (forall x :: x in all ==> x in s) && (forall x :: x in s ==> x.game == target || x.game in titles)
    ensures var rs := Number(s, target, start);
            var b := Batch(lib, org, None, Plan(rs, titles, DeviceUpdates(rs, devs)), devs, titles);
            && b.Some? && b.value.disks == Moved(lib, rs).disks
            && Keeps(lib, b.value, org, {target} + set g | g in titles)
            && (forall g :: g in titles ==> Emptied(b.value, org, g))
            && (forall g :: g in lib.games && g !in titles ==> g in b.value.games && b.value.games[g] == lib.games[g])
  {
    var rs := Number(s, target, start);
    var plan, about := Plan(rs, titles, DeviceUpdates(rs, devs)), {target} + set g | g in titles;
    NoUpdates(devs);
    assert Merges(plan, rs, [], devs);
    forall i | 0 <= i < |rs| ensures rs[i].from in about && rs[i].to.game in about { assert s[i] in s; }
    BatchLands(lib, org, None, plan, rs, [], devs, titles, about);
    var l := Batch(lib, org, None, plan, devs, titles).value;
    forall g | g in titles ensures Emptied(l, org, g) { SourceEmptied(lib, org, target, titles, all, s, start, l, g); }
  }

  lemma SourceEmptied(lib: Lib, org: Id, target: Id, titles: seq<Id>, all: seq<SetDisk>, s: seq<SetDisk>, start: int,
          l: Lib, g: Id)
    requires ListsAll(lib, org, titles, all) && target !in titles && g in titles && TitleThere(lib, org, g)
    requires AllLand(lib, org, Number(s, target, start)) && forall x :: x in all ==> x in s
    requires l.disks == Moved(lib, Number(s, target, start)).disks
    requires l.games == DeleteEmptied(l.(games := lib.games), org, titles).games
    ensures Emptied(l, org, g)
  {
    var rs := Number(s, target, start);
    MovedPlaces(lib, org, rs);
    forall x: SetDisk ensures !Listed(l, org, g, x) {
      if x in s {
        var i :| 0 <= i < |s| && s[i] == x;
        assert rs[i].disk == x.id;
      }
      assert Listed(lib, org, g, x) ==> x in all;
      assert forall i :: 0 <= i < |rs| ==> rs[i].to.game != g;
    }
  }

  lemma NotAddable(lib: Lib, org: Id, target: Id, ids: seq<Id>, own: seq<SetDisk>, all: seq<SetDisk>,
          devs: seq<DeviceRef>, compact: bool)
    requires !Addable(lib, org, target, ids)
    ensures AddDisks(lib, org, target, ids, own, all, devs, compact).Err?
  {
    var picks := Dedupe(ids);
    if ids != [] && TitleThere(lib, org, target) && forall d :: d in picks ==> LocalDisk(lib, org, d) {
      var picked := Rows(lib, picks);
      TitlesHas(picked);
      var d :| d in picks && (lib.disks[d].at.game == target || !TitleThere(lib, org, lib.disks[d].at.game));
      var i :| 0 <= i < |picks| && picks[i] == d;
      assert picked[i] in picked && picked[i].game == lib.disks[d].at.game;
    }
  }

  lemma AddIs(lib: Lib, org: Id, target: Id, ids: seq<Id>, own: seq<SetDisk>, all: seq<SetDisk>,
          devs: seq<DeviceRef>, compact: bool)
    requires Addable(lib, org, target, ids)
    ensures var titles := Sources(lib, ids);
            var rs := Incoming(own, InTitles(all, titles, |titles|), target, compact);
            AddPlan(lib, org, target, ids, own, all, devs, compact) == Ok(Plan(rs, titles, DeviceUpdates(rs, devs)))
  {
    SourcesThere(lib, org, target, ids);
    PlanAddIs(target, own, Rows(lib, Dedupe(ids)), all, devs, compact);
  }

  lemma PlanAddIs(target: Id, own: seq<SetDisk>, picked: seq<SetDisk>, all: seq<SetDisk>, devs: seq<DeviceRef>,
          compact: bool)
    requires (exists x :: x in picked) && forall x :: x in picked ==> x.game != target
    ensures var titles := Titles(picked);
            var rs := Incoming(own, InTitles(all, titles, |titles|), target, compact);
            PlanAdd(target, own, picked, all, devs, compact) == Ok(Plan(rs, titles, DeviceUpdates(rs, devs)))
  {
  }

  /**
   * An add is refused exactly when it should be; else each title brings all its disks, the set is
   * numbered on or anew, its sources are emptied, and the snapshots name their disks in order.
   */
  lemma AddMoves(lib: Lib, org: Id, target: Id, ids: seq<Id>, own: seq<SetDisk>, all: seq<SetDisk>,
          devs: seq<DeviceRef>, compact: bool)
    requires Keyed(lib) && BoardsRight(lib) && Lists(lib, org, target, own) && ListsDevices(lib, org, devs)
    requires Addable(lib, org, target, ids) ==> ListsAll(lib, org, Sources(lib, ids), all)
    ensures AddDisks(lib, org, target, ids, own, all, devs, compact).Ok? <==> Addable(lib, org, target, ids)
    ensures Addable(lib, org, target, ids) ==>
              var a, titles := AddDisks(lib, org, target, ids, own, all, devs, compact).value, Sources(lib, ids);
              && IsOrder(a.lib, org, target, AfterAdd(own, InTitles(all, titles, |titles|), target, compact))
              && (forall g :: g in titles ==> Emptied(a.lib, org, g))
              && a.undo == TitleOrders(all, titles)
              && Keeps(lib, a.lib, org, {target} + set g | g in titles)
              && TitleThere(a.lib, org, target)
  {
    if Addable(lib, org, target, ids) {
      var titles := Sources(lib, ids);
      SourcesThere(lib, org, target, ids);
      AddPlanned(lib, org, target, titles, own, all, compact);
      AddIs(lib, org, target, ids, own, all, devs, compact);
      AddSettles(lib, org, target, titles, own, all, devs, compact);
    } else {
      NotAddable(lib, org, target, ids, own, all, devs, compact);
    }
  }

  lemma AddSettles(lib: Lib, org: Id, target: Id, titles: seq<Id>, own: seq<SetDisk>, all: seq<SetDisk>,
          devs: seq<DeviceRef>, compact: bool)
    requires Keyed(lib) && BoardsRight(lib) && ListsDevices(lib, org, devs)
    requires Lists(lib, org, target, own) && ListsAll(lib, org, titles, all)
    requires TitleThere(lib, org, target) && target !in titles && forall g :: g in titles ==> TitleThere(lib, org, g)
    requires forall i, j :: 0 <= i < j < |titles| ==> titles[i] != titles[j]
    ensures var moved := InTitles(all, titles, |titles|);
            var rs := Incoming(own, moved, target, compact);
            var b := Batch(lib, org, None, Plan(rs, titles, DeviceUpdates(rs, devs)), devs, titles);
            && b.Some? && IsOrder(b.value, org, target, AfterAdd(own, moved, target, compact))
            && (forall g :: g in titles ==> Emptied(b.value, org, g))
            && Keeps(lib, b.value, org, {target} + set g | g in titles) && TitleThere(b.value, org, target)
  {
    var moved := InTitles(all, titles, |titles|);
    AddPlanned(lib, org, target, titles, own, all, compact);
    SourcesMoved(lib, org, titles, all);
    SortSorts(own);
    AddLands(lib, org, target, titles, all, devs, Arriving(own, moved, compact), StartsAt(own, compact));
    var rs := Incoming(own, moved, target, compact);
    var l := Batch(lib, org, None, Plan(rs, titles, DeviceUpdates(rs, devs)), devs, titles).value;
    forall x: SetDisk ensures Listed(l, org, target, x) == Listed(Moved(lib, rs), org, target, x) {}
  }

  // ---- Whole titles picked ----

  /** diskIdsOfTitles: every disk of each title, titles in the order given, each in disk order. */
  function IdsOfTitles(lib: Lib, org: Id, target: Id, games: seq<Id>, all: seq<SetDisk>): Result<seq<Id>> {
    var titles := Dedupe(games);
    if titles == [] then Err(NothingToAdd)
    else if target in titles then Err(SameTitle)
    else if exists g :: g in titles && !TitleThere(lib, org, g) then Err(NotFound)
    else if exists g :: g in titles && OfGame(all, g) == [] then Err(NothingToAdd)
    else Ok(Ids(InTitles(all, titles, |titles|)))
  }

  lemma {:induction false} TitlesOfMoved(all: seq<SetDisk>, titles: seq<Id>, n: nat)
    requires n <= |titles| && Distinct(all) && (forall i, j :: 0 <= i < j < |titles| ==> titles[i] != titles[j])
    requires forall g :: g in titles ==> OfGame(all, g) != []
    ensures Titles(InTitles(all, titles, n)) == titles[..n]
  {
    if n > 0 {
      var last, before, mine := titles[n - 1], InTitles(all, titles, n - 1), SortByNo(OfGame(all, titles[n - 1]));
      TitlesOfMoved(all, titles, n - 1);
      assert mine != [] && forall x :: x in mine ==> x.game == last by {
        assert last in titles;
        OfGameHas(all, last);
        SortSorts(OfGame(all, last));
      }
      assert last !in titles[..n - 1];
      TitlesAppend(before, mine, last);
      assert titles[..n] == titles[..n - 1] + [last];
    }
  }

  lemma {:induction false} TitlesAppend(a: seq<SetDisk>, b: seq<SetDisk>, game: Id)
    requires game !in Titles(a) && forall x :: x in b ==> x.game == game
    ensures Titles(a + b) == if b == [] then Titles(a) else Titles(a) + [game]
    decreases |b|
  {
    if b == [] {
      assert a + b == a;
    } else {
      assert (a + b)[..|a + b| - 1] == a + b[..|b| - 1];
      assert b[|b| - 1] in b;
      TitlesAppend(a, b[..|b| - 1], game);
    }
  }

  /** Picking titles adds exactly those titles. */
  lemma TitlesPicked(lib: Lib, org: Id, target: Id, games: seq<Id>, all: seq<SetDisk>)
    requires ListsAll(lib, org, Dedupe(games), all) && TitleThere(lib, org, target)
    requires forall x :: x in all ==> lib.disks[x.id].local
    requires IdsOfTitles(lib, org, target, games, all).Ok?
    ensures var ids := IdsOfTitles(lib, org, target, games, all).value;
            Addable(lib, org, target, ids) && Sources(lib, ids) == Dedupe(games)
  {
    var titles := Dedupe(games);
    var moved := InTitles(all, titles, |titles|);
    DedupeIsDistinct(games);
    InTitlesHas(all, titles, |titles|);
    TitlesOfMoved(all, titles, |titles|);
    assert titles[..|titles|] == titles;
    NothingTwice(Ids(moved));
    forall i | 0 <= i < |moved|
      ensures Listed(lib, org, moved[i].game, moved[i]) && moved[i].game in titles && lib.disks[moved[i].id].local
    {
      assert moved[i] in moved;
    }
    assert Rows(lib, Ids(moved)) == moved;
    assert moved != [];
  }

  // ---- Add, then undo ----

  lemma OrderIds(lib: Lib, org: Id, game: Id, s: seq<SetDisk>)
    requires IsOrder(lib, org, game, s)
    ensures HoldsInOrder(lib, org, game, Ids(s)) && forall i, j :: 0 <= i < j < |s| ==> Ids(s)[i] != Ids(s)[j]
  {
    forall i | 0 <= i < |s| ensures s[i].id in lib.disks && Row(lib, s[i].id) == s[i] { assert s[i] in s; }
    assert Rows(lib, Ids(s)) == s;
    forall i, j | 0 <= i < j < |s| ensures Ids(s)[i] != Ids(s)[j] { assert Less(s[i], s[j]); }
  }

  lemma AfterAddIds(own: seq<SetDisk>, all: seq<SetDisk>, titles: seq<Id>, target: Id, compact: bool)
    ensures Ids(AfterAdd(own, InTitles(all, titles, |titles|), target, compact))
         == Ids(SortByNo(own)) + Flat(TitleOrders(all, titles))
  {
    FlatOrders(all, titles, |titles|);
    assert TitleOrders(all, titles)[..|titles|] == TitleOrders(all, titles);
  }

  lemma SourcesNotEmpty(lib: Lib, org: Id, target: Id, ids: seq<Id>, all: seq<SetDisk>)
    requires Addable(lib, org, target, ids) && ListsAll(lib, org, Sources(lib, ids), all)
    ensures forall snap :: snap in TitleOrders(all, Sources(lib, ids)) ==> snap != []
  {
    var picked, titles := Rows(lib, Dedupe(ids)), Sources(lib, ids);
    TitlesHas(picked);
    forall i | 0 <= i < |titles| ensures TitleOrders(all, titles)[i] != [] {
      assert titles[i] in titles;
      var x :| x in picked && x.game == titles[i];
      var k :| 0 <= k < |picked| && picked[k] == x;
      assert Dedupe(ids)[k] in Dedupe(ids) && Listed(lib, org, x.game, x);
      OfGameHas(all, titles[i]);
      assert x in OfGame(all, titles[i]);
    }
  }

  /** After an add, the set holds its own disks and then each source's. */
  lemma AddHolds(lib: Lib, org: Id, target: Id, ids: seq<Id>, own: seq<SetDisk>, all: seq<SetDisk>,
          devs: seq<DeviceRef>, compact: bool)
    requires Keyed(lib) && BoardsRight(lib) && Lists(lib, org, target, own) && ListsDevices(lib, org, devs) && own != []
    requires Addable(lib, org, target, ids) && ListsAll(lib, org, Sources(lib, ids), all)
    requires forall x :: x in all ==> lib.disks[x.id].local
    ensures var r := AddDisks(lib, org, target, ids, own, all, devs, compact);
            r.Ok? && Holding(r.value.lib, org, target, Ids(SortByNo(own)), r.value.undo)
  {
    var titles := Sources(lib, ids);
    AddMoves(lib, org, target, ids, own, all, devs, compact);
    SourcesThere(lib, org, target, ids);
    SourcesNotEmpty(lib, org, target, ids, all);
    AfterAddIds(own, all, titles, target, compact);
    var l := AddDisks(lib, org, target, ids, own, all, devs, compact).value.lib;
    OrderIds(l, org, target, AfterAdd(own, InTitles(all, titles, |titles|), target, compact));
    SortSorts(own);
    SourcesLocal(lib, org, titles, all);
    StillLocal(lib, l, org, {target} + (set g | g in titles), Flat(TitleOrders(all, titles)));
  }

  lemma SourcesLocal(lib: Lib, org: Id, titles: seq<Id>, all: seq<SetDisk>)
    requires ListsAll(lib, org, titles, all) && forall x :: x in all ==> lib.disks[x.id].local
    requires forall i, j :: 0 <= i < j < |titles| ==> titles[i] != titles[j]
    ensures AllLocal(lib, org, Flat(TitleOrders(all, titles)))
  {
    var moved := InTitles(all, titles, |titles|);
    InTitlesHas(all, titles, |titles|);
    FlatOrders(all, titles, |titles|);
    assert TitleOrders(all, titles)[..|titles|] == TitleOrders(all, titles);
    forall d | d in Ids(moved) ensures LocalDisk(lib, org, d) {
      var i :| 0 <= i < |moved| && moved[i].id == d;
      assert moved[i] in moved;
      assert Listed(lib, org, moved[i].game, moved[i]);
    }
  }

  /**
   * Whole titles added to a set that is not empty, and their snapshots undone in any order: the
   * disks are grouped as they were, each group in its order. The set has its own disks again, and
   * each source is a title (under a new id) numbered 1..k.
   */
  lemma AddThenUndo(lib: Lib, org: Id, target: Id, ids: seq<Id>, own: seq<SetDisk>, all: seq<SetDisk>,
          devs: seq<DeviceRef>, compact: bool, a: Added, calls: seq<UndoCall>)
    requires Keyed(lib) && BoardsRight(lib) && Lists(lib, org, target, own) && ListsDevices(lib, org, devs) && own != []
    requires Addable(lib, org, target, ids) && ListsAll(lib, org, Sources(lib, ids), all)
    requires forall x :: x in all ==> lib.disks[x.id].local
    requires AddDisks(lib, org, target, ids, own, all, devs, compact) == Ok(a)
    requires Undoes(a.lib, org, target, a.undo, calls) && |calls| == |a.undo|
    ensures HoldsInOrder(lib, org, target, Ids(SortByNo(own))) && |a.undo| == |Sources(lib, ids)|
    ensures forall i :: 0 <= i < |a.undo| ==> HoldsInOrder(lib, org, Sources(lib, ids)[i], a.undo[i])
    ensures var r := UndoAll(a.lib, org, a.undo, calls);
            && r.Ok? && Restored(r.value, org, target, Ids(SortByNo(own)))
            && multiset(Undone(a.undo, calls)) == multiset(a.undo) && |Undone(a.undo, calls)| == |calls|
            && (forall k :: 0 <= k < |calls| ==> Restored(r.value, org, calls[k].newId, Undone(a.undo, calls)[k]))
            && BoardsRight(r.value) && r.value.disks.Keys == lib.disks.Keys
  {
    var titles := Sources(lib, ids);
    AddMoves(lib, org, target, ids, own, all, devs, compact);
    AddHolds(lib, org, target, ids, own, all, devs, compact);
    SourcesThere(lib, org, target, ids);
    UndosRestore(a.lib, org, target, Ids(SortByNo(own)), a.undo, calls);
    EachUndone(a.undo, calls);
    SortedListing(lib, org, target, own);
    OrderIds(lib, org, target, SortByNo(own));
    forall i | 0 <= i < |a.undo| ensures HoldsInOrder(lib, org, titles[i], a.undo[i]) {
      assert titles[i] in titles;
      SourceOrder(lib, org, titles, all, titles[i]);
      OrderIds(lib, org, titles[i], SortByNo(OfGame(all, titles[i])));
    }
  }
}
