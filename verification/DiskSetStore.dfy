/**
 * The planners and the store as the code runs them: lists pushed to in loops, statements run one
 * after another on the rows (src/lib/disk-set.ts, src/lib/disk-set-store.ts).
 */
module DiskSetStore {
  import opened Bytes
  import opened DiskSet
  import opened DiskSetLibrary
  import opened DiskSetUnchanged
  import opened DiskSetOps
  import opened DiskSetUndo
  import opened DiskSetAdd

  // ---- The planners ----

  method UpdatesOf(rs: seq<Renumber>, devices: seq<DeviceRef>) returns (out: seq<DeviceUpdate>)
    ensures out == DeviceUpdates(rs, devices)
  {
    out := [];
    for i := 0 to |devices|
      invariant out == DeviceUpdates(rs, devices[..i])
    {
      assert devices[..i + 1][..i] == devices[..i];
      var d := devices[i];
      var desired, mounted := NewPlaceOf(rs, d.desired), NewPlaceOf(rs, d.mounted);
      if desired.Some? || mounted.Some? { out := out + [DeviceUpdate(d.id, desired, mounted)]; }
    }
    assert devices[..|devices|] == devices;
  }

  /** The titles of the disks to add, as they are met. */
  method TitlesMet(incoming: seq<SetDisk>) returns (order: seq<Id>)
    ensures order == Titles(incoming)
  {
    order := [];
    for i := 0 to |incoming|
      invariant order == Titles(incoming[..i])
    {
      assert incoming[..i + 1][..i] == incoming[..i];
      if incoming[i].game !in order { order := order + [incoming[i].game]; }
    }
    assert incoming[..|incoming|] == incoming;
  }

  /** Each of these disks pushed under the next number. */
  method PushNumbered(renumber: seq<Renumber>, s: seq<SetDisk>, game: Id, start: int) returns (out: seq<Renumber>,
          next: int)
    ensures out == renumber + Number(s, game, start) && next == start + |s|
  {
    out, next := renumber, start;
    for i := 0 to |s|
      invariant out == renumber + Number(s, game, start)[..i] && next == start + i
    {
      next := next + 1;
      out := out + [Renumber(s[i].id, Place(game, next), s[i].game)];
    }
  }

  lemma NumberAppend(a: seq<SetDisk>, b: seq<SetDisk>, game: Id, start: int)
    ensures Number(a + b, game, start) == Number(a, game, start) + Number(b, game, start + |a|)
  {
  }

  lemma Associates(a: seq<Renumber>, b: seq<Renumber>, c: seq<Renumber>)
    ensures a + b + c == a + (b + c)
  {
  }

  /** The first i titles pushed. */
  ghost predicate Pushed(out: seq<Renumber>, next: int, renumber: seq<Renumber>, all: seq<SetDisk>, order: seq<Id>,
                         i: nat, target: Id, start: int)
    requires i <= |order|
  {
    next == start + |InTitles(all, order, i)| && out == renumber + Number(InTitles(all, order, i), target, start)
  }

  lemma PushedMore(out: seq<Renumber>, next: int, renumber: seq<Renumber>, all: seq<SetDisk>, order: seq<Id>,
                   i: nat, target: Id, start: int)
    requires i < |order| && Pushed(out, next, renumber, all, order, i, target, start)
    ensures var mine := SortByNo(OfGame(all, order[i]));
            Pushed(out + Number(mine, target, next), next + |mine|, renumber, all, order, i + 1, target, start)
  {
    var before, mine := InTitles(all, order, i), SortByNo(OfGame(all, order[i]));
    NumberAppend(before, mine, target, start);
    Associates(renumber, Number(before, target, start), Number(mine, target, start + |before|));
  }

  /** Each title's disks pushed in turn. */
  method PushTitles(renumber: seq<Renumber>, all: seq<SetDisk>, order: seq<Id>, target: Id,
          start: int) returns (out: seq<Renumber>)
    ensures out == renumber + Number(InTitles(all, order, |order|), target, start)
  {
    out := renumber;
    var next := start;
    for i := 0 to |order|
      invariant Pushed(out, next, renumber, all, order, i, target, start)
    {
      PushedMore(out, next, renumber, all, order, i, target, start);
      out, next := PushNumbered(out, SortByNo(OfGame(all, order[i])), target, next);
    }
  }

  method PlanAddDisks(target: Id, disks: seq<SetDisk>, incoming: seq<SetDisk>, all: seq<SetDisk>,
                      devices: seq<DeviceRef>, compact: bool) returns (r: Result<Plan>)
    ensures r == PlanAdd(target, disks, incoming, all, devices, compact)
  {
    if incoming == [] { return Err(NothingToAdd); }
    if exists x :: x in incoming && x.game == target { return Err(SameTitle); }
    var order := TitlesMet(incoming);
    var renumber: seq<Renumber> := [];
    var next := 0;
    if compact {
      renumber, next := PushNumbered([], SortByNo(disks), target, 0);
      assert renumber == Number(SortByNo(disks), target, 0);
      NumberAppend(SortByNo(disks), InTitles(all, order, |order|), target, 0);
    } else {
      next := MaxNo(disks);
    }
    renumber := PushTitles(renumber, all, order, target, next);
    assert [] + Number(InTitles(all, order, |order|), target, next)
        == Number(InTitles(all, order, |order|), target, next);
    var updates := UpdatesOf(renumber, devices);
    r := Ok(Plan(renumber, order, updates));
  }

  method PlanMoveOutOf(disk: SetDisk, newGame: Id, remaining: seq<SetDisk>,
          devices: seq<DeviceRef>) returns (plan: Plan)
    ensures plan == PlanMoveOut(disk, newGame, remaining, devices)
  {
    var renumber := [Renumber(disk.id, Place(newGame, 1), disk.game)];
    var next;
    renumber, next := PushNumbered(renumber, SortByNo(remaining), disk.game, 0);
    assert Number([disk], newGame, 0) == [Renumber(disk.id, Place(newGame, 1), disk.game)];
    var updates := UpdatesOf(renumber, devices);
    plan := Plan(renumber, if remaining == [] then [disk.game] else [], updates);
  }

  // ---- The store ----

  /** What the two guarded deletes come to: the cascade finds nothing left to take. */
  lemma NoneLeftToTake(lib: Lib, org: Id, emptied: seq<Id>)
    ensures var l := DeleteEmptied(lib, org, emptied);
            && l.disks == lib.disks && l.devices == lib.devices
            && l.games == (map g | g in lib.games && !EmptiedTitle(lib, org, emptied, g) :: lib.games[g])
            && l.members == set m | m in lib.members && !(m.1 in emptied && NoDiskLeft(lib, m.1))
  {
  }

  /** A title the deletes may take: asked for, of this organisation, with no disk of anybody's. */
  predicate EmptiedTitle(lib: Lib, org: Id, emptied: seq<Id>, game: Id) {
    game in emptied && game in lib.games && lib.games[game].org == org && NoDiskLeft(lib, game)
  }

  class Store {
    var games: map<Id, Game>
    var disks: map<Id, Disk>
    var devices: map<Id, Device>
    var members: set<(Id, Id)>

    ghost function State(): Lib
      reads this
    {
      Lib(games, disks, devices, members)
    }

    constructor (lib: Lib)
      ensures State() == lib
    {
      games, disks, devices, members := lib.games, lib.disks, lib.devices, lib.members;
    }

    /** The rows of these disks, in whatever order the database has them. */
    method ReadRows(want: set<Id>) returns (s: seq<SetDisk>)
      requires forall d :: d in want ==> d in disks
      ensures Distinct(s) && forall x: SetDisk :: x in s <==> x.id in want && x == Row(State(), x.id)
    {
      s := [];
      var left := want;
      while left != {}
        invariant left <= want && Distinct(s)
        invariant forall x: SetDisk :: x in s <==> x.id in want - left && x == Row(State(), x.id)
      {
        var d :| d in left;
        s := s + [SetDisk(d, disks[d].at.game, disks[d].at.no)];
        left := left - {d};
      }
    }

    method DisksOf(org: Id, game: Id) returns (s: seq<SetDisk>)
      ensures Lists(State(), org, game, s)
    {
      s := ReadRows(set d | d in disks && disks[d].org == org && disks[d].at.game == game);
    }

    function Ref(v: Id): DeviceRef
      requires v in devices
      reads this
    {
      DeviceRef(v, devices[v].desired, devices[v].mounted)
    }

    method OrgDevices(org: Id) returns (devs: seq<DeviceRef>)
      ensures ListsDevices(State(), org, devs)
    {
      devs := [];
      ghost var mine := set v | v in devices && devices[v].org == org;
      var left := set v | v in devices && devices[v].org == org;
      while left != {}
        invariant left <= mine
        invariant forall i, j :: 0 <= i < j < |devs| ==> devs[i].id != devs[j].id
        invariant forall i :: 0 <= i < |devs| ==> devs[i].id in mine - left && devs[i] == Ref(devs[i].id)
        invariant forall v :: v in mine - left ==> Ref(v) in devs
      {
        var v :| v in left;
        devs := devs + [Ref(v)];
        left := left - {v};
      }
      forall v | v in devices && devices[v].org == org ensures exists i :: 0 <= i < |devs| && devs[i].id == v {
        assert v in mine && Ref(v) in devs;
        var i :| 0 <= i < |devs| && devs[i] == Ref(v);
        assert devs[i].id == v;
      }
    }

    /** One board's statements. */
    method UpdateDevice(org: Id, u: DeviceUpdate, devs: seq<DeviceRef>)
      modifies `devices
      ensures State() == WriteDevice(old(State()), org, u, devs)
    {
      var ref := RefOf(devs, u.device);
      if ref.None? { return; }
      var id := u.device;
      if u.desired.Some? && ref.value.desired.Some? {
        var disk, at := ref.value.desired.value, u.desired.value;
        if id in devices && devices[id].org == org && devices[id].desired == Some(disk)
           && disk in disks && disks[disk].at == at {
          devices := devices[id := devices[id].(desiredAt := Some(at))];
        }
      }
      if u.mounted.Some? && ref.value.mounted.Some? {
        var disk, at := ref.value.mounted.value, u.mounted.value;
        if id in devices && devices[id].org == org && devices[id].mounted == Some(disk)
           && disk in disks && disks[disk].at == at {
          devices := devices[id := devices[id].(mountedAt := Some(at))];
        }
      }
    }

    /** The memberships, then the titles: and with a title, by the cascade, any disk it still had. */
    method DeleteEmptiedTitles(org: Id, emptied: seq<Id>)
      modifies this
      ensures State() == DeleteEmptied(old(State()), org, emptied)
      ensures disks == old(disks) && devices == old(devices)
      ensures games == map g | g in old(games) && !EmptiedTitle(old(State()), org, emptied, g) :: old(games)[g]
      ensures members == set m | m in old(members) && !(m.1 in emptied && NoDiskLeft(old(State()), m.1))
    {
      NoneLeftToTake(State(), org, emptied);
      DeleteMemberships(emptied);
      DeleteTitlesLeft(org, emptied);
    }

    /** The first of the two statements. */
    method DeleteMemberships(emptied: seq<Id>)
      modifies `members
      ensures members == set m | m in old(members) && !(m.1 in emptied && NoDiskLeft(old(State()), m.1))
    {
      members := set m | m in members && !(m.1 in emptied && forall d :: d in disks ==> disks[d].at.game != m.1);
    }

    /** The second, with its cascade. */
    method DeleteTitlesLeft(org: Id, emptied: seq<Id>)
      modifies this
      ensures State() == DeleteTitles(old(State()),
                                      set g | g in old(games) && EmptiedTitle(old(State()), org, emptied, g))
    {
      var gone := set g | g in games && g in emptied && games[g].org == org
                          && forall d :: d in disks ==> disks[d].at.game != g;
      assert gone == set g | g in old(games) && EmptiedTitle(old(State()), org, emptied, g);
      games := games - gone;
      disks := map d | d in disks && disks[d].at.game !in gone :: disks[d];
      members := set m | m in members && m.1 !in gone;
    }

    /** One transaction: everything, or nothing at all. */
    method RunBatch(org: Id, insert: Option<Id>, plan: Plan, devs: seq<DeviceRef>, emptied: seq<Id>) returns (ok: bool)
      modifies this
      ensures ok <==> Batch(old(State()), org, insert, plan, devs, emptied).Some?
      ensures State() == if ok then Batch(old(State()), org, insert, plan, devs, emptied).value else old(State())
    {
      var games0, disks0 := games, disks;
      if insert.Some? {
        if insert.value in games { return false; }
        games := games[insert.value := Game(org, true)];
      }
      ghost var l0 := State();
      for i := 0 to |plan.renumber|
        invariant MoveDisks(l0, org, plan.renumber, i) == Some(State())
        invariant games == l0.games && devices == old(devices) && members == old(members)
      {
        var r := plan.renumber[i];
        if r.disk in disks && disks[r.disk].org == org && disks[r.disk].at.game == r.from {
          if r.to.game !in games {
            StaysRefused(l0, org, plan.renumber, i + 1, |plan.renumber|);
            games, disks := games0, disks0;
            return false;
          }
          disks := disks[r.disk := disks[r.disk].(at := r.to)];
        }
      }
      ghost var l1 := State();
      for i := 0 to |plan.devices|
        invariant State() == WriteDevices(l1, org, plan.devices, devs, i)
      {
        UpdateDevice(org, plan.devices[i], devs);
      }
      DeleteEmptiedTitles(org, emptied);
      ok := true;
    }

    method ReorderSet(org: Id, game: Id, ids: seq<Id>)
      returns (error: Option<PlanError>, ghost own: seq<SetDisk>, ghost devs: seq<DeviceRef>)
      modifies this
      ensures Lists(old(State()), org, game, own) && ListsDevices(old(State()), org, devs)
      ensures match Reorder(old(State()), org, game, ids, own, devs)
              case Err(e) => error == Some(e) && State() == old(State())
              case Ok(l) => error == None && State() == l
    {
      var mine := DisksOf(org, game);
      var refs := OrgDevices(org);
      own, devs := mine, refs;
      if !HasTitle(org, game) { return Some(NotFound), own, devs; }
      var plan := PlanReorder(game, mine, ids, refs);
      if plan.Err? { return Some(plan.error), own, devs; }
      var ok := RunBatch(org, None, plan.value, refs, []);
      error := if ok then None else Some(Aborted);
    }

    predicate HasTitle(org: Id, game: Id)
      reads this
    {
      game in games && games[game].org == org && games[game].local
    }

    /** The disks of these ids that are the organisation's own; all of them, or not found. */
    method ReadPicked(org: Id, ids: seq<Id>) returns (picked: Option<seq<SetDisk>>)
      ensures picked.Some? <==> forall d :: d in ids ==> LocalDisk(State(), org, d)
      ensures picked.Some? ==> picked.value == Rows(State(), ids)
    {
      var rows: seq<SetDisk> := [];
      for i := 0 to |ids|
        invariant forall d :: d in ids[..i] ==> LocalDisk(State(), org, d)
        invariant rows == Rows(State(), ids[..i])
      {
        var d := ids[i];
        assert d in ids && ids[..i + 1] == ids[..i] + [d];
        if d !in disks || disks[d].org != org || !disks[d].local { return None; }
        rows := rows + [SetDisk(d, disks[d].at.game, disks[d].at.no)];
      }
      assert ids[..|ids|] == ids;
      picked := Some(rows);
    }

    /** Every disk of these titles. */
    method DisksOfAll(org: Id, titles: seq<Id>) returns (all: seq<SetDisk>)
      ensures ListsAll(State(), org, titles, all)
    {
      all := ReadRows(set d | d in disks && disks[d].org == org && disks[d].at.game in titles);
    }

    /** The reads of an add, and its plan. */
    method ReadAdd(org: Id, game: Id, ids: seq<Id>, compact: bool)
      returns (r: Result<Plan>, all: seq<SetDisk>, devs: seq<DeviceRef>, ghost own: seq<SetDisk>)
      ensures Lists(State(), org, game, own) && ListsDevices(State(), org, devs)
      ensures Addable(State(), org, game, ids) ==> ListsAll(State(), org, Sources(State(), ids), all)
      ensures r == AddPlan(State(), org, game, ids, own, all, devs, compact)
    {
      var mine := DisksOf(org, game);
      own := mine;
      devs := OrgDevices(org);
      all := [];
      if ids == [] { return Err(NothingToAdd), all, devs, own; }
      if !HasTitle(org, game) { return Err(NotFound), all, devs, own; }
      var picked := ReadPicked(org, Dedupe(ids));
      if picked.None? { return Err(NotFound), all, devs, own; }
      var titles := TitlesMet(picked.value);
      all := DisksOfAll(org, titles);
      if exists x :: x in picked.value && x.game == game { return Err(SameTitle), all, devs, own; }
      if exists g :: g in titles && !HasTitle(org, g) { return Err(NotFound), all, devs, own; }
      r := PlanAddDisks(game, mine, picked.value, all, devs, compact);
    }

    method AddDisksToSet(org: Id, game: Id, ids: seq<Id>, compact: bool)
      returns (r: Result<seq<seq<Id>>>, ghost own: seq<SetDisk>, ghost all: seq<SetDisk>, ghost devs: seq<DeviceRef>)
      modifies this
      ensures Lists(old(State()), org, game, own) && ListsDevices(old(State()), org, devs)
      ensures Addable(old(State()), org, game, ids) ==> ListsAll(old(State()), org, Sources(old(State()), ids), all)
      ensures match AddDisks(old(State()), org, game, ids, own, all, devs, compact)
              case Err(e) => r == Err(e) && State() == old(State())
              case Ok(a) => r == Ok(a.undo) && State() == a.lib
    {
      var plan, sources, refs;
      plan, sources, refs, own := ReadAdd(org, game, ids, compact);
      all, devs := sources, refs;
      if plan.Err? { return Err(plan.error), own, all, devs; }
      var ok := RunBatch(org, None, plan.value, refs, plan.value.emptied);
      r := if ok then Ok(Snapshots(plan.value.renumber, sources, plan.value.emptied)) else Err(Aborted);
    }

    method MoveDiskOut(org: Id, disk: Id, newId: Id)
      returns (error: Option<PlanError>, ghost others: seq<SetDisk>, ghost devs: seq<DeviceRef>)
      modifies this
      ensures ListsDevices(old(State()), org, devs)
      ensures disk in old(disks) ==> ListsOthers(old(State()), org, old(disks)[disk].at.game, disk, others)
      ensures match MoveOut(old(State()), org, disk, newId, others, devs)
              case Err(e) => error == Some(e) && State() == old(State())
              case Ok(l) => error == None && State() == l
    {
      var refs := OrgDevices(org);
      devs, others := refs, [];
      if disk !in disks { return Some(NotFound), others, devs; }
      var game := disks[disk].at.game;
      var remaining := ReadRows(set d | d in disks && disks[d].org == org && disks[d].at.game == game && d != disk);
      others := remaining;
      if disks[disk].org != org || !disks[disk].local { return Some(NotFound), others, devs; }
      if remaining == [] { return Some(NotInASet), others, devs; }
      if !HasTitle(org, game) { return Some(NotFound), others, devs; }
      var plan := PlanMoveOutOf(SetDisk(disk, game, disks[disk].at.no), newId, remaining, refs);
      var ok := RunBatch(org, Some(newId), plan, refs, plan.emptied);
      error := if ok then None else Some(Aborted);
    }

    /** The reads of an undo, and its plan. */
    method ReadUndo(org: Id, snap: seq<Id>, newId: Id)
      returns (r: Result<Plan>, devs: seq<DeviceRef>, ghost left: seq<SetDisk>)
      ensures ListsDevices(State(), org, devs)
      ensures snap != [] && snap[0] in disks ==> Lists(State(), org, disks[snap[0]].at.game, left)
      ensures r == UndoPlan(State(), org, snap, newId, left, devs)
    {
      devs := OrgDevices(org);
      var there: seq<SetDisk> := [];
      left := there;
      if snap == [] { return Err(NotFound), devs, left; }
      if snap[0] in disks { there := DisksOf(org, disks[snap[0]].at.game); }
      left := there;
      if |Dedupe(snap)| != |snap| { return Err(NotFound), devs, left; }
      var moving := ReadPicked(org, snap);
      if moving.None? { return Err(NotFound), devs, left; }
      var titles := TitlesMet(moving.value);
      if |titles| != 1 { return Err(StaleUndo), devs, left; }
      var game := moving.value[0].game;
      if game !in games || games[game].org != org { return Err(NotFound), devs, left; }
      var rest := SortByNo(WithoutIds(there, snap));
      if rest == [] { return Err(StaleUndo), devs, left; }
      var first, second := Number(moving.value, newId, 0), Number(rest, game, 0);
      var firstUpdates := UpdatesOf(first, devs);
      var secondUpdates := UpdatesOf(second, devs);
      r := Ok(Plan(first + second, [], firstUpdates + secondUpdates));
    }

    method UndoMove(org: Id, snap: seq<Id>, newId: Id)
      returns (error: Option<PlanError>, ghost left: seq<SetDisk>, ghost devs: seq<DeviceRef>)
      modifies this
      ensures ListsDevices(old(State()), org, devs)
      ensures snap != [] && snap[0] in old(disks) ==> Lists(old(State()), org, old(disks)[snap[0]].at.game, left)
      ensures match Undo(old(State()), org, snap, newId, left, devs)
              case Err(e) => error == Some(e) && State() == old(State())
              case Ok(l) => error == None && State() == l
    {
      var plan, refs;
      plan, refs, left := ReadUndo(org, snap, newId);
      devs := refs;
      if plan.Err? { return Some(plan.error), left, devs; }
      var ok := RunBatch(org, Some(newId), plan.value, refs, []);
      error := if ok then None else Some(Aborted);
    }
  }

  lemma {:induction false} StaysRefused(lib: Lib, org: Id, rs: seq<Renumber>, i: nat, n: nat)
    requires i <= n <= |rs| && MoveDisks(lib, org, rs, i) == None
    ensures MoveDisks(lib, org, rs, n) == None
    decreases n
  {
    if i < n { StaysRefused(lib, org, rs, i, n - 1); }
  }
}
