/**
 * Set operations on a library nobody else is changing: what each one leaves of titles, numbers and
 * boards (planned in src/lib/disk-set.ts, applied in src/lib/disk-set-store.ts).
 *
 * Every guard of the batch then holds, so each statement does all it was planned to do.
 */
module DiskSetUnchanged {
  import opened Bytes
  import opened DiskSet
  import opened DiskSetLibrary

  // ---- What the operations read ----

  /** This disk, as the organisation reads it in this title. */
  ghost predicate Listed(lib: Lib, org: Id, game: Id, x: SetDisk) {
    x.id in lib.disks && lib.disks[x.id].org == org && lib.disks[x.id].at == Place(game, x.no) && x.game == game
  }

  /** A title's disks, in no particular order. */
  ghost predicate Lists(lib: Lib, org: Id, game: Id, s: seq<SetDisk>) {
    Distinct(s) && forall x: SetDisk :: x in s <==> Listed(lib, org, game, x)
  }

  /** And in disk order: there is one such list. */
  ghost predicate IsOrder(lib: Lib, org: Id, game: Id, s: seq<SetDisk>) {
    Sorted(s) && forall x: SetDisk :: x in s <==> Listed(lib, org, game, x)
  }

  lemma SortedListing(lib: Lib, org: Id, game: Id, s: seq<SetDisk>)
    requires Lists(lib, org, game, s)
    ensures IsOrder(lib, org, game, SortByNo(s))
  {
    SortSorts(s);
  }

  /** The boards of an organisation, each once. */
  ghost predicate ListsDevices(lib: Lib, org: Id, devs: seq<DeviceRef>) {
    && (forall i, j :: 0 <= i < j < |devs| ==> devs[i].id != devs[j].id)
    && (forall i :: 0 <= i < |devs| ==>
          && devs[i].id in lib.devices && lib.devices[devs[i].id].org == org
          && devs[i] == DeviceRef(devs[i].id, lib.devices[devs[i].id].desired, lib.devices[devs[i].id].mounted))
    && (forall v :: v in lib.devices && lib.devices[v].org == org ==> exists i :: 0 <= i < |devs| && devs[i].id == v)
  }

  // ---- Moves that all land ----

  ghost predicate AllLand(lib: Lib, org: Id, rs: seq<Renumber>) {
    && (forall i, j :: 0 <= i < j < |rs| ==> rs[i].disk != rs[j].disk)
    && (forall i :: 0 <= i < |rs| ==> Hits(lib, org, rs[i]) && rs[i].to.game in lib.games)
  }

  /** The library with these disks where a plan puts them. */
  function Moved(lib: Lib, rs: seq<Renumber>): Lib {
    lib.(disks := map d | d in lib.disks ::
           if NewPlace(rs, d).Some? then lib.disks[d].(at := NewPlace(rs, d).value) else lib.disks[d])
  }

  lemma {:induction false} NewPlaceIs(rs: seq<Renumber>, i: nat)
    requires i < |rs| && forall j, k :: 0 <= j < k < |rs| ==> rs[j].disk != rs[k].disk
    ensures NewPlace(rs, rs[i].disk) == Some(rs[i].to)
    decreases |rs|
  {
    if i < |rs| - 1 { NewPlaceIs(rs[..|rs| - 1], i); }
  }

  lemma {:induction false} NoNewPlace(rs: seq<Renumber>, d: Id)
    requires forall i :: 0 <= i < |rs| ==> rs[i].disk != d
    ensures NewPlace(rs, d) == None
  {
    if rs != [] { NoNewPlace(rs[..|rs| - 1], d); }
  }

  lemma {:induction false} MovesLand(lib: Lib, org: Id, rs: seq<Renumber>, n: nat)
    requires n <= |rs| && AllLand(lib, org, rs)
    ensures MoveDisks(lib, org, rs, n) == Some(Moved(lib, rs[..n]))
  {
    if n == 0 {
      assert Moved(lib, rs[..0]).disks == lib.disks;
    } else {
      MovesLand(lib, org, rs, n - 1);
      var before, r := Moved(lib, rs[..n - 1]), rs[n - 1];
      NoNewPlace(rs[..n - 1], r.disk);
      assert rs[..n][..n - 1] == rs[..n - 1];
      assert Hits(before, org, r);
      assert MoveDisk(before, org, r).value.disks == Moved(lib, rs[..n]).disks;
    }
  }

  // ---- Boards ----

  ghost predicate RightAt(disk: Option<Id>, at: Option<Place>, org: Id, disks: map<Id, Disk>) {
    disk.Some? && disk.value in disks ==> disks[disk.value].org == org && at == Some(disks[disk.value].at)
  }

  /** A board's desired and mounted places are those of the disks it names, of its own organisation. */
  ghost predicate BoardRight(v: Device, disks: map<Id, Disk>) {
    RightAt(v.desired, v.desiredAt, v.org, disks) && RightAt(v.mounted, v.mountedAt, v.org, disks)
  }

  ghost predicate BoardsRight(lib: Lib) {
    forall v :: v in lib.devices ==> BoardRight(lib.devices[v], lib.disks)
  }

  lemma {:induction false} RefIs(devs: seq<DeviceRef>, i: nat)
    requires i < |devs| && forall j, k :: 0 <= j < k < |devs| ==> devs[j].id != devs[k].id
    ensures RefOf(devs, devs[i].id) == Some(devs[i])
    decreases |devs|
  {
    if i < |devs| - 1 { RefIs(devs[..|devs| - 1], i); }
  }

  lemma {:induction false} EarlierWrites(lib: Lib, org: Id, us: seq<DeviceUpdate>, more: seq<DeviceUpdate>,
          devs: seq<DeviceRef>, n: nat)
    requires n <= |us| && n <= |more| && forall i :: 0 <= i < n ==> us[i] == more[i]
    ensures WriteDevices(lib, org, us, devs, n) == WriteDevices(lib, org, more, devs, n)
  {
    if n > 0 { EarlierWrites(lib, org, us, more, devs, n - 1); }
  }

  /** What the plan's writes make of one board it saw. */
  function Written(v: Device, rs: seq<Renumber>): Device {
    v.(desiredAt := if NewPlaceOf(rs, v.desired).Some? then NewPlaceOf(rs, v.desired) else v.desiredAt,
       mountedAt := if NewPlaceOf(rs, v.mounted).Some? then NewPlaceOf(rs, v.mounted) else v.mountedAt)
  }

  /** Disks a plan moves are where it put them. */
  ghost predicate Moves(l: Lib, rs: seq<Renumber>) {
    forall d :: d in l.disks && NewPlace(rs, d).Some? ==> l.disks[d].at == NewPlace(rs, d).value
  }

  ghost predicate MovesOnlyThere(l: Lib, rs: seq<Renumber>) {
    forall d: Id :: NewPlace(rs, d).Some? ==> d in l.disks
  }

  lemma OneWrite(l: Lib, org: Id, rs: seq<Renumber>, u: DeviceUpdate, devs: seq<DeviceRef>, v: Device)
    requires Moves(l, rs) && MovesOnlyThere(l, rs)
    requires u.device in l.devices && l.devices[u.device] == v && v.org == org
    requires u == DeviceUpdate(u.device, NewPlaceOf(rs, v.desired), NewPlaceOf(rs, v.mounted))
    requires RefOf(devs, u.device) == Some(DeviceRef(u.device, v.desired, v.mounted))
    ensures WriteDevice(l, org, u, devs) == l.(devices := l.devices[u.device := Written(v, rs)])
  {
    assert u.desired.None? && u.mounted.None? ==> l.devices[u.device := v] == l.devices;
  }

  /** The first k boards written, and nothing else. */
  ghost predicate Wrote(l: Lib, after: Lib, rs: seq<Renumber>, devs: seq<DeviceRef>, k: nat)
    requires k <= |devs|
  {
    && after == l.(devices := after.devices) && after.devices.Keys == l.devices.Keys
    && (forall i :: 0 <= i < k ==>
          devs[i].id in l.devices && after.devices[devs[i].id] == Written(l.devices[devs[i].id], rs))
    && (forall v :: v in l.devices && (forall i :: 0 <= i < k ==> devs[i].id != v) ==>
          after.devices[v] == l.devices[v])
  }

  lemma WroteMore(l: Lib, org: Id, before: Lib, rs: seq<Renumber>, devs: seq<DeviceRef>, k: nat)
    requires k < |devs| && ListsDevices(l, org, devs) && Wrote(l, before, rs, devs, k)
    ensures var id := devs[k].id;
            && before.devices[id] == l.devices[id]
            && Wrote(l, before.(devices := before.devices[id := Written(l.devices[id], rs)]), rs, devs, k + 1)
  {
  }

  /** What the statements of the first k boards come to. */
  ghost function WrittenTo(l: Lib, org: Id, rs: seq<Renumber>, devs: seq<DeviceRef>, k: nat): Lib
    requires k <= |devs|
  {
    var us := DeviceUpdates(rs, devs[..k]);
    WriteDevices(l, org, us, devs, |us|)
  }

  lemma OneMoreUpdate(rs: seq<Renumber>, devs: seq<DeviceRef>, k: nat)
    requires k < |devs|
    ensures var d := devs[k];
            var u := DeviceUpdate(d.id, NewPlaceOf(rs, d.desired), NewPlaceOf(rs, d.mounted));
            DeviceUpdates(rs, devs[..k + 1])
            == DeviceUpdates(rs, devs[..k]) + if u.desired.Some? || u.mounted.Some? then [u] else []
  {
    assert devs[..k + 1][..k] == devs[..k] && devs[..k + 1][k] == devs[k];
  }

  lemma WritesOneMore(l: Lib, org: Id, rs: seq<Renumber>, devs: seq<DeviceRef>, k: nat)
    requires k < |devs| && ListsDevices(l, org, devs) && Moves(l, rs) && MovesOnlyThere(l, rs)
    requires Wrote(l, WrittenTo(l, org, rs, devs, k), rs, devs, k)
    ensures var before, id := WrittenTo(l, org, rs, devs, k), devs[k].id;
            && id in l.devices
            && WrittenTo(l, org, rs, devs, k + 1)
               == before.(devices := before.devices[id := Written(l.devices[id], rs)])
  {
    var d, before := devs[k], WrittenTo(l, org, rs, devs, k);
    var v := l.devices[d.id];
    OneMoreUpdate(rs, devs, k);
    RefIs(devs, k);
    WroteMore(l, org, before, rs, devs, k);
    var us, more := DeviceUpdates(rs, devs[..k]), DeviceUpdates(rs, devs[..k + 1]);
    var u := DeviceUpdate(d.id, NewPlaceOf(rs, v.desired), NewPlaceOf(rs, v.mounted));
    if more == us {
      assert Written(v, rs) == v && before.devices[d.id := v] == before.devices;
    } else {
      EarlierWrites(l, org, us, more, devs, |us|);
      OneWrite(before, org, rs, u, devs, v);
    }
  }

  lemma {:induction false} WritesLand(l: Lib, org: Id, rs: seq<Renumber>, devs: seq<DeviceRef>, k: nat)
    requires k <= |devs| && ListsDevices(l, org, devs) && Moves(l, rs) && MovesOnlyThere(l, rs)
    ensures Wrote(l, WrittenTo(l, org, rs, devs, k), rs, devs, k)
    decreases k
  {
    if k > 0 {
      WritesLand(l, org, rs, devs, k - 1);
      WritesOneMore(l, org, rs, devs, k - 1);
      WroteMore(l, org, WrittenTo(l, org, rs, devs, k - 1), rs, devs, k - 1);
    }
  }

  lemma {:induction false} WritesCompose(l: Lib, org: Id, us: seq<DeviceUpdate>, more: seq<DeviceUpdate>,
          devs: seq<DeviceRef>, n: nat)
    requires n <= |more|
    ensures WriteDevices(l, org, us + more, devs, |us| + n)
         == WriteDevices(WriteDevices(l, org, us, devs, |us|), org, more, devs, n)
  {
    if n == 0 {
      EarlierWrites(l, org, us, us + more, devs, |us|);
    } else {
      WritesCompose(l, org, us, more, devs, n - 1);
    }
  }

  /** A plan merged of two, each with its own updates of the boards. */
  ghost predicate Merges(plan: Plan, first: seq<Renumber>, second: seq<Renumber>, devs: seq<DeviceRef>) {
    plan.renumber == first + second && plan.devices == DeviceUpdates(first, devs) + DeviceUpdates(second, devs)
  }

  lemma AllWritesLand(l: Lib, org: Id, rs: seq<Renumber>, devs: seq<DeviceRef>)
    requires ListsDevices(l, org, devs) && Moves(l, rs) && MovesOnlyThere(l, rs)
    ensures var us := DeviceUpdates(rs, devs); Wrote(l, WriteDevices(l, org, us, devs, |us|), rs, devs, |devs|)
  {
    assert devs[..|devs|] == devs;
    WritesLand(l, org, rs, devs, |devs|);
  }

  /** All boards written twice over. */
  ghost predicate WroteBoth(l: Lib, after: Lib, first: seq<Renumber>, second: seq<Renumber>, devs: seq<DeviceRef>) {
    && after == l.(devices := after.devices) && after.devices.Keys == l.devices.Keys
    && (forall i :: 0 <= i < |devs| ==>
          devs[i].id in l.devices
          && after.devices[devs[i].id] == Written(Written(l.devices[devs[i].id], first), second))
    && (forall v :: v in l.devices && (forall i :: 0 <= i < |devs| ==> devs[i].id != v) ==>
          after.devices[v] == l.devices[v])
  }

  lemma WroteTwice(l: Lib, mid: Lib, after: Lib, first: seq<Renumber>, second: seq<Renumber>, devs: seq<DeviceRef>)
    requires Wrote(l, mid, first, devs, |devs|) && Wrote(mid, after, second, devs, |devs|)
    ensures WroteBoth(l, after, first, second, devs)
  {
  }

  lemma BothWritesLand(l: Lib, org: Id, first: seq<Renumber>, second: seq<Renumber>, devs: seq<DeviceRef>)
    requires ListsDevices(l, org, devs) && Moves(l, first) && MovesOnlyThere(l, first)
    requires Moves(l, second) && MovesOnlyThere(l, second)
    ensures var us := DeviceUpdates(first, devs) + DeviceUpdates(second, devs);
            WroteBoth(l, WriteDevices(l, org, us, devs, |us|), first, second, devs)
  {
    var us, more := DeviceUpdates(first, devs), DeviceUpdates(second, devs);
    var mid := WriteDevices(l, org, us, devs, |us|);
    AllWritesLand(l, org, first, devs);
    StillListed(l, mid, org, first, devs);
    assert mid.disks == l.disks;
    AllWritesLand(mid, org, second, devs);
    var after := WriteDevices(mid, org, more, devs, |more|);
    assert WriteDevices(l, org, us + more, devs, |us + more|) == after by {
      WritesCompose(l, org, us, more, devs, |more|);
    }
    WroteTwice(l, mid, after, first, second, devs);
  }

  lemma StillListed(l: Lib, after: Lib, org: Id, rs: seq<Renumber>, devs: seq<DeviceRef>)
    requires ListsDevices(l, org, devs) && Wrote(l, after, rs, devs, |devs|)
    ensures ListsDevices(after, org, devs)
  {
    forall v | v in after.devices && after.devices[v].org == org
      ensures exists i :: 0 <= i < |devs| && devs[i].id == v
    {
      if forall i :: 0 <= i < |devs| ==> devs[i].id != v { assert after.devices[v] == l.devices[v]; }
    }
  }

  lemma {:induction false} NewPlaceBoth(first: seq<Renumber>, second: seq<Renumber>, d: Id)
    ensures NewPlace(first + second, d) == if NewPlace(second, d).Some? then NewPlace(second, d) else NewPlace(first, d)
  {
    if second == [] {
      assert first + second == first;
    } else {
      var n := |second| - 1;
      assert (first + second)[..|first| + n] == first + second[..n];
      NewPlaceBoth(first, second[..n], d);
    }
  }

  /** applyPlan on the library the plan was made from: every move lands, and every board is told. */
  lemma PlanLands(lib: Lib, org: Id, plan: Plan, first: seq<Renumber>, second: seq<Renumber>, devs: seq<DeviceRef>)
    requires AllLand(lib, org, plan.renumber) && ListsDevices(lib, org, devs)
    requires Merges(plan, first, second, devs) && BoardsRight(lib)
    ensures ApplyPlan(lib, org, plan, devs).Some?
    ensures var l := ApplyPlan(lib, org, plan, devs).value;
            && l == Moved(lib, plan.renumber).(devices := l.devices) && l.devices.Keys == lib.devices.Keys
            && BoardsRight(l) && (forall v :: v in lib.devices ==> WrittenTrue(lib.devices[v], l.devices[v], l.disks))
  {
    var rs := plan.renumber;
    MovesLand(lib, org, rs, |rs|);
    assert rs[..|rs|] == rs;
    var l := Moved(lib, rs);
    EachLands(lib, org, first, second);
    BothWritesLand(l, org, first, second, devs);
    WritesAreTrue(l, org, plan.devices, devs, |plan.devices|);
    var after := WriteDevices(l, org, plan.devices, devs, |plan.devices|);
    forall v | v in after.devices ensures BoardRight(after.devices[v], l.disks) {
      assert BoardRight(lib.devices[v], lib.disks);
      if lib.devices[v].org == org {
        var i :| 0 <= i < |devs| && devs[i].id == v;
        assert after.devices[v] == Written(Written(lib.devices[v], first), second);
        WrittenRight(lib, org, first, second, lib.devices[v].desired, lib.devices[v].desiredAt);
        WrittenRight(lib, org, first, second, lib.devices[v].mounted, lib.devices[v].mountedAt);
      } else {
        assert after.devices[v] == lib.devices[v];
        OtherOrgStays(lib, org, rs, lib.devices[v].desired);
        OtherOrgStays(lib, org, rs, lib.devices[v].mounted);
      }
    }
  }

  lemma EachLands(lib: Lib, org: Id, first: seq<Renumber>, second: seq<Renumber>)
    requires AllLand(lib, org, first + second)
    ensures var l := Moved(lib, first + second);
            Moves(l, first) && MovesOnlyThere(l, first) && Moves(l, second) && MovesOnlyThere(l, second)
    ensures forall d: Id :: NewPlace(first + second, d).Some? ==> d in lib.disks && lib.disks[d].org == org
  {
    var rs := first + second;
    forall d: Id | NewPlace(rs, d).Some? ensures d in lib.disks && lib.disks[d].org == org { NewPlaceFrom(rs, d); }
    forall d: Id ensures NewPlace(first, d).Some? ==> NewPlace(rs, d) == NewPlace(first, d) {
      NewPlaceBoth(first, second, d);
      if NewPlace(first, d).Some? && NewPlace(second, d).Some? { Twice(first, second, d); }
    }
    forall d: Id ensures NewPlace(second, d).Some? ==> NewPlace(rs, d) == NewPlace(second, d) {
      NewPlaceBoth(first, second, d);
    }
  }

  lemma Twice(first: seq<Renumber>, second: seq<Renumber>, d: Id)
    requires NewPlace(first, d).Some? && NewPlace(second, d).Some?
    ensures exists i, j :: 0 <= i < j < |first + second| && (first + second)[i].disk == (first + second)[j].disk
  {
    NewPlaceFrom(first, d);
    NewPlaceFrom(second, d);
    var i :| 0 <= i < |first| && first[i].disk == d;
    var j :| 0 <= j < |second| && second[j].disk == d;
    assert (first + second)[i].disk == (first + second)[|first| + j].disk;
  }

  /** What is written for a disk is where it has come to be. */
  lemma WrittenRight(lib: Lib, org: Id, first: seq<Renumber>, second: seq<Renumber>, disk: Option<Id>,
          at: Option<Place>)
    requires AllLand(lib, org, first + second) && RightAt(disk, at, org, lib.disks)
    ensures var mid := if NewPlaceOf(first, disk).Some? then NewPlaceOf(first, disk) else at;
            RightAt(disk, if NewPlaceOf(second, disk).Some? then NewPlaceOf(second, disk) else mid,
                    org, Moved(lib, first + second).disks)
  {
    if disk.Some? { NewPlaceBoth(first, second, disk.value); }
  }

  lemma OtherOrgStays(lib: Lib, org: Id, rs: seq<Renumber>, disk: Option<Id>)
    requires AllLand(lib, org, rs)
    ensures disk.Some? && disk.value in lib.disks && lib.disks[disk.value].org != org ==>
              Moved(lib, rs).disks[disk.value] == lib.disks[disk.value]
  {
    if disk.Some? && NewPlace(rs, disk.value).Some? { NewPlaceFrom(rs, disk.value); }
  }

  lemma {:induction false} NoUpdates(devs: seq<DeviceRef>)
    ensures DeviceUpdates([], devs) == []
  {
    if devs != [] { NoUpdates(devs[..|devs| - 1]); }
  }

  lemma {:induction false} NewPlaceFrom(rs: seq<Renumber>, d: Id)
    requires NewPlace(rs, d).Some?
    ensures exists i :: 0 <= i < |rs| && rs[i].disk == d && rs[i].to == NewPlace(rs, d).value
  {
    var n := |rs| - 1;
    if rs[n].disk != d {
      NewPlaceFrom(rs[..n], d);
      var i :| 0 <= i < |rs[..n]| && rs[..n][i].disk == d && rs[..n][i].to == NewPlace(rs[..n], d).value;
      assert rs[i].disk == d;
    }
  }
}
