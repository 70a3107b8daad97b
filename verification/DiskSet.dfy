/**
 * Plans for disk sets (src/lib/disk-set.ts): which title each disk belongs to and its number in it,
 * worked out from lists of disks alone.
 *
 * Ids are numbers, ordered as the source orders its strings.
 */
module DiskSet {
  import opened Bytes

  type Id = nat

  datatype SetDisk = SetDisk(id: Id, game: Id, no: int)

  datatype DeviceRef = DeviceRef(id: Id, desired: Option<Id>, mounted: Option<Id>)

  /** A title and a number in it. */
  datatype Place = Place(game: Id, no: int)

  datatype DeviceUpdate = DeviceUpdate(device: Id, desired: Option<Place>, mounted: Option<Place>)

  /** One disk's new place, pinned to the title it was read in. */
  datatype Renumber = Renumber(disk: Id, to: Place, from: Id)

  datatype Plan = Plan(renumber: seq<Renumber>, emptied: seq<Id>, devices: seq<DeviceUpdate>)

  datatype PlanError = StaleOrder | NothingToAdd | SameTitle | NotInASet | StaleUndo | NotFound | Aborted

  datatype Result<+T> = Ok(value: T) | Err(error: PlanError)

  // ---- byNo ----

  predicate Less(a: SetDisk, b: SetDisk) {
    a.no < b.no || (a.no == b.no && a.id < b.id)
  }

  ghost predicate Sorted(s: seq<SetDisk>) {
    forall i, j :: 0 <= i < j < |s| ==> Less(s[i], s[j])
  }

  ghost predicate Distinct(s: seq<SetDisk>) {
    forall i, j :: 0 <= i < j < |s| ==> s[i].id != s[j].id
  }

  ghost predicate SameDisks(s: seq<SetDisk>, t: seq<SetDisk>) {
    |s| == |t| && forall x: SetDisk :: x in s <==> x in t
  }

  function Put(s: seq<SetDisk>, x: SetDisk): (r: seq<SetDisk>)
    ensures |r| == |s| + 1
  {
    if s == [] || Less(s[|s| - 1], x) then s + [x] else Put(s[..|s| - 1], x) + [s[|s| - 1]]
  }

  /** Any sort by number and then id. */
  function SortByNo(s: seq<SetDisk>): (r: seq<SetDisk>)
    ensures |r| == |s|
  {
    if s == [] then [] else Put(SortByNo(s[..|s| - 1]), s[|s| - 1])
  }

  lemma {:induction false} PutHas(s: seq<SetDisk>, x: SetDisk)
    ensures forall y: SetDisk :: y in Put(s, x) <==> y == x || y in s
  {
    if s != [] && !Less(s[|s| - 1], x) {
      PutHas(s[..|s| - 1], x);
      assert s == s[..|s| - 1] + [s[|s| - 1]];
    }
  }

  lemma {:induction false} PutSorted(s: seq<SetDisk>, x: SetDisk)
    requires Sorted(s) && forall i :: 0 <= i < |s| ==> s[i].id != x.id
    ensures Sorted(Put(s, x))
  {
    if s != [] && !Less(s[|s| - 1], x) {
      var front, last := s[..|s| - 1], s[|s| - 1];
      PutSorted(front, x);
      PutHas(front, x);
      forall i | 0 <= i < |s| ensures Less(Put(front, x)[i], last) {
        assert Put(front, x)[i] in Put(front, x);
        if Put(front, x)[i] != x { assert Put(front, x)[i] in front; }
      }
    }
  }

  /** Sorting keeps the disks and puts them in order. */
  lemma {:induction false} SortSorts(s: seq<SetDisk>)
    requires Distinct(s)
    ensures Sorted(SortByNo(s)) && SameDisks(s, SortByNo(s))
  {
    if s != [] {
      var front, last := s[..|s| - 1], s[|s| - 1];
      SortSorts(front);
      assert s == front + [last];
      forall i | 0 <= i < |front| ensures SortByNo(front)[i].id != last.id {
        assert SortByNo(front)[i] in SortByNo(front);
        assert SortByNo(front)[i] in front;
      }
      PutSorted(SortByNo(front), last);
      PutHas(SortByNo(front), last);
    }
  }

  /** There is one order: however the disks were listed, they sort the same. */
  lemma {:induction false} OneOrder(s: seq<SetDisk>, t: seq<SetDisk>)
    requires Sorted(s) && Sorted(t) && forall x: SetDisk :: x in s <==> x in t
    ensures s == t
  {
    if t != [] { assert t[0] in s; }
    if s != [] {
      assert s[0] in t;
      var i :| 0 <= i < |t| && t[i] == s[0];
      var j :| 0 <= j < |s| && s[j] == t[0];
      FirstIsLeast(t, i);
      FirstIsLeast(s, j);
      forall x: SetDisk ensures x in s[1..] <==> x in t[1..] {
        TailHas(s, x);
        TailHas(t, x);
      }
      OneOrder(s[1..], t[1..]);
      assert s == [s[0]] + s[1..] && t == [t[0]] + t[1..];
    }
  }

  lemma FirstIsLeast(s: seq<SetDisk>, i: nat)
    requires Sorted(s) && i < |s|
    ensures s[i] == s[0] || Less(s[0], s[i])
  {
  }

  lemma TailHas(s: seq<SetDisk>, x: SetDisk)
    requires Sorted(s) && s != []
    ensures x in s[1..] <==> x in s && x != s[0]
  {
    if x in s[1..] {
      var k :| 0 <= k < |s[1..]| && s[1..][k] == x;
      assert Less(s[0], s[k + 1]);
    }
  }

  // ---- The plans ----

  /** These disks, in this order, numbered on from `start`. */
  function Number(s: seq<SetDisk>, game: Id, start: int): (rs: seq<Renumber>)
    ensures |rs| == |s|
    ensures forall i :: 0 <= i < |s| ==> rs[i] == Renumber(s[i].id, Place(game, start + i + 1), s[i].game)
  {
    seq(|s|, i requires 0 <= i < |s| => Renumber(s[i].id, Place(game, start + i + 1), s[i].game))
  }

  function OfGame(s: seq<SetDisk>, game: Id): seq<SetDisk> {
    if s == [] then []
    else OfGame(s[..|s| - 1], game) + if s[|s| - 1].game == game then [s[|s| - 1]] else []
  }

  /** The titles of these disks, in the order they are met. */
  function Titles(s: seq<SetDisk>): seq<Id> {
    if s == [] then []
    else
      var before := Titles(s[..|s| - 1]);
      if s[|s| - 1].game in before then before else before + [s[|s| - 1].game]
  }

  /** Every disk of the first n of these titles, title by title, each in disk order. */
  function InTitles(all: seq<SetDisk>, titles: seq<Id>, n: nat): seq<SetDisk>
    requires n <= |titles|
  {
    if n == 0 then [] else InTitles(all, titles, n - 1) + SortByNo(OfGame(all, titles[n - 1]))
  }

  function MaxNo(s: seq<SetDisk>): (m: int)
    ensures m >= 0 && forall x :: x in s ==> x.no <= m
  {
    if s == [] then 0
    else
      var m := MaxNo(s[..|s| - 1]);
      assert s == s[..|s| - 1] + [s[|s| - 1]];
      if s[|s| - 1].no > m then s[|s| - 1].no else m
  }

  /** Where a plan puts a disk: the last word on it. */
  function NewPlace(rs: seq<Renumber>, disk: Id): Option<Place> {
    if rs == [] then None
    else if rs[|rs| - 1].disk == disk then Some(rs[|rs| - 1].to)
    else NewPlace(rs[..|rs| - 1], disk)
  }

  function NewPlaceOf(rs: seq<Renumber>, disk: Option<Id>): Option<Place> {
    if disk.Some? then NewPlace(rs, disk.value) else None
  }

  function DeviceUpdates(rs: seq<Renumber>, devices: seq<DeviceRef>): seq<DeviceUpdate> {
    if devices == [] then []
    else
      var d := devices[|devices| - 1];
      var desired, mounted := NewPlaceOf(rs, d.desired), NewPlaceOf(rs, d.mounted);
      DeviceUpdates(rs, devices[..|devices| - 1]) +
      if desired.Some? || mounted.Some? then [DeviceUpdate(d.id, desired, mounted)] else []
  }

  function PlanAdd(target: Id, disks: seq<SetDisk>, incoming: seq<SetDisk>, all: seq<SetDisk>,
                   devices: seq<DeviceRef>, compact: bool): Result<Plan>
  {
    if incoming == [] then Err(NothingToAdd)
    else if exists x :: x in incoming && x.game == target then Err(SameTitle)
    else
      var titles := Titles(incoming);
      var moved := InTitles(all, titles, |titles|);
      var rs := if compact then Number(SortByNo(disks) + moved, target, 0) else Number(moved, target, MaxNo(disks));
      Ok(Plan(rs, titles, DeviceUpdates(rs, devices)))
  }

  /** The disk of this id in a list of disks, by its place in the list; the last one if there are more. */
  function DiskIn(disks: seq<SetDisk>, id: Id): (x: Option<SetDisk>)
    ensures x.None? <==> forall d :: d in disks ==> d.id != id
    ensures x.Some? ==> x.value in disks && x.value.id == id
  {
    if disks == [] then None
    else
      var last := disks[|disks| - 1];
      assert disks == disks[..|disks| - 1] + [last];
      if last.id == id then Some(last) else DiskIn(disks[..|disks| - 1], id)
  }

  /** A new order names every disk of the list once. */
  predicate Orders(ids: seq<Id>, disks: seq<SetDisk>) {
    && |ids| == |disks|
    && (forall i, j :: 0 <= i < j < |ids| ==> ids[i] != ids[j])
    && (forall id :: id in ids ==> DiskIn(disks, id).Some?)
  }

  function InOrder(disks: seq<SetDisk>, ids: seq<Id>): (s: seq<SetDisk>)
    requires forall id :: id in ids ==> DiskIn(disks, id).Some?
    ensures |s| == |ids| && forall i :: 0 <= i < |ids| ==> s[i].id == ids[i] && s[i] in disks
  {
    seq(|ids|, i requires 0 <= i < |ids| => DiskIn(disks, ids[i]).value)
  }

  function PlanReorder(game: Id, disks: seq<SetDisk>, ids: seq<Id>, devices: seq<DeviceRef>): Result<Plan> {
    if !Orders(ids, disks) then Err(StaleOrder)
    else
      var rs := Number(InOrder(disks, ids), game, 0);
      Ok(Plan(rs, [], DeviceUpdates(rs, devices)))
  }

  function PlanMoveOut(disk: SetDisk, newGame: Id, remaining: seq<SetDisk>, devices: seq<DeviceRef>): Plan {
    var rs := Number([disk], newGame, 0) + Number(SortByNo(remaining), disk.game, 0);
    Plan(rs, if remaining == [] then [disk.game] else [], DeviceUpdates(rs, devices))
  }
}
