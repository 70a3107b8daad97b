/**
 * Plans applied to the library (src/lib/disk-set-store.ts): one batch of guarded statements in one
 * transaction, over titles, disks, boards and collections of every organisation.
 */
module DiskSetLibrary {
  import opened Bytes
  import opened DiskSet

  datatype Game = Game(org: Id, local: bool)

  datatype Disk = Disk(org: Id, at: Place, local: bool)

  /** What a board wants and holds, by disk, and the place last written for each. */
  datatype Device = Device(org: Id, desired: Option<Id>, desiredAt: Option<Place>,
                           mounted: Option<Id>, mountedAt: Option<Place>)

  /** `members` are the pairs of a collection and a title. */
  datatype Lib = Lib(games: map<Id, Game>, disks: map<Id, Disk>, devices: map<Id, Device>, members: set<(Id, Id)>)

  /** Every disk is in a title that is there (its foreign key). */
  ghost predicate Keyed(lib: Lib) {
    forall d :: d in lib.disks ==> lib.disks[d].at.game in lib.games
  }

  // ---- Statements ----

  /** One disk's UPDATE, pinned to its organisation and the title the plan read it in. */
  predicate Hits(lib: Lib, org: Id, r: Renumber) {
    r.disk in lib.disks && lib.disks[r.disk].org == org && lib.disks[r.disk].at.game == r.from
  }

  /** None: the foreign key refuses it, and the transaction is rolled back. */
  function MoveDisk(lib: Lib, org: Id, r: Renumber): Option<Lib> {
    if !Hits(lib, org, r) then Some(lib)
    else if r.to.game !in lib.games then None
    else Some(lib.(disks := lib.disks[r.disk := lib.disks[r.disk].(at := r.to)]))
  }

  /** The first n disk UPDATEs. */
  function MoveDisks(lib: Lib, org: Id, rs: seq<Renumber>, n: nat): Option<Lib>
    requires n <= |rs|
  {
    if n == 0 then Some(lib)
    else match MoveDisks(lib, org, rs, n - 1)
      case None => None
      case Some(l) => MoveDisk(l, org, rs[n - 1])
  }

  predicate DiskIsAt(lib: Lib, disk: Id, at: Place) {
    disk in lib.disks && lib.disks[disk].at == at
  }

  /** The board as the plan saw it. */
  function RefOf(devs: seq<DeviceRef>, id: Id): Option<DeviceRef> {
    if devs == [] then None
    else if devs[|devs| - 1].id == id then Some(devs[|devs| - 1])
    else RefOf(devs[..|devs| - 1], id)
  }

  function WriteDesired(lib: Lib, org: Id, device: Id, disk: Id, at: Place): Lib {
    if device in lib.devices && lib.devices[device].org == org && lib.devices[device].desired == Some(disk)
       && DiskIsAt(lib, disk, at)
    then lib.(devices := lib.devices[device := lib.devices[device].(desiredAt := Some(at))])
    else lib
  }

  function WriteMounted(lib: Lib, org: Id, device: Id, disk: Id, at: Place): Lib {
    if device in lib.devices && lib.devices[device].org == org && lib.devices[device].mounted == Some(disk)
       && DiskIsAt(lib, disk, at)
    then lib.(devices := lib.devices[device := lib.devices[device].(mountedAt := Some(at))])
    else lib
  }

  /** One board's UPDATEs: only while it still names the disk the plan was made from. */
  function WriteDevice(lib: Lib, org: Id, u: DeviceUpdate, devs: seq<DeviceRef>): Lib {
    match RefOf(devs, u.device)
    case None => lib
    case Some(ref) =>
      var l := if u.desired.Some? && ref.desired.Some?
               then WriteDesired(lib, org, u.device, ref.desired.value, u.desired.value) else lib;
      if u.mounted.Some? && ref.mounted.Some?
      then WriteMounted(l, org, u.device, ref.mounted.value, u.mounted.value) else l
  }

  function WriteDevices(lib: Lib, org: Id, us: seq<DeviceUpdate>, devs: seq<DeviceRef>, n: nat): Lib
    requires n <= |us|
  {
    if n == 0 then lib else WriteDevice(WriteDevices(lib, org, us, devs, n - 1), org, us[n - 1], devs)
  }

  /** applyPlan. */
  function ApplyPlan(lib: Lib, org: Id, plan: Plan, devs: seq<DeviceRef>): Option<Lib> {
    match MoveDisks(lib, org, plan.renumber, |plan.renumber|)
    case None => None
    case Some(l) => Some(WriteDevices(l, org, plan.devices, devs, |plan.devices|))
  }

  /** The title has no disk left at all, in any organisation. */
  predicate NoDiskLeft(lib: Lib, game: Id) {
    forall d :: d in lib.disks ==> lib.disks[d].at.game != game
  }

  /** Deleting titles takes their disks and their memberships with them. */
  function DeleteTitles(lib: Lib, games: set<Id>): Lib {
    Lib(lib.games - games,
        map d | d in lib.disks && lib.disks[d].at.game !in games :: lib.disks[d],
        lib.devices,
        set m | m in lib.members && m.1 !in games)
  }

  /** deleteEmptied: the memberships, then the titles, both guarded. */
  function DeleteEmptied(lib: Lib, org: Id, emptied: seq<Id>): Lib {
    var l := lib.(members := set m | m in lib.members && !(m.1 in emptied && NoDiskLeft(lib, m.1)));
    DeleteTitles(l, set g | g in l.games && g in emptied && l.games[g].org == org && NoDiskLeft(l, g))
  }

  function WithTitle(lib: Lib, org: Id, insert: Option<Id>): Lib {
    if insert.Some? then lib.(games := lib.games[insert.value := Game(org, true)]) else lib
  }

  /** A batch: a new title first if there is one, then the plan, then what it empties. */
  function Batch(lib: Lib, org: Id, insert: Option<Id>, plan: Plan, devs: seq<DeviceRef>,
          emptied: seq<Id>): Option<Lib> {
    if insert.Some? && insert.value in lib.games then None
    else
      match ApplyPlan(WithTitle(lib, org, insert), org, plan, devs)
      case None => None
      case Some(l1) => Some(DeleteEmptied(l1, org, emptied))
  }

  // ---- Any plan, applied to any library ----

  /** No statement of the plan is about this disk in the title it is in. */
  predicate MovedElsewhere(lib: Lib, rs: seq<Renumber>, d: Id) {
    d in lib.disks && forall r :: r in rs && r.disk == d ==> r.from != lib.disks[d].at.game
  }

  lemma {:induction false} MovesKeepDisks(lib: Lib, org: Id, rs: seq<Renumber>, n: nat)
    requires n <= |rs| && MoveDisks(lib, org, rs, n).Some? && Keyed(lib)
    ensures var l := MoveDisks(lib, org, rs, n).value;
            && l.disks.Keys == lib.disks.Keys && l.games == lib.games && l.devices == lib.devices
            && l.members == lib.members
            && Keyed(l)
            && forall d :: d in lib.disks && (MovedElsewhere(lib, rs, d) || lib.disks[d].org != org) ==>
                 l.disks[d] == lib.disks[d]
  {
    if n > 0 {
      MovesKeepDisks(lib, org, rs, n - 1);
    }
  }

  /** A board's places are as they were, or where its disk really is. */
  ghost predicate WrittenTrue(was: Device, now: Device, disks: map<Id, Disk>) {
    && now.org == was.org && now.desired == was.desired && now.mounted == was.mounted
    && (now.desiredAt == was.desiredAt
        || (now.desired.Some? && now.desired.value in disks && now.desiredAt == Some(disks[now.desired.value].at)))
    && (now.mountedAt == was.mountedAt
        || (now.mounted.Some? && now.mounted.value in disks && now.mountedAt == Some(disks[now.mounted.value].at)))
  }

  ghost predicate OnlyDevices(lib: Lib, l: Lib) {
    && l.games == lib.games && l.disks == lib.disks && l.members == lib.members && l.devices.Keys == lib.devices.Keys
    && forall v :: v in lib.devices ==> WrittenTrue(lib.devices[v], l.devices[v], lib.disks)
  }

  lemma WriteIsTrue(lib: Lib, l: Lib, org: Id, u: DeviceUpdate, devs: seq<DeviceRef>)
    requires OnlyDevices(lib, l)
    ensures OnlyDevices(lib, WriteDevice(l, org, u, devs))
  {
  }

  lemma {:induction false} WritesAreTrue(lib: Lib, org: Id, us: seq<DeviceUpdate>, devs: seq<DeviceRef>, n: nat)
    requires n <= |us|
    ensures OnlyDevices(lib, WriteDevices(lib, org, us, devs, n))
  {
    if n > 0 {
      WritesAreTrue(lib, org, us, devs, n - 1);
      WriteIsTrue(lib, WriteDevices(lib, org, us, devs, n - 1), org, us[n - 1], devs);
    }
  }

  lemma EmptiedHoldNothing(lib: Lib, org: Id, emptied: seq<Id>)
    requires Keyed(lib)
    ensures var l := DeleteEmptied(lib, org, emptied);
            && l.disks == lib.disks && l.devices == lib.devices && Keyed(l)
            && (forall g :: g in lib.games && g !in l.games ==>
                  g in emptied && lib.games[g].org == org && NoDiskLeft(lib, g))
            && (forall m :: m in lib.members && m !in l.members ==> m.1 in emptied && NoDiskLeft(lib, m.1))
            && l.members <= lib.members && l.games.Keys <= lib.games.Keys
  {
  }

  /**
   * Whatever the plan says and whatever has become of the library since it was made: no disk is
   * lost, one that another tab has moved stays there, only titles with no disk of anybody's go, and
   * a board is only told a place its disk is really at.
   */
  lemma AnyPlanIsSafe(lib: Lib, org: Id, insert: Option<Id>, plan: Plan, devs: seq<DeviceRef>, emptied: seq<Id>)
    requires Keyed(lib) && Batch(lib, org, insert, plan, devs, emptied).Some?
    ensures var l := Batch(lib, org, insert, plan, devs, emptied).value;
            && l.disks.Keys == lib.disks.Keys && Keyed(l)
            && (forall d :: d in lib.disks && (MovedElsewhere(lib, plan.renumber, d) || lib.disks[d].org != org) ==>
                  l.disks[d] == lib.disks[d])
            && (forall g :: g in lib.games && g !in l.games ==>
                  g in emptied && lib.games[g].org == org && NoDiskLeft(l, g))
            && (forall m :: m in lib.members && m !in l.members ==> m.1 in emptied && NoDiskLeft(l, m.1))
            && l.devices.Keys == lib.devices.Keys
            && (forall v :: v in lib.devices ==> WrittenTrue(lib.devices[v], l.devices[v], l.disks))
  {
    var l0 := WithTitle(lib, org, insert);
    MovesKeepDisks(l0, org, plan.renumber, |plan.renumber|);
    var l1 := MoveDisks(l0, org, plan.renumber, |plan.renumber|).value;
    WritesAreTrue(l1, org, plan.devices, devs, |plan.devices|);
    var l2 := WriteDevices(l1, org, plan.devices, devs, |plan.devices|);
    EmptiedHoldNothing(l2, org, emptied);
    forall d | d in lib.disks && MovedElsewhere(lib, plan.renumber, d) ensures l1.disks[d] == lib.disks[d] {
      assert MovedElsewhere(l0, plan.renumber, d);
    }
  }
}
