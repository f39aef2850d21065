// Library ids, drive queue ids and SCSI targets: what CreateLibrary allocates, and
// why no two devices ever share one.
module Allocation {
  import opened DeviceConf
  import opened ConfEdits
  import opened LibraryPrinter
  import opened Declarations

  ghost predicate UsesId(libs: seq<Declared>, q: nat) {
    exists x :: x in libs && (x.lib.id == q || DriveUsesId(x.drives, q))
  }

  ghost predicate DriveUsesId(drives: seq<Drive>, q: nat) {
    exists d :: d in drives && d.queue == q
  }

  ghost predicate UsesTarget(libs: seq<Declared>, t: nat) {
    exists x :: x in libs && (x.lib.target == t || DriveUsesTarget(x.drives, t))
  }

  ghost predicate DriveUsesTarget(drives: seq<Drive>, t: nat) {
    exists d :: d in drives && d.target == t
  }

  // The least positive multiple of ten above every library and queue id in use.
  ghost predicate AllocatesId(libs: seq<Declared>, id: nat) {
    && id > 0 && id % 10 == 0
    && (forall q: nat :: UsesId(libs, q) ==> q < id)
    && (id == 10 || exists q: nat :: UsesId(libs, q) && id - 10 <= q)
  }

  // The least target above every target in use.
  ghost predicate AllocatesTarget(libs: seq<Declared>, t: nat) {
    && (forall u: nat :: UsesTarget(libs, u) ==> u < t)
    && (t == 0 || UsesTarget(libs, t - 1))
  }

  ghost predicate Allocates(libs: seq<Declared>, id: nat, target: nat) {
    AllocatesId(libs, id) && AllocatesTarget(libs, target)
  }

  lemma UsesMore(libs: seq<Declared>, x: Declared, q: nat)
    ensures UsesId(libs + [x], q) <==> UsesId(libs, q) || x.lib.id == q || DriveUsesId(x.drives, q)
    ensures UsesTarget(libs + [x], q) <==> UsesTarget(libs, q) || x.lib.target == q || DriveUsesTarget(x.drives, q)
  {
    hide DriveUsesId, DriveUsesTarget;
    assert x in libs + [x];
    forall y | y in libs ensures y in libs + [x] {}
  }

  lemma DriveUsesMore(drives: seq<Drive>, d: Drive, q: nat)
    ensures DriveUsesId(drives + [d], q) <==> DriveUsesId(drives, q) || d.queue == q
    ensures DriveUsesTarget(drives + [d], q) <==> DriveUsesTarget(drives, q) || d.target == q
  {
    assert d in drives + [d];
    forall y | y in drives ensures y in drives + [d] {}
  }

  // What has been seen part way through the allocator's loops.
  ghost predicate SeenId(libs: seq<Declared>, x: Declared, drives: seq<Drive>, q: nat) {
    UsesId(libs, q) || x.lib.id == q || DriveUsesId(drives, q)
  }

  ghost predicate SeenTarget(libs: seq<Declared>, x: Declared, drives: seq<Drive>, t: nat) {
    UsesTarget(libs, t) || x.lib.target == t || DriveUsesTarget(drives, t)
  }

  lemma SeenFirst(libs: seq<Declared>, x: Declared, q: nat)
    ensures SeenId(libs, x, x.drives[..0], q) <==> UsesId(libs, q) || q == x.lib.id
    ensures SeenTarget(libs, x, x.drives[..0], q) <==> UsesTarget(libs, q) || q == x.lib.target
  {
    hide UsesId, UsesTarget;
  }

  lemma SeenNext(libs: seq<Declared>, x: Declared, some: seq<Drive>, m: nat, more: seq<Drive>, q: nat)
    requires m < |x.drives| && some == x.drives[..m] && more == x.drives[..m + 1]
    ensures SeenId(libs, x, more, q) <==> SeenId(libs, x, some, q) || q == x.drives[m].queue
    ensures SeenTarget(libs, x, more, q) <==> SeenTarget(libs, x, some, q) || q == x.drives[m].target
  {
    hide UsesId, UsesTarget, DriveUsesId, DriveUsesTarget;
    assert x.drives[..m + 1] == x.drives[..m] + [x.drives[m]];
    DriveUsesMore(x.drives[..m], x.drives[m], q);
  }

  lemma SeenLast(libs: seq<Declared>, x: Declared, q: nat)
    ensures SeenId(libs, x, x.drives[..|x.drives|], q) <==> UsesId(libs + [x], q)
    ensures SeenTarget(libs, x, x.drives[..|x.drives|], q) <==> UsesTarget(libs + [x], q)
  {
    hide UsesId, UsesTarget, DriveUsesId, DriveUsesTarget;
    assert x.drives[..|x.drives|] == x.drives;
    UsesMore(libs, x, q);
  }

  // One library's share of the maxima: its own numbers, then its drives'.
  method Tally(ghost before: seq<Declared>, x: Declared, maxQ0: nat, maxTarget0: int)
    returns (maxQ: nat, maxTarget: int)
    requires (forall q: nat :: UsesId(before, q) ==> q <= maxQ0) && (maxQ0 == 0 || UsesId(before, maxQ0))
    requires maxTarget0 >= -1
    requires (forall t: nat :: UsesTarget(before, t) ==> t <= maxTarget0)
    requires (maxTarget0 == -1 || UsesTarget(before, maxTarget0))
    ensures (forall q: nat :: UsesId(before + [x], q) ==> q <= maxQ) && (maxQ == 0 || UsesId(before + [x], maxQ))
    ensures maxTarget >= -1
    ensures (forall t: nat :: UsesTarget(before + [x], t) ==> t <= maxTarget)
    ensures (maxTarget == -1 || UsesTarget(before + [x], maxTarget))
  {
    hide UsesId, UsesTarget, SeenId, SeenTarget;
    maxQ, maxTarget := maxQ0, maxTarget0;
    if x.lib.id > maxQ { maxQ := x.lib.id; }
    if x.lib.target > maxTarget { maxTarget := x.lib.target; }
    forall q: nat { SeenFirst(before, x, q); }
    var m := 0;
    while m < |x.drives|
      invariant m <= |x.drives| && maxTarget >= -1
      invariant forall q: nat :: SeenId(before, x, x.drives[..m], q) ==> q <= maxQ
      invariant maxQ == 0 || SeenId(before, x, x.drives[..m], maxQ)
      invariant forall t: nat :: SeenTarget(before, x, x.drives[..m], t) ==> t <= maxTarget
      invariant maxTarget == -1 || SeenTarget(before, x, x.drives[..m], maxTarget)
    {
      ghost var some, more := x.drives[..m], x.drives[..m + 1];
      forall q: nat
        ensures SeenId(before, x, more, q) <==> SeenId(before, x, some, q) || q == x.drives[m].queue
        ensures SeenTarget(before, x, more, q) <==> SeenTarget(before, x, some, q) || q == x.drives[m].target
      {
        SeenNext(before, x, some, m, more, q);
      }
      if x.drives[m].queue > maxQ { maxQ := x.drives[m].queue; }
      if x.drives[m].target > maxTarget { maxTarget := x.drives[m].target; }
      m := m + 1;
      assert more == x.drives[..m];
    }
    forall q: nat { SeenLast(before, x, q); }
  }

  // CreateLibrary's allocation loop.
  method Allocate(libs: seq<Declared>) returns (libID: nat, nextTarget: nat)
    ensures Allocates(libs, libID, nextTarget)
    // Written out: the next ten past every library and drive number, the next target past
    // every target; and no further.
    ensures libID > 0 && libID % 10 == 0
    ensures forall x :: x in libs ==>
              && x.lib.id < libID && x.lib.target < nextTarget
              && forall d :: d in x.drives ==> d.queue < libID && d.target < nextTarget
    ensures libID == 10
            || exists x :: x in libs
                 && (x.lib.id >= libID - 10 || exists d :: d in x.drives && d.queue >= libID - 10)
    ensures nextTarget == 0
            || exists x :: x in libs
                 && (x.lib.target == nextTarget - 1 || exists d :: d in x.drives && d.target == nextTarget - 1)
  {
    hide UsesId, UsesTarget;
    var maxQ, maxTarget := 0, -1;
    var k := 0;
    NoLibraries();
    while k < |libs|
      invariant k <= |libs| && maxTarget >= -1
      invariant (forall q: nat :: UsesId(libs[..k], q) ==> q <= maxQ) && (maxQ == 0 || UsesId(libs[..k], maxQ))
      invariant (forall t: nat :: UsesTarget(libs[..k], t) ==> t <= maxTarget)
      invariant (maxTarget == -1 || UsesTarget(libs[..k], maxTarget))
    {
      maxQ, maxTarget := Tally(libs[..k], libs[k], maxQ, maxTarget);
      assert libs[..k + 1] == libs[..k] + [libs[k]];
      k := k + 1;
    }
    assert libs[..k] == libs;
    libID, nextTarget := (maxQ / 10 + 1) * 10, maxTarget + 1;
    InUse(libs, libID, nextTarget);
  }

  lemma InUse(libs: seq<Declared>, id: nat, target: nat)
    requires Allocates(libs, id, target)
    ensures forall x :: x in libs ==>
              && x.lib.id < id && x.lib.target < target
              && forall d :: d in x.drives ==> d.queue < id && d.target < target
    ensures id == 10
            || exists x :: x in libs && (x.lib.id >= id - 10 || exists d :: d in x.drives && d.queue >= id - 10)
    ensures target == 0
            || exists x :: x in libs
                 && (x.lib.target == target - 1 || exists d :: d in x.drives && d.target == target - 1)
  {
    forall x | x in libs
      ensures x.lib.id < id && x.lib.target < target
      ensures forall d :: d in x.drives ==> d.queue < id && d.target < target
    {
      assert UsesId(libs, x.lib.id) && UsesTarget(libs, x.lib.target);
      forall d | d in x.drives ensures d.queue < id && d.target < target {
        assert DriveUsesId(x.drives, d.queue) && DriveUsesTarget(x.drives, d.target);
        assert UsesId(libs, d.queue) && UsesTarget(libs, d.target);
      }
    }
  }

  lemma NoLibraries()
    ensures forall q: nat :: !UsesId([], q) && !UsesTarget([], q)
  {
  }

  // -------------------------------------------------------------------- distinctness ----

  function IdOf(x: Device): nat {
    match x
    case Lib(l) => l.id
    case Drv(d) => d.queue
  }

  function ScsiOf(x: Device): nat {
    match x
    case Lib(l) => l.target
    case Drv(d) => d.target
  }

  predicate Apart(x: Device, y: Device) {
    IdOf(x) != IdOf(y) && ScsiOf(x) != ScsiOf(y)
  }

  predicate AllApart(devs: seq<Device>) {
    forall i, j :: 0 <= i < j < |devs| ==> Apart(devs[i], devs[j])
  }

  ghost predicate HasLibrary(devs: seq<Device>, id: nat) {
    exists l :: Lib(l) in devs && l.id == id
  }

  ghost predicate Housed(devs: seq<Device>, x: Device) {
    x.Drv? ==> HasLibrary(devs, x.d.library)
  }

  // Ids and targets pairwise distinct, and every drive names a declared library.
  ghost predicate AllocOk(devs: seq<Device>) {
    AllApart(devs) && forall x :: x in devs ==> Housed(devs, x)
  }

  lemma {:induction false} NewDevicesAt(s: Spec, id: nat, target: nat, n: nat)
    requires n <= |s.driveSerials|
    ensures |NewDevices(s, id, target, n)| == n + 1
    ensures forall k :: 0 <= k <= n ==>
              IdOf(NewDevices(s, id, target, n)[k]) == id + k && ScsiOf(NewDevices(s, id, target, n)[k]) == target + k
    ensures forall k :: 0 <= k <= n ==>
              NewDevices(s, id, target, n)[k].Drv? ==> NewDevices(s, id, target, n)[k].d.library == id
    ensures NewDevices(s, id, target, n)[0] == Lib(NewLibrary(s, id, target))
  {
    if n > 0 { NewDevicesAt(s, id, target, n - 1); }
  }

  // Whatever hangs off a declared library is below the allocated numbers.
  lemma BelowAllocated(devs: seq<Device>, x: Device, id: nat, target: nat)
    requires x in devs && Housed(devs, x) && Allocates(Assemble(devs), id, target)
    ensures IdOf(x) < id && ScsiOf(x) < target
  {
    hide Assemble, Attached;
    var libs := Assemble(devs);
    match x
    case Lib(l) =>
      AssembleIn(devs, Attached(l, Drives(devs)));
      AttachedLib(l, Drives(devs));
      assert UsesId(libs, l.id) && UsesTarget(libs, l.target);
    case Drv(d) =>
      var l :| Lib(l) in devs && l.id == d.library;
      var y := Attached(l, Drives(devs));
      AttachedLib(l, Drives(devs));
      AssembleIn(devs, y);
      assert d in y.drives;
      assert DriveUsesId(y.drives, d.queue) && DriveUsesTarget(y.drives, d.target);
      assert UsesId(libs, d.queue) && UsesTarget(libs, d.target);
  }

  lemma AttachedLib(l: Library, drives: seq<Drive>)
    ensures Attached(l, drives).lib == l
  {
  }

  predicate Clashes(x: Device, id: nat, target: nat, n: nat) {
    id <= IdOf(x) <= id + n || target <= ScsiOf(x) <= target + n
  }

  lemma ClashBreaks(devs: seq<Device>, s: Spec, id: nat, target: nat, n: nat, x: Device)
    requires n <= |s.driveSerials| && x in devs && Clashes(x, id, target, n)
    ensures !AllApart(devs + NewDevices(s, id, target, n))
  {
    var added := NewDevices(s, id, target, n);
    var all := devs + added;
    NewDevicesAt(s, id, target, n);
    var i :| 0 <= i < |devs| && devs[i] == x;
    var k := if id <= IdOf(x) <= id + n then IdOf(x) - id else ScsiOf(x) - target;
    assert all[i] == x && all[|devs| + k] == added[k];
    assert !Apart(all[i], all[|devs| + k]);
  }

  lemma ApartFromNew(devs: seq<Device>, s: Spec, id: nat, target: nat, n: nat)
    requires AllApart(devs) && n <= |s.driveSerials|
    ensures AllApart(devs + NewDevices(s, id, target, n)) <==> forall x :: x in devs ==> !Clashes(x, id, target, n)
  {
    var added := NewDevices(s, id, target, n);
    var all := devs + added;
    NewDevicesAt(s, id, target, n);
    if x :| x in devs && Clashes(x, id, target, n) {
      ClashBreaks(devs, s, id, target, n, x);
    }
    if forall x :: x in devs ==> !Clashes(x, id, target, n) {
      forall i, j | 0 <= i < j < |all| ensures Apart(all[i], all[j]) {
        if j >= |devs| {
          assert all[j] == added[j - |devs|];
          if i >= |devs| {
            assert all[i] == added[i - |devs|];
          } else {
            assert !Clashes(devs[i], id, target, n);
          }
        }
      }
    }
  }

  // The allocator looks only at drives attached to a declared library, so a create
  // keeps all numbers distinct exactly when no stray drive sits in the new range.
  lemma CreateKeepsApart(devs: seq<Device>, s: Spec, id: nat, target: nat)
    requires AllApart(devs) && Allocates(Assemble(devs), id, target)
    ensures AllApart(devs + NewDevices(s, id, target, |s.driveSerials|)) <==>
            forall x :: x in devs && !Housed(devs, x) ==> !Clashes(x, id, target, |s.driveSerials|)
  {
    hide Allocates, Assemble, Housed, NewDevices, AllApart;
    ApartFromNew(devs, s, id, target, |s.driveSerials|);
    forall x | x in devs && Housed(devs, x) ensures !Clashes(x, id, target, |s.driveSerials|) {
      BelowAllocated(devs, x, id, target);
    }
  }

  // One stray drive is enough: its queue id is issued again.
  lemma StrayDriveClashes(s: Spec)
    requires |s.driveSerials| >= 1
    ensures var devs := [Drv(Drive(11, 0, 99, 1, "", ""))];
            AllApart(devs) && Allocates(Assemble(devs), 10, 0)
            && !AllApart(devs + NewDevices(s, 10, 0, |s.driveSerials|))
  {
    var devs := [Drv(Drive(11, 0, 99, 1, "", ""))];
    assert devs[..0] == [];
    assert Assemble(devs) == [];
    NoLibraries();
    assert devs[0] in devs && Clashes(devs[0], 10, 0, |s.driveSerials|);
    ApartFromNew(devs, s, 10, 0, |s.driveSerials|);
  }

  lemma CreateAllocOk(devs: seq<Device>, s: Spec, id: nat, target: nat)
    requires AllocOk(devs) && Allocates(Assemble(devs), id, target)
    ensures AllocOk(devs + NewDevices(s, id, target, |s.driveSerials|))
    ensures !AnyBelongs(devs, id)
  {
    hide Allocates, Assemble, AllApart;
    var n := |s.driveSerials|;
    var added := NewDevices(s, id, target, n);
    var all := devs + added;
    CreateKeepsApart(devs, s, id, target);
    NewDevicesAt(s, id, target, n);
    assert Lib(NewLibrary(s, id, target)) == added[0] && added[0] in all;
    assert HasLibrary(all, id);
    forall x | x in all ensures Housed(all, x) {
      if x in devs {
        assert Housed(devs, x);
        if x.Drv? {
          var l :| Lib(l) in devs && l.id == x.d.library;
          assert Lib(l) in all;
        }
      } else {
        var k :| 0 <= k < |added| && added[k] == x;
      }
    }
    NotYetUsed(devs, id, target);
  }

  lemma NotYetUsed(devs: seq<Device>, id: nat, target: nat)
    requires (forall x :: x in devs ==> Housed(devs, x)) && Allocates(Assemble(devs), id, target)
    ensures !AnyBelongs(devs, id)
  {
    hide Allocates, Assemble;
    if AnyBelongs(devs, id) {
      var i :| 0 <= i < |devs| && Belongs(devs[i], id);
      var x := devs[i];
      BelowAllocated(devs, x, id, target);
      if x.Drv? {
        var l :| Lib(l) in devs && l.id == x.d.library;
        BelowAllocated(devs, Lib(l), id, target);
      }
    }
  }

  lemma {:induction false} WithoutIn(devs: seq<Device>, id: nat, x: Device)
    ensures x in Without(devs, id) <==> x in devs && !Belongs(x, id)
  {
    if devs != [] {
      assert devs == [devs[0]] + devs[1..];
      WithoutIn(devs[1..], id, x);
    }
  }

  lemma {:induction false} WithoutApart(devs: seq<Device>, id: nat)
    requires AllApart(devs)
    ensures AllApart(Without(devs, id))
  {
    hide Apart, Belongs;
    if devs != [] {
      var rest := Without(devs[1..], id);
      WithoutApart(devs[1..], id);
      forall k | 0 <= k < |rest| ensures Apart(devs[0], rest[k]) {
        WithoutIn(devs[1..], id, rest[k]);
        var j :| 0 <= j < |devs[1..]| && devs[1..][j] == rest[k];
        assert devs[j + 1] == rest[k];
      }
    }
  }

  lemma RemoveAllocOk(devs: seq<Device>, id: nat)
    requires AllocOk(devs)
    ensures AllocOk(Without(devs, id))
  {
    hide AllApart, Without;
    WithoutApart(devs, id);
    forall x | x in Without(devs, id) ensures Housed(Without(devs, id), x) {
      WithoutIn(devs, id, x);
      assert Housed(devs, x);
      if x.Drv? {
        var l :| Lib(l) in devs && l.id == x.d.library;
        WithoutIn(devs, id, Lib(l));
      }
    }
  }
}
