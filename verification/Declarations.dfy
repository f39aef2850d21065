// The declared libraries device.conf parses to, and the id and target allocator.
module Declarations {
  import opened Options
  import opened Sorting
  import opened DeviceConf
  import opened ConfEdits
  import opened LibraryPrinter

  // One library with its drives sorted by slot.
  datatype Declared = Declared(lib: Library, drives: seq<Drive>)

  function BySlot(d: Drive): nat {
    d.slot
  }

  function ById(x: Declared): nat {
    x.lib.id
  }

  function InLibrary(id: nat): Drive -> bool {
    (d: Drive) => d.library == id
  }

  function NotId(id: nat): Declared -> bool {
    (x: Declared) => x.lib.id != id
  }

  function Attached(l: Library, drives: seq<Drive>): Declared {
    Declared(l, Sort(BySlot, Filter(InLibrary(l.id), drives)))
  }

  function AttachAll(libs: seq<Library>, drives: seq<Drive>): seq<Declared> {
    if libs == [] then [] else AttachAll(libs[..|libs| - 1], drives) + [Attached(libs[|libs| - 1], drives)]
  }

  // What ParseMhvtlConf returns, library_contents aside.
  function Assemble(devs: seq<Device>): seq<Declared> {
    Sort(ById, AttachAll(Libs(devs), Drives(devs)))
  }

  function LibsOf(r: seq<Declared>): seq<Library> {
    seq(|r|, i requires 0 <= i < |r| => r[i].lib)
  }

  function WithId(id: nat): Library -> bool {
    (l: Library) => l.id == id
  }

  function AtSlot(id: nat, slot: nat): Drive -> bool {
    (d: Drive) => d.library == id && d.slot == slot
  }

  // The drives are those naming the library, each as often as in the file, by ascending
  // slot; those of one slot stand in file order.
  ghost predicate Fitted(x: Declared, drives: seq<Drive>) {
    && (forall d :: multiset(x.drives)[d] == if d.library == x.lib.id then multiset(drives)[d] else 0)
    && (forall i, j :: 0 <= i < j < |x.drives| ==> x.drives[i].slot <= x.drives[j].slot)
    && forall n: nat :: Filter(AtSlot(x.lib.id, n), x.drives) == Filter(AtSlot(x.lib.id, n), drives)
  }

  // The libraries are the declared ones, by ascending id; those of one id stand in file
  // order.
  ghost predicate Arranged(r: seq<Declared>, libs: seq<Library>, drives: seq<Drive>) {
    && multiset(LibsOf(r)) == multiset(libs)
    && (forall i, j :: 0 <= i < j < |r| ==> r[i].lib.id <= r[j].lib.id)
    && (forall n: nat :: Filter(WithId(n), LibsOf(r)) == Filter(WithId(n), libs))
    && forall i :: 0 <= i < |r| ==> Fitted(r[i], drives)
  }

  lemma {:induction false} LibsOfInsert(s: seq<Declared>, x: Declared)
    ensures multiset(LibsOf(Insert(ById, s, x))) == multiset(LibsOf(s)) + multiset{x.lib}
  {
    if s == [] || ById(s[|s| - 1]) <= ById(x) {
      assert LibsOf(s + [x]) == LibsOf(s) + [x.lib];
    } else {
      var init, last := s[..|s| - 1], s[|s| - 1];
      LibsOfInsert(init, x);
      assert LibsOf(s) == LibsOf(init) + [last.lib];
      assert LibsOf(Insert(ById, init, x) + [last]) == LibsOf(Insert(ById, init, x)) + [last.lib];
    }
  }

  lemma {:induction false} LibsOfSort(s: seq<Declared>)
    ensures multiset(LibsOf(Sort(ById, s))) == multiset(LibsOf(s))
  {
    if s != [] {
      var init, last := s[..|s| - 1], s[|s| - 1];
      LibsOfSort(init);
      LibsOfInsert(Sort(ById, init), last);
      assert LibsOf(s) == LibsOf(init) + [last.lib];
    }
  }

  lemma {:induction false} LibsOfAttach(libs: seq<Library>, drives: seq<Drive>)
    ensures LibsOf(AttachAll(libs, drives)) == libs
  {
    if libs != [] {
      LibsOfAttach(libs[..|libs| - 1], drives);
    }
  }

  function DeclaredId(id: nat): Declared -> bool {
    (x: Declared) => x.lib.id == id
  }

  lemma {:induction false} LibsOfFilter(r: seq<Declared>, n: nat)
    ensures Filter(WithId(n), LibsOf(r)) == LibsOf(Filter(DeclaredId(n), r))
  {
    if r != [] {
      var init, last := r[..|r| - 1], r[|r| - 1];
      LibsOfFilter(init, n);
      assert LibsOf(r) == LibsOf(init) + [last.lib];
      FilterSnoc(WithId(n), LibsOf(init), last.lib);
      assert LibsOf(Filter(DeclaredId(n), init) + [last]) == LibsOf(Filter(DeclaredId(n), init)) + [last.lib];
    }
  }

  lemma AttachedFitted(l: Library, drives: seq<Drive>)
    ensures Fitted(Attached(l, drives), drives)
  {
    hide Filter, Sort;
    var x, mine := Attached(l, drives), Filter(InLibrary(l.id), drives);
    SortSorts(BySlot, mine);
    forall d { FilterCount(InLibrary(l.id), drives, d); }
    forall n: nat { SlotsStay(l.id, n, drives); }
  }

  lemma SlotsStay(id: nat, n: nat, drives: seq<Drive>)
    ensures Filter(AtSlot(id, n), Sort(BySlot, Filter(InLibrary(id), drives))) == Filter(AtSlot(id, n), drives)
  {
    hide Filter, Sort;
    var here, mine := (d: Drive) => d.slot == n, Filter(InLibrary(id), drives);
    SortStable(BySlot, here, n, mine);
    FilterIsSlot(id, n, drives);
    SortSorts(BySlot, mine);
    forall d | d in mine ensures d.library == id { FilterIn(InLibrary(id), drives, d); }
    FilterAlike(here, AtSlot(id, n), Sort(BySlot, mine));
    FilterAlike(here, AtSlot(id, n), mine);
  }

  lemma {:induction false} FilterAlike(p: Drive -> bool, q: Drive -> bool, s: seq<Drive>)
    requires forall d :: d in s ==> (p(d) <==> q(d))
    ensures Filter(p, s) == Filter(q, s)
  {
    if s != [] {
      assert s == s[..|s| - 1] + [s[|s| - 1]];
      FilterAlike(p, q, s[..|s| - 1]);
    }
  }

  lemma {:induction false} FilterIsSlot(id: nat, n: nat, drives: seq<Drive>)
    ensures Filter(AtSlot(id, n), Filter(InLibrary(id), drives)) == Filter(AtSlot(id, n), drives)
  {
    if drives != [] {
      var init, last := drives[..|drives| - 1], drives[|drives| - 1];
      FilterIsSlot(id, n, init);
      FilterSnoc(AtSlot(id, n), Filter(InLibrary(id), init), last);
    }
  }

  lemma AttachArranged(libs: seq<Library>, drives: seq<Drive>)
    ensures Arranged(Sort(ById, AttachAll(libs, drives)), libs, drives)
  {
    hide Filter, Sort, Fitted, Attached, LibsOf;
    var all := AttachAll(libs, drives);
    var r := Sort(ById, all);
    LibsOfSort(all);
    LibsOfAttach(libs, drives);
    SortSorts(ById, all);
    forall n: nat ensures Filter(WithId(n), LibsOf(r)) == Filter(WithId(n), libs) {
      LibsOfFilter(r, n);
      LibsOfFilter(all, n);
      SortStable(ById, DeclaredId(n), n, all);
    }
    forall i | 0 <= i < |r| ensures Fitted(r[i], drives) {
      AttachAllIn(libs, drives, r[i]);
      AttachedFitted(r[i].lib, drives);
    }
  }

  // The second half of ParseMhvtlConf: attach by library id, sort, sort.
  method AttachDrives(libs: seq<Library>, drives: seq<Drive>) returns (r: seq<Declared>)
    ensures r == Sort(ById, AttachAll(libs, drives))
    ensures Arranged(r, libs, drives)
  {
    r := [];
    var i := 0;
    while i < |libs|
      invariant i <= |libs| && r == AttachAll(libs[..i], drives)
    {
      var mine := [];
      var j := 0;
      while j < |drives|
        invariant j <= |drives| && mine == Filter(InLibrary(libs[i].id), drives[..j])
      {
        assert drives[..j + 1] == drives[..j] + [drives[j]];
        FilterSnoc(InLibrary(libs[i].id), drives[..j], drives[j]);
        if drives[j].library == libs[i].id {
          mine := mine + [drives[j]];
        }
        j := j + 1;
      }
      assert drives[..j] == drives && libs[..i + 1][..i] == libs[..i];
      r := r + [Declared(libs[i], Sort(BySlot, mine))];
      i := i + 1;
    }
    assert libs[..i] == libs;
    r := Sort(ById, r);
    AttachArranged(libs, drives);
  }

  method ParseMhvtlConf(lines: seq<string>) returns (r: seq<Declared>)
    ensures r == Assemble(Scan(None, lines))
    // Written out: by ascending id, and in each library its drives by ascending slot.
    ensures var libs, drives := Libs(Scan(None, lines)), Drives(Scan(None, lines));
            && Arranged(r, libs, drives) && multiset(LibsOf(r)) == multiset(libs)
            && (forall i, j :: 0 <= i < j < |r| ==> r[i].lib.id <= r[j].lib.id)
            && forall k :: 0 <= k < |r| ==>
                 && (forall i, j :: 0 <= i < j < |r[k].drives| ==> r[k].drives[i].slot <= r[k].drives[j].slot)
                 && forall d :: d in r[k].drives <==> d in drives && d.library == r[k].lib.id
  {
    var libs, drives := ParseDevices(lines);
    r := AttachDrives(libs, drives);
    forall k, d | 0 <= k < |r| ensures d in r[k].drives <==> d in drives && d.library == r[k].lib.id {
      assert Fitted(r[k], drives);
      assert multiset(r[k].drives)[d] > 0 <==> d in r[k].drives;
      assert multiset(drives)[d] > 0 <==> d in drives;
    }
  }

  // ------------------------------------------------------------------ membership ----

  lemma {:induction false} LibsIn(devs: seq<Device>, l: Library)
    ensures l in Libs(devs) <==> Lib(l) in devs
  {
    if devs != [] {
      assert devs == devs[..|devs| - 1] + [devs[|devs| - 1]];
      LibsIn(devs[..|devs| - 1], l);
    }
  }

  lemma {:induction false} DrivesIn(devs: seq<Device>, d: Drive)
    ensures d in Drives(devs) <==> Drv(d) in devs
  {
    if devs != [] {
      assert devs == devs[..|devs| - 1] + [devs[|devs| - 1]];
      DrivesIn(devs[..|devs| - 1], d);
    }
  }

  lemma {:induction false} AttachAllIn(libs: seq<Library>, drives: seq<Drive>, x: Declared)
    ensures x in AttachAll(libs, drives) <==> x.lib in libs && x == Attached(x.lib, drives)
  {
    if libs != [] {
      assert libs == libs[..|libs| - 1] + [libs[|libs| - 1]];
      AttachAllIn(libs[..|libs| - 1], drives, x);
    }
  }

  // A library is listed with exactly the drives that name it.
  lemma AssembleIn(devs: seq<Device>, x: Declared)
    ensures x in Assemble(devs) <==> Lib(x.lib) in devs && x == Attached(x.lib, Drives(devs))
    ensures x in Assemble(devs) ==> forall d :: d in x.drives <==> Drv(d) in devs && d.library == x.lib.id
  {
    hide Attached;
    SortSorts(ById, AttachAll(Libs(devs), Drives(devs)));
    AttachAllIn(Libs(devs), Drives(devs), x);
    LibsIn(devs, x.lib);
    if x in Assemble(devs) {
      AttachedIn(x.lib, devs);
    }
  }

  lemma AttachedIn(l: Library, devs: seq<Device>)
    ensures forall d :: d in Attached(l, Drives(devs)).drives <==> Drv(d) in devs && d.library == l.id
  {
    forall d ensures d in Attached(l, Drives(devs)).drives <==> Drv(d) in devs && d.library == l.id {
      SortSorts(BySlot, Filter(InLibrary(l.id), Drives(devs)));
      FilterIn(InLibrary(l.id), Drives(devs), d);
      DrivesIn(devs, d);
    }
  }

  // --------------------------------------------------------- assembling after create ----

  lemma {:induction false} AppendLists(a: seq<Device>, b: seq<Device>)
    ensures Libs(a + b) == Libs(a) + Libs(b) && Drives(a + b) == Drives(a) + Drives(b)
    decreases |b|
  {
    if b == [] {
      assert a + b == a;
      EmptyLists();
    } else {
      var init, last := b[..|b| - 1], b[|b| - 1];
      assert a + b == (a + init) + [last] && b == init + [last];
      AppendLists(a, init);
      Snoc(a + init, last);
      Snoc(init, last);
    }
  }

  function NewDrives(s: Spec, id: nat, target: nat, n: nat): seq<Drive>
    requires n <= |s.driveSerials|
  {
    seq(n, i requires 0 <= i < n => NewDrive(s, id, target, i))
  }

  lemma NewDrivesSnoc(s: Spec, id: nat, target: nat, n: nat)
    requires 0 < n <= |s.driveSerials|
    ensures NewDrives(s, id, target, n) == NewDrives(s, id, target, n - 1) + [NewDrive(s, id, target, n - 1)]
  {
  }

  lemma NewNone(s: Spec, id: nat, target: nat)
    ensures Libs(NewDevices(s, id, target, 0)) == [NewLibrary(s, id, target)]
    ensures Drives(NewDevices(s, id, target, 0)) == NewDrives(s, id, target, 0)
  {
    EmptyLists();
    Snoc([], Lib(NewLibrary(s, id, target)));
    assert [] + [Lib(NewLibrary(s, id, target))] == [Lib(NewLibrary(s, id, target))];
  }

  lemma {:induction false} NewLists(s: Spec, id: nat, target: nat, n: nat)
    requires n <= |s.driveSerials|
    ensures Libs(NewDevices(s, id, target, n)) == [NewLibrary(s, id, target)]
    ensures Drives(NewDevices(s, id, target, n)) == NewDrives(s, id, target, n)
  {
    hide Libs, Drives, NewDrives, NewDrive, NewLibrary;
    if n == 0 {
      NewNone(s, id, target);
    } else {
      NewLists(s, id, target, n - 1);
      Snoc(NewDevices(s, id, target, n - 1), Drv(NewDrive(s, id, target, n - 1)));
      NewDrivesSnoc(s, id, target, n);
    }
  }

  lemma {:induction false} FilterAppend<T>(p: T -> bool, a: seq<T>, b: seq<T>)
    ensures Filter(p, a + b) == Filter(p, a) + Filter(p, b)
    decreases |b|
  {
    if b == [] {
      assert a + b == a;
    } else {
      var init, last := b[..|b| - 1], b[|b| - 1];
      assert a + b == (a + init) + [last] && b == init + [last];
      FilterAppend(p, a, init);
      FilterSnoc(p, a + init, last);
      FilterSnoc(p, init, last);
    }
  }

  lemma {:induction false} FilterAll<T>(p: T -> bool, s: seq<T>)
    ensures (forall x :: x in s ==> p(x)) ==> Filter(p, s) == s
    ensures (forall x :: x in s ==> !p(x)) ==> Filter(p, s) == []
  {
    if s != [] {
      assert s == s[..|s| - 1] + [s[|s| - 1]];
      FilterAll(p, s[..|s| - 1]);
    }
  }

  lemma {:induction false} AttachSame(libs: seq<Library>, ds: seq<Drive>, ds2: seq<Drive>)
    requires forall l :: l in libs ==> Filter(InLibrary(l.id), ds) == Filter(InLibrary(l.id), ds2)
    ensures AttachAll(libs, ds) == AttachAll(libs, ds2)
  {
    if libs != [] {
      assert libs == libs[..|libs| - 1] + [libs[|libs| - 1]];
      AttachSame(libs[..|libs| - 1], ds, ds2);
    }
  }

  lemma NewLibraryDrives(devs: seq<Device>, s: Spec, id: nat, target: nat)
    requires !AnyBelongs(devs, id)
    ensures var added := NewDrives(s, id, target, |s.driveSerials|);
            Filter(InLibrary(id), Drives(devs) + added) == added
  {
    var mine := NewDrives(s, id, target, |s.driveSerials|);
    FilterAppend(InLibrary(id), Drives(devs), mine);
    FilterAll(InLibrary(id), mine);
    forall d | d in Drives(devs) ensures d.library != id {
      DrivesIn(devs, d);
      var i :| 0 <= i < |devs| && devs[i] == Drv(d);
      assert !Belongs(devs[i], id);
    }
    FilterAll(InLibrary(id), Drives(devs));
  }

  lemma OldLibraryDrives(l: Library, devs: seq<Device>, s: Spec, id: nat, target: nat)
    requires l.id != id
    ensures var added := NewDrives(s, id, target, |s.driveSerials|);
            Filter(InLibrary(l.id), Drives(devs) + added) == Filter(InLibrary(l.id), Drives(devs))
  {
    var mine := NewDrives(s, id, target, |s.driveSerials|);
    FilterAppend(InLibrary(l.id), Drives(devs), mine);
    FilterAll(InLibrary(l.id), mine);
  }

  // The parse after a create: every old library as it was, then the new one with its
  // drives in slot order.
  lemma AssembleCreate(devs: seq<Device>, s: Spec, id: nat, target: nat)
    requires !AnyBelongs(devs, id) && forall x :: x in Assemble(devs) ==> x.lib.id < id
    ensures Assemble(devs + NewDevices(s, id, target, |s.driveSerials|))
            == Assemble(devs) + [Declared(NewLibrary(s, id, target), NewDrives(s, id, target, |s.driveSerials|))]
  {
    hide Filter, Sort, NewDevices, AnyBelongs;
    var n := |s.driveSerials|;
    var mine := NewDrives(s, id, target, n);
    var libs, drives := Libs(devs), Drives(devs) + mine;
    var last := NewLibrary(s, id, target);
    AppendLists(devs, NewDevices(s, id, target, n));
    NewLists(s, id, target, n);
    SortSorts(ById, AttachAll(libs, Drives(devs)));
    forall l | l in libs ensures Filter(InLibrary(l.id), drives) == Filter(InLibrary(l.id), Drives(devs)) {
      AttachAllIn(libs, Drives(devs), Attached(l, Drives(devs)));
      assert Attached(l, Drives(devs)) in Assemble(devs);
      OldLibraryDrives(l, devs, s, id, target);
    }
    AttachSame(libs, drives, Drives(devs));
    NewLibraryDrives(devs, s, id, target);
    SortedStays(BySlot, mine);
    assert (libs + [last])[..|libs|] == libs;
    assert AttachAll(libs + [last], drives) == AttachAll(libs, Drives(devs)) + [Declared(last, mine)];
    SortSnoc(ById, AttachAll(libs, Drives(devs)), Declared(last, mine));
    InsertLast(ById, Assemble(devs), Declared(last, mine));
  }

  // --------------------------------------------------------- assembling after remove ----

  lemma {:induction false} WithoutSnoc(devs: seq<Device>, x: Device, id: nat)
    ensures Without(devs + [x], id) == if Belongs(x, id) then Without(devs, id) else Without(devs, id) + [x]
  {
    hide Belongs;
    if devs == [] {
      assert devs + [x] == [x] + [];
      WithoutCons(x, [], id);
    } else {
      assert devs + [x] == [devs[0]] + (devs[1..] + [x]);
      WithoutCons(devs[0], devs[1..] + [x], id);
      WithoutSnoc(devs[1..], x, id);
    }
  }

  function OtherLibrary(id: nat): Library -> bool {
    (l: Library) => l.id != id
  }

  function OtherDrive(id: nat): Drive -> bool {
    (d: Drive) => d.library != id
  }

  lemma {:induction false} WithoutLists(devs: seq<Device>, id: nat)
    ensures Libs(Without(devs, id)) == Filter(OtherLibrary(id), Libs(devs))
    ensures Drives(Without(devs, id)) == Filter(OtherDrive(id), Drives(devs))
  {
    if devs == [] {
      EmptyLists();
    } else {
      var init, last := devs[..|devs| - 1], devs[|devs| - 1];
      assert devs == init + [last];
      WithoutLists(init, id);
      WithoutSnoc(init, last, id);
      Snoc(init, last);
      if !Belongs(last, id) { Snoc(Without(init, id), last); }
      if last.Lib? {
        FilterSnoc(OtherLibrary(id), Libs(init), last.l);
        assert Drives(devs) == Drives(init);
      } else {
        FilterSnoc(OtherDrive(id), Drives(init), last.d);
        assert Libs(devs) == Libs(init);
      }
    }
  }

  lemma {:induction false} FilterTwice(ds: seq<Drive>, id: nat, other: nat)
    requires other != id
    ensures Filter(InLibrary(other), Filter(OtherDrive(id), ds)) == Filter(InLibrary(other), ds)
  {
    if ds != [] {
      FilterTwice(ds[..|ds| - 1], id, other);
      var kept := Filter(OtherDrive(id), ds[..|ds| - 1]);
      FilterSnoc(InLibrary(other), kept, ds[|ds| - 1]);
    }
  }

  lemma {:induction false} AttachFilter(libs: seq<Library>, ds: seq<Drive>, id: nat)
    ensures AttachAll(Filter(OtherLibrary(id), libs), ds) == Filter(NotId(id), AttachAll(libs, ds))
  {
    if libs != [] {
      var init, last := libs[..|libs| - 1], libs[|libs| - 1];
      AttachFilter(init, ds, id);
      FilterSnoc(NotId(id), AttachAll(init, ds), Attached(last, ds));
      var kept := Filter(OtherLibrary(id), init);
      assert (kept + [last])[..|kept|] == kept;
    }
  }

  // The parse after a remove: the old one without that id, every other library and
  // its drives intact.
  lemma AssembleRemove(devs: seq<Device>, id: nat)
    ensures Assemble(Without(devs, id)) == Filter(NotId(id), Assemble(devs))
  {
    hide Sort, Without;
    var libs, ds := Libs(devs), Drives(devs);
    WithoutLists(devs, id);
    var keptLibs, keptDrives := Filter(OtherLibrary(id), libs), Filter(OtherDrive(id), ds);
    forall l | l in keptLibs ensures Filter(InLibrary(l.id), keptDrives) == Filter(InLibrary(l.id), ds) {
      FilterIn(OtherLibrary(id), libs, l);
      FilterTwice(ds, id, l.id);
    }
    AttachSame(keptLibs, keptDrives, ds);
    AttachFilter(libs, ds, id);
    FilterSort(ById, NotId(id), AttachAll(libs, ds));
  }
}
