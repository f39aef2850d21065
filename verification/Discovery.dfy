// scsi.go's serial matching and fc.go's expected LUN table.
module Discovery {
  import opened Options
  import opened Luns

  datatype DeviceType = Mediumx | Tape
  datatype Device = Device(kind: DeviceType, serial: string, sg: Dev)
  datatype Library = Library(id: int, serial: string, drives: seq<string>)

  // ---------------------------------------------------------------- serials ----

  function Strip(d: string, n: nat): string {
    if |d| > n && d[0] == '0' then Strip(d[1..], n) else d
  }

  predicate Serial(dev: string, conf: string) {
    || dev == conf
    || (conf != "" && |dev| >= |conf| &&
        var d := Strip(dev, |conf|);
        d == conf || (|d| == |conf| + 4 && conf <= d))
  }

  method SerialMatches(dev: string, conf: string) returns (ok: bool)
    ensures ok == Serial(dev, conf)
  {
    if dev == conf {
      return true;
    }
    if conf == "" || |dev| < |conf| {
      return false;
    }
    var d := dev;
    while |d| > |conf| && d[0] == '0'
      invariant |d| >= |conf| && Strip(d, |conf|) == Strip(dev, |conf|)
    {
      d := d[1..];
    }
    if d == conf {
      return true;
    }
    ok := |d| == |conf| + 4 && conf <= d;
  }

  predicate AllZeros(z: string) {
    forall i :: 0 <= i < |z| ==> z[i] == '0'
  }

  // The forms a changer may present: zero padding in front, and optionally the
  // four-digit element address behind.
  ghost predicate Presents(dev: string, conf: string) {
    exists z, suffix :: AllZeros(z) && (|suffix| == 0 || |suffix| == 4) && dev == z + conf + suffix
  }

  lemma {:induction false} StripIsSuffix(d: string, n: nat) returns (z: string)
    ensures AllZeros(z) && d == z + Strip(d, n)
  {
    if |d| > n && d[0] == '0' {
      var y := StripIsSuffix(d[1..], n);
      z := [d[0]] + y;
      assert d == [d[0]] + d[1..];
    } else {
      z := "";
    }
  }

  lemma {:induction false} StripPadding(z: string, s: string, n: nat)
    requires AllZeros(z) && n <= |s| && s != "" && s[0] != '0'
    ensures Strip(z + s, n) == s
  {
    if z == "" {
      assert z + s == s;
    } else {
      assert (z + s)[1..] == z[1..] + s;
      StripPadding(z[1..], s, n);
    }
  }

  lemma SerialSound(dev: string, conf: string)
    requires Serial(dev, conf)
    ensures Presents(dev, conf)
  {
    if dev == conf {
      assert dev == "" + conf + "";
    } else {
      var z := StripIsSuffix(dev, |conf|);
      var d := Strip(dev, |conf|);
      assert d == conf + d[|conf|..];
      assert dev == z + conf + d[|conf|..];
    }
  }

  lemma SerialComplete(dev: string, conf: string)
    requires conf != "" && conf[0] != '0' && Presents(dev, conf)
    ensures Serial(dev, conf)
  {
    var z, suffix :| AllZeros(z) && (|suffix| == 0 || |suffix| == 4) && dev == z + conf + suffix;
    assert dev == z + (conf + suffix);
    StripPadding(z, conf + suffix, |conf|);
  }

  lemma {:induction false} StripShortens(d: string, n: nat)
    ensures |Strip(d, n)| <= |d| && (|d| > n && d[0] == '0' ==> |Strip(d, n)| < |d|)
    decreases |d|
  {
    if |d| > n && d[0] == '0' {
      StripShortens(d[1..], n);
    }
  }

  // Stripping zeros never eats into a tail that does not start with a zero.
  lemma {:induction false} StripKeepsTail(s: string, tail: string, n: nat)
    requires |tail| <= n && tail != ""
    ensures |Strip(s + tail, n)| >= |tail| && Strip(s + tail, n)[|Strip(s + tail, n)| - |tail|..] == tail
    decreases |s|
  {
    var d := s + tail;
    if |d| > n && d[0] == '0' {
      assert s != "" && d[1..] == s[1..] + tail;
      StripKeepsTail(s[1..], tail, n);
    }
  }

  // SerialMatches accepts exactly the documented presentations of a declared
  // serial - if and only if that serial does not itself start with '0': otherwise
  // the padding loop eats the serial's own zeros and a suffixed form is missed.
  lemma SerialExact(conf: string)
    requires conf != ""
    ensures (forall dev :: Serial(dev, conf) <==> Presents(dev, conf)) <==> conf[0] != '0'
  {
    forall dev ensures Serial(dev, conf) ==> Presents(dev, conf) {
      if Serial(dev, conf) { SerialSound(dev, conf); }
    }
    if conf[0] != '0' {
      forall dev ensures Presents(dev, conf) ==> Serial(dev, conf) {
        if Presents(dev, conf) { SerialComplete(dev, conf); }
      }
    } else {
      var dev := conf + "1111";
      assert dev == "" + conf + "1111" && AllZeros("");
      assert Presents(dev, conf);
      var d := Strip(dev, |conf|);
      StripShortens(dev, |conf|);
      MissedSuffix(conf);
    }
  }

  lemma MissedSuffix(conf: string)
    requires conf != "" && conf[0] == '0'
    ensures !Serial(conf + "1111", conf)
  {
    var dev := conf + "1111";
    var d := Strip(dev, |conf|);
    StripShortens(dev, |conf|);
    assert dev == conf + "111" + "1";
    StripKeepsTail(conf + "111", "1", |conf|);
    var z := StripIsSuffix(dev, |conf|);
    if |z| == 4 {
      SelfShift(conf, z);
    }
  }

  lemma {:induction false} FirstNonZero(s: string, k: nat) returns (i: nat)
    requires k < |s| && s[|s| - 1] != '0' && forall j :: 0 <= j < k ==> s[j] == '0'
    ensures i < |s| && s[i] != '0' && forall j :: 0 <= j < i ==> s[j] == '0'
    decreases |s| - k
  {
    if s[k] != '0' {
      i := k;
    } else {
      i := FirstNonZero(s, k + 1);
    }
  }

  // conf + "1111" is never four zeros and then conf: they differ in the last place,
  // or where conf's first non-zero stands.
  lemma SelfShift(conf: string, z: string)
    requires conf != "" && |z| == 4 && AllZeros(z)
    ensures conf + "1111" != z + conf
  {
    var a, b := conf + "1111", z + conf;
    var last := |conf| - 1;
    if conf[last] != '1' {
      assert a[last + 4] == '1' && b[last + 4] == conf[last];
    } else {
      var i := FirstNonZero(conf, 0);
      assert a[i] == conf[i];
      assert b[i] == if i < 4 then z[i] else conf[i - 4];
    }
  }

  // -------------------------------------------------------------- LUN table ----

  // The last device of the type that answers with the serial.
  function Resolve(devs: seq<Device>, kind: DeviceType, serial: string): Option<Dev> {
    if devs == [] then None
    else
      var d := devs[|devs| - 1];
      if d.kind == kind && Serial(d.serial, serial) then Some(d.sg)
      else Resolve(devs[..|devs| - 1], kind, serial)
  }

  // d is of the kind and its serial is taken for the declared one.
  predicate Answers(d: Device, kind: DeviceType, serial: string) {
    d.kind == kind && Serial(d.serial, serial)
  }

  // Device i answers, and none after it.
  predicate LastAt(devs: seq<Device>, kind: DeviceType, serial: string, i: nat) {
    && i < |devs| && Answers(devs[i], kind, serial)
    && forall j :: i < j < |devs| ==> !Answers(devs[j], kind, serial)
  }

  // sg belongs to the last device that answers.
  ghost predicate LastAnswer(devs: seq<Device>, kind: DeviceType, serial: string, sg: Dev) {
    exists i: nat :: LastAt(devs, kind, serial, i) && devs[i].sg == sg
  }

  ghost predicate NoAnswer(devs: seq<Device>, kind: DeviceType, serial: string) {
    forall j :: 0 <= j < |devs| ==> !Answers(devs[j], kind, serial)
  }

  // The device found is one of those discovered, of the kind asked for, presenting the
  // declared serial, and no later one does; none is found exactly when none answers.
  lemma {:induction false} ResolveIs(devs: seq<Device>, kind: DeviceType, serial: string)
    ensures Resolve(devs, kind, serial).None? <==> NoAnswer(devs, kind, serial)
    ensures forall sg :: Resolve(devs, kind, serial) == Some(sg) <==> LastAnswer(devs, kind, serial, sg)
  {
    hide Serial;
    if devs != [] {
      var init, d := devs[..|devs| - 1], devs[|devs| - 1];
      ResolveIs(init, kind, serial);
      if Answers(d, kind, serial) {
        assert LastAt(devs, kind, serial, |devs| - 1);
      } else {
        assert forall i: nat :: i < |init| ==> (LastAt(init, kind, serial, i) <==> LastAt(devs, kind, serial, i));
      }
    }
  }

  // What answers is exactly what presents the serial, for every serial that does not
  // itself start with a zero.
  lemma AnswersExact(d: Device, kind: DeviceType, serial: string)
    requires serial != "" && serial[0] != '0'
    ensures Answers(d, kind, serial) <==> d.kind == kind && Presents(d.serial, serial)
  {
    SerialExact(serial);
  }

  // Whatever answers presents the declared serial in one of its documented forms.
  lemma AnswersPresents(devs: seq<Device>, kind: DeviceType, serial: string, sg: Dev)
    requires LastAnswer(devs, kind, serial, sg)
    ensures exists i :: 0 <= i < |devs| && Found(devs[i], kind, serial, sg)
  {
    var i: nat :| LastAt(devs, kind, serial, i) && devs[i].sg == sg;
    SerialSound(devs[i].serial, serial);
  }

  ghost predicate Found(d: Device, kind: DeviceType, serial: string, sg: Dev) {
    d.kind == kind && d.sg == sg && Presents(d.serial, serial)
  }

  function DriveBindings(lib: Library, devs: seq<Device>, n: nat): Option<seq<Binding>>
    requires n <= |lib.drives|
  {
    if n == 0 then Some([])
    else
      match DriveBindings(lib, devs, n - 1)
      case None => None
      case Some(bs) =>
        match Resolve(devs, Tape, lib.drives[n - 1])
        case None => None
        case Some(sg) => Some(bs + [Binding(DriveStore(lib.id, n - 1), sg, lib.id)])
  }

  // Live libraries in order, changer first, then every drive; None when a live
  // library lacks a drive.
  function Layout(libs: seq<Library>, devs: seq<Device>): Option<seq<Binding>> {
    if libs == [] then Some([])
    else
      var lib := libs[|libs| - 1];
      match Layout(libs[..|libs| - 1], devs)
      case None => None
      case Some(bs) =>
        match Resolve(devs, Mediumx, lib.serial)
        case None => Some(bs)
        case Some(chgr) =>
          match DriveBindings(lib, devs, |lib.drives|)
          case None => None
          case Some(ds) => Some(bs + [Binding(ChangerStore(lib.id), chgr, lib.id)] + ds)
  }

  method Find(devs: seq<Device>, kind: DeviceType, serial: string) returns (sg: Option<Dev>)
    ensures sg == Resolve(devs, kind, serial)
  {
    sg := None;
    var i := 0;
    while i < |devs|
      invariant i <= |devs| && sg == Resolve(devs[..i], kind, serial)
    {
      assert devs[..i + 1][..i] == devs[..i];
      var same := SerialMatches(devs[i].serial, serial);
      if devs[i].kind == kind && same {
        sg := Some(devs[i].sg);
      }
      i := i + 1;
    }
    assert devs[..i] == devs;
  }

  // expected: no libraries means an empty table without discovery; libraries
  // declared but none discovered is an error, as is a half-discovered one.
  method Expected(libs: seq<Library>, discovered: Option<seq<Device>>) returns (want: Option<seq<Binding>>)
    ensures libs == [] ==> want == Some([])
    ensures libs != [] && want.Some? ==>
              discovered.Some? && want.value != [] && exists starts :: Laid(libs, discovered.value, want.value, starts)
    ensures libs != [] ==>
              (want.None? <==>
               || discovered.None?
               || (forall i :: 0 <= i < |libs| ==> !Live(libs[i], discovered.value))
               || exists i :: 0 <= i < |libs| && Half(libs[i], discovered.value))
    ensures libs != [] ==>
      want == (if discovered.None? || Layout(libs, discovered.value) == Some([]) then None
               else Layout(libs, discovered.value))
  {
    if libs == [] {
      return Some([]);
    }
    if discovered.None? {
      return None;
    }
    var devs := discovered.value;
    var out: seq<Binding> := [];
    var i := 0;
    while i < |libs|
      invariant i <= |libs| && Layout(libs[..i], devs) == Some(out)
    {
      var lib := libs[i];
      assert libs[..i + 1][..i] == libs[..i];
      var chgr := Find(devs, Mediumx, lib.serial);
      if chgr.Some? {
        var drives: seq<Binding> := [];
        var n := 0;
        while n < |lib.drives|
          invariant n <= |lib.drives| && DriveBindings(lib, devs, n) == Some(drives)
        {
          var sg := Find(devs, Tape, lib.drives[n]);
          if sg.None? {
            HalfLibrary(libs, devs, i, n);
            ghost var _ := LayoutLaid(libs, devs);
            return None;
          }
          drives := drives + [Binding(DriveStore(lib.id, n), sg.value, lib.id)];
          n := n + 1;
        }
        out := out + [Binding(ChangerStore(lib.id), chgr.value, lib.id)] + drives;
      }
      i := i + 1;
    }
    assert libs[..i] == libs;
    ghost var starts := LayoutLaid(libs, devs);
    NobodyLive(libs, devs, out, starts);
    if out == [] {
      return None;
    }
    want := Some(out);
  }

  // An empty table means that no library is served.
  lemma {:induction false} Reaches(libs: seq<Library>, devs: seq<Device>, bs: seq<Binding>, starts: seq<nat>, n: nat)
    requires Laid(libs, devs, bs, starts) && n <= |libs|
    ensures starts[n] == 0 <==> forall i :: 0 <= i < n ==> !Live(libs[i], devs)
  {
    if n > 0 { Reaches(libs, devs, bs, starts, n - 1); }
  }

  lemma NobodyLive(libs: seq<Library>, devs: seq<Device>, bs: seq<Binding>, starts: seq<nat>)
    requires Laid(libs, devs, bs, starts)
    ensures bs == [] <==> forall i :: 0 <= i < |libs| ==> !Live(libs[i], devs)
  {
    Reaches(libs, devs, bs, starts, |libs|);
  }

  lemma {:induction false} MissingDrive(lib: Library, devs: seq<Device>, n: nat, m: nat)
    requires n < m <= |lib.drives| && Resolve(devs, Tape, lib.drives[n]).None?
    ensures DriveBindings(lib, devs, m).None?
  {
    if n + 1 < m { MissingDrive(lib, devs, n, m - 1); }
  }

  // A live library with a missing drive makes the whole table an error.
  lemma {:induction false} HalfLibrary(libs: seq<Library>, devs: seq<Device>, i: nat, n: nat)
    requires i < |libs| && n < |libs[i].drives|
    requires Resolve(devs, Mediumx, libs[i].serial).Some? && Resolve(devs, Tape, libs[i].drives[n]).None?
    ensures Layout(libs, devs).None?
    decreases |libs|
  {
    if i == |libs| - 1 {
      MissingDrive(libs[i], devs, n, |libs[i].drives|);
    } else {
      HalfLibrary(libs[..|libs| - 1], devs, i, n);
    }
  }

  // The binding is the changer's or a drive's of the library, named after its place, on
  // a discovered device of that type that presents the serial declared there.
  ghost predicate Placed(b: Binding, lib: Library, devs: seq<Device>) {
    b.lib == lib.id &&
    match b.name
    case ChangerStore(id) =>
      id == lib.id && exists i :: 0 <= i < |devs| && Found(devs[i], Mediumx, lib.serial, b.dev)
    case DriveStore(id, n) =>
      && id == lib.id && n < |lib.drives|
      && exists i :: 0 <= i < |devs| && Found(devs[i], Tape, lib.drives[n], b.dev)
    case OtherStore(_) => false
  }

  lemma {:induction false} DrivesPlaced(lib: Library, devs: seq<Device>, n: nat)
    requires n <= |lib.drives| && DriveBindings(lib, devs, n).Some?
    ensures var bs := DriveBindings(lib, devs, n).value;
            |bs| == n && forall k :: 0 <= k < n ==> bs[k].name == DriveStore(lib.id, k) && Placed(bs[k], lib, devs)
  {
    hide Resolve, LastAnswer, Found;
    if n > 0 {
      DrivesPlaced(lib, devs, n - 1);
      ResolveIs(devs, Tape, lib.drives[n - 1]);
      AnswersPresents(devs, Tape, lib.drives[n - 1], Resolve(devs, Tape, lib.drives[n - 1]).value);
    }
  }

  ghost predicate DistinctIds(libs: seq<Library>) {
    forall i, j :: 0 <= i < j < |libs| ==> libs[i].id != libs[j].id
  }

  // Identity: LUN l is bound to a device that answers with the serial declared for
  // that place. Names never repeat, so every backstore can be created.
  lemma {:induction false} LayoutPlaced(libs: seq<Library>, devs: seq<Device>)
    requires DistinctIds(libs) && Layout(libs, devs).Some?
    ensures var bs := Layout(libs, devs).value;
            && (forall k :: 0 <= k < |bs| ==> exists i :: 0 <= i < |libs| && Placed(bs[k], libs[i], devs))
            && forall j, k :: 0 <= j < k < |bs| ==> bs[j].name != bs[k].name
  {
    hide Resolve, LastAnswer, Found;
    if libs != [] {
      var front, lib := libs[..|libs| - 1], libs[|libs| - 1];
      LayoutPlaced(front, devs);
      var prior := Layout(front, devs).value;
      var bs := Layout(libs, devs).value;
      if Resolve(devs, Mediumx, lib.serial).Some? {
        ResolveIs(devs, Mediumx, lib.serial);
        AnswersPresents(devs, Mediumx, lib.serial, Resolve(devs, Mediumx, lib.serial).value);
        DrivesPlaced(lib, devs, |lib.drives|);
        forall k | |prior| <= k < |bs| ensures Placed(bs[k], lib, devs) {
        }
      }
      forall k | 0 <= k < |bs| ensures exists i :: 0 <= i < |libs| && Placed(bs[k], libs[i], devs) {
        if k < |prior| {
          var i :| 0 <= i < |front| && Placed(prior[k], front[i], devs);
          assert Placed(bs[k], libs[i], devs);
        } else {
          assert Placed(bs[k], libs[|libs| - 1], devs);
        }
      }
      forall j, k | 0 <= j < |prior| <= k < |bs| ensures bs[j].lib != bs[k].lib {
        var i :| 0 <= i < |front| && Placed(prior[j], front[i], devs);
        assert libs[i].id != lib.id;
        assert Placed(bs[k], lib, devs);
      }
    }
  }

  // ------------------------------------------------------------- the whole layout ----

  // Some changer answers with the library's serial.
  ghost predicate Live(lib: Library, devs: seq<Device>) {
    !NoAnswer(devs, Mediumx, lib.serial)
  }

  // The LUNs a library takes.
  ghost function Width(lib: Library, devs: seq<Device>): nat {
    if Live(lib, devs) then 1 + |lib.drives| else 0
  }

  // A library's LUNs from `at` on: the changer, then every drive in order, each on the
  // last device that answers with its serial.
  ghost predicate LaidAt(lib: Library, devs: seq<Device>, bs: seq<Binding>, at: nat) {
    && at + 1 + |lib.drives| <= |bs|
    && bs[at].name == ChangerStore(lib.id) && bs[at].lib == lib.id
    && LastAnswer(devs, Mediumx, lib.serial, bs[at].dev)
    && forall n :: 0 <= n < |lib.drives| ==> DriveAt(lib, devs, bs, at, n)
  }

  ghost predicate DriveAt(lib: Library, devs: seq<Device>, bs: seq<Binding>, at: nat, n: nat)
    requires n < |lib.drives| && at + 1 + n < |bs|
  {
    IsDrive(lib, devs, n, bs[at + 1 + n])
  }

  ghost predicate IsDrive(lib: Library, devs: seq<Device>, n: nat, b: Binding)
    requires n < |lib.drives|
  {
    b.name == DriveStore(lib.id, n) && b.lib == lib.id && LastAnswer(devs, Tape, lib.drives[n], b.dev)
  }

  // The libraries one after the other in declaration order; a library not served takes
  // no LUN, and no LUN is anything else's.
  ghost predicate Laid(libs: seq<Library>, devs: seq<Device>, bs: seq<Binding>, starts: seq<nat>) {
    && |starts| == |libs| + 1 && starts[0] == 0 && starts[|libs|] == |bs|
    && forall i :: 0 <= i < |libs| ==>
         && starts[i + 1] == starts[i] + Width(libs[i], devs)
         && (Live(libs[i], devs) ==> LaidAt(libs[i], devs, bs, starts[i]))
  }

  lemma {:induction false} DrivesLaid(lib: Library, devs: seq<Device>, n: nat)
    requires n <= |lib.drives|
    ensures DriveBindings(lib, devs, n).None? <==> exists k :: 0 <= k < n && NoAnswer(devs, Tape, lib.drives[k])
    ensures DriveBindings(lib, devs, n).Some? ==>
              var bs := DriveBindings(lib, devs, n).value;
              |bs| == n && forall k :: 0 <= k < n ==> IsDrive(lib, devs, k, bs[k])
  {
    hide Resolve, LastAnswer, NoAnswer;
    if n > 0 {
      DrivesLaid(lib, devs, n - 1);
      ResolveIs(devs, Tape, lib.drives[n - 1]);
    }
  }

  // A live library one of whose drives nothing answers for.
  ghost predicate Half(lib: Library, devs: seq<Device>) {
    Live(lib, devs) && exists k :: 0 <= k < |lib.drives| && NoAnswer(devs, Tape, lib.drives[k])
  }

  lemma {:induction false} LayoutFails(libs: seq<Library>, devs: seq<Device>)
    ensures Layout(libs, devs).None? <==> exists i :: 0 <= i < |libs| && Half(libs[i], devs)
  {
    hide Resolve, LastAnswer, NoAnswer, DriveBindings;
    if libs != [] {
      var front, lib := libs[..|libs| - 1], libs[|libs| - 1];
      LayoutFails(front, devs);
      ResolveIs(devs, Mediumx, lib.serial);
      DrivesLaid(lib, devs, |lib.drives|);
      if i :| 0 <= i < |front| && Half(front[i], devs) { assert Half(libs[i], devs); }
      if i :| 0 <= i < |libs| && Half(libs[i], devs) {
        if i < |front| { assert Half(front[i], devs); }
      }
    }
  }

  // The layout is an error exactly when a live library is half there; otherwise it is
  // complete and in order.
  lemma {:induction false} LayoutLaid(libs: seq<Library>, devs: seq<Device>) returns (starts: seq<nat>)
    ensures Layout(libs, devs).None? <==> exists i :: 0 <= i < |libs| && Half(libs[i], devs)
    ensures Layout(libs, devs).Some? ==> Laid(libs, devs, Layout(libs, devs).value, starts)
  {
    hide Resolve, LastAnswer, NoAnswer, DriveBindings, Laid, Live, Half;
    LayoutFails(libs, devs);
    starts := [0];
    if libs == [] {
      NothingLaid(devs);
    } else if Layout(libs, devs).Some? {
      var front, lib := libs[..|libs| - 1], libs[|libs| - 1];
      starts := LayoutLaid(front, devs);
      var prior, bs := Layout(front, devs).value, Layout(libs, devs).value;
      LiveIs(lib, devs);
      if Live(lib, devs) { LastLaid(lib, devs, prior, bs); }
      OneMoreLaid(libs, devs, prior, bs, starts);
      starts := starts + [|bs|];
    }
  }

  lemma NothingLaid(devs: seq<Device>)
    ensures Laid([], devs, [], [0])
  {
  }

  lemma LiveIs(lib: Library, devs: seq<Device>)
    ensures Live(lib, devs) <==> Resolve(devs, Mediumx, lib.serial).Some?
  {
    ResolveIs(devs, Mediumx, lib.serial);
  }

  lemma OneMoreLaid(libs: seq<Library>, devs: seq<Device>, prior: seq<Binding>, bs: seq<Binding>, starts: seq<nat>)
    requires libs != [] && Laid(libs[..|libs| - 1], devs, prior, starts) && prior <= bs
    requires var lib := libs[|libs| - 1];
             && |bs| == |prior| + Width(lib, devs) && (Live(lib, devs) ==> LaidAt(lib, devs, bs, |prior|))
    ensures Laid(libs, devs, bs, starts + [|bs|])
  {
    hide Live, LaidAt;
    var front, more := libs[..|libs| - 1], starts + [|bs|];
    forall i | 0 <= i < |libs|
      ensures more[i + 1] == more[i] + Width(libs[i], devs)
      ensures Live(libs[i], devs) ==> LaidAt(libs[i], devs, bs, more[i])
    {
      if i < |front| {
        assert front[i] == libs[i];
        if Live(libs[i], devs) { LaidStays(libs[i], devs, prior, bs, starts[i]); }
      }
    }
  }

  lemma LaidStays(lib: Library, devs: seq<Device>, prior: seq<Binding>, bs: seq<Binding>, at: nat)
    requires LaidAt(lib, devs, prior, at) && prior <= bs
    ensures LaidAt(lib, devs, bs, at)
  {
    hide LastAnswer;
    forall n | 0 <= n < |lib.drives| ensures DriveAt(lib, devs, bs, at, n) {
      assert DriveAt(lib, devs, prior, at, n);
    }
  }

  lemma LastLaid(lib: Library, devs: seq<Device>, prior: seq<Binding>, bs: seq<Binding>)
    requires Resolve(devs, Mediumx, lib.serial).Some? && DriveBindings(lib, devs, |lib.drives|).Some?
    requires bs == prior + [Binding(ChangerStore(lib.id), Resolve(devs, Mediumx, lib.serial).value, lib.id)]
                   + DriveBindings(lib, devs, |lib.drives|).value
    ensures LaidAt(lib, devs, bs, |prior|) && |bs| == |prior| + 1 + |lib.drives|
  {
    hide Resolve, LastAnswer, NoAnswer, DriveBindings, IsDrive;
    ResolveIs(devs, Mediumx, lib.serial);
    DrivesLaid(lib, devs, |lib.drives|);
    var ds := DriveBindings(lib, devs, |lib.drives|).value;
    forall n | 0 <= n < |lib.drives| ensures DriveAt(lib, devs, bs, |prior|, n) {
      assert IsDrive(lib, devs, n, ds[n]);
      assert bs[|prior| + 1 + n] == ds[n];
    }
  }
}
