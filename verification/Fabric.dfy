// fc.go: the live LIO configuration, targetcli commands that may fail, and the
// reconciler that drives them.
module Fabrics {
  import opened Options
  import opened Luns

  type Wwn = string
  type Initiator = string

  datatype Target = Target(luns: map<nat, Dev>, acls: map<Initiator, set<nat>>)
  // `saved` is what saveconfig last wrote, the configuration the next boot restores.
  datatype Saved = Saved(stores: map<StoreName, Dev>, targets: map<Wwn, Target>)
  datatype Config = Config(stores: map<StoreName, Dev>, targets: map<Wwn, Target>, stamp: Option<string>,
                           saved: Option<Saved>)

  // One registry row of the fc fabric: None scopes mean "all".
  datatype Row = Row(wwpn: Initiator, ports: Option<set<Wwn>>, libs: Option<set<int>>)

  datatype Cmd =
    | ClearConfig
    | SetGlobal
    | CreateStore(name: StoreName, dev: Dev)
    | CreateTarget(w: Wwn)
    | SetAttributes(w: Wwn)
    | CreateLun(w: Wwn, lun: nat, name: StoreName)
    | DeleteTarget(w: Wwn)
    | CreateAcl(w: Wwn, i: Initiator)
    | DeleteAcl(w: Wwn, i: Initiator)
    | MapLun(w: Wwn, i: Initiator, lun: nat)
    | SaveConfig

  // When targetcli can carry a command out at all.
  predicate Possible(c: Cmd, g: Config) {
    match c
    case CreateStore(n, _) => n !in g.stores
    case CreateTarget(w) => w !in g.targets
    case SetAttributes(w) => w in g.targets
    case CreateLun(w, l, n) => w in g.targets && n in g.stores && l !in g.targets[w].luns
    case DeleteTarget(w) => w in g.targets
    case CreateAcl(w, i) => w in g.targets && i !in g.targets[w].acls
    case DeleteAcl(w, i) => w in g.targets && i in g.targets[w].acls
    case MapLun(w, i, l) =>
      w in g.targets && i in g.targets[w].acls && l in g.targets[w].luns && l !in g.targets[w].acls[i]
    case _ => true
  }

  function Run(c: Cmd, g: Config): Config
    requires Possible(c, g)
  {
    match c
    case ClearConfig => g.(stores := map[], targets := map[])
    case CreateStore(n, dev) => g.(stores := g.stores[n := dev])
    case CreateTarget(w) => g.(targets := g.targets[w := Target(map[], map[])])
    case CreateLun(w, l, n) => Retarget(g, w, g.targets[w].(luns := g.targets[w].luns[l := g.stores[n]]))
    case DeleteTarget(w) => g.(targets := g.targets - {w})
    case CreateAcl(w, i) => Retarget(g, w, g.targets[w].(acls := g.targets[w].acls[i := {}]))
    case DeleteAcl(w, i) => Retarget(g, w, g.targets[w].(acls := g.targets[w].acls - {i}))
    case SaveConfig => g.(saved := Some(Saved(g.stores, g.targets)))
    case MapLun(w, i, l) =>
      Retarget(g, w, g.targets[w].(acls := g.targets[w].acls[i := g.targets[w].acls[i] + {l}]))
    case _ => g
  }

  function Retarget(g: Config, w: Wwn, t: Target): Config {
    g.(targets := g.targets[w := t])
  }

  // The port a command addresses.
  function PortOf(c: Cmd): Option<Wwn> {
    match c
    case CreateTarget(w) => Some(w)
    case SetAttributes(w) => Some(w)
    case CreateLun(w, _, _) => Some(w)
    case DeleteTarget(w) => Some(w)
    case CreateAcl(w, _) => Some(w)
    case DeleteAcl(w, _) => Some(w)
    case MapLun(w, _, _) => Some(w)
    case _ => None
  }

  // ------------------------------------------------------------------ intent ----

  predicate InScope(r: Row, w: Wwn) {
    r.ports.None? || w in r.ports.value
  }

  predicate AclRight(r: Row, w: Wwn, want: seq<Binding>, acls: map<Initiator, set<nat>>) {
    if InScope(r, w) then r.wwpn in acls && acls[r.wwpn] == MappedSet(want, r.libs)
    else r.wwpn !in acls
  }

  predicate AclsRight(rows: seq<Row>, w: Wwn, want: seq<Binding>, acls: map<Initiator, set<nat>>) {
    forall k :: 0 <= k < |rows| ==> AclRight(rows[k], w, want, acls)
  }

  // A port carrying exactly the expected LUN table and exactly the intended views.
  predicate Exact(g: Config, w: Wwn, rows: seq<Row>, want: seq<Binding>) {
    w in g.targets && g.targets[w].luns == Table(want) && AclsRight(rows, w, want, g.targets[w].acls)
  }

  // What a host sees of its scope: every expected LUN on its device, and every
  // initiator in scope with at least its LUNs.
  predicate Serves(g: Config, w: Wwn, rows: seq<Row>, want: seq<Binding>) {
    && w in g.targets && (forall l: nat :: l < |want| ==> l in g.targets[w].luns && g.targets[w].luns[l] == want[l].dev)
    && forall k :: 0 <= k < |rows| && InScope(rows[k], w) ==>
         rows[k].wwpn in g.targets[w].acls && MappedSet(want, rows[k].libs) <= g.targets[w].acls[rows[k].wwpn]
  }

  // One LUN, one port, all in order; the reader skips what it cannot read.
  lemma LostLunInput()
    ensures var want := [Binding(ChangerStore(1), "/dev/sg1", 1)];
            var target := Target(map[0 := "/dev/sg1"], map[]);
            var g := Config(map[ChangerStore(1) := "/dev/sg1"], map["w" := target], None, None);
            Exact(g, "w", [], want) && map[] != Table(want)
  {
    var want := [Binding(ChangerStore(1), "/dev/sg1", 1)];
    var luns: map<nat, Dev> := map[0 := "/dev/sg1"];
    assert Table(want) == luns && 0 in Table(want);
  }

  // The mhVTL daemons are of another epoch than the one the targets are stamped with.
  predicate StaleAt(epoch: Option<string>, g: Config) {
    epoch.Some? && g.stamp != epoch
  }

  // What became of the stamp file: left alone, written, or cut off after truncation.
  datatype Stamping = Untouched | Written | Torn

  // Every port exact after a rebuild, an older stamp left in place: stale, so the next
  // verdict is hard. So is it when a fresh stamp is cut off while written again, or gone;
  // daemons whose epoch cannot be read make nothing stale.
  lemma OldStampInput()
    ensures var want := [Binding(ChangerStore(1), "/dev/sg1", 1)];
            var target := Target(map[0 := "/dev/sg1"], map[]);
            var g := Config(map[ChangerStore(1) := "/dev/sg1"], map["w" := target], Some("e1"), None);
            && Exact(g, "w", [], want) && StaleAt(Some("e2"), g)
            && !StaleAt(Some("e1"), g) && StaleAt(Some("e1"), g.(stamp := Some("e")))
            && StaleAt(Some("e1"), g.(stamp := None)) && !StaleAt(None, g)
  {
    LostLunInput();
    assert "e1"[1] != "e2"[1];
  }

  // What is live is what the next boot restores.
  predicate IsSaved(g: Config) {
    g.saved == Some(Saved(g.stores, g.targets))
  }

  predicate WrongTable(g: Config, w: Wwn, want: seq<Binding>) {
    w in g.targets && g.targets[w].luns != Table(want)
  }

  predicate AllExact(g: Config, ports: seq<Wwn>, rows: seq<Row>, want: seq<Binding>) {
    forall k :: 0 <= k < |ports| ==> Exact(g, ports[k], rows, want)
  }

  predicate AllServed(g: Config, ports: seq<Wwn>, rows: seq<Row>, want: seq<Binding>) {
    forall k :: 0 <= k < |ports| ==> Serves(g, ports[k], rows, want)
  }

  predicate AnyWrong(g: Config, ports: seq<Wwn>, want: seq<Binding>) {
    exists k :: 0 <= k < |ports| && WrongTable(g, ports[k], want)
  }

  // What reconciling may leave an initiator with: what it had, or part of its scope.
  ghost predicate WithinScope(r: Row, w: Wwn, want: seq<Binding>, before: map<Initiator, set<nat>>,
                              after: map<Initiator, set<nat>>) {
    r.wwpn in after ==>
      || (r.wwpn in before && after[r.wwpn] == before[r.wwpn])
      || (InScope(r, w) && after[r.wwpn] <= MappedSet(want, r.libs))
  }

  ghost predicate DistinctRows(rows: seq<Row>) {
    forall i, j :: 0 <= i < j < |rows| ==> rows[i].wwpn != rows[j].wwpn
  }

  ghost predicate DistinctPorts(ports: seq<Wwn>) {
    forall i, j :: 0 <= i < j < |ports| ==> ports[i] != ports[j]
  }

  ghost predicate DistinctNames(want: seq<Binding>) {
    forall i, j :: 0 <= i < j < |want| ==> want[i].name != want[j].name
  }

  // Every binding's backstore exists and holds its device.
  predicate Bound(stores: map<StoreName, Dev>, want: seq<Binding>) {
    forall l :: 0 <= l < |want| ==> want[l].name in stores && stores[want[l].name] == want[l].dev
  }

  // No live backstore holds an expected name on another device.
  ghost predicate NoSquatters(stores: map<StoreName, Dev>, want: seq<Binding>) {
    forall l :: 0 <= l < |want| && want[l].name in stores ==> stores[want[l].name] == want[l].dev
  }

  function Unregistered(rows: seq<Row>, acls: map<Initiator, set<nat>>): map<Initiator, set<nat>> {
    acls - (set k | 0 <= k < |rows| :: rows[k].wwpn)
  }

  // ------------------------------------------------------------------ driver ----

  class Fabric {
    const epoch: Option<string>   // daemonEpoch; None when it cannot be read
    var g: Config
    ghost var log: seq<Cmd>       // every command issued
    ghost var flakes: nat         // commands, reads and writes that failed although possible
    ghost var misreads: nat       // reads whose error was dropped and whose answer was wrong

    constructor (epoch: Option<string>, g: Config)
      ensures this.epoch == epoch && this.g == g && log == [] && flakes == 0 && misreads == 0
    {
      this.epoch, this.g, log, flakes, misreads := epoch, g, [], 0, 0;
    }

    // f.tc: a failed command may have taken effect.
    method Tc(c: Cmd) returns (ok: bool)
      modifies this`g, this`log, this`flakes
      ensures log == old(log) + [c]
      ensures ok ==> Possible(c, old(g)) && g == Run(c, old(g)) && flakes == old(flakes)
      ensures !ok ==> g == old(g) || (Possible(c, old(g)) && g == Run(c, old(g)))
      ensures !ok && Possible(c, old(g)) ==> flakes == old(flakes) + 1
      ensures !ok && !Possible(c, old(g)) ==> flakes == old(flakes)
    {
      log := log + [c];
      ok := false;
      if Possible(c, g) {
        var applied: bool := *;
        ok := *;
        if ok || applied {
          g := Run(c, g);
        }
        if !ok {
          flakes := flakes + 1;
        }
      }
    }

    // A configfs read or a file or database access that may fail.
    method Access() returns (ok: bool)
      modifies this`flakes
      ensures flakes == old(flakes) + (if ok then 0 else 1)
    {
      ok := *;
      if !ok {
        flakes := flakes + 1;
      }
    }

    // os.Stat, any error taken for absence.
    method Sees(there: bool) returns (seen: bool)
      modifies this`misreads
      ensures seen ==> there
      ensures misreads == old(misreads) + (if seen == there then 0 else 1)
    {
      seen := *;
      seen := seen && there;
      if seen != there {
        misreads := misreads + 1;
      }
    }

    // lunDevices: a LUN whose link or udev_path cannot be read is skipped.
    method ReadLuns(w: Wwn) returns (got: map<nat, Dev>)
      requires w in g.targets
      modifies this`misreads
      ensures got.Items <= g.targets[w].luns.Items && misreads >= old(misreads)
      ensures misreads == old(misreads) <==> got == g.targets[w].luns
    {
      got := map[];
      var luns := g.targets[w].luns;
      var rest := luns.Keys;
      while rest != {}
        invariant rest <= luns.Keys && got.Keys <= luns.Keys - rest && misreads >= old(misreads)
        invariant forall l :: l in got ==> got[l] == luns[l]
        invariant misreads == old(misreads) <==> got.Keys == luns.Keys - rest
        decreases |rest|
      {
        var l :| l in rest;
        rest := rest - {l};
        var readable := Sees(true);
        if readable {
          got := got[l := luns[l]];
        } else {
          assert l in luns.Keys - rest && l !in got.Keys;
        }
      }
    }

    // liveMappedLUNs' directory read: an error leaves what was read until then.
    method ReadMapped(w: Wwn, i: Initiator) returns (got: set<nat>)
      requires w in g.targets && i in g.targets[w].acls
      modifies this`misreads
      ensures got <= g.targets[w].acls[i]
      ensures misreads == old(misreads) + (if got == g.targets[w].acls[i] then 0 else 1)
    {
      var part: set<nat> := *;
      got := g.targets[w].acls[i] * part;
      if got != g.targets[w].acls[i] {
        misreads := misreads + 1;
      }
    }

    // reconcileACLs' directory read: an error leaves nothing.
    method ReadInitiators(w: Wwn) returns (live: set<Initiator>)
      requires w in g.targets
      modifies this`misreads
      ensures live == {} || live == g.targets[w].acls.Keys
      ensures misreads == old(misreads) + (if live == g.targets[w].acls.Keys then 0 else 1)
    {
      var readable: bool := *;
      live := if readable then g.targets[w].acls.Keys else {};
      if live != g.targets[w].acls.Keys {
        misreads := misreads + 1;
      }
    }

    // epochStale: without the daemons' epoch never, without the stamp always.
    method EpochStale() returns (stale: bool)
      modifies this`misreads
      ensures misreads == old(misreads) + (if stale == Stale() then 0 else 1)
      ensures stale ==> epoch.Some?
      ensures misreads == old(misreads) ==>
                (stale <==> epoch.Some? && (g.stamp.None? || g.stamp.value != epoch.value))
    {
      var known: bool, readable: bool := *, *;
      if !known || epoch.None? {
        stale := false;
      } else if !readable {
        stale := true;
      } else {
        stale := g.stamp != epoch;
      }
      if stale != Stale() {
        misreads := misreads + 1;
      }
    }

    // Since `old` only target w changed, its LUN table not at all, and every
    // command issued addressed w.
    twostate predicate OnlyAcls(w: Wwn)
      reads this
    {
      && old(log) <= log && flakes >= old(flakes) && misreads >= old(misreads)
      && (forall k :: |old(log)| <= k < |log| ==> PortOf(log[k]) == Some(w))
      && w in old(g.targets) && w in g.targets && g.targets[w].luns == old(g.targets[w].luns)
      && g == Retarget(old(g), w, g.targets[w])
    }

    // Create an ACL and map its LUNs one by one; one that exists already is an error.
    method BuildAcl(w: Wwn, i: Initiator, luns: seq<nat>) returns (ok: bool)
      requires w in g.targets && Rising(luns)
      modifies this
      ensures OnlyAcls(w) && g.targets[w].acls - {i} == old(g.targets[w].acls) - {i} && misreads == old(misreads)
      ensures i in old(g.targets[w].acls) ==> !ok && g == old(g)
      ensures i in g.targets[w].acls ==> i in old(g.targets[w].acls) || g.targets[w].acls[i] <= Items(luns)
      ensures ok ==> i in g.targets[w].acls && g.targets[w].acls[i] == Items(luns)
      ensures flakes == old(flakes) && i !in old(g.targets[w].acls) && Items(luns) <= g.targets[w].luns.Keys ==> ok
      ensures |log| > |old(log)|
    {
      ok := Tc(CreateAcl(w, i));
      if !ok {
        return;
      }
      var k := 0;
      while k < |luns|
        invariant k <= |luns| && OnlyAcls(w) && g.targets[w].acls - {i} == old(g.targets[w].acls)
        invariant flakes == old(flakes)
        invariant misreads == old(misreads) && |log| > |old(log)| && i !in old(g.targets[w].acls)
        invariant i in g.targets[w].acls && g.targets[w].acls[i] == Items(luns[..k])
      {
        assert luns[k] in Items(luns) && luns[k] !in Items(luns[..k]);
        assert Items(luns[..k + 1]) == Items(luns[..k]) + {luns[k]};
        assert Items(luns[..k + 1]) <= Items(luns);
        ok := Tc(MapLun(w, i, luns[k]));
        if !ok {
          return;
        }
        k := k + 1;
      }
      assert luns[..k] == luns;
      ok := true;
    }

    // One registry row on one port; `mapped`: the port's directory listed its ACL. A
    // right ACL is left alone exactly when it was read right.
    method ReconcileRow(w: Wwn, r: Row, want: seq<Binding>, mapped: bool) returns (ok: bool)
      requires w in g.targets && (mapped ==> r.wwpn in g.targets[w].acls)
      modifies this
      ensures OnlyAcls(w) && g.targets[w].acls - {r.wwpn} == old(g.targets[w].acls) - {r.wwpn}
      ensures ok && misreads == old(misreads) && mapped == (r.wwpn in old(g.targets[w].acls)) ==>
                AclRight(r, w, want, g.targets[w].acls)
      ensures WithinScope(r, w, want, old(g.targets[w].acls), g.targets[w].acls)
      ensures old(AclRight(r, w, want, g.targets[w].acls)) && mapped == (r.wwpn in old(g.targets[w].acls)) ==>
                (log == old(log) <==> misreads == old(misreads)) && (misreads == old(misreads) ==> ok && g == old(g))
      ensures !mapped ==> misreads == old(misreads)
      ensures (flakes == old(flakes) && mapped == (r.wwpn in old(g.targets[w].acls))
               && MappedSet(want, r.libs) <= g.targets[w].luns.Keys) ==> ok
    {
      var here := InScope(r, w);
      ok := true;
      if here && !mapped {
        var luns := MappedLuns(want, r.libs);
        ok := BuildAcl(w, r.wwpn, luns);
      } else if !here && mapped {
        ok := Tc(DeleteAcl(w, r.wwpn));
      } else if here {
        var luns := MappedLuns(want, r.libs);
        var got := ReadMapped(w, r.wwpn);
        var same := SameLuns(luns, got);
        if !same {
          ok := Tc(DeleteAcl(w, r.wwpn));
          if !ok {
            return;
          }
          ok := BuildAcl(w, r.wwpn, luns);
        }
      }
    }

    // reconcileACLs: registered initiators end exactly as intended; unregistered
    // ones are left alone; wherever it stops, nobody gained a LUN out of scope.
    method ReconcileAcls(w: Wwn, rows: seq<Row>, want: seq<Binding>) returns (ok: bool)
      requires w in g.targets && DistinctRows(rows)
      modifies this
      ensures OnlyAcls(w)
      ensures Unregistered(rows, g.targets[w].acls) == Unregistered(rows, old(g.targets[w].acls))
      ensures ok && misreads == old(misreads) ==> AclsRight(rows, w, want, g.targets[w].acls)
      ensures forall k :: 0 <= k < |rows| ==>
                WithinScope(rows[k], w, want, old(g.targets[w].acls), g.targets[w].acls)
      ensures old(AclsRight(rows, w, want, g.targets[w].acls)) && misreads == old(misreads) ==>
                ok && g == old(g) && log == old(log)
      ensures flakes == old(flakes) && misreads == old(misreads) && g.targets[w].luns == Table(want) ==> ok
      ensures old(g.targets[w].acls) == map[] ==> misreads == old(misreads)
    {
      var live := ReadInitiators(w);
      ghost var before := g.targets[w].acls;
      var k := 0;
      while k < |rows|
        invariant k <= |rows| && OnlyAcls(w)
        invariant Unregistered(rows, g.targets[w].acls) == Unregistered(rows, before)
        invariant misreads == old(misreads) ==> forall j :: 0 <= j < k ==> AclRight(rows[j], w, want, g.targets[w].acls)
        invariant live <= before.Keys && (misreads == old(misreads) ==> live == before.Keys)
        invariant before == map[] ==> misreads == old(misreads)
        invariant forall j :: 0 <= j < k ==> WithinScope(rows[j], w, want, before, g.targets[w].acls)
        invariant forall j :: k <= j < |rows| ==>
                    (rows[j].wwpn in g.targets[w].acls <==> rows[j].wwpn in before)
                    && (rows[j].wwpn in before ==> g.targets[w].acls[rows[j].wwpn] == before[rows[j].wwpn])
        invariant AclsRight(rows, w, want, before) && misreads == old(misreads) ==> g == old(g) && log == old(log)
      {
        ghost var mid := g.targets[w].acls;
        ok := ReconcileRow(w, rows[k], want, rows[k].wwpn in live);
        OthersKept(rows, k, w, want, before, mid, g.targets[w].acls);
        if !ok {
          return;
        }
        k := k + 1;
      }
      ok := true;
    }

    // ------------------------------------------------------------ verification ----

    // verifyACLs: read right, what it reports is empty exactly when the views are
    // right; right views are reported exactly when misread; and no report means every
    // initiator in scope sees its LUNs.
    method VerifyAcls(w: Wwn, rows: seq<Row>, want: seq<Binding>) returns (bad: seq<Initiator>)
      requires w in g.targets
      modifies this`misreads
      ensures misreads >= old(misreads)
      ensures misreads == old(misreads) ==> (bad == [] <==> AclsRight(rows, w, want, g.targets[w].acls))
      ensures AclsRight(rows, w, want, g.targets[w].acls) ==> (bad == [] <==> misreads == old(misreads))
      ensures bad == [] ==> forall k :: 0 <= k < |rows| && InScope(rows[k], w) ==>
                rows[k].wwpn in g.targets[w].acls && MappedSet(want, rows[k].libs) <= g.targets[w].acls[rows[k].wwpn]
    {
      bad := [];
      var acls := g.targets[w].acls;
      var k := 0;
      while k < |rows|
        invariant k <= |rows| && acls == g.targets[w].acls && misreads >= old(misreads)
        invariant misreads == old(misreads) ==>
                  (bad == [] <==> forall j :: 0 <= j < k ==> AclRight(rows[j], w, want, acls))
        invariant AclsRight(rows, w, want, acls) ==> (bad == [] <==> misreads == old(misreads))
        invariant bad == [] ==> forall j :: 0 <= j < k && InScope(rows[j], w) ==>
                    rows[j].wwpn in acls && MappedSet(want, rows[j].libs) <= acls[rows[j].wwpn]
      {
        var r := rows[k];
        assert AclsRight(rows, w, want, acls) ==> AclRight(r, w, want, acls);
        var there := Sees(r.wwpn in acls);
        if InScope(r, w) {
          if !there {
            bad := bad + [r.wwpn];
          } else {
            var luns := MappedLuns(want, r.libs);
            var got := ReadMapped(w, r.wwpn);
            var same := SameLuns(luns, got);
            if !same {
              bad := bad + [r.wwpn];
            }
          }
        } else if there {
          bad := bad + [r.wwpn];
        }
        k := k + 1;
      }
    }

    // The LUN comparison of one existing target, on what could be read of it.
    method TableMatches(w: Wwn, want: seq<Binding>) returns (same: bool)
      requires w in g.targets
      modifies this`misreads
      ensures misreads >= old(misreads)
      ensures misreads == old(misreads) ==> (same <==> g.targets[w].luns == Table(want))
      ensures g.targets[w].luns == Table(want) ==> (same <==> misreads == old(misreads))
      ensures same ==> forall l: nat :: l < |want| ==> l in g.targets[w].luns && g.targets[w].luns[l] == want[l].dev
    {
      var got := ReadLuns(w);
      same := Compare(got, want);
      forall l: nat | same && l < |want| ensures l in g.targets[w].luns && g.targets[w].luns[l] == want[l].dev {
        assert (l, want[l].dev) in got.Items;
      }
    }

    method Compare(got: map<nat, Dev>, want: seq<Binding>) returns (same: bool)
      ensures same <==> got == Table(want)
    {
      var lun := 0;
      while lun < |want|
        invariant lun <= |want| && forall l: nat :: l < lun ==> l in got && got[l] == want[l].dev
      {
        if lun !in got || got[lun] != want[lun].dev {
          return false;
        }
        lun := lun + 1;
      }
      same := |got| == |want|;
      if same {
        SameTable(got, want);
      }
      TableSize(want);
    }

    predicate Stale()
      reads this
    {
      StaleAt(epoch, g)
    }

    // verifyFC. `hard` asks for a rebuild. With no misread it is never raised without a
    // stale epoch or an existing serving target with the wrong table; a healthy
    // configuration passes exactly when nothing failed and nothing was misread.
    method Verify(expected: Option<seq<Binding>>, ports: seq<Wwn>, rows: seq<Row>) returns (ok: bool, hard: bool)
      modifies this`flakes, this`misreads
      ensures flakes >= old(flakes) && misreads >= old(misreads) && !(ok && hard)
      ensures hard && misreads == old(misreads) ==>
                Stale() || (expected.Some? && AnyWrong(g, ports, expected.value))
      ensures Stale() && misreads == old(misreads) ==> hard
      ensures ok ==> expected.Some? && AllServed(g, ports, rows, expected.value)
      ensures ok && misreads == old(misreads) ==> !Stale() && AllExact(g, ports, rows, expected.value)
      ensures expected.Some? && !Stale() && AllExact(g, ports, rows, expected.value) ==>
                (ok <==> flakes == old(flakes) && misreads == old(misreads))
      ensures flakes == old(flakes) && misreads == old(misreads) && expected.Some? && !Stale() ==>
                && (hard <==> AnyWrong(g, ports, expected.value))
                && (ok <==> AllExact(g, ports, rows, expected.value))
    {
      var stale := EpochStale();
      if stale {
        return false, true;
      }
      if expected.None? {
        return false, false;
      }
      var want := expected.value;
      ok, hard := true, false;
      var k := 0;
      while k < |ports|
        invariant k <= |ports| && flakes == old(flakes) && misreads >= old(misreads) && !hard
        invariant misreads == old(misreads) ==> !Stale() && forall j :: 0 <= j < k ==> !WrongTable(g, ports[j], want)
        invariant misreads == old(misreads) ==> (ok <==> forall j :: 0 <= j < k ==> Exact(g, ports[j], rows, want))
        invariant !Stale() && (forall j :: 0 <= j < |ports| ==> Exact(g, ports[j], rows, want)) ==>
                  (ok <==> misreads == old(misreads))
        invariant ok ==> forall j :: 0 <= j < k ==> Serves(g, ports[j], rows, want)
      {
        var right, soft, wrong := VerifyPort(ports[k], rows, want);
        if wrong {
          return false, true;
        }
        if soft {
          return false, false;
        }
        ok := ok && right;
        k := k + 1;
      }
    }

    // One port: right, unreadable, or wrong beyond additive repair.
    method VerifyPort(w: Wwn, rows: seq<Row>, want: seq<Binding>) returns (right: bool, soft: bool, wrong: bool)
      modifies this`flakes, this`misreads
      ensures misreads >= old(misreads) && flakes == old(flakes) + (if soft then 1 else 0)
      ensures !(right && soft) && !(right && wrong) && !(soft && wrong)
      ensures misreads == old(misreads) && !soft ==>
                (wrong <==> WrongTable(g, w, want)) && (right <==> Exact(g, w, rows, want))
      ensures Exact(g, w, rows, want) ==> (right <==> !soft && misreads == old(misreads))
      ensures right ==> Serves(g, w, rows, want)
    {
      right, soft, wrong := false, false, false;
      var there := Sees(w in g.targets);
      if !there {
        return;
      }
      var readable := Access();
      if !readable {
        soft := true;
        return;
      }
      var same := TableMatches(w, want);
      if !same {
        wrong := true;
        return;
      }
      var bad := VerifyAcls(w, rows, want);
      right := bad == [];
    }

    // ------------------------------------------------------------- construction ----

    // Since `old` nothing but target w's presence and content changed, and every
    // command issued addressed w.
    twostate predicate OnlyTarget(w: Wwn)
      reads this
    {
      && old(log) <= log && flakes >= old(flakes) && misreads >= old(misreads)
      && (forall k :: |old(log)| <= k < |log| ==> PortOf(log[k]) == Some(w))
      && g.stores == old(g.stores) && g.stamp == old(g.stamp)
      && g.targets - {w} == old(g.targets) - {w}
    }

    // createFCTarget, on existing backstores; ACLs come later.
    method CreateFcTarget(w: Wwn, want: seq<Binding>) returns (ok: bool)
      requires Bound(g.stores, want)
      modifies this
      ensures OnlyTarget(w) && misreads == old(misreads)
      ensures ok ==> w !in old(g.targets) && w in g.targets && g.targets[w] == Target(Table(want), map[])
      ensures ok ==> SetAttributes(w) in log[|old(log)|..]
      ensures flakes == old(flakes) && w !in old(g.targets) ==> ok
    {
      hide Table;
      ok := Tc(CreateTarget(w));
      if !ok {
        return;
      }
      EmptyTable(want);
      var attributes := Tc(SetAttributes(w));   // best effort
      var lun := 0;
      while lun < |want|
        invariant lun <= |want| && OnlyTarget(w) && w in g.targets && misreads == old(misreads)
        invariant g.targets[w] == Target(Table(want[..lun]), map[])
        invariant |log| > |old(log)| + 1 && log[|old(log)| + 1] == SetAttributes(w)
      {
        TableGrows(want, lun);
        ok := Tc(CreateLun(w, lun, want[lun].name));
        if !ok {
          return;
        }
        lun := lun + 1;
      }
      assert want[..lun] == want;
      ok := true;
    }

    // liveBackstores: device to name, for every live backstore that can be read.
    method LiveBackstores() returns (live: map<Dev, StoreName>)
      modifies this`misreads
      ensures misreads >= old(misreads)
      ensures forall dev :: dev in live ==> live[dev] in g.stores && g.stores[live[dev]] == dev
      ensures misreads == old(misreads) ==> forall n :: n in g.stores ==> g.stores[n] in live
    {
      live := map[];
      var rest := g.stores.Keys;
      while rest != {}
        invariant rest <= g.stores.Keys && misreads >= old(misreads)
        invariant forall dev :: dev in live ==> live[dev] in g.stores && g.stores[live[dev]] == dev
        invariant misreads == old(misreads) ==> forall n :: n in g.stores && n !in rest ==> g.stores[n] in live
        decreases |rest|
      {
        var n :| n in rest;
        rest := rest - {n};
        var readable := Sees(true);
        if readable {
          live := live[g.stores[n] := n];
        }
      }
    }

    // Since `old` backstores were only added, and nothing else changed.
    twostate predicate OnlyStores()
      reads this
    {
      && old(log) <= log && flakes >= old(flakes) && misreads >= old(misreads)
      && (forall k :: |old(log)| <= k < |log| ==> log[k].CreateStore?)
      && g.targets == old(g.targets) && g.stamp == old(g.stamp)
      && forall n :: n in old(g.stores) ==> n in g.stores && g.stores[n] == old(g.stores[n])
    }

    // Reuse whatever holds the device already; create the rest under the expected name.
    method EnsureStores(want: seq<Binding>) returns (named: seq<Binding>, ok: bool)
      modifies this
      ensures OnlyStores()
      ensures |named| == |want| && forall l :: 0 <= l < |want| ==>
                named[l].dev == want[l].dev && named[l].lib == want[l].lib
      ensures ok ==> Bound(g.stores, named)
      ensures (flakes == old(flakes) && misreads == old(misreads)
               && DistinctNames(want) && NoSquatters(old(g.stores), want)) ==> ok
    {
      named := want;
      var live := LiveBackstores();
      ghost var before, missed := g.stores, misreads;
      var l := 0;
      while l < |want|
        invariant l <= |want| && OnlyStores() && misreads == missed
        invariant |named| == |want| && forall k :: 0 <= k < |want| ==>
                  named[k].dev == want[k].dev && named[k].lib == want[k].lib
        invariant forall k :: l <= k < |want| ==> named[k] == want[k]
        invariant Bound(g.stores, named[..l])
        invariant forall n :: n in g.stores ==> n in before || exists k :: 0 <= k < l && want[k].name == n
      {
        if want[l].dev in live {
          named := named[l := want[l].(name := live[want[l].dev])];
        } else {
          ok := Tc(CreateStore(want[l].name, want[l].dev));
          if !ok {
            return;
          }
        }
        assert named[..l + 1] == named[..l] + [named[l]];
        l := l + 1;
      }
      assert named[..l] == named;
      ok := true;
    }

    // A target that is not seen is built, then ACLs are reconciled.
    method RepairPort(w: Wwn, rows: seq<Row>, want: seq<Binding>, ghost intent: seq<Binding>) returns (ok: bool)
      requires Bound(g.stores, want) && DistinctRows(rows) && SameShape(want, intent)
      modifies this
      ensures OnlyTarget(w)
      ensures ok && misreads == old(misreads) ==> w in g.targets && AclsRight(rows, w, intent, g.targets[w].acls)
      ensures ok && misreads == old(misreads) && !old(WrongTable(g, w, intent)) ==> Exact(g, w, rows, intent)
      ensures misreads == old(misreads) && old(w in g.targets && AclsRight(rows, w, intent, g.targets[w].acls)) ==>
                log == old(log) && g == old(g)
      ensures flakes == old(flakes) && misreads == old(misreads) && !old(WrongTable(g, w, intent)) ==> ok
    {
      SameIntent(want, intent, rows, w);
      var built := Sees(w in g.targets);
      if !built {
        ok := CreateFcTarget(w, want);
        if !ok {
          return;
        }
      }
      ok := ReconcileAcls(w, rows, want);
    }

    // Best-effort epoch stamp: os.WriteFile truncates first, so a failure may leave a
    // beginning. SetPortServing's additive path stamps only a missing one.
    method StampEpoch() returns (ghost fate: Stamping)
      modifies this
      ensures log == old(log) && flakes >= old(flakes) && misreads == old(misreads)
      ensures g == old(g).(stamp := g.stamp)
      ensures fate == Untouched ==> g.stamp == old(g.stamp)
      ensures fate == Written ==> g.stamp == epoch
      ensures fate == Torn ==> epoch.Some? && g.stamp.Some? && g.stamp.value < epoch.value && Stale()
      ensures flakes == old(flakes) ==> !Stale() && fate != Torn
    {
      fate := Untouched;
      if epoch.Some? {
        var written := Access();
        var begun: nat := *;
        var cutOff: bool := *;
        if written {
          g, fate := g.(stamp := epoch), Written;
        } else if cutOff && 0 <= begun < |epoch.value| {
          g, fate := g.(stamp := Some(epoch.value[..begun])), Torn;
        }
      }
    }

    // No command since `old` cleared the config, and - unless something was misread -
    // none addressed a port whose target existed with its ACLs already right.
    twostate predicate Gentle(rows: seq<Row>, want: seq<Binding>)
      reads this
    {
      && old(log) <= log && flakes >= old(flakes) && misreads >= old(misreads)
      && (forall k :: |old(log)| <= k < |log| ==> log[k] != ClearConfig)
      && (misreads == old(misreads) ==> forall k :: |old(log)| <= k < |log| && PortOf(log[k]).Some? ==>
            var w := PortOf(log[k]).value;
            !(w in old(g.targets) && AclsRight(rows, w, want, old(g.targets)[w].acls)))
    }

    // The port loop of ensureFCAdditive.
    method RepairPorts(ports: seq<Wwn>, rows: seq<Row>, named: seq<Binding>, ghost want: seq<Binding>)
      returns (ok: bool)
      requires Bound(g.stores, named) && SameShape(named, want) && DistinctRows(rows) && DistinctPorts(ports)
      modifies this
      ensures Gentle(rows, want) && g.stamp == old(g.stamp)
      ensures ok && misreads == old(misreads) && !old(AnyWrong(g, ports, want)) ==>
                AllExact(g, ports, rows, want)
      ensures (flakes == old(flakes) && misreads == old(misreads)
               && !old(AnyWrong(g, ports, want))) ==> ok
    {
      ghost var before := g.targets;
      var k := 0;
      while k < |ports|
        invariant k <= |ports| && Gentle(rows, want) && g.stamp == old(g.stamp) && Bound(g.stores, named)
        invariant forall j :: k <= j < |ports| ==> SamePort(before, g.targets, ports[j])
        invariant misreads == old(misreads) && !old(AnyWrong(g, ports, want)) ==>
                    forall j :: 0 <= j < k ==> Exact(g, ports[j], rows, want)
      {
        ghost var mid := g;
        ok := RepairPort(ports[k], rows, named, want);
        OtherPortsKept(mid, g, ports, k, rows, want);
        if !ok {
          return;
        }
        k := k + 1;
      }
      ok := true;
    }

    // ensureFCAdditive: missing targets and ACL drift, without clearconfig.
    method EnsureAdditive(expected: Option<seq<Binding>>, ports: seq<Wwn>, rows: seq<Row>) returns (ok: bool)
      requires DistinctRows(rows) && DistinctPorts(ports)
      modifies this
      ensures old(log) <= log && flakes >= old(flakes) && misreads >= old(misreads)
      ensures expected.None? ==> log == old(log) && g == old(g) && !ok
      ensures expected.Some? ==> |log| > |old(log)|
      ensures expected.Some? ==> Gentle(rows, expected.value)
      ensures ok && misreads == old(misreads) && !old(AnyWrong(g, ports, expected.value)) ==>
                AllExact(g, ports, rows, expected.value)
      ensures ok ==> SetGlobal in log[|old(log)|..] && log[|log| - 1] == SaveConfig && IsSaved(g)
      ensures (flakes == old(flakes) && misreads == old(misreads) && expected.Some? && DistinctNames(expected.value)
               && NoSquatters(old(g.stores), expected.value)
               && !old(AnyWrong(g, ports, expected.value))) ==> ok
      ensures !old(Stale()) && Stale() ==> misreads > old(misreads) && flakes > old(flakes)
    {
      if expected.None? {
        return false;
      }
      var want := expected.value;
      ghost var first := log;
      var global := Tc(SetGlobal);   // best effort
      var named;
      named, ok := EnsureStores(want);
      if !ok {
        return;
      }
      ok := RepairPorts(ports, rows, named, want);
      if !ok {
        return;
      }
      ok := Save();
      assert log[|first|] == SetGlobal;
      assert log[|old(log)|..][0] == SetGlobal;
    }

    // saveconfig, and a stamp where there is none.
    method Save() returns (ok: bool)
      modifies this
      ensures log == old(log) + [SaveConfig] && flakes >= old(flakes) && misreads >= old(misreads)
      ensures g == old(g).(stamp := g.stamp, saved := g.saved) && (ok ==> IsSaved(g))
      ensures !old(Stale()) && Stale() ==> misreads > old(misreads) && flakes > old(flakes)
      ensures flakes == old(flakes) ==> ok
      ensures flakes == old(flakes) && misreads == old(misreads) ==>
                g.stamp == if old(g.stamp).None? then epoch else old(g.stamp)
    {
      ok := Tc(SaveConfig);
      if !ok {
        return;
      }
      var stamped := Sees(g.stamp.Some?);
      if !stamped {
        ghost var fate := StampEpoch();
      }
    }

    // -------------------------------------------------------------------- rebuild ----

    // clearconfig, up to three attempts.
    method Clear() returns (ok: bool)
      modifies this
      ensures old(log) <= log && flakes >= old(flakes) && g.stamp == old(g.stamp) && misreads == old(misreads)
      ensures |old(log)| < |log| <= |old(log)| + 3 && forall k :: |old(log)| <= k < |log| ==> log[k] == ClearConfig
      ensures !ok ==> |log| == |old(log)| + 3 && flakes == old(flakes) + 3
      ensures ok ==> g.targets == map[] && g.stores == map[] && flakes == old(flakes) + |log| - |old(log)| - 1
      ensures flakes == old(flakes) ==> ok
    {
      var attempt := 1;
      ok := false;
      while attempt <= 3 && !ok
        invariant old(log) <= log && flakes >= old(flakes) && g.stamp == old(g.stamp) && misreads == old(misreads)
        invariant 1 <= attempt <= 4 && |log| == |old(log)| + attempt - 1
        invariant forall k :: |old(log)| <= k < |log| ==> log[k] == ClearConfig
        invariant ok ==> attempt > 1
        invariant flakes == old(flakes) + attempt - (if ok then 2 else 1)
        invariant ok ==> g.targets == map[] && g.stores == map[]
      {
        ok := Tc(ClearConfig);
        attempt := attempt + 1;
      }
    }

    method CreateStores(want: seq<Binding>) returns (ok: bool)
      requires g.stores == map[]
      modifies this
      ensures OnlyStores() && misreads == old(misreads)
      ensures ok ==> Bound(g.stores, want)
      ensures flakes == old(flakes) && DistinctNames(want) ==> ok
    {
      var l := 0;
      while l < |want|
        invariant l <= |want| && OnlyStores() && Bound(g.stores, want[..l]) && misreads == old(misreads)
        invariant forall n :: n in g.stores ==> exists k :: 0 <= k < l && want[k].name == n
      {
        ok := Tc(CreateStore(want[l].name, want[l].dev));
        if !ok {
          return;
        }
        assert want[..l + 1] == want[..l] + [want[l]];
        l := l + 1;
      }
      assert want[..l] == want;
      ok := true;
    }

    // One port of a rebuild: there is no ACL to misread yet. A failed build is swept away. `gone` tells whether
    // the sweep left the port without a target.
    method BuildPort(w: Wwn, rows: seq<Row>, want: seq<Binding>) returns (ok: bool, ghost gone: bool)
      requires Bound(g.stores, want) && DistinctRows(rows) && w !in g.targets
      modifies this
      ensures OnlyTarget(w) && misreads == old(misreads)
      ensures ok ==> Exact(g, w, rows, want) && SetAttributes(w) in log[|old(log)|..]
      ensures !ok && gone ==> w !in g.targets
      ensures flakes == old(flakes) ==> ok
    {
      ok := CreateFcTarget(w, want);
      if ok {
        ok := ReconcileAcls(w, rows, want);
      }
      gone := false;
      if !ok {
        var swept := Tc(DeleteTarget(w));
        gone := w !in g.targets;
      }
    }

    // The port loop of a rebuild: one dead port does not stop the others.
    method BuildPorts(ports: seq<Wwn>, rows: seq<Row>, want: seq<Binding>) returns (ok: bool, ghost swept: bool)
      requires Bound(g.stores, want) && DistinctRows(rows) && DistinctPorts(ports)
      requires forall j :: 0 <= j < |ports| ==> ports[j] !in g.targets
      modifies this
      ensures old(log) <= log && flakes >= old(flakes) && misreads == old(misreads) && g.stamp == old(g.stamp)
      ensures swept ==> forall j :: 0 <= j < |ports| ==> ports[j] !in g.targets || Exact(g, ports[j], rows, want)
      ensures ok ==> swept && AllExact(g, ports, rows, want)
      ensures ok ==> forall j :: 0 <= j < |ports| ==> SetAttributes(ports[j]) in log[|old(log)|..]
      ensures flakes == old(flakes) ==> ok
    {
      hide Exact;
      ok, swept := true, true;
      var k := 0;
      while k < |ports|
        invariant k <= |ports| && old(log) <= log && flakes >= old(flakes) && misreads == old(misreads)
        invariant ok ==> forall j :: 0 <= j < k ==> SetAttributes(ports[j]) in log[|old(log)|..]
        invariant g.stamp == old(g.stamp) && Bound(g.stores, want)
        invariant forall j :: k <= j < |ports| ==> ports[j] !in g.targets
        invariant swept ==> forall j :: 0 <= j < k ==> ports[j] !in g.targets || Exact(g, ports[j], rows, want)
        invariant ok ==> swept && forall j :: 0 <= j < k ==> Exact(g, ports[j], rows, want)
        invariant flakes == old(flakes) ==> ok
      {
        ghost var mid, sent := g, log;
        var built;
        ghost var gone;
        built, gone := BuildPort(ports[k], rows, want);
        assert log[|old(log)|..] == sent[|old(log)|..] + log[|sent|..];
        OtherPortsKept(mid, g, ports, k, rows, want);
        if !built {
          ok, swept := false, swept && gone;
        }
        k := k + 1;
      }
    }

    // rebuildAll. `founded`: clearconfig and every backstore succeeded. `swept`:
    // every port whose build failed ended without a target.
    method Rebuild(expected: Option<seq<Binding>>, ports: seq<Wwn>, rows: seq<Row>)
      returns (ok: bool, ghost founded: bool, ghost swept: bool, ghost fate: Stamping)
      requires DistinctRows(rows) && DistinctPorts(ports)
      modifies this
      ensures old(log) <= log && flakes >= old(flakes) && misreads == old(misreads)
      ensures flakes == old(flakes) && ports != [] && expected.Some? ==> |log| > |old(log)|
      ensures founded && swept ==> expected.Some? && forall k :: 0 <= k < |ports| ==>
                ports[k] !in g.targets || Exact(g, ports[k], rows, expected.value)
      ensures founded && swept ==> !AnyWrong(g, ports, expected.value)
      ensures founded ==> (Stale() <==> fate == Torn || (fate == Untouched && old(Stale())))
      ensures fate == Untouched ==> g.stamp == old(g.stamp)
      ensures flakes == old(flakes) ==> fate != Torn
      ensures ok ==> founded && swept && expected.Some? && AllExact(g, ports, rows, expected.value)
      // Every attribute was set, and the configuration saved last.
      ensures founded ==> SetGlobal in log[|old(log)|..] && log[|log| - 1] == SaveConfig
      ensures ok ==> IsSaved(g)
      ensures ok ==> forall k :: 0 <= k < |ports| ==> SetAttributes(ports[k]) in log[|old(log)|..]
      ensures (flakes == old(flakes) && ports != [] && expected.Some? && DistinctNames(expected.value)) ==>
                ok && !Stale()
    {
      founded, swept, fate := false, true, Untouched;
      if ports == [] || expected.None? {
        return false, false, true, fate;
      }
      var want := expected.value;
      var readable := Access();   // the registry rows
      if !readable {
        return false, false, true, fate;
      }
      ok := Clear();
      if !ok {
        return;
      }
      ghost var at := |log|;
      var global := Tc(SetGlobal);   // best effort
      ok := CreateStores(want);
      if !ok {
        return;
      }
      founded := true;
      ghost var base := log;
      ok, swept := BuildPorts(ports, rows, want);
      assert log[|old(log)|..] == base[|old(log)|..] + log[|base|..];
      ghost var sent := log;
      var saved := Tc(SaveConfig);
      assert log[|old(log)|..] == sent[|old(log)|..] + [SaveConfig];
      ok := ok && saved;
      fate := StampEpoch();
      assert log[|old(log)|..][at - |old(log)|] == SetGlobal;
    }

    // A rebuild and the verification after it. When every port was built or swept and
    // nothing is misread, the verdict is hard exactly when the stamp is: cut off while
    // written, or a stale one left in place. So after a fresh stamp only a cut-off write
    // makes it hard, and nothing does when nothing fails.
    method RebuildThenVerify(expected: Option<seq<Binding>>, ports: seq<Wwn>, rows: seq<Row>)
      returns (ok: bool, hard: bool, ghost founded: bool, ghost swept: bool, ghost fate: Stamping)
      requires DistinctRows(rows) && DistinctPorts(ports)
      modifies this
      ensures founded && swept && misreads == old(misreads) ==>
                (hard <==> fate == Torn || (fate == Untouched && old(Stale())))
      ensures fate == Untouched ==> g.stamp == old(g.stamp)
      ensures founded && swept && misreads == old(misreads) && !old(Stale()) ==> (hard <==> fate == Torn)
      ensures (flakes == old(flakes) && misreads == old(misreads)
               && ports != [] && expected.Some? && DistinctNames(expected.value)) ==> ok && !hard
    {
      var rebuilt;
      rebuilt, founded, swept, fate := Rebuild(expected, ports, rows);
      ok, hard := Verify(expected, ports, rows);
    }

    // --------------------------------------------------------------------- ensure ----

    // Ensure: verify, then rebuild on a hard fault or repair additively, then
    // verify again.
    method Ensure(expected: Option<seq<Binding>>, ports: seq<Wwn>, rows: seq<Row>) returns (ok: bool)
      requires DistinctRows(rows) && DistinctPorts(ports)
      modifies this
      ensures ports == [] ==> ok && g == old(g) && log == old(log)
      // Soundness: OK means every serving port shows every initiator its LUNs on the
      // right devices; read right, that every port is exact on a fresh epoch.
      ensures ok && ports != [] ==> expected.Some? && AllServed(g, ports, rows, expected.value)
      ensures ok && ports != [] && misreads == old(misreads) ==>
                (epoch.None? || g.stamp == epoch) && AllExact(g, ports, rows, expected.value)
      // Convergence: nothing failing, one Ensure is enough from any configuration.
      ensures (flakes == old(flakes) && misreads == old(misreads) && expected.Some? && DistinctNames(expected.value)
               && NoSquatters(old(g.stores), expected.value)) ==> ok
      // Least disruption: unless the epoch was stale, an existing serving target had
      // the wrong table or something was misread, no clearconfig and no command to a
      // healthy port.
      ensures !old(Stale()) && expected.Some? && misreads == old(misreads)
              && !old(AnyWrong(g, ports, expected.value)) ==>
                Gentle(rows, expected.value)
      // With every port healthy and no command failing, nothing is sent exactly when
      // nothing is misread.
      ensures (flakes == old(flakes) && ports != [] && expected.Some? && !old(Stale())
               && old(AllExact(g, ports, rows, expected.value))) ==>
                (log == old(log) <==> misreads == old(misreads))
      ensures !old(Stale()) && misreads == old(misreads) && expected.None? ==> log == old(log) && g == old(g)
      // After a rebuild OK means saved too. A failed additive repair is not reported: then
      // it means so when nothing failed.
      ensures ok && !IsSaved(g) ==> forall k :: |old(log)| <= k < |log| ==> log[k] != ClearConfig
      ensures (ok && log != old(log) && flakes == old(flakes) && misreads == old(misreads)
               && DistinctNames(expected.value) && NoSquatters(old(g.stores), expected.value)) ==> IsSaved(g)
    {
      if ports == [] {
        return true;
      }
      var readable := Access();
      if !readable {
        return false;
      }
      var hard;
      ok, hard := Verify(expected, ports, rows);
      if !ok && hard {
        var rebuilt;
        ghost var founded, swept, fate;
        rebuilt, founded, swept, fate := Rebuild(expected, ports, rows);
        ok, hard := Verify(expected, ports, rows);
        ok := ok && rebuilt;
      } else if !ok {
        var repaired := EnsureAdditive(expected, ports, rows);
        ok, hard := Verify(expected, ports, rows);
      }
    }
  }

  // Bindings that differ at most in the backstore name.
  predicate SameShape(a: seq<Binding>, b: seq<Binding>) {
    |a| == |b| && forall l :: 0 <= l < |a| ==> a[l].dev == b[l].dev && a[l].lib == b[l].lib
  }

  // Verification ignores names: equal shapes state the same intent.
  lemma SameIntent(a: seq<Binding>, b: seq<Binding>, rows: seq<Row>, w: Wwn)
    requires SameShape(a, b)
    ensures Table(a) == Table(b)
    ensures forall acls :: AclsRight(rows, w, a, acls) <==> AclsRight(rows, w, b, acls)
  {
    forall scope ensures MappedSet(a, scope) == MappedSet(b, scope) {
    }
  }

  predicate SamePort(a: map<Wwn, Target>, b: map<Wwn, Target>, w: Wwn) {
    (w in a <==> w in b) && (w in a ==> a[w] == b[w])
  }

  lemma OtherPortsKept(mid: Config, after: Config, ports: seq<Wwn>, k: nat, rows: seq<Row>, want: seq<Binding>)
    requires k < |ports| && DistinctPorts(ports) && after.targets - {ports[k]} == mid.targets - {ports[k]}
    ensures forall j :: 0 <= j < |ports| && j != k ==> SamePort(mid.targets, after.targets, ports[j])
    ensures forall j :: 0 <= j < |ports| && j != k ==>
              (Exact(after, ports[j], rows, want) <==> Exact(mid, ports[j], rows, want))
  {
    forall x | x != ports[k] ensures SamePort(mid.targets, after.targets, x) {
      assert x in after.targets - {ports[k]} <==> x in after.targets;
      assert x in mid.targets - {ports[k]} <==> x in mid.targets;
      assert x in mid.targets ==> (after.targets - {ports[k]})[x] == after.targets[x];
    }
  }

  lemma TableSize(want: seq<Binding>)
    ensures |Table(want)| == |want|
  {
    assert Table(want).Keys == Below(|want|);
    assert |Table(want)| == |Table(want).Keys|;
  }

  lemma EmptyTable(want: seq<Binding>)
    ensures Table(want[..0]) == map[]
  {
  }

  lemma TableGrows(want: seq<Binding>, l: nat)
    requires l < |want|
    ensures Table(want[..l + 1]) == Table(want[..l])[l := want[l].dev] && l !in Table(want[..l])
  {
  }

  // A change confined to row k's initiator disturbs no other row and no stranger.
  lemma OthersKept(rows: seq<Row>, k: nat, w: Wwn, want: seq<Binding>,
                   before: map<Initiator, set<nat>>, mid: map<Initiator, set<nat>>, after: map<Initiator, set<nat>>)
    requires k < |rows| && DistinctRows(rows) && after - {rows[k].wwpn} == mid - {rows[k].wwpn}
    ensures forall j :: 0 <= j < |rows| && j != k ==>
              (rows[j].wwpn in after <==> rows[j].wwpn in mid)
              && (rows[j].wwpn in mid ==> after[rows[j].wwpn] == mid[rows[j].wwpn])
    ensures Unregistered(rows, after) == Unregistered(rows, mid)
  {
    forall x | x != rows[k].wwpn ensures (x in after <==> x in mid) && (x in mid ==> after[x] == mid[x]) {
      assert x in after - {rows[k].wwpn} <==> x in after;
      assert x in mid - {rows[k].wwpn} <==> x in mid;
      assert x in mid ==> (after - {rows[k].wwpn})[x] == after[x];
    }
  }
}
