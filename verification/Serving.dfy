// The LUN table and the reconciler together: what an Ensure on the discovered devices
// leaves at the ports.
module Serving {
  import opened Options
  import opened Luns
  import opened Discovery
  import opened Fabrics

  lemma LayoutDistinct(libs: seq<Library>, devs: seq<Device>)
    requires DistinctIds(libs) && Layout(libs, devs).Some?
    ensures DistinctNames(Layout(libs, devs).value)
  {
    LayoutPlaced(libs, devs);
  }

  // What a host finds at a port: exactly the bindings' LUNs, each on its device, and for
  // every registered initiator exactly its libraries' LUNs, on exactly its ports.
  ghost predicate Presented(g: Config, w: Wwn, bs: seq<Binding>, rows: seq<Row>) {
    && w in g.targets && (forall l: nat :: l in g.targets[w].luns <==> l < |bs|)
    && (forall l: nat :: l < |bs| ==> g.targets[w].luns[l] == bs[l].dev)
    && forall k :: 0 <= k < |rows| ==>
         var r, acls := rows[k], g.targets[w].acls;
         && (r.wwpn in acls <==> (r.ports == None || w in r.ports.value))
         && (r.wwpn in acls ==>
               forall l: nat :: l in acls[r.wwpn] <==> l < |bs| && (r.libs == None || bs[l].lib in r.libs.value))
  }

  // At least that much: no LUN or view of a registered initiator is missing.
  ghost predicate Visible(g: Config, w: Wwn, bs: seq<Binding>, rows: seq<Row>) {
    && w in g.targets
    && (forall l: nat :: l < |bs| ==> l in g.targets[w].luns && g.targets[w].luns[l] == bs[l].dev)
    && forall k :: 0 <= k < |rows| && (rows[k].ports == None || w in rows[k].ports.value) ==>
         var r, acls := rows[k], g.targets[w].acls;
         && r.wwpn in acls
         && forall l: nat :: l < |bs| && (r.libs == None || bs[l].lib in r.libs.value) ==> l in acls[r.wwpn]
  }

  lemma ExactPresents(g: Config, w: Wwn, rows: seq<Row>, bs: seq<Binding>)
    requires Exact(g, w, rows, bs)
    ensures Presented(g, w, bs, rows)
  {
    forall k | 0 <= k < |rows| ensures AclRight(rows[k], w, bs, g.targets[w].acls) {
    }
  }

  lemma ServesVisible(g: Config, w: Wwn, rows: seq<Row>, bs: seq<Binding>)
    requires Serves(g, w, rows, bs)
    ensures Visible(g, w, bs, rows)
  {
    forall k, l: nat | 0 <= k < |rows| && InScope(rows[k], w) && l < |bs| && InLibs(rows[k].libs, bs[l].lib)
      ensures l in g.targets[w].acls[rows[k].wwpn]
    {
      assert l in MappedSet(bs, rows[k].libs);
    }
  }

  // The bindings are the whole layout of the live libraries in order, each on a device
  // that presents the serial declared for that changer or drive.
  ghost predicate Declared(libs: seq<Library>, discovered: Option<seq<Device>>, bs: seq<Binding>) {
    if libs == [] then bs == []
    else
      && discovered.Some?
      && (exists starts :: Laid(libs, discovered.value, bs, starts))
      && forall l :: 0 <= l < |bs| ==> exists i :: 0 <= i < |libs| && Placed(bs[l], libs[i], discovered.value)
  }

  // There is something to serve, and no live library lacks a drive.
  ghost predicate Presentable(libs: seq<Library>, discovered: Option<seq<Device>>) {
    || libs == []
    || (&& discovered.Some? && (exists i :: 0 <= i < |libs| && Live(libs[i], discovered.value))
        && forall i :: 0 <= i < |libs| ==> !Half(libs[i], discovered.value))
  }

  // Ensure on the expected table: with nothing failing or misread it succeeds for every
  // presentable layout, whatever the configuration was, and then a host finds at each
  // LUN the very device declared for it, and at no other LUN anything.
  method EnsureDeclared(f: Fabric, libs: seq<Library>, discovered: Option<seq<Device>>, ports: seq<Wwn>, rows: seq<Row>)
    returns (ok: bool, ghost bs: seq<Binding>)
    requires DistinctRows(rows) && DistinctPorts(ports) && DistinctIds(libs)
    modifies f
    ensures (f.flakes == old(f.flakes) && f.misreads == old(f.misreads) && Presentable(libs, discovered)
             && NoSquatters(old(f.g.stores), bs)) ==> ok
    ensures ok && ports != [] ==> Presentable(libs, discovered)
    ensures Presentable(libs, discovered) ==> Declared(libs, discovered, bs)
    ensures ok ==> forall k :: 0 <= k < |ports| ==> Visible(f.g, ports[k], bs, rows)
    ensures ok && f.misreads == old(f.misreads) ==>
              forall k :: 0 <= k < |ports| ==> Presented(f.g, ports[k], bs, rows)
  {
    var want := Expected(libs, discovered);
    bs := if want.Some? then want.value else [];
    if libs != [] && want.Some? {
      LayoutDistinct(libs, discovered.value);
      LayoutPlaced(libs, discovered.value);
    }
    ok := f.Ensure(want, ports, rows);
    forall k | 0 <= k < |ports| && ok ensures Visible(f.g, ports[k], bs, rows) {
      ServesVisible(f.g, ports[k], rows, bs);
    }
    forall k | 0 <= k < |ports| && ok && f.misreads == old(f.misreads) ensures Presented(f.g, ports[k], bs, rows) {
      ExactPresents(f.g, ports[k], rows, bs);
    }
  }
}
