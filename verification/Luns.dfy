// fc.go: the LUN table and the initiators' views of it.
module Luns {
  import opened Options

  type Dev = string

  // mhvtl_l<id>_chgr, mhvtl_l<id>_drv<n>, or whatever an earlier build used.
  datatype StoreName = ChangerStore(lib: int) | DriveStore(lib: int, drive: nat) | OtherStore(text: string)

  // One LUN's expected backstore; the slice index is the LUN number.
  datatype Binding = Binding(name: StoreName, dev: Dev, lib: int)

  // The LUN to device table every serving port must carry.
  function Table(want: seq<Binding>): (t: map<nat, Dev>)
    ensures forall l: nat :: l in t <==> l < |want|
  {
    map l: nat | l < |want| :: want[l].dev
  }

  predicate InLibs(scope: Option<set<int>>, lib: int) {
    scope.None? || lib in scope.value
  }

  // An initiator's visible LUNs, by library scope.
  function MappedSet(want: seq<Binding>, scope: Option<set<int>>): set<nat> {
    set l: nat | l < |want| && InLibs(scope, want[l].lib)
  }

  ghost predicate Rising(s: seq<nat>) {
    forall i, j :: 0 <= i < j < |s| ==> s[i] < s[j]
  }

  function Items(s: seq<nat>): set<nat> {
    set x | x in s
  }

  // mappedLUNs: the same as an ascending list.
  method MappedLuns(want: seq<Binding>, scope: Option<set<int>>) returns (out: seq<nat>)
    ensures Rising(out) && Items(out) == MappedSet(want, scope)
    ensures forall l: nat :: l in out <==> l < |want| && (scope.None? || want[l].lib in scope.value)
  {
    out := [];
    var lun := 0;
    while lun < |want|
      invariant lun <= |want| && Rising(out)
      invariant forall i :: 0 <= i < |out| ==> out[i] < lun
      invariant forall l: nat :: l < lun ==> (l in out <==> InLibs(scope, want[l].lib))
    {
      if InLibs(scope, want[lun].lib) {
        out := out + [lun];
      }
      lun := lun + 1;
    }
  }

  lemma {:induction false} RisingUnique(a: seq<nat>, b: seq<nat>)
    requires Rising(a) && Rising(b) && Items(a) == Items(b)
    ensures a == b
  {
    assert a != [] ==> a[0] in Items(b);
    assert b != [] ==> b[0] in Items(a);
    if a != [] && b != [] {
      assert a == [a[0]] + a[1..] && b == [b[0]] + b[1..];
      assert Items(a[1..]) == Items(a) - {a[0]};
      assert Items(b[1..]) == Items(b) - {b[0]};
      RisingUnique(a[1..], b[1..]);
    }
  }

  function InsertLun(s: seq<nat>, x: nat): seq<nat> {
    if s == [] || x < s[0] then [x] + s else [s[0]] + InsertLun(s[1..], x)
  }

  lemma {:induction false} InsertLunRising(s: seq<nat>, x: nat)
    requires Rising(s) && x !in s
    ensures Rising(InsertLun(s, x)) && Items(InsertLun(s, x)) == Items(s) + {x}
  {
    if s == [] {
    } else if x < s[0] {
      assert Items([x] + s) == {x} + Items(s);
    } else {
      var t := s[1..];
      assert s == [s[0]] + t && x > s[0];
      assert x !in t;
      InsertLunRising(t, x);
      var r := InsertLun(t, x);
      forall j | 0 <= j < |r| ensures s[0] < r[j] {
        assert r[j] in Items(t) + {x};
      }
      assert Rising([s[0]] + r);
      assert Items(s) == {s[0]} + Items(t);
      assert Items([s[0]] + r) == {s[0]} + Items(r);
    }
  }

  // liveMappedLUNs: directory entries in any order, then sort.Ints.
  method LiveMappedLuns(entries: set<nat>) returns (out: seq<nat>)
    ensures Rising(out) && Items(out) == entries
  {
    out := [];
    var rest := entries;
    while rest != {}
      invariant rest <= entries && Rising(out) && Items(out) == entries - rest
      decreases |rest|
    {
      var x :| x in rest;
      rest := rest - {x};
      assert x !in out by { assert x !in Items(out); }
      InsertLunRising(out, x);
      out := InsertLun(out, x);
    }
  }

  // equalInts on the two sorted lists compares the sets they list.
  method SameLuns(want: seq<nat>, live: set<nat>) returns (same: bool)
    requires Rising(want)
    ensures same <==> Items(want) == live
  {
    var got := LiveMappedLuns(live);
    if Items(want) == live {
      RisingUnique(want, got);
    }
    same := |want| == |got|;
    var i := 0;
    while same && i < |want|
      invariant i <= |want| && (same ==> |want| == |got| && want[..i] == got[..i])
      invariant !same ==> want != got
    {
      same := want[i] == got[i];
      i := i + 1;
    }
    assert same ==> want[..|want|] == want && got[..|got|] == got;
  }

  // Comparing every expected LUN and then only the sizes compares the tables.
  lemma SameTable(got: map<nat, Dev>, want: seq<Binding>)
    requires (forall l: nat :: l < |want| ==> l in got && got[l] == want[l].dev) && |got| == |want|
    ensures got == Table(want)
  {
    var keys := Below(|want|);
    assert keys <= got.Keys && |keys| == |got.Keys|;
    assert got.Keys == keys + (got.Keys - keys);
    assert |got.Keys - keys| == 0;
  }

  // {0, .., n-1}
  function Below(n: nat): (s: set<nat>)
    ensures |s| == n && forall x: nat :: x in s <==> x < n
  {
    if n == 0 then {} else Below(n - 1) + {n - 1}
  }
}
