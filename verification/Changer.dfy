// A live media changer: where every cart is, whose slot is whose home, and which
// element moves keep them apart.
module Changer {

  // mtx status. An empty label is an empty element; a drive's source is the storage
  // element its cart was loaded from, 0 when unknown.
  datatype Slot = Slot(num: nat, ie: bool, tag: string)
  datatype Bay = Bay(tag: string, source: nat)
  datatype Status = Status(drives: seq<Bay>, slots: seq<Slot>)

  predicate IsHome(s: Slot, d: Bay) {
    !s.ie && s.num == d.source && s.tag == ""
  }

  ghost predicate Homed(slots: seq<Slot>, d: Bay) {
    exists i :: 0 <= i < |slots| && IsHome(slots[i], d)
  }

  predicate Numbered(slots: seq<Slot>) {
    && (forall i :: 0 <= i < |slots| ==> slots[i].num > 0)
    && forall i, j :: 0 <= i < j < |slots| ==> slots[i].num != slots[j].num
  }

  // Every cart is in one place, and every loaded cart has a storage slot of its own
  // to go back to.
  ghost predicate Inv(st: Status) {
    && Numbered(st.slots)
    && (forall i, j :: 0 <= i < j < |st.slots| && st.slots[i].tag != "" ==> st.slots[i].tag != st.slots[j].tag)
    && (forall i, j :: 0 <= i < j < |st.drives| && st.drives[i].tag != "" ==> st.drives[i].tag != st.drives[j].tag)
    && (forall i, j :: 0 <= i < j < |st.drives| && st.drives[i].tag != "" && st.drives[j].tag != "" ==>
          st.drives[i].source != st.drives[j].source)
    && (forall i, j :: 0 <= i < |st.slots| && 0 <= j < |st.drives| && st.drives[j].tag != "" ==>
          st.slots[i].tag != st.drives[j].tag)
    && (forall j :: 0 <= j < |st.drives| && st.drives[j].tag != "" ==> Homed(st.slots, st.drives[j]))
  }

  ghost predicate Stored(st: Status, l: string) {
    exists i :: 0 <= i < |st.slots| && !st.slots[i].ie && st.slots[i].tag == l
  }

  predicate InPort(st: Status, l: string) {
    exists i :: 0 <= i < |st.slots| && st.slots[i].ie && st.slots[i].tag == l
  }

  ghost predicate Loaded(st: Status, l: string) {
    exists j :: 0 <= j < |st.drives| && st.drives[j].tag == l
  }

  ghost predicate Known(st: Status, l: string) {
    Stored(st, l) || InPort(st, l) || Loaded(st, l)
  }

  // A slot some loaded cart will return to.
  ghost predicate Reserved(drives: seq<Bay>, n: nat) {
    exists j :: 0 <= j < |drives| && drives[j].tag != "" && drives[j].source == n
  }

  // ------------------------------------------------------------------ element moves ----

  function Tagged(st: Status, i: nat, l: string): Status
    requires i < |st.slots|
  {
    st.(slots := st.slots[i := st.slots[i].(tag := l)])
  }

  // mtx transfer between two elements.
  function Transferred(st: Status, i: nat, k: nat): Status
    requires i < |st.slots| && k < |st.slots|
  {
    Tagged(Tagged(st, i, ""), k, st.slots[i].tag)
  }

  function Load(st: Status, i: nat, j: nat): Status
    requires i < |st.slots| && j < |st.drives|
  {
    Tagged(st, i, "").(drives := st.drives[j := Bay(st.slots[i].tag, st.slots[i].num)])
  }

  function Unload(st: Status, j: nat, i: nat): Status
    requires i < |st.slots| && j < |st.drives|
  {
    Tagged(st, i, st.drives[j].tag).(drives := st.drives[j := Bay("", 0)])
  }

  // vtlcmd empty map: every I/E element loses its cart.
  function Emptied(st: Status): Status {
    st.(slots := seq(|st.slots|, i requires 0 <= i < |st.slots| =>
          if st.slots[i].ie then st.slots[i].(tag := "") else st.slots[i]))
  }

  // ----------------------------------------------------------------- moves that keep ----

  lemma HomesSurvive(slots: seq<Slot>, after: seq<Slot>, d: Bay)
    requires |slots| == |after| && Homed(slots, d)
    requires forall i :: 0 <= i < |slots| && IsHome(slots[i], d) ==> IsHome(after[i], d)
    ensures Homed(after, d)
  {
  }

  // A cart new to the library enters an empty I/E element.
  lemma EnterKeeps(st: Status, i: nat, l: string)
    requires Inv(st) && i < |st.slots| && st.slots[i].ie && st.slots[i].tag == "" && l != "" && !Known(st, l)
    ensures Inv(Tagged(st, i, l))
  {
    var after := Tagged(st, i, l);
    forall j | 0 <= j < |st.drives| && st.drives[j].tag != "" ensures Homed(after.slots, st.drives[j]) {
      HomesSurvive(st.slots, after.slots, st.drives[j]);
    }
  }

  // Between an element and an empty one: the homes of loaded carts must stay empty.
  // Storing a cart keeps the invariant exactly when the slot is nobody's home.
  lemma TransferKeeps(st: Status, i: nat, k: nat)
    requires Inv(st) && i < |st.slots| && k < |st.slots| && st.slots[i].tag != "" && st.slots[k].tag == ""
    ensures Inv(Transferred(st, i, k)) <==> st.slots[k].ie || !Reserved(st.drives, st.slots[k].num)
  {
    var after := Transferred(st, i, k);
    if Reserved(st.drives, st.slots[k].num) && !st.slots[k].ie {
      var j :| 0 <= j < |st.drives| && st.drives[j].tag != "" && st.drives[j].source == st.slots[k].num;
      assert after.slots[k].num == st.drives[j].source && after.slots[k].tag != "";
      assert !Homed(after.slots, st.drives[j]);
    } else {
      forall j | 0 <= j < |st.drives| && st.drives[j].tag != "" ensures Homed(after.slots, st.drives[j]) {
        HomesSurvive(st.slots, after.slots, st.drives[j]);
      }
    }
  }

  // Loading keeps the invariant exactly when the cart comes from a storage slot.
  lemma LoadKeeps(st: Status, i: nat, j: nat)
    requires Inv(st) && i < |st.slots| && j < |st.drives| && st.slots[i].tag != "" && st.drives[j].tag == ""
    ensures Inv(Load(st, i, j)) <==> !st.slots[i].ie
  {
    var after := Load(st, i, j);
    if st.slots[i].ie {
      assert after.drives[j] == Bay(st.slots[i].tag, st.slots[i].num);
      assert !Homed(after.slots, after.drives[j]);
    } else {
      assert IsHome(after.slots[i], after.drives[j]);
      forall m | 0 <= m < |after.drives| && after.drives[m].tag != "" ensures Homed(after.slots, after.drives[m]) {
        if m != j { HomesSurvive(st.slots, after.slots, st.drives[m]); }
      }
      forall m | 0 <= m < |after.drives| && m != j && after.drives[m].tag != ""
        ensures after.drives[m].source != st.slots[i].num
      {
        var h :| 0 <= h < |st.slots| && IsHome(st.slots[h], st.drives[m]);
        assert h != i;
      }
    }
  }

  // Unloading keeps it when the slot is the cart's own or nobody's.
  lemma UnloadKeeps(st: Status, j: nat, i: nat)
    requires Inv(st) && i < |st.slots| && j < |st.drives| && st.drives[j].tag != "" && st.slots[i].tag == ""
    requires st.slots[i].num == st.drives[j].source || !Reserved(st.drives, st.slots[i].num)
    ensures Inv(Unload(st, j, i))
  {
    var after := Unload(st, j, i);
    forall m | 0 <= m < |after.drives| && after.drives[m].tag != "" ensures Homed(after.slots, after.drives[m]) {
      assert m != j;
      HomesSurvive(st.slots, after.slots, st.drives[m]);
    }
  }
}
