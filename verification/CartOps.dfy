// The cart operations of one live library, effect by effect: minting, adopting,
// deleting, loading, unloading, unvaulting, and rewriting library_contents.
module CartOps {
  import opened Text
  import opened Changer
  import opened Contents
  import opened Shelves

  // The index of element n; |slots| when there is none.
  function Find(slots: seq<Slot>, n: nat): (i: nat)
    ensures i <= |slots| && (i < |slots| ==> slots[i].num == n)
    ensures i == |slots| ==> forall j :: 0 <= j < |slots| ==> slots[j].num != n
  {
    if slots == [] then 0
    else if slots[0].num == n then 0
    else
      var i := Find(slots[1..], n);
      assert forall j :: 1 <= j < |slots| ==> slots[j] == slots[1..][j - 1];
      i + 1
  }

  lemma FindIs(slots: seq<Slot>, i: nat)
    requires Numbered(slots) && i < |slots|
    ensures Find(slots, slots[i].num) == i
  {
  }

  predicate CanMove(st: Status, from: nat, to: nat) {
    var i, k := Find(st.slots, from), Find(st.slots, to);
    i < |st.slots| && k < |st.slots| && st.slots[i].tag != "" && st.slots[k].tag == ""
  }

  function Moved(st: Status, from: nat, to: nat): Status
    requires CanMove(st, from, to)
  {
    Transferred(st, Find(st.slots, from), Find(st.slots, to))
  }

  // A slot findFreeSlot may hand out.
  ghost predicate FreeSlot(st: Status, s: Slot) {
    !s.ie && s.tag == "" && !Reserved(st.drives, s.num)
  }

  ghost predicate FirstFree(st: Status, i: nat)
    requires i < |st.slots|
  {
    FreeSlot(st, st.slots[i]) && forall j :: 0 <= j < i ==> !FreeSlot(st, st.slots[j])
  }

  predicate Taken(st: Status, i: nat)
    requires i < |st.slots|
  {
    || st.slots[i].ie || st.slots[i].tag != ""
    || exists j :: 0 <= j < |st.drives| && st.drives[j].tag != "" && st.drives[j].source == st.slots[i].num
  }

  predicate IsFirst(st: Status, i: nat)
    requires i < |st.slots|
  {
    !Taken(st, i) && forall j :: 0 <= j < i ==> Taken(st, j)
  }

  predicate PortShows(st: Status, n: nat, l: string) {
    var i := Find(st.slots, n);
    i < |st.slots| && st.slots[i].ie && st.slots[i].tag == l
  }

  // The library without the named cart.
  function Forgotten(st: Status, l: string): Status {
    st.(slots := seq(|st.slots|, i requires 0 <= i < |st.slots| =>
          if st.slots[i].tag == l then st.slots[i].(tag := "") else st.slots[i]))
  }

  // Every element is as it was, but for those that showed l and are empty now.
  predicate OthersStay(before: Status, after: Status, l: string)
    requires |after.slots| == |before.slots|
  {
    forall i :: 0 <= i < |before.slots| ==>
      var s, t := before.slots[i], after.slots[i];
      t.num == s.num && t.ie == s.ie && t.tag == if s.tag == l then "" else s.tag
  }

  ghost predicate SomeFree(st: Status) {
    exists i :: 0 <= i < |st.slots| && FreeSlot(st, st.slots[i])
  }

  // An empty I/E element.
  ghost predicate PortFree(st: Status) {
    exists i :: 0 <= i < |st.slots| && st.slots[i].ie && st.slots[i].tag == ""
  }

  // Nothing but l sits in the I/E elements.
  ghost predicate PortClear(st: Status, l: string) {
    forall i :: 0 <= i < |st.slots| && st.slots[i].ie ==> st.slots[i].tag == "" || st.slots[i].tag == l
  }

  datatype Denial =
    | AlreadyHere | NoSlot | MediaExists | NoMedia | InDrive | PortBusy | NotFound | NotMedia | DriveFull | DriveEmpty
  datatype Reply = Done(slot: nat) | Denied(why: Denial) | Broken

  ghost predicate Stocked(st: Status, media: map<string, bool>) {
    forall l :: l != "" && (Stored(st, l) || Loaded(st, l)) ==> l in media
  }

  // Every cart the changer shows anywhere has its media directory.
  ghost predicate Covered(st: Status, media: map<string, bool>) {
    forall l :: l != "" && Known(st, l) ==> l in media
  }

  // ------------------------------------------------------------------------ scans ----

  // findFreeSlot.
  method FindFreeSlot(st: Status, l: string) returns (r: Reply)
    requires Numbered(st.slots) && l != ""
    ensures r.Done? || r.Denied?
    ensures r == Denied(AlreadyHere) <==> Known(st, l)
    ensures r.Done? ==> var i := Find(st.slots, r.slot);
                        i < |st.slots| && FirstFree(st, i)
    // Written out: the first storage slot that is empty and that no loaded cart came from.
    ensures r.Done? ==> exists i :: 0 <= i < |st.slots| && st.slots[i].num == r.slot && IsFirst(st, i)
    ensures r == Denied(NoSlot) ==> forall j :: 0 <= j < |st.slots| ==> !FreeSlot(st, st.slots[j])
    ensures r.Denied? ==> r.why == AlreadyHere || r.why == NoSlot
    ensures r == Denied(NoSlot) <==> !Known(st, l) && !SomeFree(st)
  {
    var reserved: set<nat> := {};
    var j := 0;
    while j < |st.drives|
      invariant j <= |st.drives| && forall m :: 0 <= m < j ==> st.drives[m].tag != l
      invariant forall n: nat :: n in reserved <==>
                n > 0 && exists m :: 0 <= m < j && st.drives[m].tag != "" && st.drives[m].source == n
    {
      var d := st.drives[j];
      if d.tag == l { return Denied(AlreadyHere); }
      if d.tag != "" && d.source > 0 { reserved := reserved + {d.source}; }
      j := j + 1;
    }
    var freeSlot := 0;
    ghost var at: nat := |st.slots|;
    var i := 0;
    while i < |st.slots|
      invariant i <= |st.slots| && forall m :: 0 <= m < i ==> st.slots[m].tag != l
      invariant freeSlot == 0 ==> at == |st.slots| && forall m :: 0 <= m < i ==> !FreeSlot(st, st.slots[m])
      invariant freeSlot != 0 ==>
                at < i && st.slots[at].num == freeSlot && FirstFree(st, at)
    {
      var s := st.slots[i];
      if s.tag == l {
        assert Stored(st, l) || InPort(st, l);
        return Denied(AlreadyHere);
      }
      if !s.ie && s.tag == "" && s.num !in reserved && freeSlot == 0 {
        freeSlot, at := s.num, i;
      }
      i := i + 1;
    }
    if freeSlot == 0 { return Denied(NoSlot); }
    FindIs(st.slots, at);
    r := Done(freeSlot);
  }

  // DeleteCart's scan of the elements. 0 stands for none.
  datatype Scan = Busy | Scanned(srcSlot: nat, freeIE: nat, inIE: bool)

  method ScanElements(st: Status, l: string) returns (r: Scan)
    requires Numbered(st.slots) && l != ""
    ensures r.Busy? <==> !PortClear(st, l)
    ensures r.Scanned? ==> (r.inIE <==> InPort(st, l))
    ensures r.Scanned? && r.srcSlot != 0 ==>
              var i := Find(st.slots, r.srcSlot); i < |st.slots| && !st.slots[i].ie && st.slots[i].tag == l
    ensures r.Scanned? && r.srcSlot == 0 ==> !Stored(st, l)
    ensures r.Scanned? && r.freeIE != 0 ==>
              var i := Find(st.slots, r.freeIE); i < |st.slots| && st.slots[i].ie && st.slots[i].tag == ""
    ensures r.Scanned? && r.freeIE == 0 ==> forall i :: 0 <= i < |st.slots| && st.slots[i].ie ==> st.slots[i].tag != ""
  {
    var srcSlot, freeIE, inIE := 0, 0, false;
    ghost var src, free := 0, 0;
    var i := 0;
    while i < |st.slots|
      invariant i <= |st.slots|
      invariant forall m :: 0 <= m < i && st.slots[m].ie ==> st.slots[m].tag == "" || st.slots[m].tag == l
      invariant inIE <==> exists m :: 0 <= m < i && st.slots[m].ie && st.slots[m].tag == l
      invariant srcSlot != 0 ==> src < i && st.slots[src].num == srcSlot && !st.slots[src].ie && st.slots[src].tag == l
      invariant srcSlot == 0 ==> forall m :: 0 <= m < i && !st.slots[m].ie ==> st.slots[m].tag != l
      invariant freeIE != 0 ==>
                free < i && st.slots[free].num == freeIE && st.slots[free].ie && st.slots[free].tag == ""
      invariant freeIE == 0 ==> forall m :: 0 <= m < i && st.slots[m].ie ==> st.slots[m].tag != ""
    {
      var s := st.slots[i];
      if s.tag == l && s.ie {
        inIE := true;
      } else if s.tag == l {
        srcSlot, src := s.num, i;
      } else if s.ie && s.tag != "" {
        return Busy;
      } else if s.ie && freeIE == 0 {
        freeIE, free := s.num, i;
      }
      i := i + 1;
    }
    if srcSlot != 0 { FindIs(st.slots, src); }
    if freeIE != 0 { FindIs(st.slots, free); }
    r := Scanned(srcSlot, freeIE, inIE);
  }

  // ------------------------------------------------------------------ delete, as values ----

  // With nothing else in the port, parking the cart there and emptying the map takes
  // exactly that cart.
  lemma EmptyMapTakesOne(st: Status, l: string)
    requires Inv(st) && l != "" && PortClear(st, l) && InPort(st, l)
    ensures Emptied(st) == Forgotten(st, l)
  {
    var p :| 0 <= p < |st.slots| && st.slots[p].ie && st.slots[p].tag == l;
  }

  lemma ParkThenForget(st: Status, l: string, i: nat, k: nat)
    requires Inv(st) && l != "" && PortClear(st, l) && i < |st.slots| && k < |st.slots|
    requires !st.slots[i].ie && st.slots[i].tag == l && st.slots[k].ie && st.slots[k].tag == ""
    ensures var parked := Transferred(st, i, k);
            Inv(parked) && PortClear(parked, l) && InPort(parked, l) && Forgotten(parked, l) == Forgotten(st, l)
  {
    TransferKeeps(st, i, k);
    assert Transferred(st, i, k).slots[k].tag == l;
  }

  lemma ForgottenKeeps(st: Status, l: string, media: map<string, bool>)
    requires Inv(st) && l != "" && Stocked(st, media) && !Loaded(st, l)
    ensures !Known(Forgotten(st, l), l)
    ensures forall o :: o != l && o != "" ==>
              (Stored(Forgotten(st, l), o) <==> Stored(st, o)) && (InPort(Forgotten(st, l), o) <==> InPort(st, o))
              && (Loaded(Forgotten(st, l), o) <==> Loaded(st, o))
    ensures Stocked(Forgotten(st, l), media - {l})
  {
    var after := Forgotten(st, l);
    forall o | o != l && o != ""
      ensures (Stored(after, o) <==> Stored(st, o)) && (InPort(after, o) <==> InPort(st, o))
      ensures (Loaded(after, o) <==> Loaded(st, o))
    {
      SameElsewhere(st, l, o);
    }
  }

  lemma SameElsewhere(st: Status, l: string, o: string)
    requires o != l && o != ""
    ensures (Stored(Forgotten(st, l), o) <==> Stored(st, o)) && (InPort(Forgotten(st, l), o) <==> InPort(st, o))
    ensures Loaded(Forgotten(st, l), o) <==> Loaded(st, o)
  {
    var after := Forgotten(st, l);
    assert forall i :: 0 <= i < |st.slots| ==>
             (after.slots[i].tag == o <==> st.slots[i].tag == o) && after.slots[i].ie == st.slots[i].ie;
    if i :| 0 <= i < |st.slots| && !st.slots[i].ie && st.slots[i].tag == o { assert after.slots[i].tag == o; }
    if i :| 0 <= i < |st.slots| && st.slots[i].ie && st.slots[i].tag == o { assert after.slots[i].tag == o; }
  }

  lemma ForgottenInv(st: Status, l: string)
    requires Inv(st) && Tokens(st) && l != ""
    ensures Inv(Forgotten(st, l)) && Tokens(Forgotten(st, l))
  {
    hide Token;
    var after := Forgotten(st, l);
    forall j | 0 <= j < |st.drives| && st.drives[j].tag != "" ensures Homed(after.slots, st.drives[j]) {
      HomesSurvive(st.slots, after.slots, st.drives[j]);
    }
  }

  // ------------------------------------------------------------------- the operations ----

  class LiveLibrary {
    var st: Status
    // The media directories under the library's home, and whether each looks like
    // mhVTL media (a mam file or an eviction marker).
    var media: map<string, bool>
    var contents: string
    ghost var faults: nat   // commands that failed with nothing against them

    ghost predicate Sound()
      reads this
    {
      Inv(st) && Tokens(st)
    }

    // And every stored or loaded cart has its media.
    ghost predicate Valid()
      reads this
    {
      Sound() && Stocked(st, media)
    }

    constructor (initial: Status, carts: map<string, bool>)
      requires Inv(initial) && Tokens(initial) && Stocked(initial, carts)
      ensures Valid() && st == initial && media == carts && faults == 0
    {
      st, media, contents, faults := initial, carts, "", 0;
    }

    // ---------------------------------------------------------------- commands ----

    // A command that may fail by itself.
    method Run() returns (ok: bool)
      modifies this`faults
      ensures faults == old(faults) + (if ok then 0 else 1)
    {
      ok := *;
      if !ok { faults := faults + 1; }
    }

    // mtx transfer. A refused command moves nothing; a failed one, which may be a
    // timeout, may have moved the cart.
    method MoveCart(from: nat, to: nat) returns (ok: bool)
      modifies this`st, this`faults
      ensures ok ==> CanMove(old(st), from, to) && st == Moved(old(st), from, to)
      ensures !ok ==> st == old(st) || (CanMove(old(st), from, to) && st == Moved(old(st), from, to))
      ensures faults >= old(faults) && (faults == old(faults) ==> (ok <==> CanMove(old(st), from, to)))
    {
      ok := Run();
      var applied: bool := *;
      if !CanMove(st, from, to) {
        ok := false;
      } else if ok || applied {
        st := Moved(st, from, to);
      }
    }

    // vtlcmd load map: the cart turns up in some empty I/E element, or not at all.
    method LoadMap(l: string) returns (ok: bool, ghost at: nat)
      requires Sound() && Token(l) && !Known(st, l)
      modifies this`st, this`faults
      ensures Sound() && (old(Valid()) ==> Valid()) && faults >= old(faults)
      ensures st == old(st) || EntersPort(old(st), st, at, l)
      ensures faults == old(faults) && PortFree(old(st)) ==> ok && EntersPort(old(st), st, at, l)
    {
      at := 0;
      ok := Run();
      var i: nat := *;
      if 0 <= i < |st.slots| && st.slots[i].ie && st.slots[i].tag == "" {
        EnterKeeps(st, i, l);
        EnterTokens(st, i, l);
        if Stocked(st, media) { EnterStocked(st, i, l, media); }
        at := i;
        st := Tagged(st, i, l);
      } else if PortFree(st) {
        faults := faults + 1;
      }
    }

    // vtlcmd empty map; a failed one may have taken effect.
    method EmptyMap() returns (ok: bool)
      modifies this`st, this`faults
      ensures st == Emptied(old(st)) || (!ok && st == old(st))
      ensures faults == old(faults) + (if ok then 0 else 1)
    {
      ok := Run();
      var applied: bool := *;
      if ok || applied { st := Emptied(st); }
    }

    method RewriteLibraryContents() returns (ok: bool)
      modifies this`contents, this`faults
      ensures contents == if ok then Join(Lines(st)) else old(contents)
      ensures faults == old(faults) + (if ok then 0 else 1)
    {
      ok := Run();
      if ok { contents := Render(st); }
    }

    // ------------------------------------------------------------------ moves ----

    // The poll for the cart: the last I/E element that shows it, 0 if none does.
    method FindInPort(l: string) returns (n: nat)
      requires Sound() && l != ""
      ensures n == 0 <==> !InPort(st, l)
      ensures n != 0 ==> PortShows(st, n, l)
    {
      n := 0;
      ghost var at: nat := 0;
      var i := 0;
      while i < |st.slots|
        invariant i <= |st.slots|
        invariant n == 0 ==> forall m :: 0 <= m < i && st.slots[m].ie ==> st.slots[m].tag != l
        invariant n != 0 ==> at < i && st.slots[at].num == n && st.slots[at].ie && st.slots[at].tag == l
      {
        if st.slots[i].ie && st.slots[i].tag == l {
          n, at := st.slots[i].num, i;
        }
        i := i + 1;
      }
      if n != 0 { FindIs(st.slots, at); }
    }

    // The polling loop: the element that shows the cart, 0 when time runs out first.
    method Await(l: string) returns (ieNum: nat)
      requires Sound() && l != ""
      modifies this`faults
      ensures Sound() && faults >= old(faults)
      ensures ieNum == 0 || PortShows(st, ieNum, l)
      ensures faults == old(faults) && InPort(st, l) ==> ieNum != 0
    {
      hide Inv, Tokens, Stocked, InPort;
      ieNum := 0;
      var polls: nat := *;
      while polls > 0
        invariant ieNum == 0 && Sound() && faults == old(faults)
      {
        var seen: bool := *;
        if seen { ieNum := FindInPort(l); }
        if ieNum != 0 { return; }
        polls := polls - 1;
      }
      if InPort(st, l) { faults := faults + 1; }
    }

    // parkMappedMedia: through the MAP into the chosen slot. A failure leaves the cart
    // out of the library, in one I/E element, or in the slot after all.
    method ParkMappedMedia(l: string, freeSlot: nat) returns (ok: bool, ghost at: nat)
      requires Sound() && Token(l) && !Known(st, l) && l in media
      requires var i := Find(st.slots, freeSlot); i < |st.slots| && FreeSlot(st, st.slots[i])
      modifies this`st, this`contents, this`faults
      ensures Sound() && (old(Valid()) ==> Valid()) && faults >= old(faults)
      ensures ok ==> st == Tagged(old(st), Find(old(st.slots), freeSlot), l)
      ensures !ok ==> st == old(st) || EntersPort(old(st), st, at, l) || EntersSlot(old(st), st, at, l)
      ensures contents == old(contents) || contents == Join(Lines(st))
      ensures ok ==> PortFree(old(st))
      ensures faults == old(faults) && PortFree(old(st)) ==> ok && contents == Join(Lines(st))
    {
      hide Inv, Tokens, Stocked, Known;
      ghost var st0, stocked := st, Stocked(st, media);
      ok, at := LoadMap(l);
      if !ok { return; }
      ok := Run();   // close map
      if !ok { return; }
      ghost var st1 := st;
      var ieNum := Await(l);
      ok := false;
      if ieNum == 0 {
        if EntersPort(st0, st1, at, l) { EnteredShows(st0, st1, at, l); }
        return;
      }
      EnteredHere(st0, st1, at, l, ieNum);
      CanPark(st0, st1, at, l, ieNum, freeSlot);
      ok := MoveCart(ieNum, freeSlot);
      if ok || st != st1 {
        ParkedThere(st0, st1, at, l, ieNum, freeSlot);
        if stocked { ParkedStocked(st0, l, freeSlot, media); }
        at := Find(st0.slots, freeSlot);
      }
      if !ok { return; }
      var written := RewriteLibraryContents();   // failure only warns
    }

    // MintCart: findFreeSlot, mktape, park; a failed park drops the fresh media. After a
    // failure every cart shown has its media exactly when no command took effect; and a
    // stored cart has lost them exactly when the transfer moved it and still failed.
    method MintCart(l: string) returns (r: Reply, ghost at: nat)
      requires Sound() && Token(l)
      modifies this
      ensures Sound() && faults >= old(faults)
      ensures old(Valid()) ==> (Valid() <==> !(r == Broken && Stored(st, l)))
      ensures faults == old(faults) ==>
                (r.Done? <==> !Known(old(st), l) && l !in old(media) && SomeFree(old(st)) && PortFree(old(st)))
      ensures faults == old(faults) && r.Done? ==> contents == Join(Lines(st))
      ensures r.Done? ==>
                && !Known(old(st), l) && l !in old(media) && media == old(media)[l := true]
                && var i := Find(old(st.slots), r.slot);
                   i < |old(st.slots)| && FreeSlot(old(st), old(st.slots)[i]) && st == Tagged(old(st), i, l)
      ensures !r.Done? ==>
                st == old(st) || EntersPort(old(st), st, at, l) || EntersSlot(old(st), st, at, l)
      ensures r == Broken ==> (Stored(st, l) <==> EntersSlot(old(st), st, at, l))
      ensures !r.Done? ==> media == old(media)
      ensures r == Broken ==> l !in media && !Known(old(st), l)
      ensures r == Broken && Covered(old(st), old(media)) ==> (Covered(st, media) <==> st == old(st))
      ensures r.Denied? ==> st == old(st)
      // Each refusal exactly in its case, in this order.
      ensures r == Denied(AlreadyHere) <==> Known(old(st), l)
      ensures r == Denied(NoSlot) <==> !Known(old(st), l) && !SomeFree(old(st))
      ensures r == Denied(MediaExists) <==> !Known(old(st), l) && SomeFree(old(st)) && l in old(media)
      ensures r.Denied? ==> r.why == AlreadyHere || r.why == NoSlot || r.why == MediaExists
    {
      hide Inv, Tokens, Stocked, Known, Covered, Stored;
      at := 0;
      FactNumbered(st);
      r := FindFreeSlot(st, l);
      if r.Denied? { return; }
      var freeSlot := r.slot;
      assert FreeSlot(st, st.slots[Find(st.slots, freeSlot)]);
      if l in media { return Denied(MediaExists), at; }
      NotStored(st, l);
      var made := Run();   // mktape
      if !made { return Broken, at; }
      if Stocked(st, media) { MoreMedia(st, media, l); }
      media := media[l := true];
      var ok;
      ok, at := ParkMappedMedia(l, freeSlot);
      if !ok {
        media := media - {l};
        assert media == old(media);
        MintFailed(old(st), st, at, l, media);
        return Broken, at;
      }
      r := Done(freeSlot);
    }

    // AdoptCart: the media is already there; it is never dropped.
    method AdoptCart(l: string) returns (r: Reply, ghost at: nat)
      requires Sound() && Token(l)
      modifies this`st, this`contents, this`faults
      ensures Sound() && (old(Valid()) ==> Valid()) && faults >= old(faults)
      ensures faults == old(faults) && l in media && !Known(old(st), l) && SomeFree(old(st)) && PortFree(old(st)) ==>
                r.Done?
      ensures r == Denied(NoMedia) <==> l !in media
      ensures r == Denied(AlreadyHere) <==> l in media && Known(old(st), l)
      ensures r == Denied(NoSlot) <==> l in media && !Known(old(st), l) && !SomeFree(old(st))
      ensures r.Denied? ==> r.why == NoMedia || r.why == AlreadyHere || r.why == NoSlot
      ensures r.Done? ==>
                && !Known(old(st), l)
                && var i := Find(old(st.slots), r.slot);
                   i < |old(st.slots)| && FreeSlot(old(st), old(st.slots)[i]) && st == Tagged(old(st), i, l)
      ensures !r.Done? ==>
                st == old(st) || EntersPort(old(st), st, at, l) || EntersSlot(old(st), st, at, l)
      ensures r.Denied? ==> st == old(st)
    {
      hide Inv, Tokens, Stocked, Known;
      at := 0;
      if l !in media { return Denied(NoMedia), at; }
      FactNumbered(st);
      r := FindFreeSlot(st, l);
      if r.Denied? { return; }
      var freeSlot := r.slot;
      var ok;
      ok, at := ParkMappedMedia(l, freeSlot);
      r := if ok then Done(freeSlot) else Broken;
    }

    // The deletion's first half: scan, park in the port, empty the map. A failure leaves
    // the cart where it was, in the port, or out of the changer after all.
    method TakeOut(l: string) returns (gone: bool, why: Reply)
      requires Sound() && l != "" && !Loaded(st, l)
      modifies this`st, this`faults
      ensures Sound() && (old(Valid()) ==> Valid())
      ensures faults >= old(faults) && Forgotten(st, l) == Forgotten(old(st), l)
      ensures faults == old(faults) ==>
                (gone <==> PortClear(old(st), l) && (InPort(old(st), l) || (Stored(old(st), l) && PortFree(old(st)))))
      ensures gone ==> st == Forgotten(old(st), l) && !Known(st, l)
      ensures gone && old(Valid()) ==> Stocked(st, media - {l})
      ensures !gone ==> st == old(st) || InPort(st, l) || !Known(st, l)
      ensures !gone ==> why == Broken || why == Denied(PortBusy) || why == Denied(NotFound) || why == Denied(NoSlot)
      ensures !gone && why.Denied? ==> st == old(st)
      ensures !gone && why == Denied(PortBusy) <==> !PortClear(old(st), l)
      ensures !gone && why == Denied(NotFound) <==> PortClear(old(st), l) && !InPort(old(st), l) && !Stored(old(st), l)
      ensures !gone && why == Denied(NoSlot) <==>
                PortClear(old(st), l) && !InPort(old(st), l) && Stored(old(st), l) && !PortFree(old(st))
      ensures gone ==> why == Broken
    {
      hide Inv, Tokens, Stocked;
      gone, why := false, Broken;
      FactNumbered(st);
      var scan := ScanElements(st, l);
      if scan.Busy? { return false, Denied(PortBusy); }
      if scan.srcSlot == 0 && !scan.inIE { return false, Denied(NotFound); }
      ghost var st0 := st;
      if !scan.inIE {
        if scan.freeIE == 0 { return false, Denied(NoSlot); }
        var moved := MoveCart(scan.srcSlot, scan.freeIE);
        if st != st0 || moved { Parked(st0, l, scan.srcSlot, scan.freeIE, media); }
        if !moved { return; }
      }
      gone := ClearPort(st0, l, scan);
    }

    // empty map, with the cart in the port; after a failure it is put back if it was
    // moved there and is still there.
    method ClearPort(ghost st0: Status, l: string, scan: Scan) returns (gone: bool)
      requires Inv(st0) && Tokens(st0) && l != "" && !Loaded(st0, l) && scan.Scanned?
      requires Sound() && PortClear(st, l) && InPort(st, l) && Forgotten(st, l) == Forgotten(st0, l)
      requires if scan.inIE then st == st0
               else CanMove(st0, scan.srcSlot, scan.freeIE) && st0.slots[Find(st0.slots, scan.freeIE)].ie
                    && st == Moved(st0, scan.srcSlot, scan.freeIE)
      modifies this`st, this`faults
      ensures Sound() && (Stocked(st0, media) && old(Stocked(st, media)) ==> Stocked(st, media))
      ensures Forgotten(st, l) == Forgotten(st0, l)
      ensures gone ==> st == Forgotten(st0, l) && !Known(st, l)
      ensures gone && Stocked(st0, media) ==> Stocked(st, media - {l})
      ensures !gone ==> st == st0 || InPort(st, l) || !Known(st, l)
      ensures faults >= old(faults) && (faults == old(faults) ==> gone)
    {
      hide Inv, Tokens, Stocked, Known, InPort, PortClear, Loaded;
      Gone(st0, l, media, st);
      ghost var parked := st;
      gone := EmptyMap();
      if gone { return; }
      if !scan.inIE && scan.srcSlot != 0 {
        ghost var before := st;
        var back := MoveCart(scan.freeIE, scan.srcSlot);
        if st != before { BackAgain(st0, parked, st, scan.srcSlot, scan.freeIE, before == Emptied(parked)); }
      }
    }

    // The second half: the media directory, if it looks like one, and the rewrite.
    method DropMedia(l: string) returns (r: Reply)
      requires Sound()
      modifies this`media, this`contents, this`faults
      ensures Sound() && faults >= old(faults)
      ensures old(Stocked(st, media) && Stocked(st, media - {l})) ==> Stocked(st, media)
      ensures faults == old(faults) ==> (r.Done? <==> (l in old(media) ==> old(media)[l]))
      ensures faults == old(faults) && r.Done? ==> contents == Join(Lines(st))
      ensures media == old(media) || media == old(media) - {l}
      ensures r.Done? ==> media == old(media) - {l}
      ensures r.Denied? ==> r.why == NotMedia && media == old(media) && l in media && !media[l]
    {
      hide Inv, Tokens, Stocked;
      var confirmed := Run();   // not cancelled while confirming
      if !confirmed { return Broken; }
      if l in media {
        if !media[l] { return Denied(NotMedia); }
        var removed := Run();
        if !removed { return Broken; }
        media := media - {l};
      }
      assert media == old(media) - {l};
      r := Done(0);
      var written := RewriteLibraryContents();   // failure only warns
    }

    // DeleteCart. On success exactly the named cart is gone, from the changer and from
    // disk; whatever happens no other cart moves and no other media is touched.
    method DeleteCart(l: string) returns (r: Reply)
      requires Sound() && l != ""
      modifies this
      ensures Sound() && (old(Valid()) ==> Valid()) && faults >= old(faults)
      ensures faults == old(faults) ==>
                (r.Done? <==> !Loaded(old(st), l) && PortClear(old(st), l)
                              && (InPort(old(st), l) || (Stored(old(st), l) && PortFree(old(st))))
                              && (l in old(media) ==> old(media)[l]))
      ensures faults == old(faults) && r.Done? ==> contents == Join(Lines(st))
      ensures r.Done? ==> st == Forgotten(old(st), l) && !Known(st, l) && media == old(media) - {l}
      ensures r.Done? ==> st.drives == old(st.drives) && |st.slots| == |old(st.slots)| && OthersStay(old(st), st, l)
      ensures Forgotten(st, l) == Forgotten(old(st), l)
      ensures media == old(media) || (media == old(media) - {l} && !Known(st, l))
      ensures r == Denied(InDrive) <==> Loaded(old(st), l)
      // Each refusal exactly in its case, in this order.
      ensures r == Denied(PortBusy) <==> !Loaded(old(st), l) && !PortClear(old(st), l)
      ensures r == Denied(NotFound) <==> !Known(old(st), l) && PortClear(old(st), l)
      ensures r == Denied(NoSlot) <==>
                && !Loaded(old(st), l) && PortClear(old(st), l) && !InPort(old(st), l) && Stored(old(st), l)
                && !PortFree(old(st))
      ensures r == Denied(NotMedia) ==> l in old(media) && !old(media)[l] && media == old(media) && !Known(st, l)
      ensures r.Denied? ==> r.why in {InDrive, PortBusy, NotFound, NoSlot, NotMedia}
      ensures r.Denied? && r.why != NotMedia ==> st == old(st) && media == old(media)
    {
      hide Inv, Tokens, Stocked, PortClear, PortFree, Stored, InPort, Loaded;
      var inDrive := AnyLoaded(l);
      if inDrive { return Denied(InDrive); }
      var gone;
      gone, r := TakeOut(l);
      if !gone { return; }
      r := DropMedia(l);
    }

    method AnyLoaded(l: string) returns (b: bool)
      ensures b == Loaded(st, l)
    {
      for j := 0 to |st.drives|
        invariant forall m :: 0 <= m < j ==> st.drives[m].tag != l
      {
        if st.drives[j].tag == l { return true; }
      }
      b := false;
    }

    // loadDrive: a cart from any storage slot or I/E element; a failed load may have
    // loaded it. The changer invariant survives exactly when no cart left an I/E element.
    method LoadDrive(l: string, j: nat) returns (r: Reply, ghost i: nat)
      requires Sound() && l != "" && j < |st.drives|
      modifies this`st, this`faults
      ensures faults >= old(faults)
      ensures faults == old(faults) ==>
                (r.Done? <==> old(st.drives[j].tag) == "" && (Stored(old(st), l) || InPort(old(st), l)))
      ensures r == Denied(DriveFull) <==> old(st.drives[j].tag != "")
      ensures r == Denied(NotFound) <==> old(st.drives[j].tag) == "" && !Known(old(st), l)
      ensures r == Denied(InDrive) <==>
                old(st.drives[j].tag) == "" && Loaded(old(st), l) && !Stored(old(st), l) && !InPort(old(st), l)
      ensures r.Denied? ==> r.why == DriveFull || r.why == NotFound || r.why == InDrive
      ensures r.Done? || st != old(st) ==>
                i < |old(st.slots)| && old(st.slots)[i].tag == l && st == Load(old(st), i, j)
      ensures r.Done? ==> st != old(st) && r.slot == old(st.slots)[i].num
      ensures r.Denied? ==> st == old(st)
      ensures Sound() <==> !(st != old(st) && InPort(old(st), l))
      ensures old(Valid()) && Sound() ==> Valid()
    {
      i := |st.slots|;
      if st.drives[j].tag != "" { return Denied(DriveFull), i; }
      var k := Locate(l);
      i := k;
      if k == |st.slots| {
        var elsewhere := AnyLoaded(l);
        return Denied(if elsewhere then InDrive else NotFound), i;
      }
      var ok := Run();
      var applied: bool := *;
      r := if ok then Done(st.slots[k].num) else Broken;
      if !ok && !applied { return; }
      LoadKeeps(st, k, j);
      LoadTokens(st, k, j);
      if !st.slots[k].ie && Stocked(st, media) { LoadStocked(st, k, j, media); }
      st := Load(st, k, j);
    }

    // The element that holds the cart, |st.slots| if none does.
    method Locate(l: string) returns (i: nat)
      requires Sound() && l != ""
      ensures i <= |st.slots| && (i < |st.slots| ==> st.slots[i].tag == l && (InPort(st, l) <==> st.slots[i].ie))
      ensures i < |st.slots| <==> Stored(st, l) || InPort(st, l)
    {
      i := |st.slots|;
      for k := 0 to |st.slots|
        invariant i == |st.slots| || (i < k && st.slots[i].tag == l)
        invariant i == |st.slots| ==> forall m :: 0 <= m < k ==> st.slots[m].tag != l
      {
        if st.slots[k].tag == l { i := k; }
      }
      if i < |st.slots| { assert if st.slots[i].ie then InPort(st, l) else Stored(st, l); }
    }

    // unloadDrive: the home slot when it is empty, else the first empty one. With the
    // invariant it always is. A failed unload may have unloaded the cart.
    method UnloadDrive(j: nat) returns (r: Reply)
      requires Sound() && j < |st.drives|
      modifies this`st, this`faults
      ensures Sound() && (old(Valid()) ==> Valid()) && faults >= old(faults)
      ensures faults == old(faults) ==> (r.Done? <==> old(st.drives[j].tag) != "")
      ensures r == Denied(DriveEmpty) <==> old(st.drives[j].tag) == ""
      ensures r != Denied(NoSlot)
      ensures r.Done? ==> r.slot == old(st.drives[j].source) && st != old(st)
      ensures st != old(st) ==>
                var i := Find(old(st.slots), old(st.drives[j].source));
                i < |old(st.slots)| && st == Unload(old(st), j, i)
      ensures r.Denied? ==> st == old(st)
    {
      if st.drives[j].tag == "" { return Denied(DriveEmpty); }
      var dest := Destination(j);
      assert dest == st.drives[j].source;
      if dest == 0 { return Denied(NoSlot); }
      var ok := Run();
      var applied: bool := *;
      r := if ok then Done(dest) else Broken;
      if !ok && !applied { return; }
      var i := Find(st.slots, dest);
      UnloadKeeps(st, j, i);
      UnloadTokens(st, j, i);
      if Stocked(st, media) { UnloadStocked(st, j, i, media); }
      st := Unload(st, j, i);
    }

    method Destination(j: nat) returns (dest: nat)
      requires Sound() && j < |st.drives| && st.drives[j].tag != ""
      ensures dest == st.drives[j].source && dest != 0
      ensures var i := Find(st.slots, dest); i < |st.slots| && !st.slots[i].ie && st.slots[i].tag == ""
    {
      ghost var h: nat :| h < |st.slots| && IsHome(st.slots[h], st.drives[j]);
      FindIs(st.slots, h);
      dest := 0;
      for i := 0 to |st.slots|
        invariant i <= h
      {
        var s := st.slots[i];
        if !s.ie && s.tag == "" {
          if s.num == st.drives[j].source {
            dest := s.num;
            break;
          }
          if dest == 0 { dest := s.num; }
        }
      }
    }
  }

  // The cart ended in a slot findFreeSlot may hand out.
  ghost predicate EntersSlot(before: Status, after: Status, i: nat, l: string) {
    i < |before.slots| && FreeSlot(before, before.slots[i]) && after == Tagged(before, i, l)
  }

  ghost predicate EntersPort(before: Status, after: Status, i: nat, l: string) {
    i < |before.slots| && before.slots[i].ie && before.slots[i].tag == "" && after == Tagged(before, i, l)
  }

  // ------------------------------------------------------------- facts the methods use ----

  lemma FactNumbered(st: Status)
    requires Inv(st)
    ensures Numbered(st.slots)
  {
  }

  lemma EnterTokens(st: Status, i: nat, l: string)
    requires Tokens(st) && i < |st.slots| && Token(l)
    ensures Tokens(Tagged(st, i, l))
  {
    hide Token;
  }

  lemma EnterStocked(st: Status, i: nat, l: string, media: map<string, bool>)
    requires Stocked(st, media) && i < |st.slots| && st.slots[i].ie
    ensures Stocked(Tagged(st, i, l), media)
  {
    var after := Tagged(st, i, l);
    forall o | o != "" && (Stored(after, o) || Loaded(after, o)) ensures o in media {
      if Stored(after, o) {
        var k :| 0 <= k < |after.slots| && !after.slots[k].ie && after.slots[k].tag == o;
        assert st.slots[k].tag == o;
        assert Stored(st, o);
      }
    }
  }

  lemma MoreMedia(st: Status, media: map<string, bool>, l: string)
    requires Stocked(st, media)
    ensures Stocked(st, media[l := true])
  {
  }

  lemma NotStored(st: Status, l: string)
    requires !Known(st, l)
    ensures !Stored(st, l) && !Loaded(st, l)
  {
  }

  // What a mint leaves when its park fails and the fresh media is dropped.
  lemma MintFailed(before: Status, after: Status, at: nat, l: string, media: map<string, bool>)
    requires !Known(before, l) && l != "" && l !in media
    requires after == before || EntersPort(before, after, at, l) || EntersSlot(before, after, at, l)
    ensures Stored(after, l) <==> EntersSlot(before, after, at, l)
    ensures Stocked(before, media) ==> (Stocked(after, media) <==> !Stored(after, l))
    ensures Covered(before, media) ==> (Covered(after, media) <==> after == before)
  {
    if after != before { HalfMinted(before, after, at, l, media); }
    if EntersSlot(before, after, at, l) {
      assert after.slots[at].tag == l && !after.slots[at].ie;
    } else if after != before && Stocked(before, media) {
      EnterStocked(before, at, l, media);
    }
  }

  // The changer shows a cart whose media is gone.
  lemma HalfMinted(before: Status, after: Status, at: nat, l: string, media: map<string, bool>)
    requires at < |before.slots| && after == Tagged(before, at, l) && l != "" && l !in media && !Known(before, l)
    ensures Known(after, l) && !Covered(after, media) && after != before
  {
    assert after.slots[at].tag == l;
    assert Stored(after, l) || InPort(after, l);
  }

  // One empty slot, one empty I/E element, no media: a sound library in which a mint
  // may fail that way, the cart left in the port or in the slot.
  lemma HalfMintInput()
    ensures var st := Status([], [Slot(1, false, ""), Slot(2, true, "")]);
            && Inv(st) && Tokens(st) && Stocked(st, map[]) && Covered(st, map[]) && !Known(st, "A")
            && EntersPort(st, Tagged(st, 1, "A"), 1, "A") && !Covered(Tagged(st, 1, "A"), map[])
            && EntersSlot(st, Tagged(st, 0, "A"), 0, "A") && !Stocked(Tagged(st, 0, "A"), map[])
  {
    hide Inv, Tokens, Stocked, Covered, Known;
    EmptyLibrary();
    var st := Status([], [Slot(1, false, ""), Slot(2, true, "")]);
    MintFailed(st, Tagged(st, 1, "A"), 1, "A", map[]);
    MintFailed(st, Tagged(st, 0, "A"), 0, "A", map[]);
    assert Tagged(st, 1, "A").slots[1].tag == "A" && Tagged(st, 0, "A").slots[0].tag == "A";
  }

  lemma EmptyLibrary()
    ensures var st := Status([], [Slot(1, false, ""), Slot(2, true, "")]);
            Inv(st) && Tokens(st) && Stocked(st, map[]) && Covered(st, map[]) && !Known(st, "A")
  {
  }

  // What is left for such a cart: it can be neither minted again nor adopted. A delete
  // cleans up, nothing failing, exactly when no other cart sits in the port and the cart
  // is there or has room to go there.
  method CleanUpHalfMint(lib: LiveLibrary, l: string) returns (mint: Reply, adopt: Reply, delete: Reply)
    requires lib.Sound() && Token(l) && (InPort(lib.st, l) || Stored(lib.st, l)) && l !in lib.media
    modifies lib
    ensures lib.Sound() && mint == Denied(AlreadyHere) && adopt == Denied(NoMedia)
    ensures lib.faults == old(lib.faults) ==>
              (delete.Done? <==> PortClear(old(lib.st), l) && (InPort(old(lib.st), l) || PortFree(old(lib.st))))
    ensures delete.Done? ==>
              !Known(lib.st, l) && lib.st == Forgotten(old(lib.st), l) && lib.media == old(lib.media)
  {
    hide Tokens, Stocked, PortClear, PortFree, Forgotten;
    assert !Loaded(lib.st, l);
    ghost var at;
    mint, at := lib.MintCart(l);
    adopt, at := lib.AdoptCart(l);
    delete := lib.DeleteCart(l);
  }

  lemma EnteredShows(before: Status, after: Status, at: nat, l: string)
    requires EntersPort(before, after, at, l)
    ensures InPort(after, l)
  {
    assert after.slots[at].ie && after.slots[at].tag == l;
  }

  lemma EnteredHere(before: Status, after: Status, at: nat, l: string, ieNum: nat)
    requires Inv(before) && !Known(before, l) && PortShows(after, ieNum, l)
    requires after == before || EntersPort(before, after, at, l)
    ensures EntersPort(before, after, at, l) && PortFree(before)
  {
    assert InPort(after, l);
  }

  lemma CanPark(before: Status, after: Status, at: nat, l: string, ieNum: nat, freeSlot: nat)
    requires EntersPort(before, after, at, l) && Inv(before) && PortShows(after, ieNum, l) && l != ""
    requires var i := Find(before.slots, freeSlot); i < |before.slots| && FreeSlot(before, before.slots[i])
    ensures CanMove(after, ieNum, freeSlot)
  {
    var k := Find(before.slots, freeSlot);
    assert after.slots[k] == before.slots[k];
    AfterNumbered(before, after, at, l);
    FindIs(after.slots, k);
  }

  lemma AfterNumbered(before: Status, after: Status, at: nat, l: string)
    requires EntersPort(before, after, at, l) && Inv(before)
    ensures Numbered(after.slots)
  {
  }

  lemma ParkedThere(st0: Status, st1: Status, at: nat, l: string, ieNum: nat, freeSlot: nat)
    requires Inv(st0) && !Known(st0, l) && Inv(st1) && Tokens(st1)
    requires l != "" && (st1 == st0 || EntersPort(st0, st1, at, l))
    requires var i := Find(st0.slots, freeSlot); i < |st0.slots| && FreeSlot(st0, st0.slots[i])
    requires PortShows(st1, ieNum, l)
    requires CanMove(st1, ieNum, freeSlot)
    ensures Moved(st1, ieNum, freeSlot) == Tagged(st0, Find(st0.slots, freeSlot), l)
    ensures var after := Moved(st1, ieNum, freeSlot); Inv(after) && Tokens(after)
  {
    var p, k := Find(st1.slots, ieNum), Find(st0.slots, freeSlot);
    assert InPort(st1, l);
    assert p == at;
    FindIs(st1.slots, k);
    TransferKeeps(st1, p, k);
    TransferTokens(st1, p, k);
    assert Moved(st1, ieNum, freeSlot).slots == Tagged(st0, k, l).slots;
  }

  lemma ParkedStocked(st0: Status, l: string, freeSlot: nat, media: map<string, bool>)
    requires Stocked(st0, media) && l in media && Find(st0.slots, freeSlot) < |st0.slots|
    ensures Stocked(Tagged(st0, Find(st0.slots, freeSlot), l), media)
  {
    var after := Tagged(st0, Find(st0.slots, freeSlot), l);
    forall o | o != "" && (Stored(after, o) || Loaded(after, o)) ensures o in media {
      if o != l && Stored(after, o) {
        var m :| 0 <= m < |after.slots| && !after.slots[m].ie && after.slots[m].tag == o;
        assert st0.slots[m].tag == o;
        assert Stored(st0, o);
      }
      if Loaded(after, o) { assert Loaded(st0, o); }
    }
  }

  // The deletion's transfer into the port, reported done or not.
  lemma Parked(st: Status, l: string, src: nat, ie: nat, media: map<string, bool>)
    requires Inv(st) && Tokens(st) && l != "" && PortClear(st, l) && !Loaded(st, l)
    requires var i := Find(st.slots, src); i < |st.slots| && !st.slots[i].ie && st.slots[i].tag == l
    requires var k := Find(st.slots, ie); k < |st.slots| && st.slots[k].ie && st.slots[k].tag == ""
    requires CanMove(st, src, ie)
    ensures var parked := Moved(st, src, ie);
            && Inv(parked) && Tokens(parked) && PortClear(parked, l) && InPort(parked, l)
            && Forgotten(parked, l) == Forgotten(st, l) && !Loaded(parked, l)
            && (Stocked(st, media) ==> Stocked(parked, media))
  {
    var i, k := Find(st.slots, src), Find(st.slots, ie);
    ParkThenForget(st, l, i, k);
    TransferTokens(st, i, k);
    var parked := Transferred(st, i, k);
    if Stocked(st, media) {
      forall o | o != "" && (Stored(parked, o) || Loaded(parked, o)) ensures o in media {
        if Stored(parked, o) {
          var m :| 0 <= m < |parked.slots| && !parked.slots[m].ie && parked.slots[m].tag == o;
          assert st.slots[m].tag == o;
          assert Stored(st, o);
        }
      }
    }
  }

  lemma ThereAndBack(st: Status, i: nat, k: nat)
    requires i < |st.slots| && k < |st.slots| && i != k && st.slots[k].tag == ""
    ensures Transferred(Transferred(st, i, k), k, i) == st
  {
    assert Transferred(Transferred(st, i, k), k, i).slots == st.slots;
  }

  lemma PutBack(st: Status, src: nat, ie: nat)
    requires Inv(st) && CanMove(st, src, ie) && CanMove(Moved(st, src, ie), ie, src)
    ensures Moved(Moved(st, src, ie), ie, src) == st
  {
    hide Inv;
    FactNumbered(st);
    var i, k := Find(st.slots, src), Find(st.slots, ie);
    var parked := Moved(st, src, ie);
    FindIs(parked.slots, i);
    FindIs(parked.slots, k);
    ThereAndBack(st, i, k);
  }

  // Emptying the map with the cart alone in the port.
  lemma Gone(st0: Status, l: string, media: map<string, bool>, parked: Status)
    requires Inv(st0) && Tokens(st0) && l != "" && !Loaded(st0, l)
    requires Inv(parked) && PortClear(parked, l) && InPort(parked, l) && Forgotten(parked, l) == Forgotten(st0, l)
    ensures var after := Emptied(parked);
            && after == Forgotten(st0, l) && Inv(after) && Tokens(after) && !Known(after, l)
            && Forgotten(after, l) == after
            && (Stocked(st0, media) ==> Stocked(after, media) && Stocked(after, media - {l}))
  {
    EmptyMapTakesOne(parked, l);
    ForgottenInv(st0, l);
    ForgottenGone(st0, l);
    if Stocked(st0, media) { ForgottenKeeps(st0, l, media); }
    assert Forgotten(Forgotten(st0, l), l).slots == Forgotten(st0, l).slots;
  }

  lemma ForgottenGone(st: Status, l: string)
    requires l != "" && !Loaded(st, l)
    ensures !Known(Forgotten(st, l), l)
  {
  }

  // The recovery's move: from the port back, or nothing once the map is empty.
  lemma BackAgain(st0: Status, parked: Status, after: Status, src: nat, ie: nat, emptied: bool)
    requires Inv(st0) && CanMove(st0, src, ie) && parked == Moved(st0, src, ie)
    requires st0.slots[Find(st0.slots, ie)].ie
    requires var from := if emptied then Emptied(parked) else parked;
             CanMove(from, ie, src) && after == Moved(from, ie, src)
    ensures after == st0
  {
    hide Inv, CanMove, Moved, Emptied;
    if emptied {
      NothingToMove(st0, parked, src, ie);
    } else {
      PutBack(st0, src, ie);
    }
  }

  lemma NothingToMove(st0: Status, parked: Status, src: nat, ie: nat)
    requires Inv(st0) && CanMove(st0, src, ie) && parked == Moved(st0, src, ie)
    requires st0.slots[Find(st0.slots, ie)].ie
    ensures !CanMove(Emptied(parked), ie, src)
  {
    hide Inv;
    FactNumbered(st0);
    var k, after := Find(st0.slots, ie), Emptied(parked);
    assert Numbered(after.slots) && after.slots[k].num == ie;
    FindIs(after.slots, k);
  }

  lemma LoadStocked(st: Status, i: nat, j: nat, media: map<string, bool>)
    requires Stocked(st, media) && i < |st.slots| && j < |st.drives| && !st.slots[i].ie
    ensures Stocked(Load(st, i, j), media)
  {
    var after := Load(st, i, j);
    assert Stored(st, st.slots[i].tag);
    forall o | o != "" && (Stored(after, o) || Loaded(after, o)) ensures o in media {
      if Stored(after, o) {
        var m :| 0 <= m < |after.slots| && !after.slots[m].ie && after.slots[m].tag == o;
        assert st.slots[m].tag == o;
        assert Stored(st, o);
      } else {
        var m :| 0 <= m < |after.drives| && after.drives[m].tag == o;
        if m != j { assert Loaded(st, o); }
      }
    }
  }

  lemma UnloadTokens(st: Status, j: nat, i: nat)
    requires Tokens(st) && i < |st.slots| && j < |st.drives|
    ensures Tokens(Unload(st, j, i))
  {
    hide Token;
  }

  lemma UnloadStocked(st: Status, j: nat, i: nat, media: map<string, bool>)
    requires Stocked(st, media) && i < |st.slots| && j < |st.drives|
    ensures Stocked(Unload(st, j, i), media)
  {
    var after := Unload(st, j, i);
    assert Loaded(st, st.drives[j].tag);
    forall o | o != "" && (Stored(after, o) || Loaded(after, o)) ensures o in media {
      if Stored(after, o) {
        var m :| 0 <= m < |after.slots| && !after.slots[m].ie && after.slots[m].tag == o;
        if m != i { assert Stored(st, o); }
      } else {
        var m :| 0 <= m < |after.drives| && after.drives[m].tag == o;
        assert m != j && Loaded(st, o);
      }
    }
  }

  // Over any run of these operations: the contents rewrite afterwards lists every
  // stored or loaded cart once, and nothing else.
  method AnyDay(lib: LiveLibrary, steps: nat) returns (ok: bool)
    requires lib.Sound()
    modifies lib
    ensures lib.Sound()
    ensures ok ==> var listed := Barcodes(Split(lib.contents));
                   Distinct(listed) && forall l :: l in listed <==> l != "" && (Stored(lib.st, l) || Loaded(lib.st, l))
    // Line by line: every storage slot has its own, with the cart that is stored there or
    // loaded from there.
    ensures ok ==> var lines := Split(lib.contents);
                   && Shelved(lib.st, Rows(lines))
                   && LaidOut(lines, |lib.st.drives|, |IeElements(lib.st.slots)|, Rows(lines))
  {
    hide Inv, Tokens, Stocked, Barcodes, Split, Join, Lines, Rows, Shelved, LaidOut, IeElements;
    var n := steps;
    while n > 0
      invariant lib.Sound()
    {
      AnyStep(lib);
      n := n - 1;
    }
    NoCartLost(lib.st);
    RewriteIs(lib.st);
    ok := lib.RewriteLibraryContents();
  }

  method AnyStep(lib: LiveLibrary)
    requires lib.Sound()
    modifies lib
    ensures lib.Sound()
  {
    hide Inv, Tokens, Stocked;
    var op: nat, l: string, j: nat := *, *, *;
    if op == 0 && Token(l) {
      var r, at := lib.MintCart(l);
    } else if op == 1 && Token(l) {
      var r, at := lib.AdoptCart(l);
    } else if op == 2 && l != "" {
      var r := lib.DeleteCart(l);
    } else if op == 3 && l != "" && j < |lib.st.drives| && !InPort(lib.st, l) {
      var r, at := lib.LoadDrive(l, j);
    } else if j < |lib.st.drives| {
      var r := lib.UnloadDrive(j);
    }
  }
}
