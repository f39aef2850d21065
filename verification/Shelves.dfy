// No cart is lost by the contents rewrite: under the changer invariant every stored
// or loaded cart is listed, once, at its own slot.
module Shelves {
  import opened Options
  import opened Text
  import opened Sorting
  import opened Changer
  import opened Contents

  predicate HoldsAt(s: Slot, n: nat, l: string) {
    !s.ie && s.num == n && s.tag == l && l != ""
  }

  ghost predicate StoredSlot(slots: seq<Slot>, n: nat, l: string) {
    exists i :: 0 <= i < |slots| && HoldsAt(slots[i], n, l)
  }

  predicate ComesFrom(d: Bay, n: nat, l: string) {
    d.tag == l && l != "" && d.source == n && n > 0
  }

  ghost predicate LoadedFrom(drives: seq<Bay>, n: nat, l: string) {
    exists j :: 0 <= j < |drives| && ComesFrom(drives[j], n, l)
  }

  predicate Maps(m: map<nat, string>, n: nat, l: string) {
    n in m && m[n] == l
  }

  lemma NumberedPrefix(slots: seq<Slot>)
    requires Numbered(slots) && slots != []
    ensures Numbered(slots[..|slots| - 1])
    ensures forall i :: 0 <= i < |slots| - 1 ==> slots[i].num != slots[|slots| - 1].num
  {
  }

  lemma {:induction false} StoredAtIs(slots: seq<Slot>, n: nat, l: string)
    requires Numbered(slots)
    ensures Maps(StoredAt(slots), n, l) <==> StoredSlot(slots, n, l)
  {
    if slots != [] {
      var init, s := slots[..|slots| - 1], slots[|slots| - 1];
      NumberedPrefix(slots);
      StoredAtIs(init, n, l);
      StoredMore(slots, n, l);
    }
  }

  lemma StoredMore(slots: seq<Slot>, n: nat, l: string)
    requires slots != []
    ensures StoredSlot(slots, n, l) <==> StoredSlot(slots[..|slots| - 1], n, l) || HoldsAt(slots[|slots| - 1], n, l)
  {
    var init := slots[..|slots| - 1];
    if i :| 0 <= i < |init| && HoldsAt(init[i], n, l) { assert HoldsAt(slots[i], n, l); }
    if i :| 0 <= i < |slots| && HoldsAt(slots[i], n, l) {
      if i < |init| { assert HoldsAt(init[i], n, l); }
    }
  }

  // Loaded carts have sources of their own.
  ghost predicate OwnSources(m0: map<nat, string>, drives: seq<Bay>) {
    && (forall i, j :: 0 <= i < j < |drives| && drives[i].tag != "" && drives[j].tag != "" ==>
          drives[i].source != drives[j].source)
    && (forall j :: 0 <= j < |drives| && drives[j].tag != "" ==> drives[j].source !in m0)
  }

  lemma LoadedMore(drives: seq<Bay>, n: nat, l: string)
    requires drives != []
    ensures LoadedFrom(drives, n, l) <==>
              LoadedFrom(drives[..|drives| - 1], n, l) || ComesFrom(drives[|drives| - 1], n, l)
  {
    var init := drives[..|drives| - 1];
    if j :| 0 <= j < |init| && ComesFrom(init[j], n, l) { assert ComesFrom(drives[j], n, l); }
    if j :| 0 <= j < |drives| && ComesFrom(drives[j], n, l) {
      if j < |init| { assert ComesFrom(init[j], n, l); }
    }
  }

  lemma NotLoadedTwice(m0: map<nat, string>, drives: seq<Bay>, n: nat, l: string)
    requires OwnSources(m0, drives) && drives != []
    requires drives[|drives| - 1].tag != "" && drives[|drives| - 1].source == n
    ensures !Maps(m0, n, l) && !LoadedFrom(drives[..|drives| - 1], n, l)
  {
    var init, d := drives[..|drives| - 1], drives[|drives| - 1];
    forall j | 0 <= j < |init| ensures !ComesFrom(init[j], n, l) {
      assert init[j] == drives[j];
    }
  }

  lemma {:induction false} HomesOfIs(m0: map<nat, string>, drives: seq<Bay>, n: nat, l: string)
    requires OwnSources(m0, drives)
    ensures Maps(HomesOf(m0, drives), n, l) <==> Maps(m0, n, l) || LoadedFrom(drives, n, l)
  {
    hide LoadedFrom;
    if drives == [] {
      NoneLoaded(n, l);
    } else {
      var init, d := drives[..|drives| - 1], drives[|drives| - 1];
      HomesOfIs(m0, init, n, l);
      LoadedMore(drives, n, l);
      if d.tag != "" && d.source == n { NotLoadedTwice(m0, drives, n, l); }
    }
  }

  lemma NoneLoaded(n: nat, l: string)
    ensures !LoadedFrom([], n, l)
  {
  }

  // Where the rewrite lists a label.
  lemma ListedAt(st: Status, n: nat, l: string)
    requires Inv(st)
    ensures Maps(HomesOf(StoredAt(st.slots), st.drives), n, l) <==>
              StoredSlot(st.slots, n, l) || LoadedFrom(st.drives, n, l)
  {
    hide StoredAt, HomesOf, LoadedFrom;
    var m := StoredAt(st.slots);
    StoredAtIs(st.slots, n, l);
    forall j | 0 <= j < |st.drives| && st.drives[j].tag != "" ensures st.drives[j].source !in m {
      HomeFree(st, j);
    }
    HomesOfIs(m, st.drives, n, l);
  }

  lemma HomeFree(st: Status, j: nat)
    requires Inv(st) && j < |st.drives| && st.drives[j].tag != ""
    ensures st.drives[j].source !in StoredAt(st.slots)
  {
    hide StoredAt;
    var n := st.drives[j].source;
    var h :| 0 <= h < |st.slots| && IsHome(st.slots[h], st.drives[j]);
    if n in StoredAt(st.slots) {
      StoredAtIs(st.slots, n, StoredAt(st.slots)[n]);
    }
  }

  // ------------------------------------------------------------------- one line a slot ----

  lemma {:induction false} StorageIn(slots: seq<Slot>, n: nat)
    ensures n in Storage(slots) <==> exists i :: 0 <= i < |slots| && !slots[i].ie && slots[i].num == n
  {
    if slots != [] {
      var init, s := slots[..|slots| - 1], slots[|slots| - 1];
      StorageIn(init, n);
      if i :| 0 <= i < |init| && !init[i].ie && init[i].num == n { assert slots[i] == init[i]; }
      if i :| 0 <= i < |slots| && !slots[i].ie && slots[i].num == n {
        if i < |init| { assert init[i] == slots[i]; }
      }
    }
  }

  predicate Distinct<T(==)>(s: seq<T>) {
    forall i, j :: 0 <= i < j < |s| ==> s[i] != s[j]
  }

  lemma {:induction false} StorageDistinct(slots: seq<Slot>)
    requires Numbered(slots)
    ensures Distinct(Storage(slots))
  {
    if slots != [] {
      var init, s := slots[..|slots| - 1], slots[|slots| - 1];
      NumberedPrefix(slots);
      StorageDistinct(init);
      StorageIn(init, s.num);
      if !s.ie { DistinctSnoc(Storage(init), s.num); }
    }
  }

  lemma DistinctSnoc<T>(s: seq<T>, x: T)
    requires Distinct(s) && x !in s
    ensures Distinct(s + [x])
  {
  }

  lemma DistinctSorted(ns: seq<nat>)
    requires Distinct(ns)
    ensures Distinct(Sort(Same, ns))
  {
    hide Sort;
    SortSorts(Same, ns);
    var r := Sort(Same, ns);
    forall i, j | 0 <= i < j < |r| ensures r[i] != r[j] {
      OneOf(ns, r[i]);
      if r[i] == r[j] {
        TwoOf(r, i, j);
      }
    }
  }

  lemma TwoOf(s: seq<nat>, i: nat, j: nat)
    requires i < j < |s| && s[i] == s[j]
    ensures multiset(s)[s[i]] >= 2
  {
    assert s == s[..i] + [s[i]] + s[i + 1..j] + [s[j]] + s[j + 1..];
  }

  lemma {:induction false} OneOf(s: seq<nat>, x: nat)
    requires Distinct(s)
    ensures multiset(s)[x] <= 1
  {
    if s != [] {
      var init, last := s[..|s| - 1], s[|s| - 1];
      assert s == init + [last];
      OneOf(init, x);
      if last == x { assert x !in init; }
    }
  }

  lemma {:induction false} HeldIn(ns: seq<nat>, m: map<nat, string>, l: string)
    ensures l in Held(ns, m) <==> exists n :: n in ns && Maps(m, n, l)
  {
    if ns != [] {
      var init, last := ns[..|ns| - 1], ns[|ns| - 1];
      assert ns == init + [last];
      HeldIn(init, m, l);
      if n :| n in init && Maps(m, n, l) { assert n in ns; }
      if Maps(m, last, l) { assert last in ns; }
    }
  }

  // No two slots map to one label.
  ghost predicate Injective(m: map<nat, string>) {
    forall a, b :: a in m && b in m && m[a] == m[b] ==> a == b
  }

  lemma {:induction false} HeldDistinct(ns: seq<nat>, m: map<nat, string>)
    requires Distinct(ns) && Injective(m)
    ensures Distinct(Held(ns, m))
  {
    if ns != [] {
      var init, last := ns[..|ns| - 1], ns[|ns| - 1];
      assert ns == init + [last];
      HeldDistinct(init, m);
      if last in m {
        HeldIn(init, m, m[last]);
        assert last !in init;
        DistinctSnoc(Held(init, m), m[last]);
      }
    }
  }

  lemma HomesInjective(st: Status)
    requires Inv(st)
    ensures Injective(HomesOf(StoredAt(st.slots), st.drives))
  {
    hide HomesOf, StoredAt, Inv;
    var m := HomesOf(StoredAt(st.slots), st.drives);
    forall a, b | a in m && b in m && m[a] == m[b] ensures a == b {
      ListedAt(st, a, m[a]);
      ListedAt(st, b, m[a]);
      OnePlace(st, a, b, m[a]);
    }
  }

  lemma OnePlace(st: Status, a: nat, b: nat, l: string)
    requires Inv(st)
    requires StoredSlot(st.slots, a, l) || LoadedFrom(st.drives, a, l)
    requires StoredSlot(st.slots, b, l) || LoadedFrom(st.drives, b, l)
    ensures a == b
  {
  }

  // ------------------------------------------------------------------------- the result ----

  // Cart l belongs on the line of slot n: it is stored there, or loaded from there.
  ghost predicate Belongs(st: Status, n: nat, l: string) {
    && l != ""
    && (|| (exists i :: 0 <= i < |st.slots| && !st.slots[i].ie && st.slots[i].num == n && st.slots[i].tag == l)
        || exists j :: 0 <= j < |st.drives| && st.drives[j].source == n && st.drives[j].tag == l)
  }

  ghost predicate StorageSlot(slots: seq<Slot>, n: nat) {
    exists i :: 0 <= i < |slots| && !slots[i].ie && slots[i].num == n
  }

  // One line for each storage slot, in ascending order, with its cart's label; the line
  // is blank when no cart belongs there.
  ghost predicate Shelved(st: Status, rows: seq<Shelf>) {
    && (forall i, j :: 0 <= i < j < |rows| ==> rows[i].num < rows[j].num)
    && (forall n :: (exists k :: 0 <= k < |rows| && rows[k].num == n) <==> StorageSlot(st.slots, n))
    && forall k, l :: 0 <= k < |rows| ==> (rows[k].tag == Some(l) <==> Belongs(st, rows[k].num, l))
  }

  lemma BelongsIs(st: Status, n: nat, l: string)
    requires Inv(st)
    ensures Belongs(st, n, l) <==> StoredSlot(st.slots, n, l) || LoadedFrom(st.drives, n, l)
  {
    if i :| 0 <= i < |st.slots| && !st.slots[i].ie && st.slots[i].num == n && st.slots[i].tag == l && l != "" {
      assert HoldsAt(st.slots[i], n, l);
    }
    if j :| 0 <= j < |st.drives| && st.drives[j].source == n && st.drives[j].tag == l && l != "" {
      assert Homed(st.slots, st.drives[j]);
      assert ComesFrom(st.drives[j], n, l);
    }
  }

  lemma SortedShelved(st: Status, ns: seq<nat>, m: map<nat, string>)
    requires Inv(st) && ns == Sort(Same, Storage(st.slots)) && m == HomesOf(StoredAt(st.slots), st.drives)
    ensures Shelved(st, ShelvesAt(ns, m))
  {
    hide Sort, HomesOf, StoredAt, Storage, Inv, Belongs, StoredSlot, LoadedFrom;
    var rows := ShelvesAt(ns, m);
    InvNumbered(st);
    StorageDistinct(st.slots);
    DistinctSorted(Storage(st.slots));
    SortSorts(Same, Storage(st.slots));
    forall n ensures (exists k :: 0 <= k < |rows| && rows[k].num == n) <==> StorageSlot(st.slots, n) {
      StorageIn(st.slots, n);
      assert n in ns <==> n in Storage(st.slots);
      if n in ns { var k :| 0 <= k < |ns| && ns[k] == n; assert rows[k].num == n; }
    }
    forall k, l | 0 <= k < |rows| ensures rows[k].tag == Some(l) <==> Belongs(st, rows[k].num, l) {
      ListedAt(st, ns[k], l);
      BelongsIs(st, ns[k], l);
    }
  }

  // The drives' and I/E elements' lines in front, and the slots' own after them.
  ghost predicate LaidOut(lines: seq<string>, drives: nat, ports: nat, rows: seq<Shelf>) {
    && |lines| == drives + ports + |rows| + 7
    && lines[0] == "VERSION: 2" && lines[1] == ""
    && (forall i :: 2 <= i < drives + 2 ==> lines[i] == "Drive " + Decimal(i - 1) + ":")
    && lines[drives + 2] == "" && lines[drives + 3] == "Picker 1:" && lines[drives + 4] == ""
    && (forall i :: drives + 5 <= i < drives + ports + 5 ==> lines[i] == "MAP " + Decimal(i - drives - 4) + ":")
    && lines[drives + ports + 5] == ""
    && (forall i :: drives + ports + 6 <= i < |lines| - 1 ==>
          var r := rows[i - drives - ports - 6];
          lines[i] == "Slot " + Decimal(r.num) + ":" + if r.tag == None then "" else " " + r.tag.value)
    && lines[|lines| - 1] == ""
  }

  lemma {:induction false} CountedIs(word: string, n: nat)
    ensures |Counted(word, n)| == n
    ensures forall i :: 0 <= i < n ==> Counted(word, n)[i] == word + " " + Decimal(i + 1) + ":"
  {
    if n > 0 { CountedIs(word, n - 1); }
  }

  lemma {:induction false} SlotTextsAre(ns: seq<nat>, m: map<nat, string>)
    ensures |SlotTexts(ns, m)| == |ns| && forall k :: 0 <= k < |ns| ==> SlotTexts(ns, m)[k] == SlotText(ns[k], m)
  {
    if ns != [] { SlotTextsAre(ns[..|ns| - 1], m); }
  }

  // The I/E elements counted.
  ghost function IeElements(slots: seq<Slot>): set<nat> {
    set i: nat | i < |slots| && slots[i].ie
  }

  lemma {:induction false} PortsIs(slots: seq<Slot>)
    ensures Ports(slots) == |IeElements(slots)|
  {
    if slots != [] {
      var n := |slots| - 1;
      PortsIs(slots[..n]);
      if slots[n].ie {
        assert IeElements(slots) == IeElements(slots[..n]) + {n};
      } else {
        assert IeElements(slots) == IeElements(slots[..n]);
      }
    }
  }

  lemma LinesLaidOut(st: Status)
    ensures LaidOut(Lines(st), |st.drives|, |IeElements(st.slots)|,
                    ShelvesAt(Sort(Same, Storage(st.slots)), HomesOf(StoredAt(st.slots), st.drives)))
  {
    hide Sort, HomesOf, StoredAt, Storage, Counted, SlotTexts, IeElements;
    var d, p := |st.drives|, Ports(st.slots);
    var ns, m := Sort(Same, Storage(st.slots)), HomesOf(StoredAt(st.slots), st.drives);
    CountedIs("Drive", d);
    CountedIs("MAP", p);
    SlotTextsAre(ns, m);
    PortsIs(st.slots);
    assert "Drive" + " " == "Drive " && "MAP" + " " == "MAP ";
    assert |Preface(d, p)| == d + p + 6;
  }

  // The rewritten file, whole.
  lemma RewriteIs(st: Status)
    requires Inv(st) && Tokens(st)
    ensures var lines := Split(Join(Lines(st)));
            Shelved(st, Rows(lines)) && LaidOut(lines, |st.drives|, |IeElements(st.slots)|, Rows(lines))
  {
    hide Split, Join, Rows, Lines, Sort, HomesOf, StoredAt, Storage;
    hide Inv, Tokens, Shelved, LaidOut, ShelvesAt, IeElements;
    RewriteReadsBack(st);
    SortedShelved(st, Sort(Same, Storage(st.slots)), HomesOf(StoredAt(st.slots), st.drives));
    LinesLaidOut(st);
    LinesSplit(st);
  }

  // The file after a rewrite, read by the parser.
  function Listed(st: Status): seq<string> {
    Barcodes(Split(Join(Lines(st))))
  }

  // Every stored or loaded cart is listed, each once, and nothing else is. Carts in
  // I/E elements are not.
  lemma NoCartLost(st: Status)
    requires Inv(st) && Tokens(st)
    ensures forall l :: l in Listed(st) <==> l != "" && (Stored(st, l) || Loaded(st, l))
    ensures Distinct(Listed(st))
  {
    hide Split, Join, Barcodes, Rows, ShelvesAt, Lines, Held, Sort, HomesOf, StoredAt;
    hide Inv, Tokens, Stored, Loaded, Storage, Numbered;
    var m, ns := HomesOf(StoredAt(st.slots), st.drives), Sort(Same, Storage(st.slots));
    RewriteReadsBack(st);
    InvNumbered(st);
    StorageDistinct(st.slots);
    DistinctSorted(Storage(st.slots));
    HomesInjective(st);
    HeldDistinct(ns, m);
    forall l ensures l in Listed(st) <==> l != "" && (Stored(st, l) || Loaded(st, l)) {
      HeldIn(ns, m, l);
      ListedIff(st, ns, m, l);
    }
  }

  lemma InvNumbered(st: Status)
    requires Inv(st)
    ensures Numbered(st.slots)
  {
  }

  lemma ListedIff(st: Status, ns: seq<nat>, m: map<nat, string>, l: string)
    requires Inv(st) && ns == Sort(Same, Storage(st.slots)) && m == HomesOf(StoredAt(st.slots), st.drives)
    ensures (exists n :: n in ns && Maps(m, n, l)) <==> l != "" && (Stored(st, l) || Loaded(st, l))
  {
    hide Sort, HomesOf, StoredAt, Storage;
    SortSorts(Same, Storage(st.slots));
    if n :| n in ns && Maps(m, n, l) {
      ListedAt(st, n, l);
    }
    if l != "" && Stored(st, l) {
      var i :| 0 <= i < |st.slots| && !st.slots[i].ie && st.slots[i].tag == l;
      Reaches(st, i, st.slots[i].num, l, ns);
      assert HoldsAt(st.slots[i], st.slots[i].num, l);
      ListedAt(st, st.slots[i].num, l);
    }
    if l != "" && Loaded(st, l) {
      var j :| 0 <= j < |st.drives| && st.drives[j].tag == l;
      var h :| 0 <= h < |st.slots| && IsHome(st.slots[h], st.drives[j]);
      Reaches(st, h, st.drives[j].source, l, ns);
      assert ComesFrom(st.drives[j], st.drives[j].source, l);
      ListedAt(st, st.drives[j].source, l);
    }
  }

  lemma Reaches(st: Status, i: nat, n: nat, l: string, ns: seq<nat>)
    requires i < |st.slots| && !st.slots[i].ie && st.slots[i].num == n && ns == Sort(Same, Storage(st.slots))
    ensures n in ns
  {
    hide Sort, Storage;
    StorageIn(st.slots, n);
    SortSorts(Same, Storage(st.slots));
  }

  // -------------------------------------------------------------- a home given away ----

  lemma {:induction false} LoadedWins(m0: map<nat, string>, drives: seq<Bay>, j: nat)
    requires j < |drives| && drives[j].tag != "" && drives[j].source > 0
    requires forall a, b :: 0 <= a < b < |drives| && drives[a].tag != "" && drives[b].tag != "" ==>
              drives[a].source != drives[b].source
    ensures Maps(HomesOf(m0, drives), drives[j].source, drives[j].tag)
  {
    var init := drives[..|drives| - 1];
    if j < |init| {
      assert init[j] == drives[j];
      LoadedWins(m0, init, j);
    }
  }

  lemma {:induction false} HomesComeFrom(m0: map<nat, string>, drives: seq<Bay>, n: nat, l: string)
    requires Maps(HomesOf(m0, drives), n, l)
    ensures Maps(m0, n, l) || LoadedFrom(drives, n, l)
  {
    if drives != [] {
      var init, d := drives[..|drives| - 1], drives[|drives| - 1];
      if d.tag != "" && d.source == n && n > 0 {
        assert ComesFrom(d, n, l);
      } else {
        HomesComeFrom(m0, init, n, l);
        if LoadedFrom(init, n, l) {
          var k :| 0 <= k < |init| && ComesFrom(init[k], n, l);
          assert ComesFrom(drives[k], n, l);
        }
      }
    }
  }

  // Unvaulting takes the first empty slot, home or not: the cart is listed afterwards
  // exactly when the slot was nobody's home.
  lemma UnvaultedListed(st: Status, i: nat, k: nat)
    requires Inv(st) && Tokens(st) && i < |st.slots| && k < |st.slots|
    requires st.slots[i].ie && st.slots[i].tag != "" && !st.slots[k].ie && st.slots[k].tag == ""
    ensures st.slots[i].tag in Listed(Transferred(st, i, k)) <==> !Reserved(st.drives, st.slots[k].num)
  {
    hide Listed, HomesOf, StoredAt, Tokens;
    var after, l := Transferred(st, i, k), st.slots[i].tag;
    TransferTokens(st, i, k);
    TransferKeeps(st, i, k);
    if !Reserved(st.drives, st.slots[k].num) {
      NoCartLost(after);
      assert after.slots[k].tag == l && !after.slots[k].ie;
      assert Stored(after, l);
    } else {
      var j :| 0 <= j < |st.drives| && st.drives[j].tag != "" && st.drives[j].source == st.slots[k].num;
      LostTag(st, i, k, j);
    }
  }

  // "A" is loaded from slot 1; "B", unvaulted from the port into that slot, loses its
  // line to "A".
  lemma UnvaultInput()
    ensures var st := Status([Bay("A", 1)], [Slot(1, false, ""), Slot(2, true, "B")]);
            Inv(st) && Tokens(st) && Reserved(st.drives, 1) && "B" !in Listed(Transferred(st, 1, 0))
  {
    hide Listed, Inv, Tokens, Reserved, Transferred;
    OneLoaded();
    UnvaultedListed(Status([Bay("A", 1)], [Slot(1, false, ""), Slot(2, true, "B")]), 1, 0);
  }

  lemma OneLoaded()
    ensures var st := Status([Bay("A", 1)], [Slot(1, false, ""), Slot(2, true, "B")]);
            Inv(st) && Tokens(st) && Reserved(st.drives, 1)
  {
    var st := Status([Bay("A", 1)], [Slot(1, false, ""), Slot(2, true, "B")]);
    OneHomed(st);
    hide Inv;
    assert Token("A") && Token("B");
  }

  lemma OneHomed(st: Status)
    requires st == Status([Bay("A", 1)], [Slot(1, false, ""), Slot(2, true, "B")])
    ensures Inv(st) && Reserved(st.drives, 1)
  {
    assert IsHome(st.slots[0], st.drives[0]);
    assert st.drives[0].tag != "" && st.drives[0].source == 1;
  }

  // "B", loaded straight from the port, has no line either.
  lemma LoadInput()
    ensures var st := Status([Bay("", 0)], [Slot(1, false, ""), Slot(2, true, "B")]);
            Inv(st) && Tokens(st) && "B" !in Listed(Load(st, 1, 0))
  {
    hide Listed;
    LoadedListed(Status([Bay("", 0)], [Slot(1, false, ""), Slot(2, true, "B")]), 1, 0);
  }

  // A load from a storage slot keeps the cart's line; one from an I/E element, whose
  // number is no storage slot's, loses it.
  lemma LoadedListed(st: Status, i: nat, j: nat)
    requires Inv(st) && Tokens(st) && i < |st.slots| && j < |st.drives|
    requires st.slots[i].tag != "" && st.drives[j].tag == ""
    ensures st.slots[i].tag in Listed(Load(st, i, j)) <==> !st.slots[i].ie
  {
    hide Listed, HomesOf, StoredAt, Tokens;
    var after, l := Load(st, i, j), st.slots[i].tag;
    LoadTokens(st, i, j);
    LoadKeeps(st, i, j);
    if !st.slots[i].ie {
      NoCartLost(after);
      assert after.drives[j].tag == l;
      assert Loaded(after, l);
    } else {
      UnlistedLoad(st, i, j);
    }
  }

  lemma LoadTokens(st: Status, i: nat, j: nat)
    requires Tokens(st) && i < |st.slots| && j < |st.drives|
    ensures Tokens(Load(st, i, j))
  {
    hide Token;
  }

  lemma UnlistedLoad(st: Status, i: nat, j: nat)
    requires Inv(st) && Tokens(st) && i < |st.slots| && j < |st.drives|
    requires st.slots[i].ie && st.slots[i].tag != "" && st.drives[j].tag == ""
    ensures st.slots[i].tag !in Listed(Load(st, i, j))
  {
    hide Sort, Split, Join, Barcodes, Rows, ShelvesAt, Lines, Held, HomesOf, StoredAt, Tokens, LoadedFrom, Storage;
    var after, l := Load(st, i, j), st.slots[i].tag;
    var m, ns := HomesOf(StoredAt(after.slots), after.drives), Sort(Same, Storage(after.slots));
    LoadTokens(st, i, j);
    RewriteReadsBack(after);
    HeldIn(ns, m, l);
    SortSorts(Same, Storage(after.slots));
    forall n | n in ns ensures !Maps(m, n, l) {
      if Maps(m, n, l) {
        StorageIn(after.slots, n);
        HomesComeFrom(StoredAt(after.slots), after.drives, n, l);
        StoredAtIs(after.slots, n, l);
        NotShelved(st, i, j, n);
      }
    }
  }

  lemma NotShelved(st: Status, i: nat, j: nat, n: nat)
    requires Inv(st) && i < |st.slots| && j < |st.drives| && st.slots[i].ie && st.slots[i].tag != ""
    requires exists k :: 0 <= k < |st.slots| && !Load(st, i, j).slots[k].ie && Load(st, i, j).slots[k].num == n
    ensures !StoredSlot(Load(st, i, j).slots, n, st.slots[i].tag)
    ensures !LoadedFrom(Load(st, i, j).drives, n, st.slots[i].tag)
  {
  }

  lemma TransferTokens(st: Status, i: nat, k: nat)
    requires Tokens(st) && i < |st.slots| && k < |st.slots|
    ensures Tokens(Transferred(st, i, k))
  {
    hide Token;
  }

  lemma LostTag(st: Status, i: nat, k: nat, j: nat)
    requires Inv(st) && Tokens(st) && i < |st.slots| && k < |st.slots| && j < |st.drives|
    requires st.slots[i].ie && st.slots[i].tag != "" && !st.slots[k].ie && st.slots[k].tag == ""
    requires st.drives[j].tag != "" && st.drives[j].source == st.slots[k].num
    ensures st.slots[i].tag !in Listed(Transferred(st, i, k))
  {
    hide Sort, Split, Join, Barcodes, Rows, ShelvesAt, Lines, Held, HomesOf, StoredAt, Tokens, LoadedFrom;
    var after, l := Transferred(st, i, k), st.slots[i].tag;
    var m, ns := HomesOf(StoredAt(after.slots), st.drives), Sort(Same, Storage(after.slots));
    TransferTokens(st, i, k);
    RewriteReadsBack(after);
    HeldIn(ns, m, l);
    LoadedWins(StoredAt(after.slots), st.drives, j);
    forall n ensures !Maps(m, n, l) {
      if Maps(m, n, l) {
        HomesComeFrom(StoredAt(after.slots), st.drives, n, l);
        StoredAtIs(after.slots, n, l);
        OnlyThere(st, i, k, n);
        NotLoaded(st, i, n);
      }
    }
  }

  lemma OnlyThere(st: Status, i: nat, k: nat, n: nat)
    requires Inv(st) && i < |st.slots| && k < |st.slots| && st.slots[i].ie && st.slots[i].tag != "" && !st.slots[k].ie
    ensures StoredSlot(Transferred(st, i, k).slots, n, st.slots[i].tag) ==> n == st.slots[k].num
  {
  }

  lemma NotLoaded(st: Status, i: nat, n: nat)
    requires Inv(st) && i < |st.slots| && st.slots[i].tag != ""
    ensures !LoadedFrom(st.drives, n, st.slots[i].tag)
  {
  }
}
