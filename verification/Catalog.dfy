// The catalog cache and its rebuild from a bucket listing.
module Catalogs {
  import opened Options
  import opened Names
  import opened Keys

  // The part of a manifest the catalog reads.
  datatype Doc = Doc(version: nat, cart: string, gen: string, exportedAt: string, system: string, library: string,
                     chunks: nat, logical: nat, stored: nat, count: nat)

  datatype Json = Json(enc: Doc -> string, dec: string -> Option<Doc>)

  ghost predicate Lawful(json: Json) {
    forall d :: json.dec(json.enc(d)) == Some(d)
  }

  const MANIFEST_VERSION := 2

  // catalog.Decode
  function Decode(json: Json, raw: string): Option<Doc> {
    match json.dec(raw)
    case None => None
    case Some(d) =>
      if d.version != MANIFEST_VERSION || d.cart == "" || d.gen == "" || d.chunks == 0 then None else Some(d)
  }

  // The catalog's primary key leaves the library out.
  datatype PK = PK(remote: int, system: string, cart: string, gen: string)
  datatype Row = Row(library: string, raw: string, logical: nat, stored: nat, count: nat, exportedAt: string)

  function KeyOf(remote: int, c: Coord): PK {
    PK(remote, c.system, c.cart, c.gen)
  }

  function RowOf(d: Doc, raw: string): Row {
    Row(d.library, raw, d.logical, d.stored, d.count, d.exportedAt)
  }

  predicate Fits(d: Doc, c: Coord) {
    d.cart == c.cart && d.gen == c.gen && d.system == c.system && d.library == c.library
  }

  function ManifestKey(prefix: string, c: Coord): string {
    Key(prefix, ManifestParts(c))
  }

  // The row a generation's manifest object yields; None when it is rejected.
  function Cached(json: Json, bucket: map<string, string>, prefix: string, c: Coord): Option<Row> {
    if ManifestKey(prefix, c) !in bucket then None
    else
      var raw := bucket[ManifestKey(prefix, c)];
      match Decode(json, raw)
      case None => None
      case Some(d) => if Fits(d, c) then Some(RowOf(d, raw)) else None
  }

  // Generation c's row written out: the manifest under its key is of version 2, with
  // chunks, names just this generation, and the row is its own.
  ghost predicate Tells(json: Json, bucket: map<string, string>, prefix: string, c: Coord, row: Row) {
    var key := prefix + (c.system + "/" + (c.library + "/" + (c.cart + "/" + (c.gen + "/" + "manifest.json"))));
    && key in bucket && json.dec(bucket[key]).Some?
    && var d := json.dec(bucket[key]).value;
       && d.version == 2 && d.cart == c.cart && d.gen == c.gen && d.system == c.system && d.library == c.library
       && d.cart != "" && d.gen != "" && d.chunks > 0
       && row == Row(c.library, bucket[key], d.logical, d.stored, d.count, d.exportedAt)
  }

  lemma CachedIs(json: Json, bucket: map<string, string>, prefix: string, c: Coord)
    ensures forall row :: Cached(json, bucket, prefix, c) == Some(row) <==> Tells(json, bucket, prefix, c, row)
  {
    KeysAre(prefix, c, 0);
  }

  // A remote's rows are those of listed generations that tell them; every generation with
  // an error, unless its manifest could not be fetched, tells none.
  ghost predicate RowsTold(json: Json, bucket: map<string, string>, prefix: string, remote: int, rows: map<PK, Row>) {
    forall k :: k in rows && k.remote == remote ==> exists c :: Told(json, bucket, prefix, remote, c, k, rows[k])
  }

  ghost predicate Told(json: Json, bucket: map<string, string>, prefix: string, remote: int,
                       c: Coord, k: PK, row: Row) {
    k == PK(remote, c.system, c.cart, c.gen) && Tells(json, bucket, prefix, c, row)
  }

  lemma SourcedTold(json: Json, bucket: map<string, string>, prefix: string, keys: seq<string>, remote: int,
                    rows: map<PK, Row>)
    requires Sourced(json, bucket, prefix, keys, remote, rows)
    ensures RowsTold(json, bucket, prefix, remote, rows)
  {
    hide Cached, ListsFile, Tells;
    forall k | k in rows && k.remote == remote
      ensures exists c :: Told(json, bucket, prefix, remote, c, k, rows[k])
    {
      var c :| IsSource(json, bucket, prefix, keys, remote, k, rows[k], c);
      CachedIs(json, bucket, prefix, c);
      assert Told(json, bucket, prefix, remote, c, k, rows[k]);
    }
  }

  // What a finished rebuild has told, written out for every listed generation.
  ghost predicate Judged(json: Json, bucket: map<string, string>, prefix: string, keys: seq<string>, remote: int,
                         rows: map<PK, Row>, errors: seq<Coord>, missed: set<Coord>) {
    forall c :: ListsFile(prefix, keys, c, MANIFEST) && c !in missed ==>
      if exists row :: Tells(json, bucket, prefix, c, row) then
        PK(remote, c.system, c.cart, c.gen) in rows && c !in errors
      else c in errors
  }

  lemma RebuiltJudged(json: Json, bucket: map<string, string>, prefix: string, keys: seq<string>, remote: int,
                      rows: map<PK, Row>, r: Report, missed: set<Coord>)
    requires Rebuilt(json, bucket, prefix, keys, remote, rows, r, missed)
    ensures Judged(json, bucket, prefix, keys, remote, rows, r.errors, missed)
  {
    hide Cached, ListsFile, Lists, Tells, Sourced;
    forall c | ListsFile(prefix, keys, c, MANIFEST) && c !in missed
      ensures if exists row :: Tells(json, bucket, prefix, c, row) then
                PK(remote, c.system, c.cart, c.gen) in rows && c !in r.errors
              else c in r.errors
    {
      CachedIs(json, bucket, prefix, c);
      FileLists(prefix, keys, c);
      if Cached(json, bucket, prefix, c).Some? {
        assert Tells(json, bucket, prefix, c, Cached(json, bucket, prefix, c).value);
      }
    }
  }

  lemma FileLists(prefix: string, keys: seq<string>, c: Coord)
    requires ListsFile(prefix, keys, c, MANIFEST)
    ensures Lists(prefix, keys, c)
  {
    hide Listed;
    var i :| 0 <= i < |keys| && Listed(prefix, keys[i]) == Some(Entry(c, MANIFEST));
    assert Listed(prefix, keys[i]).Some? && Listed(prefix, keys[i]).value.c == c;
  }

  // ------------------------------------------------------------------------- listing ----

  datatype Listing = Listing(c: Coord, hasManifest: bool)

  function Listed(prefix: string, key: string): Option<Entry> {
    EntryOf(TrimPrefix(key, prefix))
  }

  ghost predicate ListsFile(prefix: string, keys: seq<string>, c: Coord, file: string) {
    exists i :: 0 <= i < |keys| && Listed(prefix, keys[i]) == Some(Entry(c, file))
  }

  ghost predicate Lists(prefix: string, keys: seq<string>, c: Coord) {
    exists i :: 0 <= i < |keys| && Listed(prefix, keys[i]).Some? && Listed(prefix, keys[i]).value.c == c
  }

  ghost predicate IsListing(prefix: string, keys: seq<string>, gens: seq<Listing>) {
    && (forall i, j :: 0 <= i < j < |gens| ==> gens[i].c != gens[j].c)
    && (forall i :: 0 <= i < |gens| ==>
          Lists(prefix, keys, gens[i].c) && (gens[i].hasManifest <==> ListsFile(prefix, keys, gens[i].c, MANIFEST)))
    && (forall c :: Lists(prefix, keys, c) ==> exists i :: 0 <= i < |gens| && gens[i].c == c)
  }

  // The map the walk has filled after the first k keys.
  ghost predicate Seen(prefix: string, keys: seq<string>, seen: map<Coord, bool>) {
    forall c ::
      && (c in seen <==> Lists(prefix, keys, c))
      && (c in seen ==> seen[c] == ListsFile(prefix, keys, c, MANIFEST))
  }

  // ListGenerations' loop over the bucket's keys.
  method Walk(prefix: string, keys: seq<string>) returns (seen: map<Coord, bool>)
    ensures Seen(prefix, keys, seen)
  {
    hide Listed, Seen;
    seen := map[];
    NothingSeen(prefix);
    assert keys[..0] == [];
    var i := 0;
    while i < |keys|
      invariant i <= |keys| && Seen(prefix, keys[..i], seen)
    {
      ghost var before := seen;
      var e := Listed(prefix, keys[i]);
      if e.Some? {
        var c := e.value.c;
        if c !in seen { seen := seen[c := false]; }
        if e.value.file == MANIFEST { seen := seen[c := true]; }
      }
      SeenMore(prefix, keys, i, before, seen);
      i := i + 1;
    }
    assert keys[..i] == keys;
  }

  lemma NothingSeen(prefix: string)
    ensures Seen(prefix, [], map[])
  {
  }

  function Noted(seen: map<Coord, bool>, e: Option<Entry>): map<Coord, bool> {
    match e
    case None => seen
    case Some(x) =>
      if x.file == MANIFEST then seen[x.c := true] else if x.c in seen then seen else seen[x.c := false]
  }

  lemma SeenMore(prefix: string, keys: seq<string>, i: nat, before: map<Coord, bool>, after: map<Coord, bool>)
    requires i < |keys| && Seen(prefix, keys[..i], before) && after == Noted(before, Listed(prefix, keys[i]))
    ensures Seen(prefix, keys[..i + 1], after)
  {
    hide Listed, Lists, ListsFile;
    forall c
      ensures c in after <==> Lists(prefix, keys[..i + 1], c)
      ensures c in after ==> after[c] == ListsFile(prefix, keys[..i + 1], c, MANIFEST)
    {
      ListsMore(prefix, keys, i, c);
    }
  }

  ghost predicate Taken(gens: seq<Listing>, c: Coord) {
    exists k :: 0 <= k < |gens| && gens[k].c == c
  }

  // The entries of the map as a list, in any order.
  method Entries(seen: map<Coord, bool>) returns (gens: seq<Listing>)
    ensures forall i, j :: 0 <= i < j < |gens| ==> gens[i].c != gens[j].c
    ensures forall i :: 0 <= i < |gens| ==> gens[i].c in seen && gens[i].hasManifest == seen[gens[i].c]
    ensures forall c :: c in seen ==> Taken(gens, c)
  {
    gens := [];
    var todo := seen.Keys;
    while todo != {}
      invariant todo <= seen.Keys
      invariant forall c :: c in seen && c !in todo ==> Taken(gens, c)
      invariant forall k :: 0 <= k < |gens| ==>
                gens[k].c in seen && gens[k].c !in todo && gens[k].hasManifest == seen[gens[k].c]
      invariant forall j, k :: 0 <= j < k < |gens| ==> gens[j].c != gens[k].c
      decreases |todo|
    {
      var c :| c in todo;
      ghost var listed := gens;
      gens := gens + [Listing(c, seen[c])];
      todo := todo - {c};
      assert gens[|listed|].c == c;
      forall o | Taken(listed, o) ensures Taken(gens, o) {
        var k :| 0 <= k < |listed| && listed[k].c == o;
        assert gens[k].c == o;
      }
    }
  }

  // By system, then library, then label, then generation.
  predicate Earlier(a: Coord, b: Coord) {
    if a.system != b.system then Before(a.system, b.system)
    else if a.library != b.library then Before(a.library, b.library)
    else if a.cart != b.cart then Before(a.cart, b.cart)
    else Before(a.gen, b.gen)
  }

  lemma EarlierTransitive(a: Coord, b: Coord, c: Coord)
    requires Earlier(a, b) && Earlier(b, c)
    ensures Earlier(a, c)
  {
    hide Before;
    StrictlyBefore(a.system, b.system, c.system);
    StrictlyBefore(a.library, b.library, c.library);
    StrictlyBefore(a.cart, b.cart, c.cart);
    StrictlyBefore(a.gen, b.gen, c.gen);
  }

  lemma StrictlyBefore(a: string, b: string, c: string)
    ensures Before(a, b) && Before(b, c) ==> Before(a, c) && a != c
    ensures !Before(a, a)
  {
    BeforeIrreflexive(a);
    if Before(a, b) && Before(b, c) {
      BeforeTransitive(a, b, c);
    }
  }

  lemma EarlierTotal(a: Coord, b: Coord)
    ensures a == b || Earlier(a, b) || Earlier(b, a)
  {
    hide Before;
    BeforeTotal(a.system, b.system);
    BeforeTotal(a.library, b.library);
    BeforeTotal(a.cart, b.cart);
    BeforeTotal(a.gen, b.gen);
  }

  ghost predicate InOrder(s: seq<Listing>) {
    forall i, j :: 0 <= i < j < |s| ==> Earlier(s[i].c, s[j].c)
  }

  function InsertListing(s: seq<Listing>, x: Listing): seq<Listing> {
    if s == [] || Earlier(x.c, s[0].c) then [x] + s else [s[0]] + InsertListing(s[1..], x)
  }

  lemma {:induction false} InsertInOrder(s: seq<Listing>, x: Listing)
    requires InOrder(s) && forall y :: y in s ==> y.c != x.c
    ensures InOrder(InsertListing(s, x)) && forall y :: y in InsertListing(s, x) <==> y in s || y == x
  {
    hide Earlier;
    if s != [] && Earlier(x.c, s[0].c) {
      forall j | 0 <= j < |s| ensures Earlier(x.c, s[j].c) {
        if j > 0 { EarlierTransitive(x.c, s[0].c, s[j].c); }
      }
    } else if s != [] {
      var t := s[1..];
      assert s == [s[0]] + t;
      InsertInOrder(t, x);
      var r := InsertListing(t, x);
      EarlierTotal(x.c, s[0].c);
      forall j | 0 <= j < |r| ensures Earlier(s[0].c, r[j].c) {
        assert r[j] in r;
        if r[j] != x {
          var k :| 0 <= k < |t| && t[k] == r[j];
          assert s[k + 1] == r[j];
        }
      }
    }
  }

  // sort.Slice on distinct coordinates.
  method SortListings(gens: seq<Listing>) returns (out: seq<Listing>)
    requires forall i, j :: 0 <= i < j < |gens| ==> gens[i].c != gens[j].c
    ensures InOrder(out) && forall x :: x in out <==> x in gens
  {
    hide Earlier;
    out := [];
    for i := 0 to |gens|
      invariant InOrder(out) && forall x :: x in out <==> x in gens[..i]
    {
      assert gens[..i + 1] == gens[..i] + [gens[i]];
      InsertInOrder(out, gens[i]);
      out := InsertListing(out, gens[i]);
    }
    assert gens[..|gens|] == gens;
  }

  // What order leaves no choice about: two listings of the same keys are equal.
  lemma ListingUnique(prefix: string, keys: seq<string>, a: seq<Listing>, b: seq<Listing>)
    requires IsListing(prefix, keys, a) && IsListing(prefix, keys, b) && InOrder(a) && InOrder(b)
    ensures a == b
  {
    hide Lists, ListsFile, Earlier;
    SameItems(prefix, keys, a, b);
    SameItems(prefix, keys, b, a);
    OrderUnique(a, b);
  }

  lemma SameItems(prefix: string, keys: seq<string>, a: seq<Listing>, b: seq<Listing>)
    requires IsListing(prefix, keys, a) && IsListing(prefix, keys, b)
    ensures forall x :: x in a ==> x in b
  {
    hide Lists, ListsFile;
    forall x | x in a ensures x in b {
      var i :| 0 <= i < |a| && a[i] == x;
      var j :| 0 <= j < |b| && b[j].c == x.c;
      assert b[j] == x;
    }
  }

  lemma {:induction false} OrderUnique(a: seq<Listing>, b: seq<Listing>)
    requires InOrder(a) && InOrder(b) && forall x :: x in a <==> x in b
    ensures a == b
  {
    hide Earlier;
    assert a != [] ==> a[0] in b;
    assert b != [] ==> b[0] in a;
    if a != [] && b != [] {
      NotItself(a[0].c, b[0].c);
      assert a == [a[0]] + a[1..] && b == [b[0]] + b[1..];
      forall x ensures x in a[1..] <==> x in b[1..] {
        Heads(a, x);
        Heads(b, x);
      }
      OrderUnique(a[1..], b[1..]);
    }
  }

  lemma Heads(s: seq<Listing>, x: Listing)
    requires InOrder(s) && s != []
    ensures x in s[1..] <==> x in s && x != s[0]
  {
    hide Earlier;
    NotItself(s[0].c, s[0].c);
    assert s == [s[0]] + s[1..];
  }

  lemma NotItself(a: Coord, b: Coord)
    ensures !(Earlier(a, b) && Earlier(b, a))
  {
    if Earlier(a, b) && Earlier(b, a) {
      EarlierTransitive(a, b, a);
      BeforeIrreflexive(a.gen);
    }
  }

  // ListGenerations: every generation once, in order.
  method ListGenerations(prefix: string, keys: seq<string>) returns (gens: seq<Listing>)
    ensures IsListing(prefix, keys, gens) && InOrder(gens)
    // Written out: by system, library, label, generation.
    ensures forall i, j :: 0 <= i < j < |gens| ==>
              var a, b := gens[i].c, gens[j].c;
              || Before(a.system, b.system)
              || (a.system == b.system && Before(a.library, b.library))
              || (a.system == b.system && a.library == b.library && Before(a.cart, b.cart))
              || (a.system == b.system && a.library == b.library && a.cart == b.cart && Before(a.gen, b.gen))
  {
    hide Lists, ListsFile, Earlier;
    var seen := Walk(prefix, keys);
    var some := Entries(seen);
    gens := SortListings(some);
    forall c | Lists(prefix, keys, c) ensures exists i :: 0 <= i < |gens| && gens[i].c == c {
      assert c in seen && Taken(some, c);
      var k :| 0 <= k < |some| && some[k].c == c;
      assert some[k] in gens;
    }
    forall i | 0 <= i < |gens| ensures gens[i].c in seen && gens[i].hasManifest == seen[gens[i].c] {
      assert gens[i] in some;
    }
    forall i, j | 0 <= i < j < |gens| ensures gens[i].c != gens[j].c {
      NotItself(gens[i].c, gens[j].c);
    }
    SpelledOut(gens);
  }

  lemma SpelledOut(gens: seq<Listing>)
    requires InOrder(gens)
    ensures forall i, j :: 0 <= i < j < |gens| ==>
              var a, b := gens[i].c, gens[j].c;
              || Before(a.system, b.system)
              || (a.system == b.system && Before(a.library, b.library))
              || (a.system == b.system && a.library == b.library && Before(a.cart, b.cart))
              || (a.system == b.system && a.library == b.library && a.cart == b.cart && Before(a.gen, b.gen))
  {
    hide Before;
  }

  lemma ListsMore(prefix: string, keys: seq<string>, i: nat, c: Coord)
    requires i < |keys|
    ensures Lists(prefix, keys[..i + 1], c) <==>
            Lists(prefix, keys[..i], c) || (Listed(prefix, keys[i]).Some? && Listed(prefix, keys[i]).value.c == c)
    ensures ListsFile(prefix, keys[..i + 1], c, MANIFEST) <==>
            ListsFile(prefix, keys[..i], c, MANIFEST) || Listed(prefix, keys[i]) == Some(Entry(c, MANIFEST))
    ensures ListsFile(prefix, keys[..i], c, MANIFEST) ==> Lists(prefix, keys[..i], c)
  {
    hide Listed;
    assert forall k :: 0 <= k < i ==> keys[..i + 1][k] == keys[..i][k];
    assert keys[..i + 1][i] == keys[i];
  }

  // ------------------------------------------------------------------------- rebuild ----

  datatype Report = Report(complete: nat, incomplete: seq<Coord>, errors: seq<Coord>)

  ghost predicate OthersKept(before: map<PK, Row>, after: map<PK, Row>, remote: int) {
    forall k: PK :: k.remote != remote ==> (k in before <==> k in after) && (k in before ==> before[k] == after[k])
  }

  // The row of key k is the manifest's of the listed generation c.
  ghost predicate IsSource(json: Json, bucket: map<string, string>, prefix: string, keys: seq<string>, remote: int,
                           k: PK, row: Row, c: Coord)
  {
    && KeyOf(remote, c) == k && ListsFile(prefix, keys, c, MANIFEST)
    && Cached(json, bucket, prefix, c) == Some(row)
  }

  // A generation with a manifest that was fetched and fits its key; or was not, or does not.
  predicate Accepted(json: Json, bucket: map<string, string>, prefix: string, missed: set<Coord>, g: Listing) {
    g.hasManifest && Cached(json, bucket, prefix, g.c).Some? && g.c !in missed
  }

  predicate Rejected(json: Json, bucket: map<string, string>, prefix: string, missed: set<Coord>, g: Listing) {
    g.hasManifest && (g.c in missed || Cached(json, bucket, prefix, g.c).None?)
  }

  // Every row of the remote is some listed generation's.
  ghost predicate Sourced(json: Json, bucket: map<string, string>, prefix: string, keys: seq<string>, remote: int,
                          rows: map<PK, Row>) {
    forall k :: k in rows && k.remote == remote ==>
      exists c :: IsSource(json, bucket, prefix, keys, remote, k, rows[k], c)
  }

  // What a finished rebuild reports and caches; `missed` are the manifests it could
  // not fetch.
  ghost predicate Rebuilt(json: Json, bucket: map<string, string>, prefix: string, keys: seq<string>, remote: int,
                          rows: map<PK, Row>, r: Report, missed: set<Coord>) {
    && Sourced(json, bucket, prefix, keys, remote, rows)
    && (forall c :: ListsFile(prefix, keys, c, MANIFEST) && Cached(json, bucket, prefix, c).Some? && c !in missed ==>
          KeyOf(remote, c) in rows)
    && (forall c :: c in r.incomplete <==> Lists(prefix, keys, c) && !ListsFile(prefix, keys, c, MANIFEST))
    && (forall c :: c in r.errors <==>
          && Lists(prefix, keys, c) && ListsFile(prefix, keys, c, MANIFEST)
          && (c in missed || Cached(json, bucket, prefix, c).None?))
  }

  // The manifests that were cached: there, fetched, and their key's own.
  ghost predicate Whole(json: Json, bucket: map<string, string>, prefix: string, keys: seq<string>,
                        missed: set<Coord>, c: Coord) {
    ListsFile(prefix, keys, c, MANIFEST) && Cached(json, bucket, prefix, c).Some? && c !in missed
  }

  ghost predicate AreWhole(json: Json, bucket: map<string, string>, prefix: string, keys: seq<string>,
                           missed: set<Coord>, cached: set<Coord>) {
    forall c :: c in cached <==> Whole(json, bucket, prefix, keys, missed, c)
  }

  // `complete` is their number.
  ghost predicate Tallied(json: Json, bucket: map<string, string>, prefix: string, keys: seq<string>, r: Report,
                          missed: set<Coord>) {
    exists cached :: AreWhole(json, bucket, prefix, keys, missed, cached) && |cached| == r.complete
  }

  // The same for the first k listed generations.
  ghost function CachedSoFar(json: Json, bucket: map<string, string>, prefix: string, gens: seq<Listing>, k: nat,
                             missed: set<Coord>): set<Coord>
    requires k <= |gens|
  {
    set i | 0 <= i < k && Accepted(json, bucket, prefix, missed, gens[i]) :: gens[i].c
  }

  // The same, for the first k listed generations.
  ghost predicate Partly(json: Json, bucket: map<string, string>, prefix: string, keys: seq<string>,
                         gens: seq<Listing>, k: nat, remote: int,
                         rows: map<PK, Row>, r: Report, missed: set<Coord>)
    requires k <= |gens|
  {
    && Sourced(json, bucket, prefix, keys, remote, rows)
    && (forall i :: 0 <= i < k && Accepted(json, bucket, prefix, missed, gens[i]) ==>
          KeyOf(remote, gens[i].c) in rows)
    && (forall c :: c in r.incomplete <==> exists i :: 0 <= i < k && gens[i].c == c && !gens[i].hasManifest)
    && (forall c :: c in r.errors <==>
          exists i :: 0 <= i < k && gens[i].c == c && Rejected(json, bucket, prefix, missed, gens[i]))
    && (forall c :: c in missed ==> exists i :: 0 <= i < k && gens[i].c == c)
    && r.complete + |r.incomplete| + |r.errors| == k
  }

  class Store {
    var catalog: map<PK, Row>
    ghost var faults: nat   // failures of the bucket or of the database

    constructor (rows: map<PK, Row>)
      ensures catalog == rows && faults == 0
    {
      catalog, faults := rows, 0;
    }

    method Io() returns (ok: bool)
      modifies this`faults
      ensures faults == old(faults) + (if ok then 0 else 1)
    {
      ok := *;
      if !ok { faults := faults + 1; }
    }

    method ClearCatalog(remote: int) returns (ok: bool)
      modifies this
      ensures catalog ==
              if ok then (map k | k in old(catalog) && k.remote != remote :: old(catalog)[k]) else old(catalog)
      ensures faults == old(faults) + (if ok then 0 else 1)
    {
      ok := Io();
      if ok { catalog := map k | k in catalog && k.remote != remote :: catalog[k]; }
    }

    method UpsertCatalogEntry(k: PK, row: Row) returns (ok: bool)
      modifies this
      ensures catalog == if ok then old(catalog)[k := row] else old(catalog)
      ensures faults == old(faults) + (if ok then 0 else 1)
    {
      ok := Io();
      if ok { catalog := catalog[k := row]; }
    }

    // Rebuild. None is an aborted rebuild; the cache then holds a part of the truth
    // and nothing else.
    method Rebuild(json: Json, bucket: map<string, string>, prefix: string, keys: seq<string>, remote: int)
      returns (r: Option<Report>, ghost missed: set<Coord>)
      modifies this
      ensures r.Some? ==> Rebuilt(json, bucket, prefix, keys, remote, catalog, r.value, missed)
      ensures r.Some? ==> Tallied(json, bucket, prefix, keys, r.value, missed)
      // Written out: which generations have a row, whose it is, and which are rejected.
      ensures r.Some? ==>
                && RowsTold(json, bucket, prefix, remote, catalog)
                && Judged(json, bucket, prefix, keys, remote, catalog, r.value.errors, missed)
      ensures OthersKept(old(catalog), catalog, remote)
      ensures faults >= old(faults) && (faults == old(faults) ==> r.Some? && missed == {})
      ensures r.None? ==> catalog == old(catalog) || Sourced(json, bucket, prefix, keys, remote, catalog)
    {
      hide Cached, IsListing, InOrder, Partly, Rebuilt, Sourced, Tallied, CachedSoFar, Judged, RowsTold;
      missed := {};
      var listed := Io();
      if !listed { return None, missed; }
      var gens := ListGenerations(prefix, keys);
      var cleared := ClearCatalog(remote);
      if !cleared { return None, missed; }
      var report := Report(0, [], []);
      NothingYet(json, bucket, prefix, keys, gens, remote, catalog);
      NoneCached(json, bucket, prefix, gens);
      var k := 0;
      while k < |gens|
        invariant k <= |gens| && OthersKept(old(catalog), catalog, remote)
        invariant Partly(json, bucket, prefix, keys, gens, k, remote, catalog, report, missed)
        invariant |CachedSoFar(json, bucket, prefix, gens, k, missed)| == report.complete
        invariant IsListing(prefix, keys, gens)
        invariant faults >= old(faults) && (faults == old(faults) ==> missed == {})
      {
        ghost var rows0, report0, missed0 := catalog, report, missed;
        var g := gens[k];
        if !g.hasManifest {
          report := report.(incomplete := report.incomplete + [g.c]);
        } else {
          var fetched := Io();
          var row := if fetched then Cached(json, bucket, prefix, g.c) else None;
          if row.None? {
            missed := if fetched then missed else missed + {g.c};
            report := report.(errors := report.errors + [g.c]);
          } else {
            var stored := UpsertCatalogEntry(KeyOf(remote, g.c), row.value);
            if !stored {
              PartlySourced(json, bucket, prefix, keys, gens, k, remote, rows0, report0, missed0);
              return None, missed;
            }
            report := report.(complete := report.complete + 1);
          }
        }
        OneMore(json, bucket, prefix, keys, gens, k, remote, rows0, report0, missed0, catalog, report, missed);
        OneMoreCached(json, bucket, prefix, keys, gens, k, remote, rows0, report0, missed0, catalog, report, missed);
        k := k + 1;
      }
      AllDone(json, bucket, prefix, keys, gens, remote, catalog, report, missed);
      AllTallied(json, bucket, prefix, keys, gens, report, missed);
      AllTold(json, bucket, prefix, keys, remote, catalog, report, missed);
      r := Some(report);
    }
  }

  lemma AllTold(json: Json, bucket: map<string, string>, prefix: string, keys: seq<string>, remote: int,
                rows: map<PK, Row>, r: Report, missed: set<Coord>)
    requires Rebuilt(json, bucket, prefix, keys, remote, rows, r, missed)
    ensures RowsTold(json, bucket, prefix, remote, rows)
    ensures Judged(json, bucket, prefix, keys, remote, rows, r.errors, missed)
  {
    hide Sourced, RowsTold, Judged;
    SourcedTold(json, bucket, prefix, keys, remote, rows);
    RebuiltJudged(json, bucket, prefix, keys, remote, rows, r, missed);
  }

  lemma NothingYet(json: Json, bucket: map<string, string>, prefix: string, keys: seq<string>, gens: seq<Listing>,
                   remote: int, rows: map<PK, Row>)
    requires forall k :: k in rows ==> k.remote != remote
    ensures Partly(json, bucket, prefix, keys, gens, 0, remote, rows, Report(0, [], []), {})
  {
  }

  lemma NoneCached(json: Json, bucket: map<string, string>, prefix: string, gens: seq<Listing>)
    ensures CachedSoFar(json, bucket, prefix, gens, 0, {}) == {}
  {
  }

  lemma OneMoreCached(json: Json, bucket: map<string, string>, prefix: string, keys: seq<string>, gens: seq<Listing>,
                      k: nat, remote: int,
                      rows0: map<PK, Row>, r0: Report, missed0: set<Coord>,
                      rows: map<PK, Row>, r: Report, missed: set<Coord>)
    requires k < |gens| && IsListing(prefix, keys, gens)
    requires Partly(json, bucket, prefix, keys, gens, k, remote, rows0, r0, missed0)
    requires Handled(json, bucket, prefix, gens[k], remote, rows0, r0, missed0, rows, r, missed)
    requires |CachedSoFar(json, bucket, prefix, gens, k, missed0)| == r0.complete
    ensures |CachedSoFar(json, bucket, prefix, gens, k + 1, missed)| == r.complete
  {
    hide Cached, Sourced, Lists, ListsFile, CachedSoFar;
    NotYetMissed(json, bucket, prefix, keys, gens, k, remote, rows0, r0, missed0);
    CachedNext(json, bucket, prefix, gens, k, missed0, missed);
  }

  lemma NotYetMissed(json: Json, bucket: map<string, string>, prefix: string, keys: seq<string>, gens: seq<Listing>,
                     k: nat, remote: int,
                     rows0: map<PK, Row>, r0: Report, missed0: set<Coord>)
    requires k < |gens| && IsListing(prefix, keys, gens)
    requires Partly(json, bucket, prefix, keys, gens, k, remote, rows0, r0, missed0)
    ensures gens[k].c !in missed0 && forall i :: 0 <= i < k ==> gens[i].c != gens[k].c
  {
    hide Cached, Sourced, Lists, ListsFile;
  }

  lemma CachedNext(json: Json, bucket: map<string, string>, prefix: string, gens: seq<Listing>, k: nat,
                   missed0: set<Coord>, missed: set<Coord>)
    requires k < |gens| && (forall i :: 0 <= i < k ==> gens[i].c != gens[k].c) && gens[k].c !in missed0
    requires missed == missed0 || missed == missed0 + {gens[k].c}
    ensures |CachedSoFar(json, bucket, prefix, gens, k + 1, missed)| ==
            |CachedSoFar(json, bucket, prefix, gens, k, missed0)|
            + if gens[k].hasManifest && Cached(json, bucket, prefix, gens[k].c).Some? && missed == missed0 then 1 else 0
  {
    hide Cached;
    var g, before := gens[k], CachedSoFar(json, bucket, prefix, gens, k, missed0);
    assert g.c !in before;
    if g.hasManifest && Cached(json, bucket, prefix, g.c).Some? && missed == missed0 {
      assert CachedSoFar(json, bucket, prefix, gens, k + 1, missed) == before + {g.c};
    } else {
      assert CachedSoFar(json, bucket, prefix, gens, k + 1, missed) == before;
    }
  }

  lemma AllTallied(json: Json, bucket: map<string, string>, prefix: string, keys: seq<string>, gens: seq<Listing>,
                   r: Report, missed: set<Coord>)
    requires IsListing(prefix, keys, gens) && |CachedSoFar(json, bucket, prefix, gens, |gens|, missed)| == r.complete
    ensures Tallied(json, bucket, prefix, keys, r, missed)
  {
    hide Cached, Listed;
    var cached := CachedSoFar(json, bucket, prefix, gens, |gens|, missed);
    forall c ensures c in cached <==> Whole(json, bucket, prefix, keys, missed, c) {
      if ListsFile(prefix, keys, c, MANIFEST) {
        var i :| 0 <= i < |keys| && Listed(prefix, keys[i]) == Some(Entry(c, MANIFEST));
        assert Listed(prefix, keys[i]).value.c == c;
        assert Lists(prefix, keys, c);
      }
    }
    assert AreWhole(json, bucket, prefix, keys, missed, cached);
  }

  lemma PartlySourced(json: Json, bucket: map<string, string>, prefix: string, keys: seq<string>, gens: seq<Listing>,
                      k: nat, remote: int,
                      rows: map<PK, Row>, r: Report, missed: set<Coord>)
    requires k <= |gens| && Partly(json, bucket, prefix, keys, gens, k, remote, rows, r, missed)
    ensures Sourced(json, bucket, prefix, keys, remote, rows)
  {
  }

  // One generation of the loop.
  ghost predicate Handled(json: Json, bucket: map<string, string>, prefix: string, g: Listing, remote: int,
                          rows0: map<PK, Row>, r0: Report, missed0: set<Coord>,
                          rows: map<PK, Row>, r: Report, missed: set<Coord>) {
    var row := Cached(json, bucket, prefix, g.c);
    if !g.hasManifest then rows == rows0 && missed == missed0 && r == r0.(incomplete := r0.incomplete + [g.c])
    else
      || (rows == rows0 && r == r0.(errors := r0.errors + [g.c])
          && (missed == missed0 + {g.c} || (row.None? && missed == missed0)))
      || (row.Some? && rows == rows0[KeyOf(remote, g.c) := row.value]
          && missed == missed0 && r == r0.(complete := r0.complete + 1))
  }

  lemma OneMore(json: Json, bucket: map<string, string>, prefix: string, keys: seq<string>, gens: seq<Listing>,
                k: nat, remote: int,
                rows0: map<PK, Row>, r0: Report, missed0: set<Coord>,
                rows: map<PK, Row>, r: Report, missed: set<Coord>)
    requires k < |gens| && IsListing(prefix, keys, gens)
    requires Partly(json, bucket, prefix, keys, gens, k, remote, rows0, r0, missed0)
    requires Handled(json, bucket, prefix, gens[k], remote, rows0, r0, missed0, rows, r, missed)
    ensures Partly(json, bucket, prefix, keys, gens, k + 1, remote, rows, r, missed)
  {
    hide Cached, Lists, ListsFile, Sourced, KeyOf;
    MoreKept(json, bucket, prefix, keys, gens, k, remote, rows0, r0, missed0, rows, r, missed);
    MoreRows(json, bucket, prefix, keys, gens[k], remote, rows0, r0, missed0, rows, r, missed);
    MoreErrors(json, bucket, prefix, keys, gens, k, remote, rows0, r0, missed0, rows, r, missed);
  }

  lemma MoreKept(json: Json, bucket: map<string, string>, prefix: string, keys: seq<string>, gens: seq<Listing>,
                 k: nat, remote: int,
                 rows0: map<PK, Row>, r0: Report, missed0: set<Coord>,
                 rows: map<PK, Row>, r: Report, missed: set<Coord>)
    requires k < |gens| && Partly(json, bucket, prefix, keys, gens, k, remote, rows0, r0, missed0)
    requires Handled(json, bucket, prefix, gens[k], remote, rows0, r0, missed0, rows, r, missed)
    ensures forall i :: 0 <= i < k + 1 && Accepted(json, bucket, prefix, missed, gens[i]) ==>
              KeyOf(remote, gens[i].c) in rows
    ensures forall c :: c in missed ==> exists i :: 0 <= i < k + 1 && gens[i].c == c
    ensures r.complete + |r.incomplete| + |r.errors| == k + 1
  {
    hide Cached, Sourced, KeyOf;
    forall i | 0 <= i < k + 1 && Accepted(json, bucket, prefix, missed, gens[i])
      ensures KeyOf(remote, gens[i].c) in rows
    {
      if i < k {
        assert Accepted(json, bucket, prefix, missed0, gens[i]);
        assert KeyOf(remote, gens[i].c) in rows0;
      }
    }
    forall c | c in missed ensures exists i :: 0 <= i < k + 1 && gens[i].c == c {
      if c in missed0 {
        var i :| 0 <= i < k && gens[i].c == c;
      } else {
        assert gens[k].c == c;
      }
    }
  }

  lemma MoreRows(json: Json, bucket: map<string, string>, prefix: string, keys: seq<string>, g: Listing, remote: int,
                 rows0: map<PK, Row>, r0: Report, missed0: set<Coord>,
                 rows: map<PK, Row>, r: Report, missed: set<Coord>)
    requires Sourced(json, bucket, prefix, keys, remote, rows0)
    requires g.hasManifest ==> ListsFile(prefix, keys, g.c, MANIFEST)
    requires Handled(json, bucket, prefix, g, remote, rows0, r0, missed0, rows, r, missed)
    ensures Sourced(json, bucket, prefix, keys, remote, rows)
  {
    hide Cached, ListsFile;
    forall q | q in rows && q.remote == remote
      ensures exists c :: IsSource(json, bucket, prefix, keys, remote, q, rows[q], c)
    {
      if q != KeyOf(remote, g.c) || rows == rows0 {
        assert q in rows0 && rows0[q] == rows[q];
      } else {
        assert IsSource(json, bucket, prefix, keys, remote, q, rows[q], g.c);
      }
    }
  }

  lemma MoreErrors(json: Json, bucket: map<string, string>, prefix: string, keys: seq<string>, gens: seq<Listing>,
                   k: nat, remote: int,
                   rows0: map<PK, Row>, r0: Report, missed0: set<Coord>,
                   rows: map<PK, Row>, r: Report, missed: set<Coord>)
    requires k < |gens| && forall i, j :: 0 <= i < j < |gens| ==> gens[i].c != gens[j].c
    requires Partly(json, bucket, prefix, keys, gens, k, remote, rows0, r0, missed0)
    requires Handled(json, bucket, prefix, gens[k], remote, rows0, r0, missed0, rows, r, missed)
    ensures forall c :: c in r.incomplete <==> exists i :: 0 <= i < k + 1 && gens[i].c == c && !gens[i].hasManifest
    ensures forall c :: c in r.errors <==>
              exists i :: 0 <= i < k + 1 && gens[i].c == c && Rejected(json, bucket, prefix, missed, gens[i])
  {
    hide Cached, Sourced;
    var g := gens[k];
    assert g.c !in missed0;
  }

  lemma AllDone(json: Json, bucket: map<string, string>, prefix: string, keys: seq<string>, gens: seq<Listing>,
                remote: int,
                rows: map<PK, Row>, r: Report, missed: set<Coord>)
    requires IsListing(prefix, keys, gens) && Partly(json, bucket, prefix, keys, gens, |gens|, remote, rows, r, missed)
    ensures Rebuilt(json, bucket, prefix, keys, remote, rows, r, missed)
  {
    hide Cached, Sourced, Listed;
    forall c | ListsFile(prefix, keys, c, MANIFEST) ensures Lists(prefix, keys, c) {
      var i :| 0 <= i < |keys| && Listed(prefix, keys[i]) == Some(Entry(c, MANIFEST));
      assert Listed(prefix, keys[i]).value.c == c;
    }
  }

  // ----------------------------------------------------- a bucket built by exports ----

  // The remote as its exports leave it: which generations have chunk objects, which
  // have a manifest, and the rows the exports cached. `prefix` is fixed.
  datatype World = World(bucket: map<string, string>, started: set<Coord>, done: map<Coord, Doc>, rows: map<PK, Row>)

  // The manifest an export of generation c writes.
  predicate Finished(d: Doc, c: Coord) {
    Fits(d, c) && d.version == MANIFEST_VERSION && d.chunks > 0
  }

  // One effect of an export or of the housekeeping beside it. A retried job may write
  // its manifest again.
  datatype Act =
    | PutChunk(c: Coord, idx: nat, body: string)
    | PutManifest(m: Coord, d: Doc)
    | CacheRow(r: Coord)
    | PutMarker(system: string, text: string)
    | PutTopology(owner: string, serial: string, text: string)

  predicate Allowed(w: World, a: Act) {
    match a
    case PutChunk(c, _, _) => Proper(c)
    case PutManifest(c, d) => Proper(c) && Finished(d, c)
    case CacheRow(c) => c in w.done
    case PutMarker(system, _) => Segment(system)
    case PutTopology(system, serial, _) => Segment(system) && Segment(serial)
  }

  function Next(json: Json, prefix: string, remote: int, w: World, a: Act): World
    requires Allowed(w, a)
  {
    match a
    case PutChunk(c, idx, body) =>
      w.(bucket := w.bucket[Key(prefix, ChunkParts(c, idx)) := body], started := w.started + {c})
    case PutManifest(c, d) => w.(bucket := w.bucket[ManifestKey(prefix, c) := json.enc(d)], done := w.done[c := d])
    case CacheRow(c) => w.(rows := w.rows[KeyOf(remote, c) := RowOf(w.done[c], json.enc(w.done[c]))])
    case PutMarker(system, text) => w.(bucket := w.bucket[Key(prefix, MarkerParts(system)) := text])
    case PutTopology(system, serial, text) => w.(bucket := w.bucket[Key(prefix, TopologyParts(system, serial)) := text])
  }

  // Every key lists as a started or finished generation, or as nothing; and every
  // such generation is there.
  ghost predicate Built(json: Json, prefix: string, w: World) {
    && (forall c :: c in w.started || c in w.done ==> Proper(c))
    && (forall c :: c in w.done ==>
          && Fits(w.done[c], c) && w.done[c].version == MANIFEST_VERSION && w.done[c].chunks > 0
          && ManifestKey(prefix, c) in w.bucket && w.bucket[ManifestKey(prefix, c)] == json.enc(w.done[c]))
    && (forall c :: c in w.started ==> exists k :: k in w.bucket && IsChunkKey(prefix, k, c))
    && (forall k :: k in w.bucket ==> Accounted(prefix, w, k))
  }

  predicate IsChunkKey(prefix: string, k: string, c: Coord) {
    prefix <= k && Listed(prefix, k).Some? && Listed(prefix, k).value.c == c && Listed(prefix, k).value.file != MANIFEST
  }

  predicate Accounted(prefix: string, w: World, k: string) {
    match Listed(prefix, k)
    case None => true
    case Some(e) => if e.file == MANIFEST then e.c in w.done else e.c in w.started
  }

  lemma ChunkKeyListed(prefix: string, c: Coord, idx: nat)
    requires Proper(c)
    ensures IsChunkKey(prefix, Key(prefix, ChunkParts(c, idx)), c)
  {
    hide EntryOf, Key, ChunkName;
    KeyListed(prefix, c, ChunkName(idx));
    UnderPrefix(prefix, ChunkParts(c, idx));
    ChunkNames(idx, idx);
  }

  lemma ManifestKeyListed(prefix: string, c: Coord)
    requires Proper(c)
    ensures Listed(prefix, ManifestKey(prefix, c)) == Some(Entry(c, MANIFEST))
  {
    hide EntryOf, Key;
    KeyListed(prefix, c, MANIFEST);
  }

  // Putting an object under key k disturbs no manifest but the one k names.
  lemma PutKeepsManifests(prefix: string, k: string, c: Coord)
    requires Proper(c) && Listed(prefix, k) != Some(Entry(c, MANIFEST))
    ensures k != ManifestKey(prefix, c)
  {
    hide Listed, ManifestKey;
    ManifestKeyListed(prefix, c);
  }

  lemma BuiltStep(json: Json, prefix: string, remote: int, w: World, a: Act)
    requires Built(json, prefix, w) && Allowed(w, a)
    ensures Built(json, prefix, Next(json, prefix, remote, w, a))
  {
    hide Listed, ManifestKey, Key, Proper, ChunkParts, MarkerParts, TopologyParts;
    forall parts ensures prefix <= Key(prefix, parts) { UnderPrefix(prefix, parts); }
    assert forall c :: prefix <= ManifestKey(prefix, c) by { ManifestsUnderPrefix(prefix); }
    match a
    case PutChunk(c, idx, body) =>
      ChunkKeyListed(prefix, c, idx);
      PutObject(json, prefix, w, Key(prefix, ChunkParts(c, idx)), body, w.started + {c}, w.done);
    case PutManifest(c, d) =>
      ManifestKeyListed(prefix, c);
      PutObject(json, prefix, w, ManifestKey(prefix, c), json.enc(d), w.started, w.done[c := d]);
    case CacheRow(c) =>
    case PutMarker(system, text) =>
      SkippedMarker(prefix, system);
      PutObject(json, prefix, w, Key(prefix, MarkerParts(system)), text, w.started, w.done);
    case PutTopology(system, serial, text) =>
      SkippedTopology(prefix, system, serial);
      PutObject(json, prefix, w, Key(prefix, TopologyParts(system, serial)), text, w.started, w.done);
  }

  lemma ManifestsUnderPrefix(prefix: string)
    ensures forall c :: prefix <= ManifestKey(prefix, c)
  {
  }

  lemma SkippedMarker(prefix: string, system: string)
    requires Segment(system)
    ensures Listed(prefix, Key(prefix, MarkerParts(system))) == None
  {
    hide EntryOf, Key;
    MarkerSkipped(prefix, system);
  }

  lemma SkippedTopology(prefix: string, system: string, serial: string)
    requires Segment(system) && Segment(serial)
    ensures Listed(prefix, Key(prefix, TopologyParts(system, serial))) == None
  {
    hide EntryOf, Key;
    TopologySkipped(prefix, system, serial);
  }

  lemma PutObject(json: Json, prefix: string, w: World, k: string, body: string, started: set<Coord>,
                  done: map<Coord, Doc>)
    requires Built(json, prefix, w) && prefix <= k
    requires match Listed(prefix, k)
             case None => started == w.started && done == w.done
             case Some(e) =>
               if e.file == MANIFEST then
                 && started == w.started && Proper(e.c) && k == ManifestKey(prefix, e.c)
                 && exists d :: done == w.done[e.c := d] && body == json.enc(d) && Finished(d, e.c)
               else done == w.done && started == w.started + {e.c} && Proper(e.c)
    ensures Built(json, prefix, w.(bucket := w.bucket[k := body], started := started, done := done))
  {
    hide Listed, ManifestKey, Proper;
    var w2 := w.(bucket := w.bucket[k := body], started := started, done := done);
    forall c | c in w2.done
      ensures Fits(w2.done[c], c) && w2.done[c].version == MANIFEST_VERSION && w2.done[c].chunks > 0
      ensures ManifestKey(prefix, c) in w2.bucket && w2.bucket[ManifestKey(prefix, c)] == json.enc(w2.done[c])
    {
      if Listed(prefix, k) != Some(Entry(c, MANIFEST)) {
        PutKeepsManifests(prefix, k, c);
      }
    }
    forall c | c in w2.started ensures exists q :: q in w2.bucket && IsChunkKey(prefix, q, c) {
      if c in w.started {
        var q :| q in w.bucket && IsChunkKey(prefix, q, c);
        assert q in w2.bucket;
      } else {
        assert k in w2.bucket && IsChunkKey(prefix, k, c);
      }
    }
  }

  ghost predicate IsLife(json: Json, prefix: string, remote: int, ws: seq<World>, acts: seq<Act>) {
    && |ws| == |acts| + 1
    && forall k :: 0 <= k < |acts| ==>
         Allowed(ws[k], acts[k]) && ws[k + 1] == Next(json, prefix, remote, ws[k], acts[k])
  }

  // The rows exports cached are rows of finished generations.
  ghost predicate RowsKnown(w: World, remote: int) {
    forall k :: k in w.rows && k.remote == remote ==> exists c :: c in w.done && KeyOf(remote, c) == k
  }

  lemma RowsKnownStep(json: Json, prefix: string, remote: int, w: World, a: Act)
    requires RowsKnown(w, remote) && Allowed(w, a)
    ensures RowsKnown(Next(json, prefix, remote, w, a), remote)
  {
    hide ManifestKey, Key, RowOf;
    var w2 := Next(json, prefix, remote, w, a);
    forall k | k in w2.rows && k.remote == remote ensures exists c :: c in w2.done && KeyOf(remote, c) == k {
      if k in w.rows {
        var c :| c in w.done && KeyOf(remote, c) == k;
        assert c in w2.done;
      }
    }
  }

  // Over any interleaving of exports cut off anywhere, retries and housekeeping.
  lemma {:induction false} AlwaysBuilt(json: Json, prefix: string, remote: int, ws: seq<World>, acts: seq<Act>, k: nat)
    requires IsLife(json, prefix, remote, ws, acts) && k < |ws|
    requires Built(json, prefix, ws[0]) && RowsKnown(ws[0], remote)
    ensures Built(json, prefix, ws[k]) && RowsKnown(ws[k], remote)
  {
    hide Built, Next, Allowed, RowsKnown;
    if k > 0 {
      AlwaysBuilt(json, prefix, remote, ws, acts, k - 1);
      BuiltStep(json, prefix, remote, ws[k - 1], acts[k - 1]);
      RowsKnownStep(json, prefix, remote, ws[k - 1], acts[k - 1]);
    }
  }

  // --------------------------------------------------------- the rebuild tells the truth ----

  // A recursive listing of everything under the prefix.
  ghost predicate ListingOf(bucket: map<string, string>, prefix: string, keys: seq<string>) {
    forall k :: k in keys <==> k in bucket && prefix <= k
  }

  lemma ListedIsAccounted(json: Json, prefix: string, w: World, keys: seq<string>, c: Coord)
    requires Built(json, prefix, w) && ListingOf(w.bucket, prefix, keys)
    ensures ListsFile(prefix, keys, c, MANIFEST) ==> c in w.done
    ensures Lists(prefix, keys, c) ==> c in w.done || c in w.started
  {
    hide Proper, Listed, ManifestKey, Fits;
    if i :| 0 <= i < |keys| && Listed(prefix, keys[i]) == Some(Entry(c, MANIFEST)) {
      assert keys[i] in keys && Accounted(prefix, w, keys[i]);
    }
    if i :| 0 <= i < |keys| && Listed(prefix, keys[i]).Some? && Listed(prefix, keys[i]).value.c == c {
      assert keys[i] in keys && Accounted(prefix, w, keys[i]);
    }
  }

  lemma DoneListed(json: Json, prefix: string, w: World, keys: seq<string>, c: Coord)
    requires Built(json, prefix, w) && ListingOf(w.bucket, prefix, keys) && c in w.done
    ensures ListsFile(prefix, keys, c, MANIFEST)
  {
    hide Proper, Listed, ManifestKey, Fits;
    ManifestKeyListed(prefix, c);
    ManifestsUnderPrefix(prefix);
    var i :| 0 <= i < |keys| && keys[i] == ManifestKey(prefix, c);
    assert Listed(prefix, keys[i]) == Some(Entry(c, MANIFEST));
  }

  lemma ListedWorld(json: Json, prefix: string, w: World, keys: seq<string>, c: Coord)
    requires Built(json, prefix, w) && ListingOf(w.bucket, prefix, keys)
    ensures ListsFile(prefix, keys, c, MANIFEST) <==> c in w.done
    ensures Lists(prefix, keys, c) && !ListsFile(prefix, keys, c, MANIFEST) <==> c in w.started && c !in w.done
  {
    hide Built, ListingOf, Lists, ListsFile;
    ListedIsAccounted(json, prefix, w, keys, c);
    if c in w.done { DoneListed(json, prefix, w, keys, c); }
    if c in w.started { StartedListed(json, prefix, w, keys, c); }
  }

  lemma UnderPrefix(prefix: string, parts: seq<string>)
    ensures prefix <= Key(prefix, parts)
  {
  }

  lemma StartedListed(json: Json, prefix: string, w: World, keys: seq<string>, c: Coord)
    requires Built(json, prefix, w) && ListingOf(w.bucket, prefix, keys) && c in w.started
    ensures Lists(prefix, keys, c)
  {
    hide Proper, Listed;
    var k :| k in w.bucket && IsChunkKey(prefix, k, c);
    var i :| 0 <= i < |keys| && keys[i] == k;
    assert Listed(prefix, keys[i]).value.c == c;
  }

  lemma DoneCached(json: Json, prefix: string, w: World, c: Coord)
    requires Lawful(json) && Built(json, prefix, w) && c in w.done
    ensures Cached(json, w.bucket, prefix, c) == Some(RowOf(w.done[c], json.enc(w.done[c])))
  {
    hide ManifestKey;
  }

  // No two finished generations differ in their library alone.
  ghost predicate KeysApart(done: map<Coord, Doc>, remote: int) {
    forall c, o :: c in done && o in done && KeyOf(remote, c) == KeyOf(remote, o) ==> c == o
  }

  ghost predicate Truthful(json: Json, w: World, remote: int, rows: map<PK, Row>) {
    forall c :: c in w.done ==>
      KeyOf(remote, c) in rows && rows[KeyOf(remote, c)] == RowOf(w.done[c], json.enc(w.done[c]))
  }

  // A rebuild that fetched every manifest: a row for exactly the finished generations,
  // the manifest-less ones reported, no errors. Each finished generation has its own
  // row exactly when none shares system, label and generation with another library's.
  lemma RebuildAgrees(json: Json, prefix: string, remote: int, w: World, keys: seq<string>, rows: map<PK, Row>,
                      r: Report)
    requires Lawful(json) && Built(json, prefix, w) && ListingOf(w.bucket, prefix, keys)
    requires Rebuilt(json, w.bucket, prefix, keys, remote, rows, r, {}) && Tallied(json, w.bucket, prefix, keys, r, {})
    ensures r.complete == |w.done|
    ensures forall k :: k in rows && k.remote == remote <==> exists c :: c in w.done && KeyOf(remote, c) == k
    ensures Truthful(json, w, remote, rows) <==> KeysApart(w.done, remote)
    ensures forall c :: (c in r.incomplete <==> c in w.started && c !in w.done) && c !in r.errors
    ensures KeysApart(w.done, remote) ==> forall c :: c in w.done ==>
              && KeyOf(remote, c) in rows
              && var row, d := rows[KeyOf(remote, c)], w.done[c];
                 && row.library == c.library && json.dec(row.raw) == Some(d) && row.logical == d.logical
                 && row.stored == d.stored && row.count == d.count && row.exportedAt == d.exportedAt
  {
    hide Cached, Lists, ListsFile, Built, ListingOf, Lawful, RowOf;
    forall c ensures (ListsFile(prefix, keys, c, MANIFEST) <==> c in w.done)
      && (Lists(prefix, keys, c) && !ListsFile(prefix, keys, c, MANIFEST) <==> c in w.started && c !in w.done)
    {
      ListedWorld(json, prefix, w, keys, c);
    }
    forall c | c in w.done ensures Cached(json, w.bucket, prefix, c) == Some(RowOf(w.done[c], json.enc(w.done[c]))) {
      DoneCached(json, prefix, w, c);
    }
    var cached :| AreWhole(json, w.bucket, prefix, keys, {}, cached) && |cached| == r.complete;
    assert cached == w.done.Keys;
    DocsFit(json, prefix, w);
    RowsAre(json, w, remote, prefix, keys, rows);
    if KeysApart(w.done, remote) { RowsTell(json, w, remote, rows); }
  }

  // Two exports of one label under one generation, from libraries with other serials:
  // the exports' own bucket, and fewer rows than generations whatever the rebuild.
  lemma SharedKey(json: Json, prefix: string, remote: int, d: Doc)
    requires Lawful(json) && d.version == MANIFEST_VERSION && d.chunks > 0
    ensures var c, o := Coord("s", "l1", "A", "g"), Coord("s", "l2", "A", "g");
            var empty := World(map[], {}, map[], map[]);
            var acts := [PutManifest(c, d.(cart := "A", gen := "g", system := "s", library := "l1")),
                         PutManifest(o, d.(cart := "A", gen := "g", system := "s", library := "l2"))];
            exists ws: seq<World> ::
              && IsLife(json, prefix, remote, ws, acts) && ws[0] == empty && Built(json, prefix, ws[2])
              && |ws[2].done| == 2 && !KeysApart(ws[2].done, remote)
  {
    hide ManifestKey, Built;
    var c, o := Coord("s", "l1", "A", "g"), Coord("s", "l2", "A", "g");
    var w0 := World(map[], {}, map[], map[]);
    var a := PutManifest(c, d.(cart := "A", gen := "g", system := "s", library := "l1"));
    var b := PutManifest(o, d.(cart := "A", gen := "g", system := "s", library := "l2"));
    NothingBuilt(json, prefix);
    var w1 := Next(json, prefix, remote, w0, a);
    BuiltStep(json, prefix, remote, w0, a);
    var w2 := Next(json, prefix, remote, w1, b);
    BuiltStep(json, prefix, remote, w1, b);
    var ws := [w0, w1, w2];
    assert c.library[1] != o.library[1];
    assert c in w2.done && o in w2.done && KeyOf(remote, c) == KeyOf(remote, o) && c != o;
    assert w2.done.Keys == {c, o} && |w2.done| == |w2.done.Keys| == 2;
    assert IsLife(json, prefix, remote, ws, [a, b]);
  }

  lemma NothingBuilt(json: Json, prefix: string)
    ensures Built(json, prefix, World(map[], {}, map[], map[]))
  {
  }

  lemma RowsTell(json: Json, w: World, remote: int, rows: map<PK, Row>)
    requires Lawful(json) && Truthful(json, w, remote, rows) && forall c :: c in w.done ==>
              w.done[c].library == c.library
    ensures forall c :: c in w.done ==>
              && KeyOf(remote, c) in rows
              && var row, d := rows[KeyOf(remote, c)], w.done[c];
                 && row.library == c.library && json.dec(row.raw) == Some(d) && row.logical == d.logical
                 && row.stored == d.stored && row.count == d.count && row.exportedAt == d.exportedAt
  {
  }

  lemma DocsFit(json: Json, prefix: string, w: World)
    requires Built(json, prefix, w)
    ensures forall c :: c in w.done ==> w.done[c].library == c.library
  {
    hide Proper, ManifestKey, Listed;
  }

  lemma RowsAre(json: Json, w: World, remote: int, prefix: string, keys: seq<string>, rows: map<PK, Row>)
    requires Sourced(json, w.bucket, prefix, keys, remote, rows)
    requires forall c :: c in w.done ==>
              && KeyOf(remote, c) in rows
              && Cached(json, w.bucket, prefix, c) == Some(RowOf(w.done[c], json.enc(w.done[c])))
    requires forall c :: ListsFile(prefix, keys, c, MANIFEST) ==> c in w.done
    requires forall c :: c in w.done ==> w.done[c].library == c.library
    ensures Truthful(json, w, remote, rows) <==> KeysApart(w.done, remote)
  {
    hide Cached, ListsFile;
  }

  // When every finished generation's manifest was cached by its export, the rebuilt
  // cache is the one already there.
  lemma RebuildRestoresCache(json: Json, prefix: string, remote: int, w: World, keys: seq<string>, rows: map<PK, Row>,
                             r: Report)
    requires Lawful(json) && Built(json, prefix, w) && RowsKnown(w, remote) && ListingOf(w.bucket, prefix, keys)
    requires KeysApart(w.done, remote) && Truthful(json, w, remote, w.rows)
    requires Rebuilt(json, w.bucket, prefix, keys, remote, rows, r, {}) && Tallied(json, w.bucket, prefix, keys, r, {})
    ensures forall k: PK :: k.remote == remote ==> (k in rows <==> k in w.rows) && (k in rows ==> rows[k] == w.rows[k])
  {
    hide Built, Lawful, ListingOf, Rebuilt, Tallied, RowOf;
    RebuildAgrees(json, prefix, remote, w, keys, rows, r);
    forall k: PK | k.remote == remote ensures (k in rows <==> k in w.rows) && (k in rows ==> rows[k] == w.rows[k]) {
      if k in rows {
        var c :| c in w.done && KeyOf(remote, c) == k;
      }
    }
  }
}
