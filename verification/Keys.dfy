// Object keys: how the coordinates of a generation are printed into one, and what
// the bucket listing reads back.
module Keys {
  import opened Options
  import opened Text

  datatype Coord = Coord(system: string, library: string, cart: string, gen: string)

  predicate Segment(s: string) {
    s != "" && '/' !in s
  }

  predicate Proper(c: Coord) {
    Segment(c.system) && Segment(c.library) && Segment(c.cart) && Segment(c.gen)
  }

  // strings.Join(parts, "/")
  function Slashed(parts: seq<string>): string {
    if parts == [] then "" else if |parts| == 1 then parts[0] else parts[0] + "/" + Slashed(parts[1..])
  }

  function Key(prefix: string, parts: seq<string>): string {
    prefix + Slashed(parts)
  }

  const MANIFEST := "manifest.json"

  function ManifestParts(c: Coord): seq<string> {
    [c.system, c.library, c.cart, c.gen, MANIFEST]
  }

  // %05d
  function Pad5(n: nat): (s: string)
    ensures Digits(s) && |s| >= 5 && (|Decimal(n)| >= 5 ==> s == Decimal(n))
  {
    Zeros(5 - |Decimal(n)|) + Decimal(n)
  }

  function Zeros(k: int): (s: string)
    ensures Digits(s) && |s| == (if k > 0 then k else 0)
  {
    if k <= 0 then "" else "0" + Zeros(k - 1)
  }

  function ChunkName(idx: nat): string {
    "chunk-" + Pad5(idx) + ".tar.zst"
  }

  function ChunkParts(c: Coord, idx: nat): seq<string> {
    [c.system, c.library, c.cart, c.gen, ChunkName(idx)]
  }

  function MarkerParts(system: string): seq<string> {
    [system, ".openvtl-system.json"]
  }

  function TopologyParts(system: string, serial: string): seq<string> {
    [system, serial, "topology.json"]
  }

  // ------------------------------------------------------------------------- reading ----

  function Slash(s: string): (p: nat)
    ensures p <= |s| && (forall i :: 0 <= i < p ==> s[i] != '/') && (p < |s| ==> s[p] == '/')
  {
    if s == "" || s[0] == '/' then 0 else 1 + Slash(s[1..])
  }

  // strings.SplitN(s, "/", n)
  function SplitN(s: string, n: nat): (r: seq<string>)
    requires n > 0
    ensures 0 < |r| <= n
  {
    if n == 1 || Slash(s) == |s| then [s] else [s[..Slash(s)]] + SplitN(s[Slash(s) + 1..], n - 1)
  }

  // strings.TrimPrefix
  function TrimPrefix(key: string, prefix: string): string {
    if prefix <= key then key[|prefix|..] else key
  }

  datatype Entry = Entry(c: Coord, file: string)

  // One listed key as ListGenerations takes it apart; None when it is skipped.
  function EntryOf(rel: string): (r: Option<Entry>)
    ensures r.Some? ==> r.value.c.system != "" && r.value.c.library != "" && r.value.c.cart != "" && r.value.c.gen != ""
  {
    var parts := SplitN(rel, 5);
    if |parts| < 5 || parts[0] == "" || parts[1] == "" || parts[2] == "" || parts[3] == "" then None
    else Some(Entry(Coord(parts[0], parts[1], parts[2], parts[3]), parts[4]))
  }

  // normPrefix: slashes trimmed from both ends, one put back.
  function TrimLeft(p: string): string {
    if p != "" && p[0] == '/' then TrimLeft(p[1..]) else p
  }

  function TrimEnd(p: string): string {
    if p != "" && p[|p| - 1] == '/' then TrimEnd(p[..|p| - 1]) else p
  }

  function NormPrefix(p: string): string {
    var t := TrimEnd(TrimLeft(p));
    if t == "" then "" else t + "/"
  }

  // Normalising twice changes nothing, and never leaves an empty first segment.
  lemma NormPrefixStable(p: string)
    ensures NormPrefix(NormPrefix(p)) == NormPrefix(p)
    ensures NormPrefix(p) != "" ==> NormPrefix(p)[0] != '/' && |NormPrefix(p)| >= 2
  {
    LeftClean(p);
    EndClean(TrimLeft(p));
    var t := TrimEnd(TrimLeft(p));
    if t != "" {
      assert t[0] == TrimLeft(p)[0];
      assert (t + "/")[..|t|] == t;
      assert TrimLeft(t + "/") == t + "/";
      assert TrimEnd(t + "/") == TrimEnd(t) == t;
    }
  }

  predicate Slashes(s: string) {
    forall i :: 0 <= i < |s| ==> s[i] == '/'
  }

  lemma {:induction false} TrimLeftIs(p: string) returns (a: string)
    ensures p == a + TrimLeft(p) && Slashes(a)
  {
    a := "";
    if p != "" && p[0] == '/' {
      var more := TrimLeftIs(p[1..]);
      assert p == ['/'] + p[1..];
      a := ['/'] + more;
    }
  }

  lemma {:induction false} TrimEndIs(p: string) returns (b: string)
    ensures p == TrimEnd(p) + b && Slashes(b)
  {
    b := "";
    if p != "" && p[|p| - 1] == '/' {
      var more := TrimEndIs(p[..|p| - 1]);
      assert p == p[..|p| - 1] + ['/'];
      b := more + ['/'];
    }
  }

  // What the trimming takes off is slashes, all there are at either end.
  lemma NormPrefixIs(p: string)
    ensures exists a, t, b :: p == a + (t + b) && Slashes(a) && Slashes(b)
              && (t != "" ==> t[0] != '/' && t[|t| - 1] != '/')
              && NormPrefix(p) == if t == "" then "" else t + "/"
  {
    hide TrimLeft, TrimEnd;
    var a := TrimLeftIs(p);
    var b := TrimEndIs(TrimLeft(p));
    LeftClean(p);
    EndClean(TrimLeft(p));
    var t := TrimEnd(TrimLeft(p));
    assert t != "" ==> t[0] == TrimLeft(p)[0];
    assert p == a + (t + b);
  }

  lemma {:induction false} LeftClean(p: string)
    ensures TrimLeft(p) != "" ==> TrimLeft(p)[0] != '/'
  {
    if p != "" && p[0] == '/' { LeftClean(p[1..]); }
  }

  lemma {:induction false} EndClean(p: string)
    ensures TrimEnd(p) <= p && (TrimEnd(p) != "" ==> TrimEnd(p)[|TrimEnd(p)| - 1] != '/')
  {
    if p != "" && p[|p| - 1] == '/' { EndClean(p[..|p| - 1]); }
  }

  // ---------------------------------------------------------------------- round trips ----

  lemma {:induction false} SlashAt(seg: string, rest: string)
    requires '/' !in seg
    ensures Slash(seg + "/" + rest) == |seg|
  {
    var s := seg + "/" + rest;
    assert s[|seg|] == '/';
    assert forall i :: 0 <= i < |seg| ==> s[i] == seg[i];
  }

  lemma SplitStep(seg: string, rest: string, n: nat)
    requires '/' !in seg && n > 1
    ensures SplitN(seg + "/" + rest, n) == [seg] + SplitN(rest, n - 1)
  {
    var s := seg + "/" + rest;
    SlashAt(seg, rest);
    assert s[..|seg|] == seg && s[|seg| + 1..] == rest;
  }

  // Five parts, the first four proper segments: read back as printed.
  lemma EntryPrinted(c: Coord, file: string)
    requires Proper(c)
    ensures EntryOf(Slashed([c.system, c.library, c.cart, c.gen, file])) == Some(Entry(c, file))
  {
    hide SplitN;
    var s4 := c.gen + "/" + file;
    var s3 := c.cart + "/" + s4;
    var s2 := c.library + "/" + s3;
    var s1 := c.system + "/" + s2;
    SlashedFive(c.system, c.library, c.cart, c.gen, file);
    SplitStep(c.system, s2, 5);
    SplitStep(c.library, s3, 4);
    SplitStep(c.cart, s4, 3);
    SplitStep(c.gen, file, 2);
    SplitOne(file);
    assert SplitN(s1, 5) == [c.system, c.library, c.cart, c.gen, file];
  }

  lemma SplitOne(s: string)
    ensures SplitN(s, 1) == [s]
  {
  }

  lemma SlashedFive(a: string, b: string, c: string, d: string, e: string)
    ensures Slashed([a, b, c, d, e]) == a + "/" + (b + "/" + (c + "/" + (d + "/" + e)))
  {
    hide Slashed;
    SlashedOne(e);
    SlashedCons(d, [e]);
    SlashedCons(c, [d, e]);
    SlashedCons(b, [c, d, e]);
    SlashedCons(a, [b, c, d, e]);
    assert [a] + ([b] + ([c] + ([d] + [e]))) == [a, b, c, d, e];
    assert [b] + [c, d, e] == [b, c, d, e] && [c] + [d, e] == [c, d, e] && [d] + [e] == [d, e];
  }

  lemma SlashedOne(x: string)
    ensures Slashed([x]) == x
  {
  }

  lemma SlashedCons(x: string, rest: seq<string>)
    requires rest != []
    ensures Slashed([x] + rest) == x + "/" + Slashed(rest)
  {
    assert ([x] + rest)[1..] == rest;
  }

  // The keys written out.
  lemma KeysAre(prefix: string, c: Coord, idx: nat)
    ensures Key(prefix, ManifestParts(c)) ==
            prefix + (c.system + "/" + (c.library + "/" + (c.cart + "/" + (c.gen + "/" + "manifest.json"))))
    ensures Key(prefix, ChunkParts(c, idx)) ==
            prefix + (c.system + "/" + (c.library + "/" + (c.cart + "/"
                      + (c.gen + "/" + ("chunk-" + Pad5(idx) + ".tar.zst")))))
    ensures Key(prefix, MarkerParts(c.system)) == prefix + (c.system + "/" + ".openvtl-system.json")
    ensures Key(prefix, TopologyParts(c.system, c.library)) ==
            prefix + (c.system + "/" + (c.library + "/" + "topology.json"))
  {
    hide Slashed, Pad5;
    SlashedFive(c.system, c.library, c.cart, c.gen, MANIFEST);
    SlashedFive(c.system, c.library, c.cart, c.gen, ChunkName(idx));
    SlashedTwo(c.system, ".openvtl-system.json");
    SlashedThree(c.system, c.library, "topology.json");
  }

  lemma SlashedTwo(a: string, b: string)
    ensures Slashed([a, b]) == a + "/" + b
  {
    hide Slashed;
    SlashedOne(b);
    SlashedCons(a, [b]);
    assert [a] + [b] == [a, b];
  }

  lemma SlashedThree(a: string, b: string, c: string)
    ensures Slashed([a, b, c]) == a + "/" + (b + "/" + c)
  {
    hide Slashed;
    SlashedTwo(b, c);
    SlashedCons(a, [b, c]);
    assert [a] + [b, c] == [a, b, c];
  }

  // A listed key is an entry exactly when it is four proper segments and a rest.
  lemma EntryIs(rel: string, c: Coord, file: string)
    ensures EntryOf(rel) == Some(Entry(c, file)) <==>
            && rel == c.system + "/" + (c.library + "/" + (c.cart + "/" + (c.gen + "/" + file)))
            && c.system != "" && c.library != "" && c.cart != "" && c.gen != ""
            && '/' !in c.system && '/' !in c.library && '/' !in c.cart && '/' !in c.gen
  {
    hide SplitN, Slashed;
    if EntryOf(rel) == Some(Entry(c, file)) {
      FiveParts(rel);
    }
    if Proper(c) && rel == c.system + "/" + (c.library + "/" + (c.cart + "/" + (c.gen + "/" + file))) {
      SlashedFive(c.system, c.library, c.cart, c.gen, file);
      EntryPrinted(c, file);
    }
  }

  // One cut: the part in front of the first slash, and what is behind it.
  lemma CutOnce(s: string, n: nat) returns (rest: string)
    requires n > 1 && |SplitN(s, n)| > 1
    ensures var p := SplitN(s, n)[0];
            '/' !in p && s == p + "/" + rest && SplitN(s, n) == [p] + SplitN(rest, n - 1)
  {
    rest := s[Slash(s) + 1..];
  }

  lemma FiveParts(rel: string)
    requires |SplitN(rel, 5)| == 5
    ensures var p := SplitN(rel, 5);
            && rel == p[0] + "/" + (p[1] + "/" + (p[2] + "/" + (p[3] + "/" + p[4])))
            && forall i :: 0 <= i < 4 ==> '/' !in p[i]
  {
    hide SplitN;
    var p := SplitN(rel, 5);
    var r1 := CutOnce(rel, 5);
    assert SplitN(r1, 4) == p[1..];
    var r2 := CutOnce(r1, 4);
    assert SplitN(r2, 3) == p[2..];
    var r3 := CutOnce(r2, 3);
    assert SplitN(r3, 2) == p[3..];
    var r4 := CutOnce(r3, 2);
    assert SplitN(r4, 1) == p[4..];
    SplitOne(r4);
  }

  // Under its remote's prefix, a key with proper coordinates lists as those
  // coordinates and that file.
  lemma KeyListed(prefix: string, c: Coord, file: string)
    requires Proper(c)
    ensures EntryOf(TrimPrefix(Key(prefix, [c.system, c.library, c.cart, c.gen, file]), prefix)) == Some(Entry(c, file))
  {
    hide EntryOf, Slashed;
    EntryPrinted(c, file);
    var rel := Slashed([c.system, c.library, c.cart, c.gen, file]);
    assert prefix <= prefix + rel && (prefix + rel)[|prefix|..] == rel;
  }

  // No two generations share a manifest key, no two chunks a chunk key, and no chunk
  // key is a manifest key.
  lemma KeysInjective(prefix: string, c1: Coord, c2: Coord, i: nat, j: nat)
    requires Proper(c1) && Proper(c2)
    ensures Key(prefix, ManifestParts(c1)) == Key(prefix, ManifestParts(c2)) <==> c1 == c2
    ensures Key(prefix, ChunkParts(c1, i)) == Key(prefix, ChunkParts(c2, j)) <==> c1 == c2 && i == j
    ensures Key(prefix, ChunkParts(c1, i)) != Key(prefix, ManifestParts(c2))
  {
    hide EntryOf, Key, ChunkName, Proper;
    KeyListed(prefix, c1, MANIFEST);
    KeyListed(prefix, c2, MANIFEST);
    KeyListed(prefix, c1, ChunkName(i));
    KeyListed(prefix, c2, ChunkName(j));
    ChunkNames(i, j);
  }

  lemma {:induction false} ZerosNumber(k: int, d: string)
    requires Digits(d)
    ensures Number(Zeros(k) + d) == Number(d)
    decreases if k > 0 then k else 0, |d|
  {
    hide Zeros;
    if k <= 0 {
      assert Zeros(k) + d == d;
    } else if d == "" {
      ZerosNumber(k - 1, "");
      assert Zeros(k) + "" == Zeros(k) && Zeros(k - 1) + "" == Zeros(k - 1);
      ZerosEnd(k);
      NumberSnoc(Zeros(k - 1), '0');
    } else {
      var init, c := d[..|d| - 1], d[|d| - 1];
      ZerosNumber(k, init);
      assert d == init + [c] && Zeros(k) + d == (Zeros(k) + init) + [c];
      NumberSnoc(Zeros(k) + init, c);
      NumberSnoc(init, c);
    }
  }

  lemma NumberSnoc(s: string, c: char)
    requires Digits(s) && IsDigit(c)
    ensures Digits(s + [c]) && Number(s + [c]) == Number(s) * 10 + (c as int - '0' as int)
  {
    assert (s + [c])[..|s|] == s;
  }

  lemma {:induction false} ZerosEnd(k: int)
    requires k > 0
    ensures Zeros(k) == Zeros(k - 1) + "0"
  {
    if k == 1 {
      assert Zeros(1) == "0";
    } else {
      ZerosEnd(k - 1);
      assert "0" + (Zeros(k - 2) + "0") == ("0" + Zeros(k - 2)) + "0";
    }
  }

  lemma ChunkNames(i: nat, j: nat)
    ensures ChunkName(i) == ChunkName(j) <==> i == j
    ensures ChunkName(i) != MANIFEST
  {
    hide Decimal, Number;
    ZerosNumber(5 - |Decimal(i)|, Decimal(i));
    ZerosNumber(5 - |Decimal(j)|, Decimal(j));
    NumberDecimal(i);
    NumberDecimal(j);
    assert ChunkName(i)[6..|ChunkName(i)| - 8] == Pad5(i);
    assert ChunkName(j)[6..|ChunkName(j)| - 8] == Pad5(j);
    assert ChunkName(i)[0] == 'c' && MANIFEST[0] == 'm';
  }

  // A chunk's name gives back its number, in five digits while they suffice.
  lemma ChunkNameReads(n: nat)
    ensures var name := ChunkName(n);
            && |name| >= 19 && "chunk-" == name[..6] && name[|name| - 8..] == ".tar.zst"
            && var digits := name[6..|name| - 8];
               Digits(digits) && Number(digits) == n && (n < 100000 <==> |digits| == 5)
  {
    hide Number;
    ZerosNumber(5 - |Decimal(n)|, Decimal(n));
    NumberDecimal(n);
    Width(n, 5);
    var name := ChunkName(n);
    assert name[6..|name| - 8] == Pad5(n) && name[..6] == "chunk-" && name[|name| - 8..] == ".tar.zst";
  }

  function Power(k: nat): nat {
    if k == 0 then 1 else 10 * Power(k - 1)
  }

  lemma {:induction false} Width(n: nat, k: nat)
    requires k > 0
    ensures |Decimal(n)| <= k <==> n < Power(k)
  {
    assert Power(k) == 10 * Power(k - 1);
    if n >= 10 {
      assert Decimal(n) == Decimal(n / 10) + [DigitOf(n % 10)];
      if k > 1 {
        Width(n / 10, k - 1);
      } else {
        assert |Decimal(n / 10)| >= 1 && Power(0) == 1;
      }
    } else {
      PowerPositive(k - 1);
    }
  }

  lemma {:induction false} PowerPositive(k: nat)
    ensures Power(k) >= 1
  {
    if k > 0 { PowerPositive(k - 1); }
  }

  // System markers and topology objects are skipped.
  lemma MarkerSkipped(prefix: string, system: string)
    requires Segment(system)
    ensures EntryOf(TrimPrefix(Key(prefix, MarkerParts(system)), prefix)) == None
  {
    hide SplitN;
    var tail := ".openvtl-system.json";
    var rel := system + "/" + tail;
    SlashedOne(tail);
    SlashedCons(system, [tail]);
    assert [system] + [tail] == MarkerParts(system);
    assert prefix <= prefix + rel && (prefix + rel)[|prefix|..] == rel;
    SplitStep(system, tail, 5);
    NoSlash(tail, 4) by { assert '/' !in tail; }
  }

  lemma TopologySkipped(prefix: string, system: string, serial: string)
    requires Segment(system) && Segment(serial)
    ensures EntryOf(TrimPrefix(Key(prefix, TopologyParts(system, serial)), prefix)) == None
  {
    hide SplitN;
    var tail := "topology.json";
    var rel := system + "/" + (serial + "/" + tail);
    SlashedOne(tail);
    SlashedCons(serial, [tail]);
    SlashedCons(system, [serial, tail]);
    assert [serial] + [tail] == [serial, tail] && [system] + [serial, tail] == TopologyParts(system, serial);
    assert Slashed(TopologyParts(system, serial)) == rel;
    assert prefix <= prefix + rel && (prefix + rel)[|prefix|..] == rel;
    SplitStep(system, serial + "/" + tail, 5);
    SplitStep(serial, tail, 4);
    NoSlash(tail, 3) by { assert '/' !in tail; }
  }

  lemma NoSlash(s: string, n: nat)
    requires '/' !in s && n > 0
    ensures SplitN(s, n) == [s]
  {
  }
}
