// What the remover and the parser have to do with each other.
module ConfEdits {
  import opened Options
  import opened Text
  import opened ConfLines
  import opened DeviceConf

  predicate Belongs(x: Device, id: nat) {
    match x
    case Lib(l) => l.id == id
    case Drv(d) => d.library == id
  }

  predicate AnyBelongs(devs: seq<Device>, id: nat) {
    exists i :: 0 <= i < |devs| && Belongs(devs[i], id)
  }

  // The devices of every other library.
  function Without(devs: seq<Device>, id: nat): seq<Device> {
    if devs == [] then []
    else (if Belongs(devs[0], id) then [] else [devs[0]]) + Without(devs[1..], id)
  }

  // ------------------------------------------------------------- well-formedness ----

  // Where a reader stands: before any block, in a library block, in a drive block
  // that has or has not named its library yet.
  datatype Place = Preamble | InLibrary | InDrive(named: bool)

  predicate Closed(at: Place) {
    at.InDrive? ==> at.named
  }

  // A device.conf in the shape mhVTL and the library writer produce: no carriage
  // returns, ids without leading zeros, library blocks without a "Library ID"
  // line and drive blocks with exactly one.
  predicate WellFormed(at: Place, lines: seq<string>)
    decreases |lines|
  {
    if lines == [] then Closed(at)
    else
      var line := lines[0];
      && DropCR(line) == line
      && if IsHeader(line) then
           && Closed(at)
           && match Header(LIBRARY, line)
              case Some(d) => Canonical(d) && WellFormed(InLibrary, lines[1..])
              case None => WellFormed(InDrive(false), lines[1..])
         else
           match LibraryRef(line)
           case None => WellFormed(at, lines[1..])
           case Some(p) =>
             match at
             case Preamble => WellFormed(at, lines[1..])
             case InLibrary => false
             case InDrive(named) => !named && Canonical(p.key) && WellFormed(InDrive(true), lines[1..])
  }

  predicate AllPlain(lines: seq<string>) {
    forall i :: 0 <= i < |lines| ==> DropCR(lines[i]) == lines[i]
  }

  // One block: a header and its field lines.
  predicate Block(buf: seq<string>) {
    && buf != [] && IsHeader(buf[0]) && AllPlain(buf)
    && forall i :: 1 <= i < |buf| ==> !IsHeader(buf[i])
  }

  function Fields(cur: Device, body: seq<string>): Device {
    if body == [] then cur else Apply(Fields(cur, body[..|body| - 1]), body[|body| - 1])
  }

  function ParseBlock(buf: seq<string>): Device
    requires Block(buf)
  {
    Fields(NewDevice(buf[0]), buf[1..])
  }

  predicate StartsBlock(lines: seq<string>) {
    lines == [] || (DropCR(lines[0]) == lines[0] && IsHeader(lines[0]))
  }

  // -------------------------------------------------------------- block scanning ----

  lemma {:induction false} ScanBody(cur: Device, body: seq<string>, k: nat, tail: seq<string>)
    requires k <= |body| && AllPlain(body) && (forall i :: 0 <= i < |body| ==> !IsHeader(body[i]))
    requires StartsBlock(tail)
    ensures Scan(Some(Fields(cur, body[..k])), body[k..] + tail) == [Fields(cur, body)] + Scan(None, tail)
    decreases |body| - k
  {
    hide Apply, IsHeader;
    if k == |body| {
      assert body[..k] == body && body[k..] + tail == tail;
    } else {
      var line := body[k];
      assert (body[k..] + tail)[0] == line && (body[k..] + tail)[1..] == body[k + 1..] + tail;
      assert body[..k + 1][..k] == body[..k];
      ScanBody(cur, body, k + 1, tail);
    }
  }

  // A block followed by the start of another parses to its device, then the rest.
  lemma ScanBlock(buf: seq<string>, tail: seq<string>)
    requires Block(buf) && StartsBlock(tail)
    ensures Scan(None, buf + tail) == [ParseBlock(buf)] + Scan(None, tail)
  {
    hide IsHeader, NewDevice, Fields;
    assert (buf + tail)[0] == buf[0] && (buf + tail)[1..] == buf[1..] + tail;
    var body := buf[1..];
    assert AllPlain(body);
    ScanBody(NewDevice(buf[0]), body, 0, tail);
    FieldsNone(NewDevice(buf[0]), body);
    assert body[0..] == body;
  }

  lemma FieldsNone(cur: Device, body: seq<string>)
    ensures Fields(cur, body[..0]) == cur
  {
  }

  lemma {:induction false} ScanSplits(cur: Option<Device>, a: seq<string>, b: seq<string>)
    requires StartsBlock(b)
    ensures Scan(cur, a + b) == Scan(cur, a) + Scan(None, b)
    decreases |a|
  {
    hide IsHeader, Apply, NewDevice;
    if a == [] {
      assert a + b == b;
    } else {
      assert (a + b)[1..] == a[1..] + b;
      var line := DropCR(a[0]);
      if IsHeader(line) {
        ScanSplits(Some(NewDevice(line)), a[1..], b);
      } else {
        ScanSplits(if cur.Some? then Some(Apply(cur.value, line)) else None, a[1..], b);
      }
    }
  }

  // ----------------------------------------------------------- remove then parse ----

  lemma {:induction false} RestStarts(buf: seq<string>, drop: bool, lines: seq<string>, id: string)
    requires Block(buf) && AllPlain(lines)
    ensures StartsBlock(Rest(buf, drop, lines, id))
    decreases |lines|
  {
    hide IsHeader, Refers, HeaderDrops;
    if lines != [] {
      assert AllPlain(lines[1..]);
      if IsHeader(lines[0]) {
        RestStarts([lines[0]], HeaderDrops(lines[0], id), lines[1..], id);
      } else {
        RestStarts(buf + [lines[0]], drop || Refers(lines[0], id), lines[1..], id);
      }
    }
  }

  lemma {:induction false} WellFormedPlain(at: Place, lines: seq<string>)
    requires WellFormed(at, lines)
    ensures AllPlain(lines)
    decreases |lines|
  {
    hide IsHeader, LibraryRef, Canonical, Header;
    if lines != [] {
      var next: Place :| WellFormed(next, lines[1..]);
      WellFormedPlain(next, lines[1..]);
    }
  }

  // The remover's verdict on a block and the parser's reading of it agree so far.
  predicate InStep(at: Place, cur: Device, drop: bool, id: nat) {
    match at
    case Preamble => false
    case InLibrary => cur.Lib? && drop == (cur.l.id == id)
    case InDrive(named) => cur.Drv? && (if named then drop == (cur.d.library == id) else !drop)
  }

  lemma ApplyReads(cur: Device, line: string)
    ensures cur.Lib? ==> Apply(cur, line).Lib? && Apply(cur, line).l.id == cur.l.id
    ensures cur.Drv? ==> Apply(cur, line).Drv?
    ensures cur.Drv? && LibraryRef(line).None? ==> Apply(cur, line).d.library == cur.d.library
    ensures cur.Drv? && LibraryRef(line).Some? ==> Apply(cur, line).d.library == Number(LibraryRef(line).value.key)
  {
    hide Field, LibSlot;
  }

  lemma StepInBlock(at: Place, next: Place, cur: Device, drop: bool, line: string, id: nat)
    requires InStep(at, cur, drop, id)
    requires match LibraryRef(line)
             case None => next == at
             case Some(p) => at == InDrive(false) && Canonical(p.key) && next == InDrive(true)
    ensures InStep(next, Apply(cur, line), drop || Refers(line, Decimal(id)), id)
  {
    hide LibraryRef, Apply;
    ApplyReads(cur, line);
    if LibraryRef(line).Some? {
      CanonicalDecimal(LibraryRef(line).value.key, id);
    }
  }

  function Start(line: string): Place {
    if Header(LIBRARY, line).Some? then InLibrary else InDrive(false)
  }

  lemma StepAtHeader(line: string, id: nat)
    requires IsHeader(line)
    requires Header(LIBRARY, line).Some? ==> Canonical(Header(LIBRARY, line).value)
    ensures InStep(Start(line), NewDevice(line), HeaderDrops(line, Decimal(id)), id)
  {
    hide Header, TargetOf;
    if Header(LIBRARY, line).Some? {
      CanonicalDecimal(Header(LIBRARY, line).value, id);
    }
  }

  lemma WithoutCons(x: Device, devs: seq<Device>, id: nat)
    ensures Without([x] + devs, id) == (if Belongs(x, id) then [] else [x]) + Without(devs, id)
  {
    assert ([x] + devs)[1..] == devs;
  }

  lemma GrowBlock(buf: seq<string>, line: string)
    requires Block(buf) && DropCR(line) == line && !IsHeader(line)
    ensures Block(buf + [line]) && ParseBlock(buf + [line]) == Apply(ParseBlock(buf), line)
  {
    hide IsHeader, Apply, NewDevice, DropCR;
    assert (buf + [line])[1..] == buf[1..] + [line];
    assert (buf[1..] + [line])[..|buf| - 1] == buf[1..];
  }

  lemma OpenBlock(line: string)
    requires IsHeader(line) && DropCR(line) == line
    ensures Block([line]) && ParseBlock([line]) == NewDevice(line)
  {
    assert [line][1..] == [];
  }

  // ------------------------------------------------------------------- file of blocks ----

  function BlocksFrom(buf: seq<string>, lines: seq<string>): seq<seq<string>>
    decreases |lines|
  {
    if lines == [] then [buf]
    else if IsHeader(lines[0]) then [buf] + BlocksFrom([lines[0]], lines[1..])
    else BlocksFrom(buf + [lines[0]], lines[1..])
  }

  // The blocks of a file; the lines before the first are in none.
  function Blocks(lines: seq<string>): seq<seq<string>> {
    if lines == [] then []
    else if IsHeader(lines[0]) then BlocksFrom([lines[0]], lines[1..])
    else Blocks(lines[1..])
  }

  // The remover's reading of a block, digit by digit: the library's own id or a
  // reference to it is spelt like id.
  predicate Names(b: seq<string>, id: string) {
    b != [] && (HeaderDrops(b[0], id) || exists i :: 1 <= i < |b| && Refers(b[i], id))
  }

  // The number in the last library reference, 0 without one.
  function LastReference(body: seq<string>): nat {
    if body == [] then 0
    else match LibraryRef(body[|body| - 1])
         case Some(p) => Number(p.key)
         case None => LastReference(body[..|body| - 1])
  }

  // The parser's reading, as a number: the library's own id, or the one the drive's
  // last reference gives.
  function Owner(b: seq<string>): nat {
    if b == [] then 0
    else match Header(LIBRARY, b[0])
         case Some(d) => Number(d)
         case None => LastReference(b[1..])
  }

  // The two readings of one block agree.
  predicate Agree(b: seq<string>, id: nat) {
    Names(b, Decimal(id)) <==> Owner(b) == id
  }

  lemma {:induction false} FieldsOwner(cur: Device, body: seq<string>)
    ensures cur.Lib? ==> Fields(cur, body).Lib? && Fields(cur, body).l.id == cur.l.id
    ensures cur.Drv? && cur.d.library == 0 ==>
              Fields(cur, body).Drv? && Fields(cur, body).d.library == LastReference(body)
  {
    hide LibraryRef, Apply;
    if body != [] {
      FieldsOwner(cur, body[..|body| - 1]);
      ApplyReads(Fields(cur, body[..|body| - 1]), body[|body| - 1]);
    }
  }

  lemma OwnerIs(b: seq<string>, id: nat)
    requires Block(b)
    ensures Belongs(ParseBlock(b), id) <==> Owner(b) == id
  {
    hide Fields, Header, TargetOf, LastReference, DropCR, Number;
    FieldsOwner(NewDevice(b[0]), b[1..]);
  }

  predicate AllBlocks(bs: seq<seq<string>>) {
    forall i :: 0 <= i < |bs| ==> Block(bs[i])
  }

  predicate AllAgree(bs: seq<seq<string>>, id: nat) {
    forall i :: 0 <= i < |bs| ==> Agree(bs[i], id)
  }

  function ParseAll(bs: seq<seq<string>>): seq<Device>
    requires AllBlocks(bs)
  {
    if bs == [] then [] else [ParseBlock(bs[0])] + ParseAll(bs[1..])
  }

  // The blocks not named.
  function Spared(bs: seq<seq<string>>, id: string): seq<seq<string>> {
    if bs == [] then [] else (if Names(bs[0], id) then [] else [bs[0]]) + Spared(bs[1..], id)
  }

  lemma {:induction false} SparedBlocks(bs: seq<seq<string>>, id: string)
    requires AllBlocks(bs)
    ensures AllBlocks(Spared(bs, id))
  {
    if bs != [] { SparedBlocks(bs[1..], id); }
  }

  lemma {:induction false} BlocksAreFrom(buf: seq<string>, lines: seq<string>)
    requires Block(buf) && AllPlain(lines)
    ensures AllBlocks(BlocksFrom(buf, lines))
    decreases |lines|
  {
    hide IsHeader, DropCR;
    if lines != [] {
      assert AllPlain(lines[1..]);
      if IsHeader(lines[0]) {
        OpenBlock(lines[0]);
        BlocksAreFrom([lines[0]], lines[1..]);
      } else {
        GrowBlock(buf, lines[0]);
        BlocksAreFrom(buf + [lines[0]], lines[1..]);
      }
    }
  }

  lemma {:induction false} BlocksAre(lines: seq<string>)
    requires AllPlain(lines)
    ensures AllBlocks(Blocks(lines))
  {
    hide IsHeader, DropCR;
    if lines != [] {
      assert AllPlain(lines[1..]);
      if IsHeader(lines[0]) {
        OpenBlock(lines[0]);
        BlocksAreFrom([lines[0]], lines[1..]);
      } else {
        BlocksAre(lines[1..]);
      }
    }
  }

  lemma ParseAllCons(b: seq<string>, bs: seq<seq<string>>)
    requires Block(b) && AllBlocks(bs)
    ensures AllBlocks([b] + bs) && ParseAll([b] + bs) == [ParseBlock(b)] + ParseAll(bs)
  {
    assert ([b] + bs)[1..] == bs;
  }

  lemma {:induction false} ScanFromBlocks(buf: seq<string>, lines: seq<string>)
    requires Block(buf) && AllPlain(lines) && AllBlocks(BlocksFrom(buf, lines))
    ensures Scan(Some(ParseBlock(buf)), lines) == ParseAll(BlocksFrom(buf, lines))
    decreases |lines|
  {
    hide IsHeader, DropCR, Block, ParseBlock, Apply, NewDevice;
    var cur := ParseBlock(buf);
    if lines == [] {
      ParseAllCons(buf, []);
      assert [buf] + [] == [buf];
    } else {
      var line, more := lines[0], lines[1..];
      assert AllPlain(more);
      if IsHeader(line) {
        OpenBlock(line);
        BlocksAreFrom([line], more);
        ScanFromBlocks([line], more);
        ParseAllCons(buf, BlocksFrom([line], more));
      } else {
        GrowBlock(buf, line);
        ScanFromBlocks(buf + [line], more);
      }
    }
  }

  // The parser reads a file block by block.
  lemma {:induction false} ScanIsBlocks(lines: seq<string>)
    requires AllPlain(lines) && AllBlocks(Blocks(lines))
    ensures Scan(None, lines) == ParseAll(Blocks(lines))
  {
    hide IsHeader, DropCR, Block, ParseBlock, NewDevice;
    if lines != [] {
      var line, more := lines[0], lines[1..];
      assert AllPlain(more);
      if IsHeader(line) {
        OpenBlock(line);
        ScanFromBlocks([line], more);
      } else {
        ScanIsBlocks(more);
      }
    }
  }

  lemma SparedCons(b: seq<string>, bs: seq<seq<string>>, id: string)
    ensures Spared([b] + bs, id) == (if Names(b, id) then [] else [b]) + Spared(bs, id)
  {
    assert ([b] + bs)[1..] == bs;
  }

  lemma NamesGrows(buf: seq<string>, line: string, id: string)
    requires Block(buf)
    ensures Names(buf + [line], id) <==> Names(buf, id) || Refers(line, id)
  {
    hide HeaderDrops, Refers, IsHeader;
    var more := buf + [line];
    if Names(buf, id) && !HeaderDrops(buf[0], id) {
      var i :| 1 <= i < |buf| && Refers(buf[i], id);
      assert Refers(more[i], id);
    }
    assert more[|buf|] == line;
  }

  // What the remover leaves of the blocks, parsed.
  lemma {:induction false} RestSpares(buf: seq<string>, lines: seq<string>, id: string)
    requires Block(buf) && AllPlain(lines)
    ensures AllBlocks(Spared(BlocksFrom(buf, lines), id))
    ensures Scan(None, Rest(buf, Names(buf, id), lines, id)) == ParseAll(Spared(BlocksFrom(buf, lines), id))
    decreases |lines|
  {
    hide IsHeader, DropCR, Block, ParseBlock, Names, Refers, HeaderDrops, Blocks, Apply, NewDevice;
    BlocksAreFrom(buf, lines);
    SparedBlocks(BlocksFrom(buf, lines), id);
    if lines == [] {
      assert [buf] + [] == [buf];
      SparedCons(buf, [], id);
      FlushSpares(buf, [], [], id);
      assert Flush(buf, Names(buf, id)) + [] == Flush(buf, Names(buf, id));
    } else {
      var line, more := lines[0], lines[1..];
      assert AllPlain(more);
      if IsHeader(line) {
        OpenBlock(line);
        NamesFirst(line, id);
        RestSpares([line], more, id);
        RestStarts([line], HeaderDrops(line, id), more, id);
        var tail := Rest([line], HeaderDrops(line, id), more, id);
        SparedCons(buf, BlocksFrom([line], more), id);
        FlushSpares(buf, tail, Spared(BlocksFrom([line], more), id), id);
      } else {
        GrowBlock(buf, line);
        NamesGrows(buf, line, id);
        RestSpares(buf + [line], more, id);
      }
    }
  }

  lemma NamesFirst(line: string, id: string)
    ensures Names([line], id) <==> HeaderDrops(line, id)
  {
  }

  lemma FlushSpares(buf: seq<string>, tail: seq<string>, bs: seq<seq<string>>, id: string)
    requires Block(buf) && StartsBlock(tail) && AllBlocks(bs) && Scan(None, tail) == ParseAll(bs)
    ensures var spared := (if Names(buf, id) then [] else [buf]) + bs;
            AllBlocks(spared) && Scan(None, Flush(buf, Names(buf, id)) + tail) == ParseAll(spared)
  {
    hide Block, ParseBlock, StartsBlock, Names;
    if Names(buf, id) {
      assert [] + tail == tail && [] + bs == bs;
    } else {
      ScanBlock(buf, tail);
      ParseAllCons(buf, bs);
    }
  }

  lemma {:induction false} RemoveSpares(lines: seq<string>, id: string)
    requires AllPlain(lines)
    ensures AllBlocks(Spared(Blocks(lines), id))
    ensures Scan(None, Remove(lines, id)) == ParseAll(Spared(Blocks(lines), id))
  {
    hide IsHeader, DropCR, Block, ParseBlock, Names, HeaderDrops, Rest, NewDevice;
    if lines != [] {
      var line, more := lines[0], lines[1..];
      assert AllPlain(more);
      if IsHeader(line) {
        OpenBlock(line);
        NamesFirst(line, id);
        RestSpares([line], more, id);
      } else {
        RemoveSpares(more, id);
        assert ([line] + Remove(more, id))[1..] == Remove(more, id);
      }
    }
  }

  // ------------------------------------------------------------- where the two differ ----

  lemma {:induction false} SparedAgrees(bs: seq<seq<string>>, id: nat)
    requires AllBlocks(bs) && AllAgree(bs, id)
    ensures AllBlocks(Spared(bs, Decimal(id))) && ParseAll(Spared(bs, Decimal(id))) == Without(ParseAll(bs), id)
  {
    hide Block, ParseBlock, Names, Decimal, Belongs, Owner;
    if bs != [] {
      SparedAgrees(bs[1..], id);
      assert Agree(bs[0], id);
      OwnerIs(bs[0], id);
      assert bs == [bs[0]] + bs[1..];
      SparedBlocks(bs[1..], Decimal(id));
      WithoutCons(ParseBlock(bs[0]), ParseAll(bs[1..]), id);
      if Names(bs[0], Decimal(id)) {
        assert [] + Spared(bs[1..], Decimal(id)) == Spared(bs[1..], Decimal(id));
        assert Belongs(ParseBlock(bs[0]), id);
        assert [] + Without(ParseAll(bs[1..]), id) == Without(ParseAll(bs[1..]), id);
      } else {
        ParseAllCons(bs[0], Spared(bs[1..], Decimal(id)));
      }
    }
  }

  // A file one of whose blocks is read differently: too few devices are left, or one
  // of the removed library's.
  lemma {:induction false} SparedDiffers(bs: seq<seq<string>>, id: nat)
    requires AllBlocks(bs)
    ensures AllBlocks(Spared(bs, Decimal(id)))
    ensures var left, right := ParseAll(Spared(bs, Decimal(id))), Without(ParseAll(bs), id);
            || AnyBelongs(left, id)
            || (|left| <= |right| && (|left| == |right| ==> AllAgree(bs, id)))
  {
    hide Block, ParseBlock, Names, Decimal, Belongs, Owner;
    if bs != [] {
      var b, more := bs[0], bs[1..];
      OwnerIs(b, id);
      SparedDiffers(more, id);
      var left := ParseAll(Spared(more, Decimal(id)));
      WithoutCons(ParseBlock(b), ParseAll(more), id);
      if !Names(b, Decimal(id)) {
        ParseAllCons(b, Spared(more, Decimal(id)));
        var all := [ParseBlock(b)] + left;
        assert all[0] == ParseBlock(b);
        if AnyBelongs(left, id) {
          var i :| 0 <= i < |left| && Belongs(left[i], id);
          assert all[i + 1] == left[i];
        }
      } else {
        assert [] + Spared(more, Decimal(id)) == Spared(more, Decimal(id));
      }
    }
  }

  lemma {:induction false} NoneBelongs(devs: seq<Device>, id: nat)
    ensures !AnyBelongs(Without(devs, id), id)
  {
    hide Belongs;
    if devs != [] { NoneBelongs(devs[1..], id); }
  }

  // Editing commutes with parsing - parsing what RemoveLibrary leaves gives the old
  // parse without that library and its drives, in order, every other field intact -
  // exactly when the remover, which compares digits, and the parser, which compares
  // numbers, read every block alike.
  lemma RemoveCommutes(lines: seq<string>, id: nat)
    requires AllPlain(lines)
    ensures Scan(None, Remove(lines, Decimal(id))) == Without(Scan(None, lines), id) <==> AllAgree(Blocks(lines), id)
  {
    hide Agree, Block, Without, Scan, Remove, Spared, AnyBelongs;
    var bs := Blocks(lines);
    BlocksAre(lines);
    ScanIsBlocks(lines);
    RemoveSpares(lines, Decimal(id));
    SparedDiffers(bs, id);
    NoneBelongs(ParseAll(bs), id);
    if AllAgree(bs, id) { SparedAgrees(bs, id); }
  }

  lemma {:induction false} WellFormedAgrees(at: Place, buf: seq<string>, lines: seq<string>, id: nat)
    requires Block(buf) && WellFormed(at, lines) && InStep(at, ParseBlock(buf), Names(buf, Decimal(id)), id)
    ensures AllAgree(BlocksFrom(buf, lines), id)
    decreases |lines|
  {
    hide Header, LibraryRef, Apply, NewDevice, DropCR, Canonical;
    hide ParseBlock, Decimal, Block, Names, Refers, HeaderDrops, Owner;
    OwnerIs(buf, id);
    if lines != [] {
      var line, more := lines[0], lines[1..];
      if IsHeader(line) {
        OpenBlock(line);
        StepAtHeader(line, id);
        NamesFirst(line, Decimal(id));
        WellFormedAgrees(Start(line), [line], more, id);
      } else {
        GrowBlock(buf, line);
        NamesGrows(buf, line, Decimal(id));
        var next := if LibraryRef(line).Some? then InDrive(true) else at;
        StepInBlock(at, next, ParseBlock(buf), Names(buf, Decimal(id)), line, id);
        WellFormedAgrees(next, buf + [line], more, id);
      }
    }
  }

  lemma {:induction false} WellFormedReadsAlike(lines: seq<string>, id: nat)
    requires WellFormed(Preamble, lines)
    ensures AllAgree(Blocks(lines), id)
  {
    hide Header, LibraryRef, NewDevice, Canonical, Decimal, HeaderDrops, Agree, DropCR, Names;
    if lines != [] {
      var line, more := lines[0], lines[1..];
      if IsHeader(line) {
        OpenBlock(line);
        StepAtHeader(line, id);
        NamesFirst(line, Decimal(id));
        WellFormedAgrees(Start(line), [line], more, id);
      } else {
        WellFormedReadsAlike(more, id);
      }
    }
  }

  // Well-formed files are of that kind, whatever the id.
  lemma ParseAfterRemove(lines: seq<string>, id: nat)
    requires WellFormed(Preamble, lines)
    ensures Scan(None, Remove(lines, Decimal(id))) == Without(Scan(None, lines), id)
  {
    hide Scan, Remove, Without, WellFormed;
    WellFormedPlain(Preamble, lines);
    WellFormedReadsAlike(lines, id);
    RemoveCommutes(lines, id);
  }

  // Without canonical ids the two disagree: the parser reads library 010 as 10, the
  // remover looks for the digits "10" and leaves it.
  lemma LeadingZeroSurvives()
    ensures var lines := ["Library: 010 CHANNEL"];
            Scan(None, lines) == [Lib(Library(10, 0, "", "", ""))] && Remove(lines, Decimal(10)) == lines
  {
    hide Header, Target, Decimal, Number;
    var line: string := "Library: 010 CHANNEL";
    assert line == LIBRARY + " " + "010" + " CHANNEL";
    HeaderPrinted(LIBRARY, "010", " CHANNEL");
    NumberOf010();
    NoTargetThere(line);
    TenIsNot010();
    assert line[|line| - 1] == 'L';
    assert [line][1..] == [];
  }

  lemma NumberOf010()
    ensures Number("010") == 10
  {
    assert "010"[..2] == "01" && "01"[..1] == "0" && "0"[..0] == "";
    assert Number("") == 0 && Number("0") == 0 && Number("01") == 1;
  }

  lemma NoTargetThere(line: string)
    requires 'T' !in line
    ensures TargetOf(line) == 0
  {
    hide TargetAt;
    TargetSkips(line, "", 0);
    assert line + "" == line;
    NothingThere(line);
  }

  lemma NothingThere(line: string)
    ensures TargetAt(line, |line|) == None
  {
    assert line[|line|..] == "";
  }

  lemma TenIsNot010()
    ensures Decimal(10) != "010"
  {
    assert Decimal(10) == Decimal(1) + [DigitOf(0)] && |Decimal(1)| == 1;
  }

  // --------------------------------------------------- remove keeps well-formedness ----

  // The reader's move over one field line; None when the line is malformed.
  function Move(at: Place, line: string): Option<Place> {
    if DropCR(line) != line then None
    else if LibraryRef(line).None? || at.Preamble? then Some(at)
    else if at == InDrive(false) && Canonical(LibraryRef(line).value.key) then Some(InDrive(true))
    else None
  }

  function Trace(at: Place, body: seq<string>): Option<Place> {
    if body == [] then Some(at)
    else
      var before := Trace(at, body[..|body| - 1]);
      if before.None? then None else Move(before.value, body[|body| - 1])
  }

  predicate HeaderFine(line: string) {
    IsHeader(line) && DropCR(line) == line && (Header(LIBRARY, line).Some? ==> Canonical(Header(LIBRARY, line).value))
  }

  lemma {:induction false} TraceBack(at: Place, body: seq<string>, k: nat)
    requires k <= |body| && Trace(at, body).Some?
    ensures Trace(at, body[..k]).Some?
    decreases |body|
  {
    hide Move;
    if k == |body| {
      assert body[..k] == body;
    } else {
      assert body[..|body| - 1][..k] == body[..k];
      TraceBack(at, body[..|body| - 1], k);
    }
  }

  lemma {:induction false} WellFormedBody(at: Place, body: seq<string>, k: nat, tail: seq<string>)
    requires k <= |body| && (forall i :: 0 <= i < |body| ==> !IsHeader(body[i])) && Trace(at, body).Some?
    ensures Trace(at, body[..k]).Some?
    ensures WellFormed(Trace(at, body[..k]).value, body[k..] + tail) <==> WellFormed(Trace(at, body).value, tail)
    decreases |body| - k
  {
    hide IsHeader, LibraryRef, Canonical, DropCR;
    TraceBack(at, body, k);
    if k == |body| {
      assert body[..k] == body && body[k..] + tail == tail;
    } else {
      assert (body[k..] + tail)[0] == body[k] && (body[k..] + tail)[1..] == body[k + 1..] + tail;
      assert body[..k + 1][..k] == body[..k];
      WellFormedBody(at, body, k + 1, tail);
    }
  }

  // A block in front of the start of another: well-formed iff both parts are.
  lemma WellFormedBlock(pre: Place, buf: seq<string>, tail: seq<string>)
    requires Block(buf) && HeaderFine(buf[0]) && Trace(Start(buf[0]), buf[1..]).Some? && Closed(pre)
    ensures WellFormed(pre, buf + tail) <==> WellFormed(Trace(Start(buf[0]), buf[1..]).value, tail)
  {
    hide Header, LibraryRef, Canonical, DropCR, Trace;
    assert (buf + tail)[0] == buf[0] && (buf + tail)[1..] == buf[1..] + tail;
    WellFormedBody(Start(buf[0]), buf[1..], 0, tail);
    TraceNothing(Start(buf[0]), buf[1..]);
    assert buf[1..][0..] == buf[1..];
  }

  lemma TraceNothing(at: Place, body: seq<string>)
    ensures Trace(at, body[..0]) == Some(at)
  {
  }

  lemma ClosedAnywhere(pre: Place, lines: seq<string>)
    requires StartsBlock(lines) && WellFormed(Preamble, lines) && Closed(pre)
    ensures WellFormed(pre, lines)
  {
    hide Header, LibraryRef, Canonical;
  }

  lemma {:induction false} RestWellFormed(at: Place, buf: seq<string>, drop: bool, lines: seq<string>, id: string)
    requires Block(buf) && HeaderFine(buf[0]) && Trace(Start(buf[0]), buf[1..]) == Some(at) && WellFormed(at, lines)
    ensures WellFormed(Preamble, Rest(buf, drop, lines, id))
    decreases |lines|
  {
    hide Header, LibraryRef, Canonical, DropCR, Refers, HeaderDrops, Start;
    WellFormedPlain(at, lines);
    if lines == [] {
      WellFormedBlock(Preamble, buf, []);
      assert buf + [] == buf;
    } else {
      var line, more := lines[0], lines[1..];
      if IsHeader(line) {
        NextBlock(line, more);
        OpenBlock(line);
        TraceNothing(Start(line), [line][1..]);
        assert [line][1..][..0] == [line][1..];
        RestWellFormed(Start(line), [line], HeaderDrops(line, id), more, id);
        var kept := Rest([line], HeaderDrops(line, id), more, id);
        RestStarts([line], HeaderDrops(line, id), more, id);
        if drop {
          assert Flush(buf, drop) + kept == kept;
        } else {
          ClosedAnywhere(at, kept);
          WellFormedBlock(Preamble, buf, kept);
        }
      } else {
        GrowBlock(buf, line);
        assert (buf + [line])[1..] == buf[1..] + [line];
        assert (buf[1..] + [line])[..|buf| - 1] == buf[1..];
        StayInBlock(at, lines);
        RestWellFormed(Move(at, line).value, buf + [line], drop || Refers(line, id), more, id);
      }
    }
  }

  lemma NextBlock(line: string, more: seq<string>)
    requires WellFormed(Preamble, [line] + more) && IsHeader(line)
    ensures HeaderFine(line) && WellFormed(Start(line), more)
  {
    hide LibraryRef, Canonical;
    assert ([line] + more)[1..] == more;
  }

  lemma StayInBlock(at: Place, lines: seq<string>)
    requires lines != [] && WellFormed(at, lines) && !IsHeader(lines[0])
    ensures Move(at, lines[0]).Some? && WellFormed(Move(at, lines[0]).value, lines[1..])
  {
    hide Header, Canonical, IsHeader;
  }

  // RemoveLibrary leaves a well-formed file well-formed.
  lemma {:induction false} RemoveWellFormed(lines: seq<string>, id: string)
    requires WellFormed(Preamble, lines)
    ensures WellFormed(Preamble, Remove(lines, id))
    decreases |lines|
  {
    hide Header, LibraryRef, Canonical, DropCR, HeaderDrops, Start, Rest;
    if lines != [] {
      var line, more := lines[0], lines[1..];
      assert lines == [line] + more;
      if IsHeader(line) {
        NextBlock(line, more);
        OpenBlock(line);
        TraceNothing(Start(line), [line][1..]);
        assert [line][1..][..0] == [line][1..];
        RestWellFormed(Start(line), [line], HeaderDrops(line, id), more, id);
      } else {
        RemoveWellFormed(more, id);
        assert ([line] + Remove(more, id))[1..] == Remove(more, id);
      }
    }
  }
}
