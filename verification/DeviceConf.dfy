// device.conf: the block-wise remover and the line parser, each as the recursion
// its loop performs, and how they agree.
module DeviceConf {
  import opened Options
  import opened Text
  import opened ConfLines

  datatype Library = Library(id: nat, target: nat, serial: string, product: string, home: string)
  datatype Drive = Drive(queue: nat, target: nat, library: nat, slot: nat, serial: string, product: string)
  // A parsed block.
  datatype Device = Lib(l: Library) | Drv(d: Drive)

  // ------------------------------------------------------------------- remover ----

  predicate HeaderDrops(line: string, id: string) {
    Header(LIBRARY, line) == Some(id)
  }

  predicate Refers(line: string, id: string) {
    LibraryRef(line).Some? && LibraryRef(line).value.key == id
  }

  function Flush(buf: seq<string>, drop: bool): seq<string> {
    if drop then [] else buf
  }

  // The remover inside a block: `buf` holds the block so far, `drop` its fate.
  function Rest(buf: seq<string>, drop: bool, lines: seq<string>, id: string): seq<string>
    decreases |lines|
  {
    if lines == [] then Flush(buf, drop)
    else if IsHeader(lines[0]) then
      Flush(buf, drop) + Rest([lines[0]], HeaderDrops(lines[0], id), lines[1..], id)
    else Rest(buf + [lines[0]], drop || Refers(lines[0], id), lines[1..], id)
  }

  // The remover before the first block.
  function Remove(lines: seq<string>, id: string): seq<string> {
    if lines == [] then []
    else if IsHeader(lines[0]) then Rest([lines[0]], HeaderDrops(lines[0], id), lines[1..], id)
    else [lines[0]] + Remove(lines[1..], id)
  }

  lemma RestTurn(buf: seq<string>, drop: bool, lines: seq<string>, id: string, out: seq<string>)
    requires lines != []
    ensures out + Rest(buf, drop, lines, id) ==
            if IsHeader(lines[0]) then
              (out + Flush(buf, drop)) + Rest([lines[0]], HeaderDrops(lines[0], id), lines[1..], id)
            else out + Rest(buf + [lines[0]], drop || Refers(lines[0], id), lines[1..], id)
  {
    hide IsHeader, HeaderDrops, Refers;
    var more := Rest([lines[0]], HeaderDrops(lines[0], id), lines[1..], id);
    assert out + (Flush(buf, drop) + more) == (out + Flush(buf, drop)) + more;
  }

  lemma RemoveTurn(lines: seq<string>, id: string, out: seq<string>)
    requires lines != []
    ensures out + Remove(lines, id) ==
            if IsHeader(lines[0]) then out + Rest([lines[0]], HeaderDrops(lines[0], id), lines[1..], id)
            else (out + [lines[0]]) + Remove(lines[1..], id)
  {
    hide IsHeader, HeaderDrops, Refers;
    assert out + ([lines[0]] + Remove(lines[1..], id)) == (out + [lines[0]]) + Remove(lines[1..], id);
  }

  // RemoveLibrary's line loop.
  method RemoveBlocks(lines: seq<string>, id: string) returns (out: seq<string>)
    ensures out == Remove(lines, id)
  {
    hide Header, LibraryRef, Rest, Remove;
    out := [];
    var buf: seq<string> := [];
    var dropCur, inBlock := false, false;
    var i := 0;
    while i < |lines|
      invariant i <= |lines| && (!inBlock ==> buf == [] && !dropCur)
      invariant out + (if inBlock then Rest(buf, dropCur, lines[i..], id) else Remove(lines[i..], id)) ==
                Remove(lines, id)
    {
      var line := lines[i];
      assert lines[i..][0] == line && lines[i..][1..] == lines[i + 1..];
      if inBlock { RestTurn(buf, dropCur, lines[i..], id, out); } else { RemoveTurn(lines[i..], id, out); }
      var lib := Header(LIBRARY, line);
      if lib.Some? {
        if !dropCur { out := out + buf; }
        inBlock, dropCur, buf := true, lib.value == id, [line];
      } else if Header(DRIVE, line).Some? {
        if !dropCur { out := out + buf; }
        inBlock, dropCur, buf := true, false, [line];
      } else if !inBlock {
        out := out + [line];
      } else {
        var ref := LibraryRef(line);
        if ref.Some? && ref.value.key == id {
          dropCur := true;
        }
        buf := buf + [line];
      }
      i := i + 1;
    }
    assert lines[i..] == [];
    AtTheEnd(buf, dropCur, id);
    if !dropCur { out := out + buf; }
  }

  lemma AtTheEnd(buf: seq<string>, drop: bool, id: string)
    ensures Rest(buf, drop, [], id) == Flush(buf, drop) && Remove([], id) == []
  {
  }

  // -------------------------------------------------------------------- parser ----

  function TargetOf(line: string): nat {
    match Target(line, 0)
    case Some(d) => Number(d)
    case None => 0
  }

  function NewDevice(line: string): Device
    requires IsHeader(line)
  {
    match Header(LIBRARY, line)
    case Some(d) => Lib(Library(Number(d), TargetOf(line), "", "", ""))
    case None => Drv(Drive(Number(Header(DRIVE, line).value), TargetOf(line), 0, 0, "", ""))
  }

  // The parser's switch on the field name.
  function SetField(cur: Device, f: Pair): Device {
    match cur
    case Drv(d) =>
      if f.key == "Unit serial number" then Drv(d.(serial := f.val))
      else if f.key == "Product identification" then Drv(d.(product := f.val))
      else if f.key == "Library ID" then
        (match LibSlot(f.val)
         case None => cur
         case Some(p) => Drv(d.(library := Number(p.key), slot := Number(p.val))))
      else cur
    case Lib(l) =>
      if f.key == "Unit serial number" then Lib(l.(serial := f.val))
      else if f.key == "Product identification" then Lib(l.(product := f.val))
      else if f.key == "Home directory" then Lib(l.(home := f.val))
      else cur
  }

  // One line applied to the block being read.
  function Apply(cur: Device, line: string): Device {
    match Field(line)
    case None => cur
    case Some(f) => SetField(cur, f)
  }

  function AsSeq(cur: Option<Device>): seq<Device> {
    if cur.Some? then [cur.value] else []
  }

  // The scanner loop: `cur` is the block being read, None in the preamble.
  function Scan(cur: Option<Device>, lines: seq<string>): seq<Device>
    decreases |lines|
  {
    if lines == [] then AsSeq(cur)
    else
      var line := DropCR(lines[0]);
      if IsHeader(line) then AsSeq(cur) + Scan(Some(NewDevice(line)), lines[1..])
      else Scan(if cur.Some? then Some(Apply(cur.value, line)) else None, lines[1..])
  }

  // Lines that end in carriage returns too read the same.
  lemma {:induction false} CarriageReturns(cur: Option<Device>, lines: seq<string>, ended: seq<string>)
    requires |ended| == |lines|
    requires forall i :: 0 <= i < |lines| ==>
               ended[i] == lines[i] + "\r" && (lines[i] == "" || lines[i][|lines[i]| - 1] != '\r')
    ensures Scan(cur, ended) == Scan(cur, lines)
    decreases |lines|
  {
    hide Header, Apply;
    if lines != [] {
      assert DropCR(ended[0]) == lines[0] == DropCR(lines[0]);
      var line := lines[0];
      CarriageReturns(if IsHeader(line) then Some(NewDevice(line))
                      else if cur.Some? then Some(Apply(cur.value, line)) else None, lines[1..], ended[1..]);
    }
  }

  function Libs(devs: seq<Device>): seq<Library> {
    if devs == [] then []
    else Libs(devs[..|devs| - 1]) + (if devs[|devs| - 1].Lib? then [devs[|devs| - 1].l] else [])
  }

  function Drives(devs: seq<Device>): seq<Drive> {
    if devs == [] then []
    else Drives(devs[..|devs| - 1]) + (if devs[|devs| - 1].Drv? then [devs[|devs| - 1].d] else [])
  }

  lemma Snoc(devs: seq<Device>, x: Device)
    ensures Libs(devs + [x]) == Libs(devs) + (if x.Lib? then [x.l] else [])
    ensures Drives(devs + [x]) == Drives(devs) + (if x.Drv? then [x.d] else [])
  {
    assert (devs + [x])[..|devs|] == devs;
  }

  lemma EmptyLists()
    ensures Libs([]) == [] && Drives([]) == []
  {
  }

  datatype Cursor = Nowhere | OnLibrary | OnDrive

  // One line read: a header closes the block being read and opens the next.
  lemma ScanTurn(done: seq<Device>, cur: Option<Device>, lines: seq<string>)
    requires lines != []
    ensures var line := DropCR(lines[0]);
            done + Scan(cur, lines) ==
              if IsHeader(line) then (done + AsSeq(cur)) + Scan(Some(NewDevice(line)), lines[1..])
              else done + Scan(if cur.Some? then Some(Apply(cur.value, line)) else None, lines[1..])
  {
    hide Header, Apply;
    var line := DropCR(lines[0]);
    if IsHeader(line) {
      var more := Scan(Some(NewDevice(line)), lines[1..]);
      assert done + (AsSeq(cur) + more) == (done + AsSeq(cur)) + more;
    }
  }

  lemma ScanEnd(done: seq<Device>, cur: Option<Device>)
    ensures done + Scan(cur, []) == done + AsSeq(cur)
  {
  }

  // The two lists hold the blocks read, the cursor the one being read.
  ghost predicate Tracks(libs: seq<Library>, drives: seq<Drive>, at: Cursor, done: seq<Device>, cur: Option<Device>) {
    && libs == Libs(done + AsSeq(cur)) && drives == Drives(done + AsSeq(cur))
    && match at
       case Nowhere => cur.None?
       case OnLibrary => cur.Some? && cur.value.Lib?
       case OnDrive => cur.Some? && cur.value.Drv?
  }

  // A header: a new entry in its list, and the cursor on it.
  method TakeHeader(libs0: seq<Library>, drives0: seq<Drive>, line: string,
                    ghost at0: Cursor, ghost done: seq<Device>, ghost cur: Option<Device>)
    returns (libs: seq<Library>, drives: seq<Drive>, at: Cursor)
    requires IsHeader(line) && Tracks(libs0, drives0, at0, done, cur)
    ensures Tracks(libs, drives, at, done + AsSeq(cur), Some(NewDevice(line)))
  {
    hide Header, TargetOf, Libs, Drives;
    libs, drives := libs0, drives0;
    Snoc(done + AsSeq(cur), NewDevice(line));
    var lib := Header(LIBRARY, line);
    if lib.Some? {
      libs, at := libs + [Library(Number(lib.value), TargetOf(line), "", "", "")], OnLibrary;
    } else {
      drives, at := drives + [Drive(Number(Header(DRIVE, line).value), TargetOf(line), 0, 0, "", "")], OnDrive;
    }
  }

  // Any other line: perhaps a field of the block being read.
  method TakeField(libs0: seq<Library>, drives0: seq<Drive>, at: Cursor, line: string,
                   ghost done: seq<Device>, ghost cur: Option<Device>)
    returns (libs: seq<Library>, drives: seq<Drive>)
    requires Tracks(libs0, drives0, at, done, cur)
    ensures Tracks(libs, drives, at, done, if cur.Some? then Some(Apply(cur.value, line)) else None)
  {
    hide Field, LibSlot, Libs, Drives;
    libs, drives := libs0, drives0;
    if cur.Some? {
      Snoc(done, cur.value);
      Snoc(done, Apply(cur.value, line));
    }
    var f := Field(line);
    if f.Some? {
      libs, drives := Store(libs, drives, at, f.value);
    }
  }

  // ParseMhvtlConf's scanner loop over the two lists and the cursor into them.
  method ParseDevices(lines: seq<string>) returns (libs: seq<Library>, drives: seq<Drive>)
    ensures libs == Libs(Scan(None, lines)) && drives == Drives(Scan(None, lines))
  {
    hide IsHeader, NewDevice, Apply, DropCR, Libs, Drives, Scan, Tracks;
    libs, drives := [], [];
    var at := Nowhere;
    ghost var done: seq<Device>, cur: Option<Device> := [], None;
    NothingRead();
    assert [] + Scan(None, lines) == Scan(None, lines) && lines[0..] == lines;
    var i := 0;
    while i < |lines|
      invariant i <= |lines| && done + Scan(cur, lines[i..]) == Scan(None, lines)
      invariant Tracks(libs, drives, at, done, cur)
    {
      var line := DropCR(lines[i]);
      assert lines[i..][0] == lines[i] && lines[i..][1..] == lines[i + 1..];
      ScanTurn(done, cur, lines[i..]);
      if IsHeader(line) {
        libs, drives, at := TakeHeader(libs, drives, line, at, done, cur);
        done, cur := done + AsSeq(cur), Some(NewDevice(line));
      } else {
        libs, drives := TakeField(libs, drives, at, line, done, cur);
        cur := if cur.Some? then Some(Apply(cur.value, line)) else None;
      }
      i := i + 1;
    }
    assert lines[i..] == [];
    ScanEnd(done, cur);
    AllRead(libs, drives, at, done, cur);
  }

  lemma NothingRead()
    ensures Tracks([], [], Nowhere, [], None)
  {
    EmptyLists();
    assert [] + AsSeq(None) == [];
  }

  lemma AllRead(libs: seq<Library>, drives: seq<Drive>, at: Cursor, done: seq<Device>, cur: Option<Device>)
    requires Tracks(libs, drives, at, done, cur)
    ensures libs == Libs(done + AsSeq(cur)) && drives == Drives(done + AsSeq(cur))
  {
  }

  // The switch on the field name, writing through the cursor.
  method Store(libs0: seq<Library>, drives0: seq<Drive>, at: Cursor, f: Pair)
    returns (libs: seq<Library>, drives: seq<Drive>)
    requires at == OnLibrary ==> libs0 != []
    requires at == OnDrive ==> drives0 != []
    ensures |libs| == |libs0| && |drives| == |drives0|
    ensures at != OnLibrary ==> libs == libs0
    ensures at != OnDrive ==> drives == drives0
    ensures at == OnLibrary ==>
              libs[..|libs| - 1] == libs0[..|libs| - 1]
              && var l := libs0[|libs0| - 1];
                 libs[|libs| - 1] ==
                   if f.key == "Unit serial number" then l.(serial := f.val)
                   else if f.key == "Product identification" then l.(product := f.val)
                   else if f.key == "Home directory" then l.(home := f.val) else l
    ensures at == OnDrive ==>
              drives[..|drives| - 1] == drives0[..|drives| - 1]
              && var d := drives0[|drives0| - 1];
                 drives[|drives| - 1] ==
                   if f.key == "Unit serial number" then d.(serial := f.val)
                   else if f.key == "Product identification" then d.(product := f.val)
                   else if f.key == "Library ID" && LibSlot(f.val).Some? then
                     d.(library := Number(LibSlot(f.val).value.key), slot := Number(LibSlot(f.val).value.val))
                   else d
  {
    libs, drives := libs0, drives0;
    if at == OnDrive {
      var k := |drives| - 1;
      if f.key == "Unit serial number" {
        drives := drives[k := drives[k].(serial := f.val)];
      } else if f.key == "Product identification" {
        drives := drives[k := drives[k].(product := f.val)];
      } else if f.key == "Library ID" {
        var m := LibSlot(f.val);
        if m.Some? {
          drives := drives[k := drives[k].(library := Number(m.value.key), slot := Number(m.value.val))];
        }
      }
    } else if at == OnLibrary {
      var k := |libs| - 1;
      if f.key == "Unit serial number" {
        libs := libs[k := libs[k].(serial := f.val)];
      } else if f.key == "Product identification" {
        libs := libs[k := libs[k].(product := f.val)];
      } else if f.key == "Home directory" {
        libs := libs[k := libs[k].(home := f.val)];
      }
    }
  }
}
