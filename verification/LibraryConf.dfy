// CreateLibrary and RemoveLibrary on the text of device.conf, and what any sequence
// of them keeps.
module LibraryConfs {
  import opened Options
  import opened Text
  import opened ConfLines
  import opened DeviceConf
  import opened ConfEdits
  import opened LibraryPrinter
  import opened LibraryEdits
  import opened Sorting
  import opened Declarations
  import opened Allocation

  function Devices(text: string): seq<Device> {
    Scan(None, Split(text))
  }

  ghost predicate Good(text: string) {
    WellFormed(Preamble, Split(text)) && AllocOk(Devices(text))
  }

  // One edit of the file.
  datatype Edit = Create(s: Spec) | Delete(id: nat)

  ghost predicate Step(before: string, after: string, e: Edit) {
    match e
    case Create(s) =>
      exists id, target :: Allocates(Assemble(Devices(before)), id, target) && after == Created(before, s, id, target)
    case Delete(id) => after == Removed(before, id)
  }

  // ------------------------------------------------------------------- one edit ----

  lemma DevicesAfterCreate(text: string, s: Spec, id: nat, target: nat)
    requires PrintableSpec(s)
    ensures Devices(Created(text, s, id, target)) == Devices(text) + NewDevices(s, id, target, |s.driveSerials|)
  {
    hide PrintableSpec, Created, Split, Scan, NewDevices;
    CreatedLines(text, s, id, target);
    ParseAfterCreate(Split(text), s, id, target);
  }

  lemma LinesAfterRemove(text: string, id: nat)
    requires WellFormed(Preamble, Split(text))
    ensures WellFormed(Preamble, Split(Removed(text, id)))
    ensures Devices(Removed(text, id)) == Without(Devices(text), id)
  {
    hide Split, Removed, Remove, Decimal, Without;
    RemovedLines(text, id);
    RemoveWellFormed(Split(text), Decimal(id));
    ParseAfterRemove(Split(text), id);
    BlankReads();
    BlankFile();
  }

  lemma BlankFile()
    ensures WellFormed(Preamble, [""]) && Scan(None, [""]) == Scan(None, [])
  {
    BlankReads();
    assert [""][1..] == [];
  }

  lemma CreateGood(text: string, s: Spec, id: nat, target: nat)
    requires Good(text) && PrintableSpec(s) && Allocates(Assemble(Devices(text)), id, target)
    ensures Good(Created(text, s, id, target))
    ensures Removed(Created(text, s, id, target), id) == text
  {
    hide PrintableSpec, Created, Removed, Split, Devices, WellFormed, Allocates, Assemble, AllocOk, AnyBelongs;
    CreatedLines(text, s, id, target);
    CreateWellFormed(Split(text), s, id, target);
    DevicesAfterCreate(text, s, id, target);
    CreateAllocOk(Devices(text), s, id, target);
    DevicesOf(text);
    RemoveUndoesFreshCreate(text, s, id, target);
  }

  lemma DevicesOf(text: string)
    ensures Devices(text) == Scan(None, Split(text))
  {
  }

  lemma RemoveGood(text: string, id: nat)
    requires Good(text)
    ensures Good(Removed(text, id))
  {
    hide Removed, Split, Devices, WellFormed, AllocOk;
    LinesAfterRemove(text, id);
    RemoveAllocOk(Devices(text), id);
  }

  // Editing commutes with parsing, whole: after a create, the old libraries and then
  // the new one with its drives in slot order.
  lemma ParseCreated(text: string, s: Spec, id: nat, target: nat)
    requires Good(text) && PrintableSpec(s) && Allocates(Assemble(Devices(text)), id, target)
    ensures Assemble(Devices(Created(text, s, id, target)))
            == Assemble(Devices(text))
               + [Declared(NewLibrary(s, id, target), NewDrives(s, id, target, |s.driveSerials|))]
  {
    hide PrintableSpec, Created, Devices, AnyBelongs, Assemble, WellFormed, AllApart;
    DevicesAfterCreate(text, s, id, target);
    CreateAllocOk(Devices(text), s, id, target);
    forall x | x in Assemble(Devices(text)) ensures x.lib.id < id {
      assert UsesId(Assemble(Devices(text)), x.lib.id);
    }
    AssembleCreate(Devices(text), s, id, target);
  }

  // After a remove, the old libraries without that one.
  lemma ParseRemoved(text: string, id: nat)
    requires WellFormed(Preamble, Split(text))
    ensures Assemble(Devices(Removed(text, id))) == Filter(NotId(id), Assemble(Devices(text)))
  {
    hide Removed, Devices, Split, WellFormed, Assemble, Without, Filter;
    LinesAfterRemove(text, id);
    AssembleRemove(Devices(text), id);
  }

  // ------------------------------------------------------------------ every sequence ----

  ghost predicate IsHistory(texts: seq<string>, edits: seq<Edit>) {
    |texts| == |edits| + 1
    && forall k :: 0 <= k < |edits| ==>
         Step(texts[k], texts[k + 1], edits[k]) && (edits[k].Create? ==> PrintableSpec(edits[k].s))
  }

  // Allocation safety: over any sequence of creates and removes, ids and targets stay
  // pairwise distinct, every drive names a declared library, the file stays
  // well-formed.
  lemma {:induction false} EveryEditGood(texts: seq<string>, edits: seq<Edit>, k: nat)
    requires IsHistory(texts, edits) && Good(texts[0]) && k < |texts|
    ensures Good(texts[k])
  {
    hide Good, PrintableSpec, Devices, Created, Removed, Allocates, Assemble;
    if k > 0 {
      EveryEditGood(texts, edits, k - 1);
      match edits[k - 1]
      case Create(s) =>
        var id, target :| && Allocates(Assemble(Devices(texts[k - 1])), id, target)
                          && texts[k] == Created(texts[k - 1], s, id, target);
        CreateGood(texts[k - 1], s, id, target);
      case Delete(id) =>
        RemoveGood(texts[k - 1], id);
    }
  }

  // ------------------------------------------------------------------- the operations ----

  // The catalog's answer for the requested products.
  datatype Model = Model(creatable: bool, vendor: string, family: string, maxDrives: nat)
  datatype DriveModel = DriveModel(family: string, vendor: string)

  datatype Request = Request(product: string, driveProduct: string, drives: int, home: string, serial: string)

  datatype Refusal = NoHome | NotCreatable | BadDriveCount | WrongDrive | SerialTaken | NotDeclared
  datatype Outcome = Made(id: nat, serial: string) | Gone(queues: seq<nat>) | Refused(why: Refusal) | Failed

  // How the file operations fare: reading device.conf, replacing it, and the files
  // written beside it.
  datatype Io = Io(readable: bool, written: bool, beside: bool)

  ghost predicate SerialDeclared(libs: seq<Declared>, serial: string) {
    exists x :: x in libs && x.lib.serial == serial
  }

  ghost predicate IdDeclared(libs: seq<Declared>, id: nat) {
    exists x :: x in libs && x.lib.id == id
  }

  // A list of lines as the Fprintf calls emit them.
  lemma BlockPrinted(header: string, fs: seq<Pair>, ls: seq<string>)
    requires ls == [header] + FieldTexts(fs)
    ensures Printed(ls) == Join([header] + Body(fs))
  {
    PrintedJoin(ls);
    assert ls + [""] == [header] + Body(fs);
  }

  lemma LibraryHeaderLiteral(id: nat, target: nat)
    ensures HeaderText(LIBRARY, id, target) ==
            "Library: " + Decimal(id) + " CHANNEL: 00 TARGET: " + Pad2(target) + " LUN: 00"
  {
    hide Decimal, Pad2;
    assert LIBRARY + " " == "Library: ";
  }

  lemma DriveHeaderLiteral(id: nat, target: nat)
    ensures HeaderText(DRIVE, id, target) ==
            "Drive: " + Decimal(id) + " CHANNEL: 00 TARGET: " + Pad2(target) + " LUN: 00"
  {
    hide Decimal, Pad2;
    assert DRIVE + " " == "Drive: ";
  }

  lemma VendorLine(v: string)
    ensures " Vendor identification: " + v == FieldText(Pair("Vendor identification", v))
  {
    assert " Vendor identification: " == " " + "Vendor identification" + ": ";
  }

  lemma ProductLine(v: string)
    ensures " Product identification: " + v == FieldText(Pair("Product identification", v))
  {
    assert " Product identification: " == " " + "Product identification" + ": ";
  }

  lemma SerialLine(v: string)
    ensures " Unit serial number: " + v == FieldText(Pair("Unit serial number", v))
  {
    assert " Unit serial number: " == " " + "Unit serial number" + ": ";
  }

  lemma HomeLine(v: string)
    ensures " Home directory: " + v == FieldText(Pair("Home directory", v))
  {
    assert " Home directory: " == " " + "Home directory" + ": ";
  }

  lemma LibraryIDLine(v: string)
    ensures " Library ID: " + v == FieldText(Pair("Library ID", v))
  {
    assert " Library ID: " == " " + "Library ID" + ": ";
  }

  lemma PersistLine()
    ensures " PERSIST: True" == FieldText(Pair("PERSIST", "True"))
  {
    assert " PERSIST: True" == " " + "PERSIST" + ": " + "True";
  }

  lemma BackoffLine()
    ensures " Backoff: 400" == FieldText(Pair("Backoff", "400"))
  {
    assert " Backoff: 400" == " " + "Backoff" + ": " + "400";
  }

  lemma LibraryRevisionLine()
    ensures " Product revision level: D.00" == FieldText(Pair("Product revision level", "D.00"))
  {
    assert " Product revision level: " == " " + "Product revision level" + ": ";
    assert " Product revision level: D.00" == " Product revision level: " + "D.00";
  }

  lemma DriveRevisionLine()
    ensures " Product revision level: H991" == FieldText(Pair("Product revision level", "H991"))
  {
    assert " Product revision level: " == " " + "Product revision level" + ": ";
    assert " Product revision level: H991" == " Product revision level: " + "H991";
  }

  lemma CompressionLine()
    ensures " Compression: factor 1 enabled 0" == FieldText(Pair("Compression", "factor 1 enabled 0"))
  {
    assert " Compression: " == " " + "Compression" + ": ";
    assert " Compression: factor 1 enabled 0" == " Compression: " + "factor 1 enabled 0";
  }

  lemma CodecLine()
    ensures " Compression type: lzo" == FieldText(Pair("Compression type", "lzo"))
  {
    assert " Compression type: lzo" == " " + "Compression type" + ": " + "lzo";
  }

  lemma LibraryNaaLine(n: nat)
    ensures " NAA: 30:00:00:00:00:00:00:" + Pad2(n) == FieldText(Pair("NAA", "30:00:00:00:00:00:00:" + Pad2(n)))
  {
    hide Pad2;
    assert " NAA: 30:00:00:00:00:00:00:" == " " + "NAA" + ": " + "30:00:00:00:00:00:00:";
  }

  lemma DriveNaaLine(n: nat)
    ensures " NAA: 50:05:07:60:00:00:00:" + Pad2(n) == FieldText(Pair("NAA", "50:05:07:60:00:00:00:" + Pad2(n)))
  {
    hide Pad2;
    assert " NAA: 50:05:07:60:00:00:00:" == " " + "NAA" + ": " + "50:05:07:60:00:00:00:";
  }

  // The library block's Fprintf calls, a line each.
  function LibraryLines(s: Spec, id: nat, target: nat): seq<string> {
    ["Library: " + Decimal(id) + " CHANNEL: 00 TARGET: " + Pad2(target) + " LUN: 00",
     " Vendor identification: " + s.vendor,
     " Product identification: " + s.product,
     " Unit serial number: " + s.serial,
     " NAA: 30:00:00:00:00:00:00:" + Pad2(id),
     " Home directory: " + s.home,
     " PERSIST: True",
     " Backoff: 400",
     " Product revision level: D.00"]
  }

  // A drive block's.
  function DriveLines(s: Spec, id: nat, target: nat, i: nat): seq<string>
    requires i < |s.driveSerials|
  {
    ["Drive: " + Decimal(id + 1 + i) + " CHANNEL: 00 TARGET: " + Pad2(target + 1 + i) + " LUN: 00",
     " Library ID: " + (Decimal(id) + " Slot: " + Pad2(i + 1)),
     " Vendor identification: " + s.driveVendor,
     " Product identification: " + s.driveProduct,
     " Product revision level: H991",
     " Unit serial number: " + s.driveSerials[i],
     " NAA: 50:05:07:60:00:00:00:" + Pad2(id + 1 + i),
     " Compression: factor 1 enabled 0",
     " Compression type: lzo",
     " Backoff: 400"]
  }

  lemma LibraryLinesAre(s: Spec, id: nat, target: nat)
    ensures LibraryLines(s, id, target) == [HeaderText(LIBRARY, id, target)] + FieldTexts(LibraryFields(s, id))
    ensures LibraryLines(s, id, target) ==
            ["Library: " + Decimal(id) + " CHANNEL: 00 TARGET: " + Pad2(target) + " LUN: 00",
             " Vendor identification: " + s.vendor,
             " Product identification: " + s.product,
             " Unit serial number: " + s.serial,
             " NAA: 30:00:00:00:00:00:00:" + Pad2(id),
             " Home directory: " + s.home,
             " PERSIST: True",
             " Backoff: 400",
             " Product revision level: D.00"]
  {
    hide Decimal, Pad2, HeaderText, FieldText;
    LibraryHeaderLiteral(id, target);
    VendorLine(s.vendor);
    ProductLine(s.product);
    SerialLine(s.serial);
    LibraryNaaLine(id);
    HomeLine(s.home);
    PersistLine();
    BackoffLine();
    LibraryRevisionLine();
  }

  lemma DriveLinesAre(s: Spec, id: nat, target: nat, i: nat)
    requires i < |s.driveSerials|
    ensures DriveLines(s, id, target, i) ==
            [HeaderText(DRIVE, id + 1 + i, target + 1 + i)] + FieldTexts(DriveFields(s, id, i))
    ensures DriveLines(s, id, target, i) ==
            ["Drive: " + Decimal(id + 1 + i) + " CHANNEL: 00 TARGET: " + Pad2(target + 1 + i) + " LUN: 00",
             " Library ID: " + (Decimal(id) + " Slot: " + Pad2(i + 1)),
             " Vendor identification: " + s.driveVendor,
             " Product identification: " + s.driveProduct,
             " Product revision level: H991",
             " Unit serial number: " + s.driveSerials[i],
             " NAA: 50:05:07:60:00:00:00:" + Pad2(id + 1 + i),
             " Compression: factor 1 enabled 0",
             " Compression type: lzo",
             " Backoff: 400"]
  {
    hide Decimal, Pad2, HeaderText, FieldText;
    DriveHeaderLiteral(id + 1 + i, target + 1 + i);
    LibraryIDLine(Decimal(id) + " Slot: " + Pad2(i + 1));
    VendorLine(s.driveVendor);
    ProductLine(s.driveProduct);
    DriveRevisionLine();
    SerialLine(s.driveSerials[i]);
    DriveNaaLine(id + 1 + i);
    CompressionLine();
    CodecLine();
    BackoffLine();
  }

  method PrintLibrary(s: Spec, id: nat, target: nat) returns (b: string)
    ensures b == Join(LibraryBlock(s, id, target))
  {
    hide Body, HeaderText, Join, LibraryLines, LibraryFields;
    LibraryLinesAre(s, id, target);
    BlockPrinted(HeaderText(LIBRARY, id, target), LibraryFields(s, id), LibraryLines(s, id, target));
    b := PrintLines(LibraryLines(s, id, target));
  }

  method PrintDrive(s: Spec, id: nat, target: nat, i: nat) returns (b: string)
    requires i < |s.driveSerials|
    ensures b == Join(DriveBlock(s, id, target, i))
  {
    hide Body, HeaderText, Join, DriveLines, DriveFields;
    DriveLinesAre(s, id, target, i);
    BlockPrinted(HeaderText(DRIVE, id + 1 + i, target + 1 + i), DriveFields(s, id, i), DriveLines(s, id, target, i));
    b := PrintLines(DriveLines(s, id, target, i));
  }

  // Each line with its newline, into the builder.
  method PrintLines(l: seq<string>) returns (b: string)
    ensures b == Printed(l)
  {
    b := "";
    var k := 0;
    while k < |l|
      invariant k <= |l| && b == Printed(l[..k])
    {
      assert l[..k + 1][..k] == l[..k];
      b := b + l[k] + "\n";
      k := k + 1;
    }
    assert l[..k] == l;
  }

  lemma {:induction false} JoinAppend(a: seq<string>, b: seq<string>)
    requires a != [] && b != []
    ensures Join(a + b) == Join(a) + "\n" + Join(b)
  {
    if |a| == 1 {
      assert (a + b)[1..] == b;
    } else {
      assert (a + b)[1..] == a[1..] + b;
      JoinAppend(a[1..], b);
      assert Join(a + b) == a[0] + "\n" + (Join(a[1..]) + "\n" + Join(b));
    }
  }

  // CreateLibrary's printer: the library block, then one block a drive.
  method PrintBlocks(s: Spec, id: nat, target: nat) returns (b: string)
    ensures b == "\n" + Join(NewLines(s, id, target, |s.driveSerials|))
  {
    hide LibraryBlock, DriveBlock, Join;
    b := PrintLibrary(s, id, target);
    b := "\n" + b;
    var i := 0;
    while i < |s.driveSerials|
      invariant i <= |s.driveSerials| && b == "\n" + Join(NewLines(s, id, target, i))
    {
      var drive := PrintDrive(s, id, target, i);
      Blocks(s, id, target, i);
      JoinAppend(NewLines(s, id, target, i), DriveBlock(s, id, target, i));
      b := b + "\n" + drive;
      i := i + 1;
    }
  }

  lemma {:induction false} Blocks(s: Spec, id: nat, target: nat, n: nat)
    requires n <= |s.driveSerials|
    ensures NewLines(s, id, target, n) != [] && (n < |s.driveSerials| ==> DriveBlock(s, id, target, n) != [])
  {
    if n > 0 { Blocks(s, id, target, n - 1); }
  }

  class LibraryConf {
    var text: string

    constructor (initial: string)
      ensures text == initial
    {
      text := initial;
    }

    // CreateLibrary. The serials drawn and the fate of each file operation are the
    // surroundings'; a failure after the rename leaves the library declared.
    method CreateLibrary(q: Request, homeThere: bool, model: Option<Model>, drive: Option<DriveModel>,
                         drawn: string, driveSerials: seq<string>, io: Io)
      returns (r: Outcome, ghost s: Spec)
      requires q.drives == |driveSerials|
      modifies this
      ensures r.Made? ==>
                && homeThere && model.Some? && model.value.creatable
                && drive.Some? && drive.value.family == model.value.family
      ensures r.Made? ==> 1 <= q.drives <= model.value.maxDrives
      ensures r.Made? ==>
                && r.serial == (if q.serial == "" then drawn else q.serial)
                && (q.serial != "" ==> !SerialDeclared(Assemble(Devices(old(text))), q.serial))
      ensures r.Made? || text != old(text) ==>
                && model.Some? && drive.Some?
                && s == Spec(model.value.vendor, q.product, if q.serial == "" then drawn else q.serial, q.home,
                             drive.value.vendor, q.driveProduct, driveSerials)
                && Step(old(text), text, Create(s))
      ensures r.Made? ==>
                exists target ::
                  && Allocates(Assemble(Devices(old(text))), r.id, target)
                  && text == Created(old(text), s, r.id, target)
      ensures r.Refused? ==> text == old(text)
      ensures r == Refused(NoHome) <==> !homeThere
      ensures r == Refused(NotCreatable) <==> homeThere && (model.None? || !model.value.creatable)
      ensures r == Refused(BadDriveCount) <==>
                homeThere && model.Some? && model.value.creatable && !(1 <= q.drives <= model.value.maxDrives)
      ensures r == Refused(WrongDrive) <==>
                homeThere && model.Some? && model.value.creatable && 1 <= q.drives <= model.value.maxDrives
                && (drive.None? || drive.value.family != model.value.family)
      ensures r == Refused(SerialTaken) <==>
                && homeThere && model.Some? && model.value.creatable && 1 <= q.drives <= model.value.maxDrives
                && drive.Some? && drive.value.family == model.value.family && io.readable
                && q.serial != "" && SerialDeclared(Assemble(Devices(old(text))), q.serial)
      // Written out on the file: a fresh id past every declared one, and a serial no
      // declared library has.
      ensures r.Made? ==>
                && r.id > 0 && r.id % 10 == 0
                && forall l :: Lib(l) in Devices(old(text)) ==> l.id < r.id && (q.serial == "" || l.serial != q.serial)
      ensures r == Refused(SerialTaken) ==> exists l :: Lib(l) in Devices(old(text)) && l.serial == q.serial
      ensures r != Refused(NotDeclared) && !r.Gone?
      ensures r == Failed ==> io != Io(true, true, true) && (text == old(text) <==> !io.readable || !io.written)
      ensures Good(old(text)) && (text != old(text) ==> PrintableSpec(s)) ==> Good(text)
    {
      hide Good, PrintableSpec, Allocates, Assemble, Created, Split, Scan, SerialDeclared, Devices, Step;
      s := Spec("", "", "", "", "", "", []);
      if !homeThere { return Refused(NoHome), s; }
      if model.None? || !model.value.creatable { return Refused(NotCreatable), s; }
      if q.drives < 1 || q.drives > model.value.maxDrives { return Refused(BadDriveCount), s; }
      if drive.None? || drive.value.family != model.value.family { return Refused(WrongDrive), s; }
      if !io.readable { return Failed, s; }
      r, s := Declare(q, model.value, drive.value, drawn, driveSerials, io);
    }

    // From the readable file on: allocate, settle the serial, print and append.
    method Declare(q: Request, model: Model, drive: DriveModel, drawn: string, driveSerials: seq<string>, io: Io)
      returns (r: Outcome, ghost s: Spec)
      requires q.drives == |driveSerials| && io.readable
      modifies this
      ensures r.Made? || r == Failed || r == Refused(SerialTaken)
      ensures s == Spec(model.vendor, q.product, if q.serial == "" then drawn else q.serial, q.home,
                        drive.vendor, q.driveProduct, driveSerials)
      ensures r.Made? || text != old(text) ==> Step(old(text), text, Create(s))
      ensures r.Made? ==>
                && r.serial == s.serial && (exists target ::
                  && Allocates(Assemble(Devices(old(text))), r.id, target)
                  && text == Created(old(text), s, r.id, target))
      ensures r.Made? ==>
                && r.id > 0 && r.id % 10 == 0
                && forall l :: Lib(l) in Devices(old(text)) ==> l.id < r.id && (q.serial == "" || l.serial != q.serial)
      ensures r == Refused(SerialTaken) <==> q.serial != "" && SerialDeclared(Assemble(Devices(old(text))), q.serial)
      ensures r == Refused(SerialTaken) ==>
                text == old(text) && exists l :: Lib(l) in Devices(old(text)) && l.serial == q.serial
      ensures r == Failed ==> io != Io(true, true, true) && (text == old(text) <==> !io.written)
      ensures Good(old(text)) && (text != old(text) ==> PrintableSpec(s)) ==> Good(text)
    {
      hide Good, PrintableSpec, Allocates, Assemble, Created, Split, Scan, SerialDeclared, Devices;
      var libs := ParseMhvtlConf(Split(text));
      DevicesOf(text);
      var libID, nextTarget := Allocate(libs);
      Facts(Devices(text), libs, libID, q.serial);
      var serial := if q.serial == "" then drawn else q.serial;
      var spec := Spec(model.vendor, q.product, serial, q.home, drive.vendor, q.driveProduct, driveSerials);
      s := spec;
      if q.serial != "" {
        var taken := HasSerial(libs, serial);
        if taken { return Refused(SerialTaken), s; }
      }
      var b := PrintBlocks(spec, libID, nextTarget);
      if !io.written { return Failed, s; }
      AppendIsCreate(text, b, spec, libID, nextTarget);
      if Good(text) && PrintableSpec(spec) {
        CreateGood(text, spec, libID, nextTarget);
      }
      assert |b| > 0;
      text := text + b;
      if !io.beside { return Failed, s; }
      r := Made(libID, serial);
    }

    // RemoveLibrary.
    method RemoveLibrary(id: nat, io: Io) returns (r: Outcome)
      modifies this
      ensures r == Failed <==> !io.readable || (!io.written && IdDeclared(Assemble(Devices(old(text))), id))
      ensures r.Gone? || r == Refused(NotDeclared) || r == Failed
      ensures r.Gone? ==> IdDeclared(Assemble(Devices(old(text))), id) && text == Removed(old(text), id)
      ensures r == Refused(NotDeclared) ==> !IdDeclared(Assemble(Devices(old(text))), id)
      ensures !r.Gone? ==> text == old(text)
      ensures r.Gone? ==> forall x, d :: x in Assemble(Devices(old(text))) && x.lib.id == id && d in x.drives ==>
                d.queue in r.queues
      ensures r.Gone? ==> forall q :: q in r.queues ==>
                exists x, d :: x in Assemble(Devices(old(text))) && x.lib.id == id && d in x.drives && d.queue == q
      ensures Good(old(text)) ==> Good(text)
    {
      hide Good, Assemble, Removed, Split, Scan, Remove, Join;
      if !io.readable { return Failed; }
      var libs := ParseMhvtlConf(Split(text));
      DevicesOf(text);
      var found, queues := QueuesOf(libs, id);
      if !found { return Refused(NotDeclared); }
      var out := RemoveBlocks(Split(text), Decimal(id));
      if !io.written { return Failed; }
      RemovedIs(text, id);
      if Good(text) { RemoveGood(text, id); }
      text := Join(out);
      r := Gone(queues);
    }
  }

  // Every declared library is on the list, and nothing else.
  lemma ListedLibs(devs: seq<Device>, libs: seq<Declared>)
    requires libs == Assemble(devs)
    ensures forall l :: Lib(l) in devs ==> exists x :: x in libs && x.lib == l
    ensures forall x :: x in libs ==> Lib(x.lib) in devs
  {
    hide Assemble, Attached;
    forall l | Lib(l) in devs ensures exists x :: x in libs && x.lib == l {
      AssembleIn(devs, Attached(l, Drives(devs)));
      AttachedLib(l, Drives(devs));
    }
    forall x | x in libs ensures Lib(x.lib) in devs { AssembleIn(devs, x); }
  }

  // What the list says of the file.
  lemma Facts(devs: seq<Device>, libs: seq<Declared>, id: nat, serial: string)
    requires libs == Assemble(devs) && forall x :: x in libs ==> x.lib.id < id
    ensures SerialDeclared(libs, serial) <==> exists l :: Lib(l) in devs && l.serial == serial
    ensures forall l :: Lib(l) in devs ==> l.id < id
  {
    hide Assemble;
    ListedLibs(devs, libs);
    forall l | Lib(l) in devs ensures l.id < id && (l.serial == serial ==> SerialDeclared(libs, serial)) {
      var x :| x in libs && x.lib == l;
    }
  }

  lemma AppendIsCreate(text: string, b: string, s: Spec, id: nat, target: nat)
    requires b == "\n" + Join(NewLines(s, id, target, |s.driveSerials|))
    ensures text + b == Created(text, s, id, target)
  {
  }

  lemma RemovedIs(text: string, id: nat)
    ensures Removed(text, id) == Join(Remove(Split(text), Decimal(id)))
  {
  }

  method HasSerial(libs: seq<Declared>, serial: string) returns (taken: bool)
    ensures taken == SerialDeclared(libs, serial)
    ensures taken <==> exists j :: 0 <= j < |libs| && libs[j].lib.serial == serial
  {
    var k := 0;
    while k < |libs|
      invariant k <= |libs| && forall j :: 0 <= j < k ==> libs[j].lib.serial != serial
    {
      if libs[k].lib.serial == serial {
        assert libs[k] in libs;
        return true;
      }
      k := k + 1;
    }
    taken := false;
  }

  // The removal's first pass: is the library declared, and which drive instances go.
  method QueuesOf(libs: seq<Declared>, id: nat) returns (found: bool, queues: seq<nat>)
    ensures found == IdDeclared(libs, id)
    ensures forall x, d :: x in libs && x.lib.id == id && d in x.drives ==> d.queue in queues
    ensures forall q :: q in queues ==> exists x, d :: x in libs && x.lib.id == id && d in x.drives && d.queue == q
  {
    found, queues := false, [];
    var k := 0;
    while k < |libs|
      invariant k <= |libs| && found == IdDeclared(libs[..k], id)
      invariant forall x, d :: x in libs[..k] && x.lib.id == id && d in x.drives ==> d.queue in queues
      invariant forall q :: q in queues ==> exists x, d :: x in libs && x.lib.id == id && d in x.drives && d.queue == q
    {
      ghost var before := queues;
      if libs[k].lib.id == id {
        found := true;
        var mine := QueuesIn(libs[k].drives);
        queues := queues + mine;
        assert libs[k] in libs;
      }
      assert libs[..k + 1] == libs[..k] + [libs[k]];
      k := k + 1;
    }
    assert libs[..k] == libs;
  }

  method QueuesIn(drives: seq<Drive>) returns (queues: seq<nat>)
    ensures |queues| == |drives| && forall i :: 0 <= i < |drives| ==> queues[i] == drives[i].queue
    ensures forall d :: d in drives ==> d.queue in queues
  {
    queues := [];
    for i := 0 to |drives|
      invariant |queues| == i && forall j :: 0 <= j < i ==> queues[j] == drives[j].queue
    {
      queues := queues + [drives[i].queue];
    }
    forall d | d in drives ensures d.queue in queues {
      var i :| 0 <= i < |drives| && drives[i] == d;
      assert queues[i] == d.queue;
    }
  }
}
