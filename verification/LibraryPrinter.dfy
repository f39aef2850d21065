// libcreate.go's block printer, and what the parser and the remover make of it.
module LibraryPrinter {
  import opened Options
  import opened Text
  import opened ConfLines
  import opened DeviceConf
  import opened ConfEdits

  // The values CreateLibrary prints: catalog entries, the home directory and the
  // serials (randomly drawn or adopted).
  datatype Spec = Spec(vendor: string, product: string, serial: string, home: string,
                       driveVendor: string, driveProduct: string, driveSerials: seq<string>)

  predicate Printable(v: string) {
    Trimmed(v) && OneLine(v)
  }

  predicate PrintableSpec(s: Spec) {
    && Printable(s.vendor) && Printable(s.product) && Printable(s.serial) && Printable(s.home)
    && Printable(s.driveVendor) && Printable(s.driveProduct)
    && forall i :: 0 <= i < |s.driveSerials| ==> Printable(s.driveSerials[i])
  }

  function FieldText(f: Pair): string {
    " " + f.key + ": " + f.val
  }

  function HeaderText(tag: string, id: nat, target: nat): string {
    tag + " " + Decimal(id) + " CHANNEL: 00 TARGET: " + Pad2(target) + " LUN: 00"
  }

  function FieldTexts(fs: seq<Pair>): (ls: seq<string>)
    ensures |ls| == |fs| && forall i :: 0 <= i < |fs| ==> ls[i] == FieldText(fs[i])
  {
    seq(|fs|, i requires 0 <= i < |fs| => FieldText(fs[i]))
  }

  function LibraryFields(s: Spec, id: nat): seq<Pair> {
    [ Pair("Vendor identification", s.vendor),
      Pair("Product identification", s.product),
      Pair("Unit serial number", s.serial),
      Pair("NAA", "30:00:00:00:00:00:00:" + Pad2(id)),
      Pair("Home directory", s.home),
      Pair("PERSIST", "True"),
      Pair("Backoff", "400"),
      Pair("Product revision level", "D.00") ]
  }

  function DriveFields(s: Spec, id: nat, i: nat): seq<Pair>
    requires i < |s.driveSerials|
  {
    [ Pair("Library ID", Decimal(id) + " Slot: " + Pad2(i + 1)),
      Pair("Vendor identification", s.driveVendor),
      Pair("Product identification", s.driveProduct),
      Pair("Product revision level", "H991"),
      Pair("Unit serial number", s.driveSerials[i]),
      Pair("NAA", "50:05:07:60:00:00:00:" + Pad2(id + 1 + i)),
      Pair("Compression", "factor 1 enabled 0"),
      Pair("Compression type", "lzo"),
      Pair("Backoff", "400") ]
  }

  // A printed block as the parser meets it: the blank line that separates it from
  // the next block, or the final newline, belongs to it.
  function LibraryBlock(s: Spec, id: nat, target: nat): seq<string> {
    [HeaderText(LIBRARY, id, target)] + Body(LibraryFields(s, id))
  }

  function DriveBlock(s: Spec, id: nat, target: nat, i: nat): seq<string>
    requires i < |s.driveSerials|
  {
    [HeaderText(DRIVE, id + 1 + i, target + 1 + i)] + Body(DriveFields(s, id, i))
  }

  // The lines CreateLibrary appends, n drives printed so far.
  function NewLines(s: Spec, id: nat, target: nat, n: nat): seq<string>
    requires n <= |s.driveSerials|
  {
    if n == 0 then LibraryBlock(s, id, target)
    else NewLines(s, id, target, n - 1) + DriveBlock(s, id, target, n - 1)
  }

  function NewLibrary(s: Spec, id: nat, target: nat): Library {
    Library(id, target, s.serial, s.product, s.home)
  }

  function NewDrive(s: Spec, id: nat, target: nat, i: nat): Drive
    requires i < |s.driveSerials|
  {
    Drive(id + 1 + i, target + 1 + i, id, i + 1, s.driveSerials[i], s.driveProduct)
  }

  function NewDevices(s: Spec, id: nat, target: nat, n: nat): seq<Device>
    requires n <= |s.driveSerials|
  {
    if n == 0 then [Lib(NewLibrary(s, id, target))]
    else NewDevices(s, id, target, n - 1) + [Drv(NewDrive(s, id, target, n - 1))]
  }

  // ---------------------------------------------------------------- header lines ----

  lemma DigitsHold(s: string, c: char)
    requires Digits(s) && !IsDigit(c)
    ensures c !in s
  {
  }

  lemma HeaderReads(tag: string, id: nat, target: nat)
    requires tag == LIBRARY || tag == DRIVE
    ensures var line := HeaderText(tag, id, target);
            && Header(tag, line) == Some(Decimal(id))
            && (tag == DRIVE ==> Header(LIBRARY, line) == None)
            && IsHeader(line)
  {
    hide Header, Decimal, Pad2;
    var line := HeaderText(tag, id, target);
    var rest := " CHANNEL: 00 TARGET: " + Pad2(target) + " LUN: 00";
    assert line == tag + " " + Decimal(id) + rest;
    HeaderPrinted(tag, Decimal(id), rest);
    if tag == DRIVE {
      assert line[0] == 'D';
      HeaderOther(LIBRARY, line);
    }
  }

  lemma NoTarget(tag: string, d: string)
    requires (tag == LIBRARY || tag == DRIVE) && Digits(d)
    ensures var pre := tag + " " + d + " CHANNEL: 00 "; 'T' !in pre && pre[|pre| - 1] == ' '
  {
    DigitsHold(d, 'T');
    assert 'T' !in LIBRARY && 'T' !in DRIVE && 'T' !in " " && 'T' !in " CHANNEL: 00 ";
  }

  lemma TargetReads(tag: string, id: nat, target: nat)
    requires tag == LIBRARY || tag == DRIVE
    ensures TargetOf(HeaderText(tag, id, target)) == target
  {
    hide Target, Decimal, Pad2;
    var line := HeaderText(tag, id, target);
    var pre := tag + " " + Decimal(id) + " CHANNEL: 00 ";
    NoTarget(tag, Decimal(id));
    assert " CHANNEL: 00 TARGET: " == " CHANNEL: 00 " + "TARGET: ";
    assert line == pre + ("TARGET: " + Pad2(target) + " LUN: 00");
    TargetPrinted(pre, Pad2(target), " LUN: 00");
    NumberPad2(target);
  }

  lemma HeaderPlain(tag: string, id: nat, target: nat)
    requires tag == LIBRARY || tag == DRIVE
    ensures DropCR(HeaderText(tag, id, target)) == HeaderText(tag, id, target) && OneLine(HeaderText(tag, id, target))
  {
    hide Decimal, Pad2;
    DigitsHold(Decimal(id), '\n');
    DigitsHold(Pad2(target), '\n');
    assert OneLine(LIBRARY) && OneLine(DRIVE) && OneLine(" ");
    assert OneLine(" CHANNEL: 00 TARGET: ") && OneLine(" LUN: 00");
    var line := HeaderText(tag, id, target);
    assert line[|line| - 1] == " LUN: 00"[7] == '0';
  }

  lemma NewDeviceReads(tag: string, id: nat, target: nat)
    requires tag == LIBRARY || tag == DRIVE
    ensures IsHeader(HeaderText(tag, id, target))
    ensures NewDevice(HeaderText(tag, id, target)) ==
            if tag == LIBRARY then Lib(Library(id, target, "", "", "")) else Drv(Drive(id, target, 0, 0, "", ""))
  {
    hide Header, TargetOf, HeaderText;
    HeaderReads(tag, id, target);
    TargetReads(tag, id, target);
    NumberDecimal(id);
  }

  // ----------------------------------------------------------------- field lines ----

  predicate PlainKey(k: string) {
    Trimmed(k) && KeyChars(k)
  }

  predicate PlainField(f: Pair) {
    PlainKey(f.key) && Printable(f.val)
  }

  lemma FieldReads(f: Pair)
    requires PlainField(f)
    ensures var line := FieldText(f);
            && DropCR(line) == line && OneLine(line) && !IsHeader(line) && Field(line) == Some(f)
            && LibraryRef(line) == (if f.key == "Library ID" then LibSlot(f.val) else None)
  {
    hide Field, Header, LibSlot;
    var line := FieldText(f);
    FieldPrinted(f.key, f.val);
    assert line[0] == ' ' && line[|line| - 1] == f.val[|f.val| - 1];
    HeaderOther(LIBRARY, line);
    HeaderOther(DRIVE, line);
    assert OneLine(f.key);
  }

  lemma PadPrintable(pre: string, n: nat)
    requires pre != "" && !IsSpace(pre[0]) && OneLine(pre)
    ensures Printable(pre + Pad2(n))
  {
    hide Pad2;
    var v := pre + Pad2(n);
    assert v[0] == pre[0] && v[|v| - 1] == Pad2(n)[|Pad2(n)| - 1];
    DigitsHold(Pad2(n), '\n');
  }

  lemma LibraryIDPrintable(id: nat, slot: nat)
    ensures Printable(Decimal(id) + " Slot: " + Pad2(slot))
    ensures LibSlot(Decimal(id) + " Slot: " + Pad2(slot)) == Some(Pair(Decimal(id), Pad2(slot)))
  {
    hide Decimal, Pad2;
    var pre := Decimal(id) + " Slot: ";
    DigitsHold(Decimal(id), '\n');
    assert pre[0] == Decimal(id)[0];
    PadPrintable(pre, slot);
    LibSlotPrinted(Decimal(id), Pad2(slot));
  }

  lemma IdentityKeysPlain()
    ensures PlainKey("Vendor identification") && PlainKey("Product identification")
  {
  }

  lemma KeysPlain()
    ensures PlainKey("Vendor identification") && PlainKey("Product identification")
    ensures PlainKey("Unit serial number") && PlainKey("NAA") && PlainKey("Home directory")
    ensures PlainKey("PERSIST") && PlainKey("Backoff") && PlainKey("Product revision level")
  {
    IdentityKeysPlain();
    RevisionKeyPlain();
  }

  lemma RevisionKeyPlain()
    ensures PlainKey("Product revision level") && PlainKey("PERSIST")
  {
  }

  lemma DriveKeysPlain()
    ensures PlainKey("Library ID") && PlainKey("Compression") && PlainKey("Compression type")
  {
  }

  lemma ValuesPrintable()
    ensures Printable("True") && Printable("400") && Printable("D.00")
    ensures Printable("H991") && Printable("factor 1 enabled 0") && Printable("lzo")
  {
  }

  lemma LibraryFieldsPlain(s: Spec, id: nat, k: nat)
    requires PrintableSpec(s) && k < |LibraryFields(s, id)|
    ensures PlainField(LibraryFields(s, id)[k])
  {
    hide PlainKey, Printable, Pad2;
    KeysPlain();
    ValuesPrintable();
    PadPrintable("30:00:00:00:00:00:00:", id) by { assert OneLine("30:00:00:00:00:00:00:"); }
  }

  lemma NaaPrintable(n: nat)
    ensures Printable("50:05:07:60:00:00:00:" + Pad2(n))
  {
    PadPrintable("50:05:07:60:00:00:00:", n);
  }

  lemma DriveFieldsPlain(s: Spec, id: nat, i: nat, k: nat)
    requires PrintableSpec(s) && i < |s.driveSerials| && k < |DriveFields(s, id, i)|
    ensures PlainField(DriveFields(s, id, i)[k])
  {
    hide PlainKey, Printable, Pad2, Decimal;
    KeysPlain();
    DriveKeysPlain();
    ValuesPrintable();
    if k == 0 {
      LibraryIDPrintable(id, i + 1);
    } else if k == 5 {
      NaaPrintable(id + 1 + i);
    }
  }

  // ---------------------------------------------------------------- whole blocks ----

  function Body(fs: seq<Pair>): (ls: seq<string>)
    ensures |ls| == |fs| + 1 && ls[|fs|] == "" && forall k :: 0 <= k < |fs| ==> ls[k] == FieldText(fs[k])
  {
    FieldTexts(fs) + [""]
  }

  predicate AllPlainFields(fs: seq<Pair>) {
    forall k :: 0 <= k < |fs| ==> PlainField(fs[k])
  }

  lemma BlankReads()
    ensures !IsHeader("") && LibraryRef("") == None && Field("") == None && DropCR("") == "" && OneLine("")
  {
  }

  lemma BodyReads(fs: seq<Pair>, k: nat)
    requires AllPlainFields(fs) && k <= |fs|
    ensures var line := Body(fs)[k]; DropCR(line) == line && OneLine(line) && !IsHeader(line)
  {
    hide PlainField, IsHeader, FieldText, DropCR, OneLine;
    if k < |fs| { FieldReads(fs[k]); } else { BlankReads(); }
  }

  // The device after the first k fields of a printed block.
  lemma PrintedStep(cur: Device, fs: seq<Pair>, k: nat, sofar: Device)
    requires AllPlainFields(fs) && k < |fs| && Fields(cur, Body(fs)[..k]) == sofar
    ensures Fields(cur, Body(fs)[..k + 1]) == SetField(sofar, fs[k])
  {
    hide PlainField, SetField, FieldText, Field, Body;
    var body := Body(fs);
    assert body[..k + 1][..k] == body[..k] && body[..k + 1][k] == FieldText(fs[k]);
    FieldReads(fs[k]);
  }

  lemma PrintedBlank(cur: Device, fs: seq<Pair>)
    ensures Fields(cur, Body(fs)) == Fields(cur, Body(fs)[..|fs|])
  {
    hide FieldText;
    BlankReads();
  }

  predicate Silent(k: string) {
    k != "Unit serial number" && k != "Product identification" && k != "Library ID" && k != "Home directory"
  }

  lemma SilentKeys()
    ensures Silent("Vendor identification") && Silent("NAA") && Silent("PERSIST") && Silent("Backoff")
    ensures Silent("Product revision level") && Silent("Compression") && Silent("Compression type")
  {
  }

  lemma SetSilent(cur: Device, f: Pair)
    requires Silent(f.key)
    ensures SetField(cur, f) == cur
  {
  }

  lemma SetNamed(v: string, l: Library, d: Drive)
    ensures SetField(Lib(l), Pair("Unit serial number", v)) == Lib(l.(serial := v))
    ensures SetField(Lib(l), Pair("Product identification", v)) == Lib(l.(product := v))
    ensures SetField(Lib(l), Pair("Home directory", v)) == Lib(l.(home := v))
    ensures SetField(Drv(d), Pair("Unit serial number", v)) == Drv(d.(serial := v))
    ensures SetField(Drv(d), Pair("Product identification", v)) == Drv(d.(product := v))
  {
  }

  lemma SetLibrary(d: Drive, id: nat, slot: nat)
    ensures SetField(Drv(d), Pair("Library ID", Decimal(id) + " Slot: " + Pad2(slot)))
            == Drv(d.(library := id, slot := slot))
  {
    hide LibSlot;
    LibraryIDPrintable(id, slot);
    NumberDecimal(id);
    NumberPad2(slot);
  }

  lemma LibraryFieldsRead(s: Spec, id: nat, target: nat)
    requires PrintableSpec(s)
    ensures Fields(Lib(Library(id, target, "", "", "")), Body(LibraryFields(s, id))) == Lib(NewLibrary(s, id, target))
  {
    hide PlainField, SetField, Fields, Silent, Body, Pad2, PrintableSpec;
    var fs := LibraryFields(s, id);
    forall k | 0 <= k < |fs| ensures PlainField(fs[k]) { LibraryFieldsPlain(s, id, k); }
    SilentKeys();
    var l := Library(id, target, "", "", "");
    var d := Drive(0, 0, 0, 0, "", "");
    FieldsNone(Lib(l), Body(fs));
    PrintedStep(Lib(l), fs, 0, Lib(l));
    SetSilent(Lib(l), fs[0]);
    PrintedStep(Lib(l), fs, 1, Lib(l));
    SetNamed(s.product, l, d);
    var l2 := l.(product := s.product);
    PrintedStep(Lib(l), fs, 2, Lib(l2));
    SetNamed(s.serial, l2, d);
    var l3 := l2.(serial := s.serial);
    PrintedStep(Lib(l), fs, 3, Lib(l3));
    SetSilent(Lib(l3), fs[3]);
    PrintedStep(Lib(l), fs, 4, Lib(l3));
    SetNamed(s.home, l3, d);
    var l4 := l3.(home := s.home);
    PrintedStep(Lib(l), fs, 5, Lib(l4));
    SetSilent(Lib(l4), fs[5]);
    PrintedStep(Lib(l), fs, 6, Lib(l4));
    SetSilent(Lib(l4), fs[6]);
    PrintedStep(Lib(l), fs, 7, Lib(l4));
    SetSilent(Lib(l4), fs[7]);
    PrintedBlank(Lib(l), fs);
  }

  lemma DriveFieldsRead(s: Spec, id: nat, i: nat, queue: nat, target: nat)
    requires PrintableSpec(s) && i < |s.driveSerials|
    ensures Fields(Drv(Drive(queue, target, 0, 0, "", "")), Body(DriveFields(s, id, i)))
            == Drv(Drive(queue, target, id, i + 1, s.driveSerials[i], s.driveProduct))
  {
    hide PlainField, SetField, Fields, Silent, Body, Pad2, Decimal, PrintableSpec;
    var fs := DriveFields(s, id, i);
    forall k | 0 <= k < |fs| ensures PlainField(fs[k]) { DriveFieldsPlain(s, id, i, k); }
    SilentKeys();
    var l := Library(0, 0, "", "", "");
    var d := Drive(queue, target, 0, 0, "", "");
    FieldsNone(Drv(d), Body(fs));
    PrintedStep(Drv(d), fs, 0, Drv(d));
    SetLibrary(d, id, i + 1);
    var d1 := d.(library := id, slot := i + 1);
    PrintedStep(Drv(d), fs, 1, Drv(d1));
    SetSilent(Drv(d1), fs[1]);
    PrintedStep(Drv(d), fs, 2, Drv(d1));
    SetNamed(s.driveProduct, l, d1);
    var d2 := d1.(product := s.driveProduct);
    PrintedStep(Drv(d), fs, 3, Drv(d2));
    SetSilent(Drv(d2), fs[3]);
    PrintedStep(Drv(d), fs, 4, Drv(d2));
    SetNamed(s.driveSerials[i], l, d2);
    var d3 := d2.(serial := s.driveSerials[i]);
    PrintedStep(Drv(d), fs, 5, Drv(d3));
    SetSilent(Drv(d3), fs[5]);
    PrintedStep(Drv(d), fs, 6, Drv(d3));
    SetSilent(Drv(d3), fs[6]);
    PrintedStep(Drv(d), fs, 7, Drv(d3));
    SetSilent(Drv(d3), fs[7]);
    PrintedStep(Drv(d), fs, 8, Drv(d3));
    SetSilent(Drv(d3), fs[8]);
    PrintedBlank(Drv(d), fs);
  }

  // A printed block, header tag and fields, as the parser and the line splitter see it.
  lemma PrintedBlock(tag: string, id: nat, target: nat, fs: seq<Pair>)
    requires (tag == LIBRARY || tag == DRIVE) && AllPlainFields(fs)
    ensures var buf := [HeaderText(tag, id, target)] + Body(fs);
            && Block(buf) && (forall i :: 0 <= i < |buf| ==> OneLine(buf[i]))
            && ParseBlock(buf) == Fields(NewDevice(HeaderText(tag, id, target)), Body(fs))
  {
    hide HeaderText, Body, Fields, NewDevice, DropCR, OneLine, IsHeader, AllPlainFields;
    var buf := [HeaderText(tag, id, target)] + Body(fs);
    HeaderReads(tag, id, target);
    HeaderPlain(tag, id, target);
    NewDeviceReads(tag, id, target);
    forall i | 0 <= i < |buf| ensures DropCR(buf[i]) == buf[i] && OneLine(buf[i]) && (i > 0 ==> !IsHeader(buf[i])) {
      if i > 0 { BodyReads(fs, i - 1); }
    }
    assert buf[1..] == Body(fs);
  }

  lemma LibraryBlockReads(s: Spec, id: nat, target: nat)
    requires PrintableSpec(s)
    ensures var buf := LibraryBlock(s, id, target);
            && Block(buf) && (forall i :: 0 <= i < |buf| ==> OneLine(buf[i]))
            && ParseBlock(buf) == Lib(NewLibrary(s, id, target))
  {
    hide PlainField, Fields, Body, HeaderText, NewDevice, Block, ParseBlock, PrintableSpec, LibraryFields;
    var fs := LibraryFields(s, id);
    forall k | 0 <= k < |fs| ensures PlainField(fs[k]) { LibraryFieldsPlain(s, id, k); }
    PrintedBlock(LIBRARY, id, target, fs);
    NewDeviceReads(LIBRARY, id, target);
    LibraryFieldsRead(s, id, target);
  }

  lemma DriveBlockReads(s: Spec, id: nat, target: nat, i: nat)
    requires PrintableSpec(s) && i < |s.driveSerials|
    ensures var buf := DriveBlock(s, id, target, i);
            && Block(buf) && (forall k :: 0 <= k < |buf| ==> OneLine(buf[k]))
            && ParseBlock(buf) == Drv(NewDrive(s, id, target, i))
  {
    hide PlainField, Fields, Body, HeaderText, NewDevice, Block, ParseBlock, PrintableSpec, DriveFields;
    var fs := DriveFields(s, id, i);
    forall k | 0 <= k < |fs| ensures PlainField(fs[k]) { DriveFieldsPlain(s, id, i, k); }
    PrintedBlock(DRIVE, id + 1 + i, target + 1 + i, fs);
    NewDeviceReads(DRIVE, id + 1 + i, target + 1 + i);
    DriveFieldsRead(s, id, i, id + 1 + i, target + 1 + i);
  }
}
