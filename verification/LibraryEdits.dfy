// Creating and removing a library as edits of the lines of device.conf: the two
// undo each other, commute with parsing and keep the file well-formed.
module LibraryEdits {
  import opened Options
  import opened Text
  import opened ConfLines
  import opened DeviceConf
  import opened ConfEdits
  import opened LibraryPrinter

  // ------------------------------------------------------- the new lines, parsed ----

  lemma {:induction false} NewLinesPlain(s: Spec, id: nat, target: nat, n: nat)
    requires PrintableSpec(s) && n <= |s.driveSerials|
    ensures var ls := NewLines(s, id, target, n);
            ls != [] && IsHeader(ls[0]) && AllPlain(ls) && forall i :: 0 <= i < |ls| ==> OneLine(ls[i])
  {
    hide PrintableSpec, LibraryBlock, DriveBlock, ParseBlock, IsHeader, OneLine, DropCR;
    if n == 0 {
      LibraryBlockReads(s, id, target);
    } else {
      NewLinesPlain(s, id, target, n - 1);
      DriveBlockReads(s, id, target, n - 1);
    }
  }

  lemma {:induction false} NewLinesParse(s: Spec, id: nat, target: nat, n: nat)
    requires PrintableSpec(s) && n <= |s.driveSerials|
    ensures Scan(None, NewLines(s, id, target, n)) == NewDevices(s, id, target, n)
  {
    hide PrintableSpec, LibraryBlock, DriveBlock, ParseBlock, IsHeader, DropCR;
    if n == 0 {
      var buf := LibraryBlock(s, id, target);
      LibraryBlockReads(s, id, target);
      ScanBlock(buf, []);
      assert buf + [] == buf;
    } else {
      var buf := DriveBlock(s, id, target, n - 1);
      NewLinesParse(s, id, target, n - 1);
      DriveBlockReads(s, id, target, n - 1);
      ScanBlock(buf, []);
      assert buf + [] == buf;
      ScanSplits(None, NewLines(s, id, target, n - 1), buf);
    }
  }

  // Editing commutes with parsing: the old devices, then the new library and its
  // drives in slot order. Whatever the file holds.
  lemma ParseAfterCreate(lines: seq<string>, s: Spec, id: nat, target: nat)
    requires PrintableSpec(s)
    ensures Scan(None, lines + NewLines(s, id, target, |s.driveSerials|))
            == Scan(None, lines) + NewDevices(s, id, target, |s.driveSerials|)
  {
    hide PrintableSpec, Scan, IsHeader, DropCR;
    NewLinesPlain(s, id, target, |s.driveSerials|);
    NewLinesParse(s, id, target, |s.driveSerials|);
    ScanSplits(None, lines, NewLines(s, id, target, |s.driveSerials|));
  }

  // --------------------------------------------------- the new lines, removed again ----

  lemma {:induction false} DroppedAnyhow(b1: seq<string>, b2: seq<string>, lines: seq<string>, id: string)
    ensures Rest(b1, true, lines, id) == Rest(b2, true, lines, id)
    decreases |lines|
  {
    hide IsHeader, Refers, HeaderDrops;
    if lines != [] && !IsHeader(lines[0]) {
      DroppedAnyhow(b1 + [lines[0]], b2 + [lines[0]], lines[1..], id);
    }
  }

  lemma {:induction false} DroppedBody(buf: seq<string>, body: seq<string>, id: string)
    requires forall i :: 0 <= i < |body| ==> !IsHeader(body[i])
    ensures Rest(buf, true, body, id) == []
    decreases |body|
  {
    hide IsHeader, Refers, HeaderDrops;
    if body != [] {
      DroppedBody(buf + [body[0]], body[1..], id);
    }
  }

  lemma {:induction false} RestSplits(buf: seq<string>, drop: bool, a: seq<string>, b: seq<string>, id: string)
    requires b == [] || IsHeader(b[0])
    ensures Rest(buf, drop, a + b, id) == Rest(buf, drop, a, id) + Remove(b, id)
    decreases |a|
  {
    hide IsHeader, Refers, HeaderDrops;
    if a == [] {
      assert a + b == b;
    } else {
      assert (a + b)[1..] == a[1..] + b;
      if IsHeader(a[0]) {
        RestSplits([a[0]], HeaderDrops(a[0], id), a[1..], b, id);
      } else {
        RestSplits(buf + [a[0]], drop || Refers(a[0], id), a[1..], b, id);
      }
    }
  }

  // The remover works block by block.
  lemma {:induction false} RemoveSplits(a: seq<string>, b: seq<string>, id: string)
    requires b == [] || IsHeader(b[0])
    ensures Remove(a + b, id) == Remove(a, id) + Remove(b, id)
    decreases |a|
  {
    hide IsHeader, Refers, HeaderDrops, Rest;
    if a == [] {
      assert a + b == b;
    } else {
      assert (a + b)[1..] == a[1..] + b;
      if IsHeader(a[0]) {
        RestSplits([a[0]], HeaderDrops(a[0], id), a[1..], b, id);
      } else {
        RemoveSplits(a[1..], b, id);
        assert [a[0]] + (Remove(a[1..], id) + Remove(b, id)) == [a[0]] + Remove(a[1..], id) + Remove(b, id);
      }
    }
  }

  lemma LibraryBlockGoes(s: Spec, id: nat, target: nat)
    requires PrintableSpec(s)
    ensures Remove(LibraryBlock(s, id, target), Decimal(id)) == []
  {
    hide PrintableSpec, ParseBlock, IsHeader, Header, HeaderText, Body, Decimal, DropCR;
    var buf := LibraryBlock(s, id, target);
    LibraryBlockReads(s, id, target);
    HeaderReads(LIBRARY, id, target);
    DroppedBody([buf[0]], buf[1..], Decimal(id));
  }

  lemma DriveBlockGoes(s: Spec, id: nat, target: nat, i: nat)
    requires PrintableSpec(s) && i < |s.driveSerials|
    ensures Remove(DriveBlock(s, id, target, i), Decimal(id)) == []
  {
    hide PrintableSpec, ParseBlock, IsHeader, Header, HeaderText, LibraryRef, LibSlot, Decimal, Pad2, DropCR, FieldText;
    var buf := DriveBlock(s, id, target, i);
    DriveBlockReads(s, id, target, i);
    HeaderReads(DRIVE, id + 1 + i, target + 1 + i);
    DriveFieldsPlain(s, id, i, 0);
    FieldReads(DriveFields(s, id, i)[0]);
    LibraryIDPrintable(id, i + 1);
    var body := buf[1..];
    assert body[0] == FieldText(DriveFields(s, id, i)[0]);
    assert Refers(body[0], Decimal(id));
    assert Rest([buf[0]], false, body, Decimal(id)) == Rest([buf[0]] + [body[0]], true, body[1..], Decimal(id));
    DroppedBody([buf[0]] + [body[0]], body[1..], Decimal(id));
  }

  lemma {:induction false} NewLinesGo(s: Spec, id: nat, target: nat, n: nat)
    requires PrintableSpec(s) && n <= |s.driveSerials|
    ensures Remove(NewLines(s, id, target, n), Decimal(id)) == []
  {
    hide PrintableSpec, LibraryBlock, DriveBlock, ParseBlock, IsHeader, DropCR, Remove, Decimal;
    if n == 0 {
      LibraryBlockGoes(s, id, target);
    } else {
      NewLinesGo(s, id, target, n - 1);
      DriveBlockReads(s, id, target, n - 1);
      DriveBlockGoes(s, id, target, n - 1);
      RemoveSplits(NewLines(s, id, target, n - 1), DriveBlock(s, id, target, n - 1), Decimal(id));
    }
  }

  // Removing a just-created library takes exactly what it would have taken before.
  lemma RemoveAfterCreate(lines: seq<string>, s: Spec, id: nat, target: nat)
    requires PrintableSpec(s)
    ensures Remove(lines + NewLines(s, id, target, |s.driveSerials|), Decimal(id)) == Remove(lines, Decimal(id))
  {
    hide PrintableSpec, Remove, IsHeader, Decimal;
    NewLinesPlain(s, id, target, |s.driveSerials|);
    NewLinesGo(s, id, target, |s.driveSerials|);
    RemoveSplits(lines, NewLines(s, id, target, |s.driveSerials|), Decimal(id));
  }

  // ------------------------------------------------------------ create, well-formed ----

  lemma {:induction false} WellFormedAppend(at: Place, a: seq<string>, b: seq<string>)
    requires WellFormed(at, a) && WellFormed(Preamble, b) && StartsBlock(b)
    ensures WellFormed(at, a + b)
    decreases |a|
  {
    hide IsHeader, LibraryRef, Header, Canonical, DropCR;
    if a == [] {
      assert a + b == b;
      ClosedAnywhere(at, b);
    } else {
      var line, more := a[0], a[1..];
      assert (a + b)[0] == line && (a + b)[1..] == more + b;
      if IsHeader(line) {
        var next := if Header(LIBRARY, line).Some? then InLibrary else InDrive(false);
        WellFormedAppend(next, more, b);
      } else {
        var next := if LibraryRef(line).Some? && at.InDrive? then InDrive(true) else at;
        WellFormedAppend(next, more, b);
      }
    }
  }

  // A field of another name leaves the reader where it is.
  lemma {:induction false} QuietBody(at: Place, body: seq<string>, k: nat)
    requires k <= |body| && Trace(at, body[..k]) == Some(at)
    requires forall i :: k <= i < |body| ==> DropCR(body[i]) == body[i] && LibraryRef(body[i]) == None
    ensures Trace(at, body) == Some(at)
    decreases |body| - k
  {
    hide LibraryRef, DropCR;
    if k == |body| {
      assert body[..k] == body;
    } else {
      assert body[..k + 1][..k] == body[..k];
      QuietBody(at, body, k + 1);
    }
  }

  lemma QuietField(fs: seq<Pair>, k: nat)
    requires AllPlainFields(fs) && k <= |fs| && (k < |fs| ==> fs[k].key != "Library ID")
    ensures DropCR(Body(fs)[k]) == Body(fs)[k] && LibraryRef(Body(fs)[k]) == None
  {
    hide LibraryRef, DropCR, PlainField, FieldText;
    if k < |fs| { FieldReads(fs[k]); } else { BlankReads(); }
  }

  lemma LibraryKeysQuiet(s: Spec, id: nat, k: nat)
    requires k < |LibraryFields(s, id)|
    ensures LibraryFields(s, id)[k].key != "Library ID"
  {
  }

  lemma DriveKeysQuiet(s: Spec, id: nat, i: nat, k: nat)
    requires i < |s.driveSerials| && 1 <= k < |DriveFields(s, id, i)|
    ensures DriveFields(s, id, i)[k].key != "Library ID"
  {
  }

  lemma CanonicalPrinted(n: nat)
    ensures Canonical(Decimal(n))
  {
    NumberDecimal(n);
  }

  lemma LibraryBlockWellFormed(s: Spec, id: nat, target: nat)
    requires PrintableSpec(s)
    ensures WellFormed(Preamble, LibraryBlock(s, id, target))
  {
    hide PrintableSpec, ParseBlock, Header, HeaderText, Body, Decimal;
    hide DropCR, LibraryRef, LibraryFields, PlainField, Trace, Canonical, Block;
    var fs, buf := LibraryFields(s, id), LibraryBlock(s, id, target);
    LibraryBlockReads(s, id, target);
    HeaderReads(LIBRARY, id, target);
    HeaderPlain(LIBRARY, id, target);
    CanonicalPrinted(id);
    forall k | 0 <= k < |fs| ensures PlainField(fs[k]) { LibraryFieldsPlain(s, id, k); }
    var body := buf[1..];
    assert body == Body(fs);
    forall i | 0 <= i < |body| ensures DropCR(body[i]) == body[i] && LibraryRef(body[i]) == None {
      if i < |fs| { LibraryKeysQuiet(s, id, i); }
      QuietField(fs, i);
    }
    TraceNothing(InLibrary, body);
    QuietBody(InLibrary, body, 0);
    WellFormedBlock(Preamble, buf, []);
    assert buf + [] == buf;
  }

  lemma DriveBlockWellFormed(s: Spec, id: nat, target: nat, i: nat)
    requires PrintableSpec(s) && i < |s.driveSerials|
    ensures WellFormed(Preamble, DriveBlock(s, id, target, i))
  {
    hide PrintableSpec, ParseBlock, Header, HeaderText, Body, Decimal, Pad2;
    hide DropCR, LibraryRef, LibSlot, DriveFields, PlainField, Canonical, Block, FieldText;
    var fs, buf := DriveFields(s, id, i), DriveBlock(s, id, target, i);
    DriveBlockReads(s, id, target, i);
    HeaderReads(DRIVE, id + 1 + i, target + 1 + i);
    HeaderPlain(DRIVE, id + 1 + i, target + 1 + i);
    CanonicalPrinted(id);
    forall k | 0 <= k < |fs| ensures PlainField(fs[k]) { DriveFieldsPlain(s, id, i, k); }
    var body := buf[1..];
    assert body == Body(fs);
    NamedFirst(s, id, i);
    forall k | 1 <= k < |body| ensures DropCR(body[k]) == body[k] && LibraryRef(body[k]) == None {
      if k < |fs| { DriveKeysQuiet(s, id, i, k); }
      QuietField(fs, k);
    }
    NamedBody(body);
    WellFormedBlock(Preamble, buf, []);
    assert buf + [] == buf;
  }

  lemma NamedFirst(s: Spec, id: nat, i: nat)
    requires PrintableSpec(s) && i < |s.driveSerials|
    ensures Trace(InDrive(false), Body(DriveFields(s, id, i))[..1]) == Some(InDrive(true))
  {
    hide PrintableSpec, LibraryRef, LibSlot, Decimal, Pad2, PlainField, Trace, Canonical, DriveFields;
    var fs := DriveFields(s, id, i);
    FirstDriveField(s, id, i);
    DriveFieldsPlain(s, id, i, 0);
    FieldReads(fs[0]);
    LibraryIDPrintable(id, i + 1);
    CanonicalPrinted(id);
    NamedTrace(Body(fs), Pair(Decimal(id), Pad2(i + 1)));
  }

  lemma FirstDriveField(s: Spec, id: nat, i: nat)
    requires i < |s.driveSerials|
    ensures |DriveFields(s, id, i)| == 9
    ensures DriveFields(s, id, i)[0] == Pair("Library ID", Decimal(id) + " Slot: " + Pad2(i + 1))
  {
  }

  lemma NamedTrace(body: seq<string>, p: Pair)
    requires body != [] && DropCR(body[0]) == body[0] && LibraryRef(body[0]) == Some(p) && Canonical(p.key)
    ensures Trace(InDrive(false), body[..1]) == Some(InDrive(true))
  {
    hide LibraryRef, DropCR, Canonical;
    assert body[..1][..0] == [];
  }

  lemma NamedBody(body: seq<string>)
    requires body != [] && Trace(InDrive(false), body[..1]) == Some(InDrive(true))
    requires forall i :: 1 <= i < |body| ==> DropCR(body[i]) == body[i] && LibraryRef(body[i]) == None
    ensures Trace(InDrive(false), body) == Some(InDrive(true))
  {
    hide LibraryRef, DropCR;
    NamedOn(body, 1);
  }

  lemma {:induction false} NamedOn(body: seq<string>, k: nat)
    requires 1 <= k <= |body| && Trace(InDrive(false), body[..k]) == Some(InDrive(true))
    requires forall i :: k <= i < |body| ==> DropCR(body[i]) == body[i] && LibraryRef(body[i]) == None
    ensures Trace(InDrive(false), body) == Some(InDrive(true))
    decreases |body| - k
  {
    hide LibraryRef, DropCR;
    if k == |body| {
      assert body[..k] == body;
    } else {
      assert body[..k + 1][..k] == body[..k];
      NamedOn(body, k + 1);
    }
  }

  lemma {:induction false} NewLinesWellFormed(s: Spec, id: nat, target: nat, n: nat)
    requires PrintableSpec(s) && n <= |s.driveSerials|
    ensures WellFormed(Preamble, NewLines(s, id, target, n))
  {
    hide PrintableSpec, LibraryBlock, DriveBlock, ParseBlock, IsHeader, DropCR, WellFormed;
    if n == 0 {
      LibraryBlockWellFormed(s, id, target);
    } else {
      NewLinesWellFormed(s, id, target, n - 1);
      DriveBlockReads(s, id, target, n - 1);
      DriveBlockWellFormed(s, id, target, n - 1);
      WellFormedAppend(Preamble, NewLines(s, id, target, n - 1), DriveBlock(s, id, target, n - 1));
    }
  }

  lemma CreateWellFormed(lines: seq<string>, s: Spec, id: nat, target: nat)
    requires PrintableSpec(s) && WellFormed(Preamble, lines)
    ensures WellFormed(Preamble, lines + NewLines(s, id, target, |s.driveSerials|))
  {
    hide PrintableSpec, WellFormed, IsHeader, DropCR;
    NewLinesPlain(s, id, target, |s.driveSerials|);
    NewLinesWellFormed(s, id, target, |s.driveSerials|);
    WellFormedAppend(Preamble, lines, NewLines(s, id, target, |s.driveSerials|));
  }

  // ---------------------------------------------------------------------- the text ----

  // device.conf after CreateLibrary: a newline, then the new blocks.
  function Created(text: string, s: Spec, id: nat, target: nat): string {
    text + "\n" + Join(NewLines(s, id, target, |s.driveSerials|))
  }

  // device.conf after RemoveLibrary.
  function Removed(text: string, id: nat): string {
    Join(Remove(Split(text), Decimal(id)))
  }

  lemma CreatedLines(text: string, s: Spec, id: nat, target: nat)
    requires PrintableSpec(s)
    ensures Split(Created(text, s, id, target)) == Split(text) + NewLines(s, id, target, |s.driveSerials|)
  {
    hide PrintableSpec, Split, Join, IsHeader, OneLine;
    var ls := NewLines(s, id, target, |s.driveSerials|);
    NewLinesPlain(s, id, target, |s.driveSerials|);
    SplitJoin(ls);
    SplitAppend(text, Join(ls));
  }

  // Split gives back the kept lines, unless none is left.
  lemma RemovedLines(text: string, id: nat)
    ensures Remove(Split(text), Decimal(id)) != [] ==> Split(Removed(text, id)) == Remove(Split(text), Decimal(id))
    ensures Remove(Split(text), Decimal(id)) == [] ==> Split(Removed(text, id)) == [""]
  {
    hide Remove, Decimal;
    var ls := Remove(Split(text), Decimal(id));
    if ls != [] {
      RemoveKeepsLines(Split(text), Decimal(id));
      SplitJoin(ls);
    }
  }

  lemma {:induction false} RestKeepsLines(buf: seq<string>, drop: bool, lines: seq<string>, id: string)
    requires (forall i :: 0 <= i < |buf| ==> OneLine(buf[i])) && (forall i :: 0 <= i < |lines| ==> OneLine(lines[i]))
    ensures forall i :: 0 <= i < |Rest(buf, drop, lines, id)| ==> OneLine(Rest(buf, drop, lines, id)[i])
    decreases |lines|
  {
    hide IsHeader, Refers, HeaderDrops, OneLine;
    if lines != [] {
      if IsHeader(lines[0]) {
        RestKeepsLines([lines[0]], HeaderDrops(lines[0], id), lines[1..], id);
      } else {
        RestKeepsLines(buf + [lines[0]], drop || Refers(lines[0], id), lines[1..], id);
      }
    }
  }

  lemma {:induction false} RemoveKeepsLines(lines: seq<string>, id: string)
    requires forall i :: 0 <= i < |lines| ==> OneLine(lines[i])
    ensures forall i :: 0 <= i < |Remove(lines, id)| ==> OneLine(Remove(lines, id)[i])
    decreases |lines|
  {
    hide IsHeader, Rest, HeaderDrops, OneLine;
    if lines != [] {
      if IsHeader(lines[0]) {
        RestKeepsLines([lines[0]], HeaderDrops(lines[0], id), lines[1..], id);
      } else {
        RemoveKeepsLines(lines[1..], id);
      }
    }
  }

  // ------------------------------------------------- what the remover leaves untouched ----

  // Some line makes the remover drop a block.
  predicate Mentions(inBlock: bool, lines: seq<string>, id: string)
    decreases |lines|
  {
    lines != [] &&
    (if IsHeader(lines[0]) then HeaderDrops(lines[0], id) || Mentions(true, lines[1..], id)
     else (inBlock && Refers(lines[0], id)) || Mentions(inBlock, lines[1..], id))
  }

  lemma {:induction false} RestWhole(buf: seq<string>, drop: bool, lines: seq<string>, id: string)
    requires buf != []
    ensures |Rest(buf, drop, lines, id)| <= |buf| + |lines|
    ensures |Rest(buf, drop, lines, id)| == |buf| + |lines| <==> !drop && !Mentions(true, lines, id)
    ensures !drop && !Mentions(true, lines, id) ==> Rest(buf, drop, lines, id) == buf + lines
    decreases |lines|
  {
    hide IsHeader, Refers, HeaderDrops;
    if lines != [] {
      assert lines == [lines[0]] + lines[1..];
      if IsHeader(lines[0]) {
        RestWhole([lines[0]], HeaderDrops(lines[0], id), lines[1..], id);
      } else {
        RestWhole(buf + [lines[0]], drop || Refers(lines[0], id), lines[1..], id);
        assert (buf + [lines[0]]) + lines[1..] == buf + lines;
      }
    }
  }

  // The remover changes nothing exactly when no line mentions the id.
  lemma {:induction false} RemoveWhole(lines: seq<string>, id: string)
    ensures |Remove(lines, id)| <= |lines|
    ensures Remove(lines, id) == lines <==> !Mentions(false, lines, id)
    ensures |Remove(lines, id)| == |lines| <==> !Mentions(false, lines, id)
    decreases |lines|
  {
    hide IsHeader, Refers, HeaderDrops, Rest;
    if lines != [] {
      assert lines == [lines[0]] + lines[1..];
      if IsHeader(lines[0]) {
        RestWhole([lines[0]], HeaderDrops(lines[0], id), lines[1..], id);
      } else {
        RemoveWhole(lines[1..], id);
      }
    }
  }

  lemma AnyBelongsCons(x: Device, devs: seq<Device>, id: nat)
    ensures AnyBelongs([x] + devs, id) <==> Belongs(x, id) || AnyBelongs(devs, id)
  {
    hide Belongs;
    assert ([x] + devs)[0] == x;
    if i :| 0 <= i < |devs| && Belongs(devs[i], id) {
      assert ([x] + devs)[i + 1] == devs[i];
    }
  }

  lemma {:induction false} MentionsInBlock(at: Place, cur: Device, drop: bool, lines: seq<string>, id: nat)
    requires WellFormed(at, lines) && InStep(at, cur, drop, id)
    ensures drop || Mentions(true, lines, Decimal(id)) <==> AnyBelongs(Scan(Some(cur), lines), id)
    decreases |lines|
  {
    hide Header, LibraryRef, Apply, NewDevice, DropCR, Canonical, Decimal, AnyBelongs;
    if lines == [] {
      assert [cur] + [] == [cur];
      AnyBelongsCons(cur, [], id);
      NobodyBelongs(id);
    } else {
      var line, more := lines[0], lines[1..];
      if IsHeader(line) {
        StepAtHeader(line, id);
        MentionsInBlock(Start(line), NewDevice(line), HeaderDrops(line, Decimal(id)), more, id);
        AnyBelongsCons(cur, Scan(Some(NewDevice(line)), more), id);
      } else {
        var next := if LibraryRef(line).Some? then InDrive(true) else at;
        StepInBlock(at, next, cur, drop, line, id);
        MentionsInBlock(next, Apply(cur, line), drop || Refers(line, Decimal(id)), more, id);
      }
    }
  }

  lemma NobodyBelongs(id: nat)
    ensures !AnyBelongs([], id)
  {
  }

  lemma {:induction false} MentionsIsBelongs(lines: seq<string>, id: nat)
    requires WellFormed(Preamble, lines)
    ensures Mentions(false, lines, Decimal(id)) <==> AnyBelongs(Scan(None, lines), id)
    decreases |lines|
  {
    hide Header, LibraryRef, NewDevice, DropCR, Canonical, Decimal, AnyBelongs;
    if lines == [] {
      NobodyBelongs(id);
    } else {
      var line, more := lines[0], lines[1..];
      if IsHeader(line) {
        StepAtHeader(line, id);
        MentionsInBlock(Start(line), NewDevice(line), HeaderDrops(line, Decimal(id)), more, id);
        assert [] + Scan(Some(NewDevice(line)), more) == Scan(Some(NewDevice(line)), more);
      } else {
        MentionsIsBelongs(more, id);
      }
    }
  }

  // ---------------------------------------------------- create, then remove: identity ----

  // Removing the library just created gives the original text back byte for byte,
  // final newline or not, exactly when no line of the original mentions the new id.
  lemma RemoveUndoesCreate(text: string, s: Spec, id: nat, target: nat)
    requires PrintableSpec(s)
    ensures Removed(Created(text, s, id, target), id) == text <==> !Mentions(false, Split(text), Decimal(id))
  {
    hide PrintableSpec, Remove, Decimal, Split, Join, Created, Mentions;
    var lines := Split(text);
    CreatedLines(text, s, id, target);
    RemoveAfterCreate(lines, s, id, target);
    JoinSplit(text);
    RemovedLines(text, id);
    RemoveWhole(lines, Decimal(id));
    EmptySplit(Decimal(id));
  }

  lemma EmptySplit(id: string)
    ensures Split("") == [""] && Remove([""], id) == [""]
  {
    BlankReads();
    assert [""][1..] == [];
  }

  // On a well-formed file: exactly when no library or drive is the new id's.
  lemma RemoveUndoesFreshCreate(text: string, s: Spec, id: nat, target: nat)
    requires PrintableSpec(s) && WellFormed(Preamble, Split(text))
    ensures Removed(Created(text, s, id, target), id) == text <==> !AnyBelongs(Scan(None, Split(text)), id)
  {
    hide PrintableSpec, Split, Scan, Decimal, Created, Mentions, AnyBelongs, Removed, WellFormed;
    RemoveUndoesCreate(text, s, id, target);
    MentionsIsBelongs(Split(text), id);
  }
}
