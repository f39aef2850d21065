// library_contents: the text the rewrite prints from the live changer, and what the
// parser reads back from it.
module Contents {
  import opened Options
  import opened Text
  import opened Sorting
  import opened Changer

  // ------------------------------------------------------------------------- parser ----

  // strings.TrimSpace on ASCII.
  function Trim(s: string): string {
    TrimRight(s[Spaces(s)..])
  }

  // Length of the leading run of \S.
  function Word(s: string): (n: nat)
    ensures n <= |s| && (forall i :: 0 <= i < n ==> !IsSpace(s[i])) && (n < |s| ==> IsSpace(s[n]))
  {
    if s != "" && !IsSpace(s[0]) then 1 + Word(s[1..]) else 0
  }

  // A slot line: its number, and its label if it has one.
  datatype Shelf = Shelf(num: nat, tag: Option<string>)

  // ^Slot\s+(\d+):\s*(\S+)?
  function SlotOf(line: string): (r: Option<Shelf>)
    ensures r.Some? ==> r.value.tag != Some("")
  {
    if "Slot" <= line then ShelfAfter(line[4..]) else None
  }

  // \s+(\d+):\s*(\S+)?
  function ShelfAfter(rest: string): (r: Option<Shelf>)
    ensures r.Some? ==> r.value.tag != Some("")
  {
    var word := rest[Spaces(rest)..];
    var d := DigitRun(word);
    if Spaces(rest) == 0 || d == 0 || d == |word| || word[d] != ':' then None
    else Some(Shelf(Number(word[..d]), LabelAfter(word[d + 1..])))
  }

  // ^Slot\s+\d+:\s*(\S+)
  function SlotLabel(line: string): (r: Option<string>)
    ensures r.Some? ==> r.value != ""
  {
    if SlotOf(line).Some? then SlotOf(line).value.tag else None
  }

  function LabelAfter(tail: string): (r: Option<string>)
    ensures r.Some? ==> r.value != ""
  {
    var v := tail[Spaces(tail)..];
    if Word(v) == 0 then None else Some(v[..Word(v)])
  }

  function LabelOf(line: string): seq<string> {
    match SlotLabel(Trim(line))
    case Some(l) => [l]
    case None => []
  }

  function Barcodes(lines: seq<string>): seq<string> {
    if lines == [] then [] else Barcodes(lines[..|lines| - 1]) + LabelOf(lines[|lines| - 1])
  }

  // What follows "Slot": blanks, digits, a colon, and the rest.
  ghost predicate Splits(rest: string, gap: string, d: string, tail: string) {
    Gap(gap) && d != "" && (forall i :: 0 <= i < |d| ==> '0' <= d[i] <= '9') && rest == gap + d + (":" + tail)
  }

  lemma ShelfIs(rest: string, n: nat, tag: Option<string>)
    ensures ShelfAfter(rest) == Some(Shelf(n, tag)) <==>
            exists gap, d, tail :: Splits(rest, gap, d, tail) && Digits(d) && Number(d) == n && LabelAfter(tail) == tag
  {
    hide LabelAfter, Number, ShelfAfter, Splits, Digits;
    if ShelfAfter(rest) == Some(Shelf(n, tag)) { ShelfGives(rest, n, tag); }
    if gap, d, tail :| Splits(rest, gap, d, tail) && Digits(d) && Number(d) == n && LabelAfter(tail) == tag {
      ShelfGiven(rest, gap, d, tail);
    }
  }

  lemma ShelfGiven(rest: string, gap: string, d: string, tail: string)
    requires Splits(rest, gap, d, tail) && Digits(d)
    ensures ShelfAfter(rest) == Some(Shelf(Number(d), LabelAfter(tail)))
  {
    hide LabelAfter, Number, Spaces, DigitRun;
    var word := d + (":" + tail);
    GapThenNumeral(gap, d, ":" + tail);
    assert rest[|gap|..] == word;
    Cut(d, ":" + tail);
    assert word[|d| + 1..] == word[|d|..][1..] == tail;
  }

  lemma Cut(a: string, b: string)
    ensures (a + b)[..|a|] == a && (a + b)[|a|..] == b
  {
  }

  lemma ShelfGives(rest: string, n: nat, tag: Option<string>)
    requires ShelfAfter(rest) == Some(Shelf(n, tag))
    ensures exists gap, d, tail ::
              Splits(rest, gap, d, tail) && Digits(d) && Number(d) == n && LabelAfter(tail) == tag
  {
    hide LabelAfter, Number, Spaces, DigitRun, Blank;
    var word := rest[Spaces(rest)..];
    var k := DigitRun(word);
    GapTaken(rest);
    RunIsNumeral(word);
    ColonSplit(rest, Spaces(rest), k);
    assert Splits(rest, rest[..Spaces(rest)], word[..k], word[k + 1..]);
  }

  lemma ColonSplit(rest: string, i: nat, k: nat)
    requires i + k < |rest| && rest[i..][k] == ':'
    ensures rest == rest[..i] + rest[i..][..k] + (":" + rest[i..][k + 1..])
  {
    var word := rest[i..];
    assert word == word[..k] + ([word[k]] + word[k + 1..]);
    assert rest == rest[..i] + word;
  }

  // \s*(\S+): the first word behind the colon, none when there is nothing but blanks.
  ghost predicate FirstWord(tail: string, l: string, gap: string, more: string) {
    && Blank(gap) && l != "" && (forall i :: 0 <= i < |l| ==> l[i] !in {' ', '\t', '\n', '\r', 12 as char})
    && (more == "" || Blank(more[..1])) && tail == gap + (l + more)
  }

  lemma LabelIs(tail: string, l: string)
    ensures LabelAfter(tail) == Some(l) <==> exists gap, more :: FirstWord(tail, l, gap, more)
    ensures LabelAfter(tail) == None <==> Blank(tail)
  {
    hide LabelAfter, FirstWord, Blank;
    if LabelAfter(tail) == Some(l) { LabelGives(tail, l); }
    if gap, more :| FirstWord(tail, l, gap, more) { LabelGiven(tail, l, gap, more); }
    NoLabel(tail);
  }

  lemma LabelGives(tail: string, l: string)
    requires LabelAfter(tail) == Some(l)
    ensures exists gap, more :: FirstWord(tail, l, gap, more)
  {
    hide Spaces, Word;
    var gap, v := tail[..Spaces(tail)], tail[Spaces(tail)..];
    var more := v[|l|..];
    GapTaken(tail);
    assert l == v[..Word(v)] && forall i :: 0 <= i < |l| ==> !IsSpace(l[i]);
    assert more != "" ==> more[0] == v[Word(v)] && more[..1] == [more[0]];
    assert v == l + more;
    assert tail == gap + v;
    assert forall i :: 0 <= i < |l| ==> l[i] !in {' ', '\t', '\n', '\r', 12 as char};
    assert FirstWord(tail, l, gap, more);
  }

  lemma LabelGiven(tail: string, l: string, gap: string, more: string)
    requires FirstWord(tail, l, gap, more)
    ensures LabelAfter(tail) == Some(l)
  {
    hide Spaces, Word;
    assert !IsSpace((l + more)[0]) by { assert (l + more)[0] == l[0]; }
    SpacesAre(gap, l + more);
    Cut(gap, l + more);
    assert more != "" ==> more[..1][0] == more[0];
    WordIs(l, more);
  }

  lemma NoLabel(tail: string)
    ensures LabelAfter(tail) == None <==> Blank(tail)
  {
    hide Spaces, Word;
    var v := tail[Spaces(tail)..];
    GapTaken(tail);
    if Word(v) == 0 {
      assert v == "";
      assert tail == tail[..Spaces(tail)];
    }
    if Blank(tail) {
      assert tail + "" == tail;
      SpacesAre(tail, "");
    }
  }

  lemma {:induction false} WordIs(l: string, more: string)
    requires (forall i :: 0 <= i < |l| ==> !IsSpace(l[i])) && (more == "" || IsSpace(more[0]))
    ensures Word(l + more) == |l| && (l + more)[..|l|] == l
  {
    if l == "" {
      assert l + more == more;
    } else {
      assert (l + more)[1..] == l[1..] + more;
      WordIs(l[1..], more);
    }
  }

  // Trimming takes off exactly the blanks at the ends.
  ghost predicate Between(s: string, t: string, a: string, b: string) {
    Blank(a) && Blank(b) && s == a + (t + b) && (t != "" ==> !Blank(t[..1]) && !Blank(t[|t| - 1..]))
  }

  lemma TrimIs(s: string, t: string)
    ensures Trim(s) == t <==> exists a, b :: Between(s, t, a, b)
  {
    hide Between, Trim;
    if Trim(s) == t { TrimGives(s); }
    if a, b :| Between(s, t, a, b) { TrimGiven(s, t, a, b); }
  }

  lemma TrimGives(s: string)
    ensures exists a, b :: Between(s, Trim(s), a, b)
  {
    hide Spaces, TrimRight;
    var a, v := s[..Spaces(s)], s[Spaces(s)..];
    var t := TrimRight(v);
    GapTaken(s);
    CutOff(v);
    if t != "" { assert t[0] == v[0] && t[..1][0] == t[0] && t[|t| - 1..][0] == t[|t| - 1]; }
    assert v == t + v[|t|..] && s == a + v;
    assert Trim(s) == t && Between(s, t, a, v[|t|..]);
  }

  lemma TrimGiven(s: string, t: string, a: string, b: string)
    requires Between(s, t, a, b)
    ensures Trim(s) == t
  {
    hide Spaces, TrimRight;
    if t == "" {
      assert s + "" == s && Blank(s);
      SpacesAre(s, "");
      TrimmedRight("", "");
    } else {
      assert t[..1] == [t[0]] && t[|t| - 1..] == [t[|t| - 1]];
      assert (t + b)[0] == t[0];
      SpacesAre(a, t + b);
      Cut(a, t + b);
      TrimmedRight(t, b);
    }
  }

  // Every slot line of a file, the blank ones too.
  function RowOf(line: string): seq<Shelf> {
    match SlotOf(Trim(line))
    case Some(r) => [r]
    case None => []
  }

  function Rows(lines: seq<string>): seq<Shelf> {
    if lines == [] then [] else Rows(lines[..|lines| - 1]) + RowOf(lines[|lines| - 1])
  }

  function Labels(rows: seq<Shelf>): seq<string> {
    if rows == [] then []
    else
      var r := rows[|rows| - 1];
      Labels(rows[..|rows| - 1]) + (if r.tag.Some? then [r.tag.value] else [])
  }

  // The parser's labels are those of the slot lines that have one.
  lemma {:induction false} BarcodesAre(lines: seq<string>)
    ensures Barcodes(lines) == Labels(Rows(lines))
  {
    hide SlotOf, Trim;
    if lines != [] {
      BarcodesAre(lines[..|lines| - 1]);
      var more, last := Rows(lines[..|lines| - 1]), SlotOf(Trim(lines[|lines| - 1]));
      if last.Some? {
        assert Rows(lines) == more + [last.value];
        assert Rows(lines)[..|more|] == more;
      } else {
        assert Rows(lines) == more;
      }
    }
  }

  // ParseMhvtlConf's inner scanner loop.
  method ReadContents(text: string) returns (r: seq<string>)
    ensures r == Barcodes(Split(text))
  {
    hide SlotLabel, Trim, Split;
    var lines := Split(text);
    r := [];
    var i := 0;
    while i < |lines|
      invariant i <= |lines| && r == Barcodes(lines[..i])
    {
      var m := SlotLabel(Trim(lines[i]));
      assert lines[..i + 1][..i] == lines[..i];
      if m.Some? { r := r + [m.value]; }
      i := i + 1;
    }
    assert lines[..i] == lines;
  }

  // ------------------------------------------------------------------------- writer ----

  // slotLabel after the loop over the elements, and after the loop over the drives.
  function StoredAt(slots: seq<Slot>): map<nat, string> {
    if slots == [] then map[]
    else
      var m, s := StoredAt(slots[..|slots| - 1]), slots[|slots| - 1];
      if !s.ie && s.tag != "" then m[s.num := s.tag] else m
  }

  function HomesOf(m0: map<nat, string>, drives: seq<Bay>): map<nat, string> {
    if drives == [] then m0
    else
      var m, d := HomesOf(m0, drives[..|drives| - 1]), drives[|drives| - 1];
      if d.tag != "" && d.source > 0 then m[d.source := d.tag] else m
  }

  function Storage(slots: seq<Slot>): seq<nat> {
    if slots == [] then []
    else Storage(slots[..|slots| - 1]) + (if slots[|slots| - 1].ie then [] else [slots[|slots| - 1].num])
  }

  function Ports(slots: seq<Slot>): nat {
    if slots == [] then 0 else Ports(slots[..|slots| - 1]) + (if slots[|slots| - 1].ie then 1 else 0)
  }

  function Same(n: nat): nat {
    n
  }

  function Counted(word: string, n: nat): seq<string> {
    if n == 0 then [] else Counted(word, n - 1) + [word + " " + Decimal(n) + ":"]
  }

  function SlotText(n: nat, m: map<nat, string>): string {
    "Slot " + Decimal(n) + ":" + (if n in m then " " + m[n] else "")
  }

  function SlotTexts(ns: seq<nat>, m: map<nat, string>): seq<string> {
    if ns == [] then [] else SlotTexts(ns[..|ns| - 1], m) + [SlotText(ns[|ns| - 1], m)]
  }

  function Preface(drives: nat, ports: nat): seq<string> {
    ["VERSION: 2", ""] + Counted("Drive", drives) + ["", "Picker 1:", ""] + Counted("MAP", ports) + [""]
  }

  // Every line of the file, the empty one after the final newline included.
  function Lines(st: Status): seq<string> {
    Preface(|st.drives|, Ports(st.slots))
    + SlotTexts(Sort(Same, Storage(st.slots)), HomesOf(StoredAt(st.slots), st.drives)) + [""]
  }

  method PrintCounted(word: string, n: nat) returns (b: string)
    ensures b == Printed(Counted(word, n))
  {
    b := "";
    var i := 1;
    while i <= n
      invariant 1 <= i <= n + 1 && b == Printed(Counted(word, i - 1))
    {
      b := b + (word + " " + Decimal(i) + ":") + "\n";
      i := i + 1;
    }
  }

  // The rewrite's first two loops.
  method Survey(st: Status) returns (m: map<nat, string>, storage: seq<nat>, ports: nat)
    ensures m == HomesOf(StoredAt(st.slots), st.drives) && storage == Storage(st.slots) && ports == Ports(st.slots)
  {
    m, storage, ports := map[], [], 0;
    var i := 0;
    while i < |st.slots|
      invariant i <= |st.slots| && m == StoredAt(st.slots[..i]) && storage == Storage(st.slots[..i])
      invariant ports == Ports(st.slots[..i])
    {
      var s := st.slots[i];
      assert st.slots[..i + 1][..i] == st.slots[..i];
      if s.ie {
        ports := ports + 1;
      } else {
        storage := storage + [s.num];
        if s.tag != "" { m := m[s.num := s.tag]; }
      }
      i := i + 1;
    }
    assert st.slots[..i] == st.slots;
    ghost var m0 := m;
    var j := 0;
    while j < |st.drives|
      invariant j <= |st.drives| && m == HomesOf(m0, st.drives[..j])
    {
      var d := st.drives[j];
      assert st.drives[..j + 1][..j] == st.drives[..j];
      if d.tag != "" && d.source > 0 { m := m[d.source := d.tag]; }
      j := j + 1;
    }
    assert st.drives[..j] == st.drives;
  }

  method PrintSlots(ns: seq<nat>, m: map<nat, string>) returns (b: string)
    ensures b == Printed(SlotTexts(ns, m))
  {
    b := "";
    var k := 0;
    while k < |ns|
      invariant k <= |ns| && b == Printed(SlotTexts(ns[..k], m))
    {
      assert ns[..k + 1][..k] == ns[..k];
      if ns[k] in m {
        b := b + ("Slot " + Decimal(ns[k]) + ":" + (" " + m[ns[k]])) + "\n";
      } else {
        b := b + ("Slot " + Decimal(ns[k]) + ":" + "") + "\n";
      }
      k := k + 1;
    }
    assert ns[..k] == ns;
  }

  // RewriteLibraryContents, the text.
  method Render(st: Status) returns (b: string)
    ensures b == Join(Lines(st))
  {
    hide Printed, Sort, Counted, SlotTexts, Join;
    var m, storage, ports := Survey(st);
    var sorted := Sort(Same, storage);
    var drives := PrintCounted("Drive", |st.drives|);
    var maps := PrintCounted("MAP", ports);
    var slots := PrintSlots(sorted, m);
    b := "VERSION: 2\n\n" + drives + "\nPicker 1:\n\n" + maps + "\n" + slots;
    PrefacePrinted(|st.drives|, ports);
    PrintedAppend(Preface(|st.drives|, ports), SlotTexts(sorted, m));
    PrintedJoin(Preface(|st.drives|, ports) + SlotTexts(sorted, m));
  }

  lemma PrefacePrinted(drives: nat, ports: nat)
    ensures Printed(Preface(drives, ports))
            == "VERSION: 2\n\n" + Printed(Counted("Drive", drives))
               + "\nPicker 1:\n\n" + Printed(Counted("MAP", ports)) + "\n"
  {
    hide Counted, Printed;
    var a, b := ["VERSION: 2", ""], ["", "Picker 1:", ""];
    PrintedAppend(a + Counted("Drive", drives) + b + Counted("MAP", ports), [""]);
    PrintedAppend(a + Counted("Drive", drives) + b, Counted("MAP", ports));
    PrintedAppend(a + Counted("Drive", drives), b);
    PrintedAppend(a, Counted("Drive", drives));
    FixedLines();
  }

  lemma FixedLines()
    ensures Printed(["VERSION: 2", ""]) == "VERSION: 2\n\n"
    ensures Printed(["", "Picker 1:", ""]) == "\nPicker 1:\n\n"
    ensures Printed([""]) == "\n"
  {
    PrintedJoin(["VERSION: 2", ""]);
    PrintedJoin(["", "Picker 1:", ""]);
    PrintedJoin([""]);
    assert ["VERSION: 2", ""] + [""] == ["VERSION: 2", "", ""];
    assert ["VERSION: 2", "", ""][1..] == ["", ""] && ["", ""][1..] == [""];
    assert ["", "Picker 1:", ""] + [""] == ["", "Picker 1:", "", ""];
    assert ["", "Picker 1:", "", ""][1..] == ["Picker 1:", "", ""];
    assert ["Picker 1:", "", ""][1..] == ["", ""];
    assert [""] + [""] == ["", ""];
  }

  // ------------------------------------------------------------------------ read back ----

  predicate Token(l: string) {
    l != "" && forall i :: 0 <= i < |l| ==> !IsSpace(l[i])
  }

  lemma {:induction false} RowsAppend(a: seq<string>, b: seq<string>)
    ensures Rows(a + b) == Rows(a) + Rows(b)
    decreases |b|
  {
    hide RowOf;
    if b == [] {
      assert a + b == a;
    } else {
      var init, last := b[..|b| - 1], b[|b| - 1];
      assert (a + b)[..|a + b| - 1] == a + init;
      RowsAppend(a, init);
    }
  }

  lemma TrimKeeps(s: string)
    requires s != "" && !IsSpace(s[0]) && !IsSpace(s[|s| - 1])
    ensures Trim(s) == s
  {
    assert Spaces(s) == 0 && s[0..] == s;
  }

  lemma OtherLine(line: string)
    requires line == "" || (!IsSpace(line[0]) && !IsSpace(line[|line| - 1]) && line[0] != 'S')
    ensures RowOf(line) == []
  {
    hide Spaces, TrimRight;
    if line == "" {
      assert Trim("") == "" by { EmptyTrim(); }
    } else {
      TrimKeeps(line);
      assert "Slot"[0] == 'S';
    }
  }

  lemma EmptyTrim()
    ensures Trim("") == ""
  {
  }

  lemma {:induction false} CountedSilent(word: string, n: nat)
    requires word != "" && !IsSpace(word[0]) && word[0] != 'S'
    ensures Rows(Counted(word, n)) == []
  {
    hide RowOf;
    if n > 0 {
      CountedSilent(word, n - 1);
      var line := word + " " + Decimal(n) + ":";
      assert line[0] == word[0] && line[|line| - 1] == ':';
      OtherLine(line);
      assert Counted(word, n)[..|Counted(word, n)| - 1] == Counted(word, n - 1);
    }
  }

  lemma FixedSilent()
    ensures Rows(["VERSION: 2", ""]) == [] && Rows(["", "Picker 1:", ""]) == [] && Rows([""]) == []
  {
    hide RowOf;
    OtherLine("");
    OtherLine("VERSION: 2");
    OtherLine("Picker 1:");
    var empty: seq<string> := [];
    assert [""][..0] == empty && ["VERSION: 2"][..0] == empty;
    assert ["VERSION: 2", ""][..1] == ["VERSION: 2"];
    assert ["", "Picker 1:", ""][..2] == ["", "Picker 1:"] && ["", "Picker 1:"][..1] == [""];
  }

  lemma PrefaceSilent(drives: nat, ports: nat)
    ensures Rows(Preface(drives, ports)) == []
  {
    hide Counted, Rows;
    var a, b := ["VERSION: 2", ""], ["", "Picker 1:", ""];
    RowsAppend(a + Counted("Drive", drives) + b + Counted("MAP", ports), [""]);
    RowsAppend(a + Counted("Drive", drives) + b, Counted("MAP", ports));
    RowsAppend(a + Counted("Drive", drives), b);
    RowsAppend(a, Counted("Drive", drives));
    CountedSilent("Drive", drives);
    CountedSilent("MAP", ports);
    FixedSilent();
  }

  lemma {:induction false} WordAll(l: string)
    requires forall i :: 0 <= i < |l| ==> !IsSpace(l[i])
    ensures Word(l) == |l|
  {
    if l != "" { WordAll(l[1..]); }
  }

  lemma SlotLinePrefix(n: nat, tail: string)
    ensures SlotOf("Slot " + Decimal(n) + ":" + tail) == Some(Shelf(n, LabelAfter(tail)))
  {
    hide Decimal, LabelAfter, Number, ShelfAfter;
    var line := "Slot " + Decimal(n) + ":" + tail;
    var rest := " " + Decimal(n) + (":" + tail);
    assert "Slot " == "Slot" + " ";
    assert line == "Slot" + rest && line[4..] == rest;
    NumberDecimal(n);
    assert Splits(rest, " ", Decimal(n), tail);
    ShelfIs(rest, n, LabelAfter(tail));
  }

  lemma SpacesOne(s: string)
    requires s != "" && !IsSpace(s[0])
    ensures Spaces(" " + s) == 1
  {
    assert (" " + s)[1..] == s;
  }

  lemma LabelAfterPrinted(l: string)
    ensures Token(l) ==> LabelAfter(" " + l) == Some(l)
    ensures LabelAfter("") == None
  {
    if Token(l) {
      SpacesOne(l);
      assert (" " + l)[1..] == l && l[..|l|] == l;
      WordAll(l);
    }
  }

  lemma SlotTextReads(n: nat, m: map<nat, string>)
    requires n in m ==> Token(m[n])
    ensures RowOf(SlotText(n, m)) == [ShelfAt(n, m)]
  {
    hide SlotOf, Trim, Decimal, LabelAfter;
    var tail := if n in m then " " + m[n] else "";
    var line := SlotText(n, m);
    assert line == "Slot " + Decimal(n) + ":" + tail;
    assert line[0] == 'S' && !IsSpace(line[|line| - 1]);
    TrimKeeps(line);
    SlotLinePrefix(n, tail);
    LabelAfterPrinted(if n in m then m[n] else "");
  }

  function ShelfAt(n: nat, m: map<nat, string>): Shelf {
    Shelf(n, if n in m then Some(m[n]) else None)
  }

  function ShelvesAt(ns: seq<nat>, m: map<nat, string>): (r: seq<Shelf>)
    ensures |r| == |ns| && forall k :: 0 <= k < |ns| ==> r[k] == ShelfAt(ns[k], m)
  {
    if ns == [] then [] else ShelvesAt(ns[..|ns| - 1], m) + [ShelfAt(ns[|ns| - 1], m)]
  }

  lemma {:induction false} HeldLabels(ns: seq<nat>, m: map<nat, string>)
    ensures Labels(ShelvesAt(ns, m)) == Held(ns, m)
  {
    if ns != [] {
      HeldLabels(ns[..|ns| - 1], m);
      assert ShelvesAt(ns, m)[..|ns| - 1] == ShelvesAt(ns[..|ns| - 1], m);
    }
  }

  // The labels found at these slots, in order.
  function Held(ns: seq<nat>, m: map<nat, string>): seq<string> {
    if ns == [] then []
    else
      var n := ns[|ns| - 1];
      Held(ns[..|ns| - 1], m) + (if n in m then [m[n]] else [])
  }

  lemma {:induction false} SlotTextsRead(ns: seq<nat>, m: map<nat, string>)
    requires forall n :: n in m ==> Token(m[n])
    ensures Rows(SlotTexts(ns, m)) == ShelvesAt(ns, m)
  {
    hide RowOf, SlotText, Token, ShelfAt;
    if ns != [] {
      SlotTextsRead(ns[..|ns| - 1], m);
      SlotTextReads(ns[|ns| - 1], m);
      var init := SlotTexts(ns[..|ns| - 1], m);
      assert SlotTexts(ns, m)[..|SlotTexts(ns, m)| - 1] == init;
    }
  }

  ghost predicate Tokens(st: Status) {
    && (forall i :: 0 <= i < |st.slots| && st.slots[i].tag != "" ==> Token(st.slots[i].tag))
    && (forall j :: 0 <= j < |st.drives| && st.drives[j].tag != "" ==> Token(st.drives[j].tag))
  }

  lemma {:induction false} StoredTokens(slots: seq<Slot>)
    requires forall i :: 0 <= i < |slots| && slots[i].tag != "" ==> Token(slots[i].tag)
    ensures forall n :: n in StoredAt(slots) ==> Token(StoredAt(slots)[n])
  {
    hide Token;
    if slots != [] { StoredTokens(slots[..|slots| - 1]); }
  }

  lemma {:induction false} HomesTokens(m0: map<nat, string>, drives: seq<Bay>)
    requires forall n :: n in m0 ==> Token(m0[n])
    requires forall j :: 0 <= j < |drives| && drives[j].tag != "" ==> Token(drives[j].tag)
    ensures forall n :: n in HomesOf(m0, drives) ==> Token(HomesOf(m0, drives)[n])
  {
    hide Token;
    if drives != [] { HomesTokens(m0, drives[..|drives| - 1]); }
  }

  lemma TokenOneLine(l: string)
    requires Token(l)
    ensures OneLine(l)
  {
  }

  lemma DigitsOneLine(n: nat)
    ensures OneLine(Decimal(n))
  {
    hide Decimal;
  }

  lemma {:induction false} CountedOneLine(word: string, n: nat)
    requires OneLine(word)
    ensures forall i :: 0 <= i < |Counted(word, n)| ==> OneLine(Counted(word, n)[i])
  {
    if n > 0 {
      CountedOneLine(word, n - 1);
      DigitsOneLine(n);
    }
  }

  lemma {:induction false} SlotTextsOneLine(ns: seq<nat>, m: map<nat, string>)
    requires forall n :: n in m ==> Token(m[n])
    ensures forall i :: 0 <= i < |SlotTexts(ns, m)| ==> OneLine(SlotTexts(ns, m)[i])
  {
    hide Token;
    if ns != [] {
      var n := ns[|ns| - 1];
      SlotTextsOneLine(ns[..|ns| - 1], m);
      DigitsOneLine(n);
      if n in m { TokenOneLine(m[n]); }
    }
  }

  // No label or number breaks a line.
  lemma LinesSplit(st: Status)
    requires Tokens(st)
    ensures Split(Join(Lines(st))) == Lines(st)
  {
    hide Split, Join, SlotTexts, Counted, Sort, HomesOf, StoredAt, Storage, Ports, Token;
    var m, ns := HomesOf(StoredAt(st.slots), st.drives), Sort(Same, Storage(st.slots));
    StoredTokens(st.slots);
    HomesTokens(StoredAt(st.slots), st.drives);
    SlotTextsOneLine(ns, m);
    PrefaceOneLine(|st.drives|, Ports(st.slots));
    SplitJoin(Lines(st));
  }

  // The slot lines of the rewritten file are those of the storage slots, in order, and
  // the parser reads back exactly the labels the rewrite found for them.
  lemma RewriteReadsBack(st: Status)
    requires Tokens(st)
    ensures var ns, m := Sort(Same, Storage(st.slots)), HomesOf(StoredAt(st.slots), st.drives);
            && Rows(Split(Join(Lines(st)))) == ShelvesAt(ns, m)
            && Barcodes(Split(Join(Lines(st)))) == Held(ns, m)
  {
    hide Split, Join, Barcodes, Rows, Labels, ShelvesAt, SlotTexts, Held, Counted;
    hide Sort, HomesOf, StoredAt, Storage, Ports, Token;
    var m := HomesOf(StoredAt(st.slots), st.drives);
    var ns := Sort(Same, Storage(st.slots));
    StoredTokens(st.slots);
    HomesTokens(StoredAt(st.slots), st.drives);
    var ls := Lines(st);
    LinesSplit(st);
    var pre := Preface(|st.drives|, Ports(st.slots));
    RowsAppend(pre + SlotTexts(ns, m), [""]);
    RowsAppend(pre, SlotTexts(ns, m));
    PrefaceSilent(|st.drives|, Ports(st.slots));
    FixedSilent();
    SlotTextsRead(ns, m);
    BarcodesAre(ls);
    HeldLabels(ns, m);
  }

  lemma PrefaceOneLine(drives: nat, ports: nat)
    ensures forall i :: 0 <= i < |Preface(drives, ports)| ==> OneLine(Preface(drives, ports)[i])
  {
    hide Counted;
    CountedOneLine("Drive", drives);
    CountedOneLine("MAP", ports);
    assert OneLine("VERSION: 2") && OneLine("") && OneLine("Picker 1:");
  }
}
