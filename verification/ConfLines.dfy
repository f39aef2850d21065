// mhvtlconf.go's regular expressions as functions of one line, and what they make
// of the lines the library writer prints.
module ConfLines {
  import opened Options
  import opened Text

  datatype Pair = Pair(key: string, val: string)

  // ^<tag>\s+(\d+)\s
  function Header(tag: string, line: string): (r: Option<string>)
    ensures r.Some? ==> Digits(r.value)
  {
    if !(tag <= line) then None
    else
      var rest := line[|tag|..];
      var k := Spaces(rest);
      var d := DigitRun(rest[k..]);
      if k == 0 || d == 0 || k + d == |rest| || !IsSpace(rest[k + d]) then None
      else Some(rest[k..][..d])
  }

  const LIBRARY := "Library:"
  const DRIVE := "Drive:"

  predicate IsHeader(line: string) {
    Header(LIBRARY, line).Some? || Header(DRIVE, line).Some?
  }

  predicate IsWord(c: char) {
    IsDigit(c) || 'a' <= c <= 'z' || 'A' <= c <= 'Z' || c == '_'
  }

  // \bTARGET:\s+(\d+), starting at position i
  function TargetAt(line: string, i: nat): (r: Option<string>)
    requires i <= |line|
    ensures r.Some? ==> Digits(r.value)
  {
    if (i > 0 && IsWord(line[i - 1])) || !("TARGET:" <= line[i..]) then None
    else NumeralAfter(line[i..][7..])
  }

  // The leftmost match at or after position i.
  function Target(line: string, i: nat): (r: Option<string>)
    requires i <= |line|
    ensures r.Some? ==> Digits(r.value)
    decreases |line| - i
  {
    match TargetAt(line, i)
    case Some(d) => Some(d)
    case None => if i == |line| then None else Target(line, i + 1)
  }

  predicate IsKeyChar(c: char) {
    c == ' ' || 'a' <= c <= 'z' || 'A' <= c <= 'Z'
  }

  predicate KeyChars(s: string) {
    forall i :: 0 <= i < |s| ==> IsKeyChar(s[i])
  }

  function Colon(s: string): (p: nat)
    ensures p <= |s| && (forall i :: 0 <= i < p ==> s[i] != ':') && (p < |s| ==> s[p] == ':')
  {
    if s == "" || s[0] == ':' then 0 else 1 + Colon(s[1..])
  }

  // ^\s+([A-Za-z ]+):\s+(.+?)\s*$ with the key trimmed. A blank key matches no
  // field name and reads as no field.
  function Field(line: string): Option<Pair> {
    var p := Colon(line);
    if p == |line| then None
    else
      var w := Spaces(line[..p]);
      var key := line[w..p];
      if w == 0 || key == "" || !KeyChars(key) then None
      else
        match Value(line[p + 1..])
        case None => None
        case Some(v) => Some(Pair(TrimRight(key), v))
  }

  // \s+(.+?)\s*$: a value of nothing but blanks still matches its last character.
  function Value(tail: string): Option<string> {
    var w := Spaces(tail);
    if w == 0 then None
    else
      var v := TrimRight(tail[w..]);
      if v != "" then Some(v) else if |tail| >= 2 then Some(tail[|tail| - 1..]) else None
  }

  // ^(\d+)\s+Slot:\s+(\d+)
  function LibSlot(val: string): (r: Option<Pair>)
    ensures r.Some? ==> Digits(r.value.key) && Digits(r.value.val)
  {
    var d := DigitRun(val);
    match SlotAfter(val[d..])
    case None => None
    case Some(n) => if d == 0 then None else Some(Pair(val[..d], n))
  }

  // \s+Slot:\s+(\d+)
  function SlotAfter(s: string): (r: Option<string>)
    ensures r.Some? ==> Digits(r.value)
  {
    var word := s[Spaces(s)..];
    if Spaces(s) == 0 || !("Slot:" <= word) then None else NumeralAfter(word[5..])
  }

  // \s+(\d+)
  function NumeralAfter(s: string): (r: Option<string>)
    ensures r.Some? ==> Digits(r.value)
  {
    var rest := s[Spaces(s)..];
    if Spaces(s) == 0 || DigitRun(rest) == 0 then None else Some(rest[..DigitRun(rest)])
  }

  // The (library id, slot) a drive block's "Library ID" line gives.
  function LibraryRef(line: string): (r: Option<Pair>)
    ensures r.Some? ==> Digits(r.value.key) && Digits(r.value.val)
  {
    match Field(line)
    case None => None
    case Some(f) => if f.key == "Library ID" then LibSlot(f.val) else None
  }

  // bufio.ScanLines drops one trailing carriage return.
  function DropCR(line: string): string {
    if line != "" && line[|line| - 1] == '\r' then line[..|line| - 1] else line
  }

  // ------------------------------------------------------------ printed lines ----

  lemma OneSpace(s: string)
    requires s != "" && !IsSpace(s[0])
    ensures Spaces(" " + s) == 1
  {
    assert (" " + s)[1..] == s;
  }

  lemma HeaderPrinted(tag: string, d: string, rest: string)
    requires d != "" && Digits(d) && rest != "" && IsSpace(rest[0])
    ensures Header(tag, tag + " " + d + rest) == Some(d)
  {
    hide Spaces, DigitRun;
    var line := tag + " " + d + rest;
    var after := " " + d + rest;
    assert line == tag + after && line[|tag|..] == after;
    assert Gap(" ") && Numeral(d, rest);
    GapThenNumeral(" ", d, rest);
    assert after == " " + d + rest && after[1 + |d|] == rest[0];
  }

  lemma HeaderOther(tag: string, line: string)
    requires tag != "" && (line == "" || line[0] != tag[0])
    ensures Header(tag, line) == None
  {
  }

  lemma {:induction false} TargetSkips(pre: string, tail: string, i: nat)
    requires i <= |pre| && 'T' !in pre
    ensures Target(pre + tail, i) == Target(pre + tail, |pre|)
    decreases |pre| - i
  {
    var line := pre + tail;
    if i < |pre| {
      assert line[i..] != "" && line[i..][0] == pre[i];
      assert "TARGET:"[0] == 'T';
      TargetSkips(pre, tail, i + 1);
    }
  }

  lemma TargetAtPrinted(line: string, i: nat, d: string, rest: string)
    requires i <= |line| && line[i..] == "TARGET: " + d + rest && (i > 0 ==> !IsWord(line[i - 1]))
    requires d != "" && Digits(d) && (rest != "" ==> !IsDigit(rest[0]))
    ensures TargetAt(line, i) == Some(d)
  {
    hide IsWord;
    var after := " " + (d + rest);
    assert line[i..] == "TARGET:" + after;
    assert line[i..][7..] == after;
    assert (d + rest)[0] == d[0];
    OneSpace(d + rest);
    assert after[1..] == d + rest;
    DigitRunIs(d, rest);
    assert (d + rest)[..|d|] == d;
  }

  lemma TargetPrinted(pre: string, d: string, rest: string)
    requires 'T' !in pre && pre != "" && !IsWord(pre[|pre| - 1])
    requires d != "" && Digits(d) && (rest != "" ==> !IsDigit(rest[0]))
    ensures Target(pre + ("TARGET: " + d + rest), 0) == Some(d)
  {
    hide TargetAt, IsWord;
    var tail := "TARGET: " + d + rest;
    var line := pre + tail;
    TargetSkips(pre, tail, 0);
    assert line[|pre|..] == tail;
    TargetAtPrinted(line, |pre|, d, rest);
  }

  lemma {:induction false} ColonPrinted(head: string, tail: string)
    requires ':' !in head
    ensures Colon(head + ":" + tail) == |head|
  {
    var p := Colon(head + ":" + tail);
    assert (head + ":" + tail)[|head|] == ':';
    assert forall i :: 0 <= i < |head| ==> (head + ":" + tail)[i] == head[i];
  }

  lemma TrimRightKeeps(s: string)
    requires s != "" && !IsSpace(s[|s| - 1])
    ensures TrimRight(s) == s
  {
  }

  predicate Trimmed(s: string) {
    s != "" && !IsSpace(s[0]) && !IsSpace(s[|s| - 1])
  }

  lemma FieldPrinted(key: string, val: string)
    requires Trimmed(key) && KeyChars(key) && Trimmed(val)
    ensures Field(" " + key + ": " + val) == Some(Pair(key, val))
  {
    var head, tail := " " + key, " " + val;
    var line := " " + key + ": " + val;
    assert line == head + ":" + tail;
    assert ':' !in head;
    ColonPrinted(head, tail);
    assert line[..|head|] == head && line[1..|head|] == key && line[|head| + 1..] == tail;
    OneSpace(key);
    OneSpace(val);
    assert tail[1..] == val;
    TrimRightKeeps(key);
    TrimRightKeeps(val);
  }

  lemma LibSlotPrinted(d: string, slot: string)
    requires d != "" && Digits(d) && slot != "" && Digits(slot)
    ensures LibSlot(d + " Slot: " + slot) == Some(Pair(d, slot))
  {
    var val := d + " Slot: " + slot;
    var r1 := " Slot: " + slot;
    assert val == d + r1 && !IsDigit(r1[0]);
    DigitRunIs(d, r1);
    assert val[|d|..] == r1;
    var r2 := "Slot: " + slot;
    assert r1 == " " + r2;
    OneSpace(r2);
    assert r1[1..] == r2;
    assert r2[..5] == "Slot:";
    assert r2[5..] == " " + slot;
    OneSpace(slot);
    assert (" " + slot)[1..] == slot;
    assert slot + "" == slot;
    DigitRunIs(slot, "");
    assert val[..|d|] == d && slot[..|slot|] == slot;
  }
}
