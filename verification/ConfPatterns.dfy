// The regular expressions of mhvtlconf.go as the strings they match: each line function
// gives its groups exactly when the line splits the way the pattern says.
module ConfPatterns {
  import opened Options
  import opened Text
  import opened ConfLines

  // \s+(\d+)
  ghost predicate NumeralBehind(s: string, gap: string, d: string, rest: string) {
    Gap(gap) && Numeral(d, rest) && s == gap + d + rest
  }

  lemma NumeralAfterIs(s: string, d: string)
    ensures NumeralAfter(s) == Some(d) <==> exists gap, rest :: NumeralBehind(s, gap, d, rest)
  {
    hide Numeral, Spaces, DigitRun, Digits;
    if NumeralAfter(s) == Some(d) {
      var k := Spaces(s);
      GapTaken(s);
      RunIsNumeral(s[k..]);
      ThreeParts(s, k, |d|);
      assert NumeralBehind(s, s[..k], d, s[k + |d|..]);
    }
    if gap, rest :| NumeralBehind(s, gap, d, rest) {
      GapThenNumeral(gap, d, rest);
      NumeralThere(d, rest);
    }
  }

  lemma NumeralThere(d: string, rest: string)
    requires Numeral(d, rest)
    ensures d != "" && Digits(d)
  {
  }

  // ------------------------------------------------------------------------ headers ----

  // ^<tag>\s+(\d+)\s
  ghost predicate HeaderSplits(tag: string, line: string, d: string, s: string, rest: string) {
    Gap(s) && Numeral(d, rest) && rest != "" && Blank(rest[..1]) && line == tag + (s + d + rest)
  }

  lemma HeaderGives(tag: string, line: string, d: string)
    requires Header(tag, line) == Some(d)
    ensures exists s, rest :: HeaderSplits(tag, line, d, s, rest)
  {
    hide Gap, Numeral, Spaces, DigitRun;
    var after := line[|tag|..];
    var k := Spaces(after);
    GapTaken(after);
    RunIsNumeral(after[k..]);
    ThreeParts(after, k, |d|);
    SomeGap(after);
    var rest := after[k + |d|..];
    assert rest[..1] == [after[k + |d|]];
    assert HeaderSplits(tag, line, d, after[..k], rest);
  }

  lemma SomeGap(after: string)
    requires Spaces(after) > 0
    ensures Gap(after[..Spaces(after)])
  {
    GapTaken(after);
  }

  lemma HeaderGiven(tag: string, line: string, d: string, s: string, rest: string)
    requires HeaderSplits(tag, line, d, s, rest)
    ensures Header(tag, line) == Some(d)
  {
    hide Spaces, DigitRun;
    GapThenNumeral(s, d, rest);
    var after := s + d + rest;
    assert line[|tag|..] == after && tag <= line;
    assert after[|s| + |d|] == rest[0] == rest[..1][0];
  }

  lemma HeaderIs(tag: string, line: string, d: string)
    ensures Header(tag, line) == Some(d) <==> exists s, rest :: HeaderSplits(tag, line, d, s, rest)
  {
    hide Header, HeaderSplits;
    if Header(tag, line) == Some(d) { HeaderGives(tag, line, d); }
    if s, rest :| HeaderSplits(tag, line, d, s, rest) { HeaderGiven(tag, line, d, s, rest); }
  }

  // ------------------------------------------------------------------------- TARGET ----

  // \bTARGET:\s+(\d+), matched at i
  ghost predicate TargetSplits(line: string, i: nat, d: string, gap: string, rest: string)
    requires i <= |line|
  {
    && (i > 0 ==>
          var c := line[i - 1]; !('a' <= c <= 'z' || 'A' <= c <= 'Z' || '0' <= c <= '9' || c == '_'))
    && "TARGET:" <= line[i..] && NumeralBehind(line[i..][7..], gap, d, rest)
  }

  lemma TargetAtIs(line: string, i: nat, d: string)
    requires i <= |line|
    ensures TargetAt(line, i) == Some(d) <==> exists gap, rest :: TargetSplits(line, i, d, gap, rest)
  {
    hide NumeralAfter, NumeralBehind;
    if "TARGET:" <= line[i..] {
      NumeralAfterIs(line[i..][7..], d);
      if TargetAt(line, i) == Some(d) {
        var gap, rest :| NumeralBehind(line[i..][7..], gap, d, rest);
        assert TargetSplits(line, i, d, gap, rest);
      }
    }
  }

  // The leftmost place that matches decides.
  lemma {:induction false} TargetFrom(line: string, i: nat, d: string)
    requires i <= |line|
    ensures Target(line, i) == Some(d) <==>
            exists j :: i <= j <= |line| && TargetAt(line, j) == Some(d)
                        && forall k :: i <= k < j ==> TargetAt(line, k) == None
    decreases |line| - i
  {
    hide TargetAt;
    if TargetAt(line, i) == None && i < |line| {
      TargetFrom(line, i + 1, d);
      if j :| i <= j <= |line| && TargetAt(line, j) == Some(d) && forall k :: i <= k < j ==> TargetAt(line, k) == None {
        assert j != i;
      }
      if j :| i + 1 <= j <= |line| && TargetAt(line, j) == Some(d)
              && forall k :: i + 1 <= k < j ==> TargetAt(line, k) == None {
        assert forall k :: i <= k < j ==> TargetAt(line, k) == None;
      }
    }
  }

  // ------------------------------------------------------------------------- Library ID ----

  // \s+Slot:\s+(\d+)
  ghost predicate SlotBehind(s: string, n: string, gap: string, gap2: string, rest: string) {
    Gap(gap) && gap + "Slot:" <= s && NumeralBehind(s[|gap| + 5..], gap2, n, rest)
  }

  lemma SlotAfterIs(s: string, n: string)
    ensures SlotAfter(s) == Some(n) <==> exists gap, gap2, rest :: SlotBehind(s, n, gap, gap2, rest)
  {
    hide SlotBehind, SlotAfter;
    if SlotAfter(s) == Some(n) { SlotGives(s, n); }
    if gap, gap2, rest :| SlotBehind(s, n, gap, gap2, rest) { SlotGiven(s, n, gap, gap2, rest); }
  }

  lemma SlotGives(s: string, n: string)
    requires SlotAfter(s) == Some(n)
    ensures exists gap, gap2, rest :: SlotBehind(s, n, gap, gap2, rest)
  {
    hide Spaces, DigitRun, NumeralAfter, NumeralBehind, Gap;
    var k := Spaces(s);
    SomeGap(s);
    NumeralAfterIs(s[k..][5..], n);
    var gap2, rest :| NumeralBehind(s[k..][5..], gap2, n, rest);
    assert s[k..][5..] == s[k + 5..] && s == s[..k] + s[k..];
    assert SlotBehind(s, n, s[..k], gap2, rest);
  }

  lemma SlotGiven(s: string, n: string, gap: string, gap2: string, rest: string)
    requires SlotBehind(s, n, gap, gap2, rest)
    ensures SlotAfter(s) == Some(n)
  {
    hide Spaces, DigitRun, NumeralAfter, NumeralBehind;
    var word := s[|gap|..];
    assert s == gap + word && word[..5] == "Slot:" && word[5..] == s[|gap| + 5..];
    assert word[0] == "Slot:"[0] == 'S';
    SpacesAre(gap, word);
    NumeralAfterIs(word[5..], n);
  }

  // ^(\d+)\s+Slot:\s+(\d+)
  ghost predicate LibSlotSplits(val: string, d: string, n: string, gap: string, gap2: string, rest: string) {
    && d != "" && (forall i :: 0 <= i < |d| ==> '0' <= d[i] <= '9')
    && d <= val && SlotBehind(val[|d|..], n, gap, gap2, rest)
  }

  lemma LibSlotIs(val: string, d: string, n: string)
    ensures LibSlot(val) == Some(Pair(d, n)) <==>
            exists gap, gap2, rest :: LibSlotSplits(val, d, n, gap, gap2, rest)
  {
    hide SlotBehind, SlotAfter, DigitRun;
    if LibSlot(val) == Some(Pair(d, n)) {
      SlotAfterIs(val[|d|..], n);
      var gap, gap2, rest :| SlotBehind(val[|d|..], n, gap, gap2, rest);
      assert forall i :: 0 <= i < |d| ==> IsDigit(d[i]);
      assert LibSlotSplits(val, d, n, gap, gap2, rest);
    }
    if gap, gap2, rest :| LibSlotSplits(val, d, n, gap, gap2, rest) {
      SlotAfterIs(val[|d|..], n);
      BlankFirst(val[|d|..], n, gap, gap2, rest);
      assert val == d + val[|d|..];
      DigitRunIs(d, val[|d|..]);
    }
  }

  lemma BlankFirst(s: string, n: string, gap: string, gap2: string, rest: string)
    requires SlotBehind(s, n, gap, gap2, rest)
    ensures s != "" && !IsDigit(s[0])
  {
    hide NumeralBehind;
    assert s[0] == gap[0];
  }

  // ------------------------------------------------------------------------- fields ----

  // \s+(.+?)\s*$: the value between the blanks; of nothing but blanks, the last of them.
  ghost predicate ValueSplits(tail: string, v: string, s: string, e: string) {
    && Gap(s) && Blank(e) && v != "" && !Blank(v[..1]) && !Blank(v[|v| - 1..]) && tail == s + v + e
  }

  lemma ValueGives(tail: string, v: string)
    requires Value(tail) == Some(v)
    ensures (exists s, e :: ValueSplits(tail, v, s, e)) || (Blank(tail) && |tail| >= 2 && v == tail[|tail| - 1..])
  {
    hide Spaces, TrimRight;
    var w := Spaces(tail);
    var u := TrimRight(tail[w..]);
    var e := tail[w..][|u|..];
    GapTaken(tail);
    CutOff(tail[w..]);
    assert tail == tail[..w] + u + e;
    if u != "" {
      assert u[0] == tail[w] && u[..1][0] == u[0] && u[|u| - 1..][0] == u[|u| - 1];
      assert ValueSplits(tail, v, tail[..w], e);
    } else {
      assert tail == tail[..w] + e;
    }
  }

  lemma ValueGiven(tail: string, v: string, s: string, e: string)
    requires ValueSplits(tail, v, s, e)
    ensures Value(tail) == Some(v)
  {
    hide Spaces, TrimRight;
    assert tail == s + (v + e) && v[..1] == [v[0]] && v[|v| - 1..] == [v[|v| - 1]];
    SpacesAre(s, v + e);
    assert tail[|s|..] == v + e;
    TrimmedRight(v, e);
  }

  lemma BlankValue(tail: string)
    requires Blank(tail) && |tail| >= 2
    ensures Value(tail) == Some(tail[|tail| - 1..])
  {
    hide Spaces;
    assert tail + "" == tail;
    SpacesAre(tail, "");
    assert tail[|tail|..] == "";
  }

  lemma ValueIs(tail: string, v: string)
    ensures Value(tail) == Some(v) <==>
            || (exists s, e :: ValueSplits(tail, v, s, e))
            || (Blank(tail) && |tail| >= 2 && v == tail[|tail| - 1..])
  {
    hide Value, ValueSplits, Blank;
    if Value(tail) == Some(v) { ValueGives(tail, v); }
    if s, e :| ValueSplits(tail, v, s, e) { ValueGiven(tail, v, s, e); }
    if Blank(tail) && |tail| >= 2 { BlankValue(tail); }
  }

  // ^\s+([A-Za-z ]+):<tail>
  ghost predicate FieldSplits(line: string, lead: string, key: string, tail: string) {
    && Gap(lead) && key != "" && !Blank(key[..1])
    && (forall i :: 0 <= i < |key| ==> key[i] == ' ' || 'a' <= key[i] <= 'z' || 'A' <= key[i] <= 'Z')
    && line == lead + key + ":" + tail
  }

  // The key comes with its trailing blanks cut.
  ghost predicate KeyCut(key: string, k: string) {
    exists e :: Blank(e) && key == k + e && k != "" && !Blank(k[|k| - 1..])
  }

  lemma FieldIs(line: string, k: string, v: string)
    ensures Field(line) == Some(Pair(k, v)) <==>
            exists lead, key, tail :: FieldSplits(line, lead, key, tail) && KeyCut(key, k) && Value(tail) == Some(v)
  {
    hide Value;
    if Field(line) == Some(Pair(k, v)) {
      FieldGives(line, k, v);
    }
    if lead, key, tail :| FieldSplits(line, lead, key, tail) && KeyCut(key, k) && Value(tail) == Some(v) {
      FieldReads(line, k, v, lead, key, tail);
    }
  }

  lemma FieldGives(line: string, k: string, v: string)
    requires Field(line) == Some(Pair(k, v))
    ensures exists lead, key, tail :: FieldSplits(line, lead, key, tail) && KeyCut(key, k) && Value(tail) == Some(v)
  {
    hide Value, Colon, Spaces, TrimRight;
    var p := Colon(line);
    var w := Spaces(line[..p]);
    var key, tail := line[w..p], line[p + 1..];
    GapTaken(line[..p]);
    CutOff(key);
    TrimFront(key);
    assert key == k + key[|k|..];
    assert line == line[..p][..w] + key + ":" + tail;
    assert FieldSplits(line, line[..p][..w], key, tail);
  }

  lemma {:induction false} TrimFront(key: string)
    requires key != "" && !IsSpace(key[0])
    ensures TrimRight(key) != ""
    decreases |key|
  {
    if IsSpace(key[|key| - 1]) { TrimFront(key[..|key| - 1]); }
  }

  lemma FieldReads(line: string, k: string, v: string, lead: string, key: string, tail: string)
    requires FieldSplits(line, lead, key, tail) && KeyCut(key, k) && Value(tail) == Some(v)
    ensures Field(line) == Some(Pair(k, v))
  {
    hide Value, KeyCut, TrimRight, Spaces, Colon;
    var head := lead + key;
    assert line == head + ":" + tail;
    assert ':' !in head;
    ColonPrinted(head, tail);
    assert line[..|head|] == head && line[|head| + 1..] == tail;
    SpacesAre(lead, key);
    assert line[|lead|..|head|] == key;
    KeyTrims(key, k);
  }

  lemma KeyTrims(key: string, k: string)
    requires KeyCut(key, k)
    ensures TrimRight(key) == k
  {
    hide TrimRight;
    var e :| Blank(e) && key == k + e && k != "" && !Blank(k[|k| - 1..]);
    TrimmedRight(k, e);
  }
}
