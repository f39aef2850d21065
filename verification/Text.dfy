// Lines, decimal numbers and the character classes of the program's regular
// expressions.
module Text {

  // ------------------------------------------------------------------ lines ----

  predicate OneLine(s: string) {
    '\n' !in s
  }

  // strings.Split(s, "\n")
  function Split(s: string): (r: seq<string>)
    ensures |r| > 0 && forall i :: 0 <= i < |r| ==> OneLine(r[i])
  {
    if s == "" then [""] else PutChar(s[0], Split(s[1..]))
  }

  function PutChar(c: char, r: seq<string>): seq<string>
    requires r != []
  {
    if c == '\n' then [""] + r else [[c] + r[0]] + r[1..]
  }

  lemma PutCharAppend(c: char, r: seq<string>, x: seq<string>)
    requires r != []
    ensures PutChar(c, r + x) == PutChar(c, r) + x
  {
    assert (r + x)[1..] == r[1..] + x;
  }

  // strings.Join(ls, "\n")
  function Join(ls: seq<string>): string {
    if ls == [] then "" else if |ls| == 1 then ls[0] else ls[0] + "\n" + Join(ls[1..])
  }

  lemma {:induction false} JoinSplit(s: string)
    ensures Join(Split(s)) == s
  {
    if s != "" {
      var r := Split(s[1..]);
      JoinSplit(s[1..]);
      assert s == [s[0]] + s[1..];
      if s[0] == '\n' {
        assert Split(s)[1..] == r;
        assert Join(Split(s)) == "" + "\n" + Join(r);
      } else {
        assert Split(s)[1..] == r[1..];
      }
    }
  }

  lemma {:induction false} SplitCons(a: string, b: string)
    requires OneLine(a)
    ensures Split(a + "\n" + b) == [a] + Split(b)
  {
    var s := a + "\n" + b;
    if a == "" {
      assert s[1..] == b;
    } else {
      assert s[1..] == a[1..] + "\n" + b;
      SplitCons(a[1..], b);
      assert [a[0]] + a[1..] == a;
    }
  }

  lemma {:induction false} SplitOne(a: string)
    requires OneLine(a)
    ensures Split(a) == [a]
  {
    if a != "" {
      SplitOne(a[1..]);
      assert [a[0]] + a[1..] == a;
    }
  }

  lemma {:induction false} SplitJoin(ls: seq<string>)
    requires ls != [] && forall i :: 0 <= i < |ls| ==> OneLine(ls[i])
    ensures Split(Join(ls)) == ls
  {
    if |ls| == 1 {
      SplitOne(ls[0]);
    } else {
      SplitJoin(ls[1..]);
      SplitCons(ls[0], Join(ls[1..]));
      assert ls == [ls[0]] + ls[1..];
    }
  }

  lemma {:induction false} SplitAppend(a: string, b: string)
    ensures Split(a + "\n" + b) == Split(a) + Split(b)
  {
    if a == "" {
      SplitCons(a, b);
    } else {
      hide PutChar;
      var s := a + "\n" + b;
      assert s[0] == a[0] && s[1..] == a[1..] + "\n" + b;
      SplitAppend(a[1..], b);
      PutCharAppend(a[0], Split(a[1..]), Split(b));
    }
  }

  // Each line with its newline.
  function Printed(ls: seq<string>): string {
    if ls == [] then "" else Printed(ls[..|ls| - 1]) + ls[|ls| - 1] + "\n"
  }

  lemma {:induction false} PrintedAppend(a: seq<string>, b: seq<string>)
    ensures Printed(a + b) == Printed(a) + Printed(b)
    decreases |b|
  {
    if b == [] {
      assert a + b == a;
    } else {
      var init, last := b[..|b| - 1], b[|b| - 1];
      assert a + b == (a + init) + [last] && (a + b)[..|a + b| - 1] == a + init;
      PrintedAppend(a, init);
    }
  }

  lemma {:induction false} PrintedJoin(ls: seq<string>)
    ensures Printed(ls) == Join(ls + [""])
  {
    if ls != [] {
      var rest := ls[1..];
      PrintedJoin(rest);
      assert ls == [ls[0]] + rest;
      PrintedAppend([ls[0]], rest);
      assert [ls[0]][..0] == [];
      assert (ls + [""])[1..] == rest + [""];
    }
  }

  // ---------------------------------------------------------------- decimals ----

  predicate IsDigit(c: char) {
    '0' <= c <= '9'
  }

  predicate Digits(s: string) {
    forall i :: 0 <= i < |s| ==> IsDigit(s[i])
  }

  function DigitOf(n: nat): char
    requires n < 10
  {
    '0' + n as char
  }

  // fmt's %d
  function Decimal(n: nat): (s: string)
    ensures s != "" && Digits(s)
  {
    if n < 10 then [DigitOf(n)] else Decimal(n / 10) + [DigitOf(n % 10)]
  }

  // fmt's %02d
  function Pad2(n: nat): (s: string)
    ensures Digits(s) && |s| >= 2 && (|Decimal(n)| >= 2 ==> s == Decimal(n))
  {
    if n < 10 then "0" + Decimal(n) else Decimal(n)
  }

  // strconv.Atoi on a string of digits
  function Number(s: string): nat
    requires Digits(s)
  {
    if s == "" then 0 else Number(s[..|s| - 1]) * 10 + (s[|s| - 1] as int - '0' as int)
  }

  lemma {:induction false} NumberDecimal(n: nat)
    ensures Number(Decimal(n)) == n
  {
    if n >= 10 {
      NumberDecimal(n / 10);
      assert Decimal(n)[..|Decimal(n)| - 1] == Decimal(n / 10);
    } else {
      assert Decimal(n)[..0] == "";
      assert Number("") == 0;
    }
  }

  lemma NumberPad2(n: nat)
    ensures Number(Pad2(n)) == n
  {
    NumberDecimal(n);
    if n < 10 {
      var s := "0" + Decimal(n);
      assert s[..1] == "0" && "0"[..0] == "";
      assert Number("0") == 0;
    }
  }

  // Written the way %d writes it: no leading zeros.
  predicate Canonical(s: string) {
    s != "" && Digits(s) && s == Decimal(Number(s))
  }

  lemma CanonicalDecimal(s: string, n: nat)
    requires Canonical(s)
    ensures s == Decimal(n) <==> Number(s) == n
  {
    NumberDecimal(n);
  }

  // ---------------------------------------------------------- character runs ----

  // \s
  predicate IsSpace(c: char) {
    c == ' ' || c == '\t' || c == '\n' || c == '\r' || c == 12 as char
  }

  // Length of the leading run of \s.
  function Spaces(s: string): (n: nat)
    ensures n <= |s| && (forall i :: 0 <= i < n ==> IsSpace(s[i])) && (n < |s| ==> !IsSpace(s[n]))
  {
    if s != "" && IsSpace(s[0]) then 1 + Spaces(s[1..]) else 0
  }

  // Length of the leading run of \d.
  function DigitRun(s: string): (n: nat)
    ensures n <= |s| && Digits(s[..n]) && (n < |s| ==> !IsDigit(s[n]))
  {
    if s != "" && IsDigit(s[0]) then 1 + DigitRun(s[1..]) else 0
  }

  // A run is determined by where it stops.
  lemma {:induction false} DigitRunIs(d: string, rest: string)
    requires Digits(d) && (rest != "" ==> !IsDigit(rest[0]))
    ensures DigitRun(d + rest) == |d|
  {
    if d == "" {
      assert d + rest == rest;
    } else {
      assert (d + rest)[1..] == d[1..] + rest;
      DigitRunIs(d[1..], rest);
    }
  }

  function TrimRight(s: string): (r: string)
    ensures r <= s && (r != "" ==> !IsSpace(r[|r| - 1]))
  {
    if s != "" && IsSpace(s[|s| - 1]) then TrimRight(s[..|s| - 1]) else s
  }

  // ------------------------------------------------------- runs as regular expressions ----

  // \s*
  predicate Blank(s: string) {
    forall i :: 0 <= i < |s| ==> s[i] in {' ', '\t', '\n', '\r', 12 as char}
  }

  // \s+
  predicate Gap(s: string) {
    s != "" && Blank(s)
  }

  // \d+, with no digit behind it.
  predicate Numeral(d: string, rest: string) {
    && d != "" && (forall i :: 0 <= i < |d| ==> '0' <= d[i] <= '9')
    && (rest == "" || !('0' <= rest[0] <= '9'))
  }

  lemma {:induction false} SpacesAre(s: string, t: string)
    requires Blank(s) && (t == "" || !IsSpace(t[0]))
    ensures Spaces(s + t) == |s|
  {
    if s == "" {
      assert s + t == t;
    } else {
      assert (s + t)[1..] == s[1..] + t && IsSpace(s[0]);
      SpacesAre(s[1..], t);
    }
  }

  lemma GapThenNumeral(s: string, d: string, rest: string)
    requires Gap(s) && Numeral(d, rest)
    ensures var after := s + d + rest;
            Spaces(after) == |s| && after[|s|..] == d + rest && DigitRun(d + rest) == |d| && (d + rest)[..|d|] == d
  {
    assert s + d + rest == s + (d + rest);
    SpacesAre(s, d + rest);
    DigitRunIs(d, rest);
  }

  lemma GapTaken(t: string)
    ensures Blank(t[..Spaces(t)])
  {
  }

  lemma ThreeParts(s: string, k: nat, n: nat)
    requires k + n <= |s|
    ensures s == s[..k] + s[k..][..n] + s[k + n..] && s[k..][n..] == s[k + n..]
  {
  }

  lemma RunIsNumeral(s: string)
    requires DigitRun(s) > 0
    ensures Numeral(s[..DigitRun(s)], s[DigitRun(s)..])
  {
    hide DigitRun;
    var d := s[..DigitRun(s)];
    assert forall i :: 0 <= i < |d| ==> IsDigit(d[i]);
  }

  lemma {:induction false} TrimmedRight(v: string, e: string)
    requires Blank(e) && (v == "" || !IsSpace(v[|v| - 1]))
    ensures TrimRight(v + e) == v
  {
    if e == "" {
      assert v + e == v;
    } else {
      var init := e[..|e| - 1];
      assert (v + e)[..|v + e| - 1] == v + init && IsSpace(e[|e| - 1]);
      TrimmedRight(v, init);
    }
  }

  lemma {:induction false} CutOff(s: string)
    ensures Blank(s[|TrimRight(s)|..])
  {
    if s != "" && IsSpace(s[|s| - 1]) {
      var init := s[..|s| - 1];
      CutOff(init);
      assert s[|TrimRight(s)|..] == init[|TrimRight(init)|..] + [s[|s| - 1]];
    }
  }
}
