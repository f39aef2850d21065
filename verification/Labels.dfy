// mint.go's label proposal.
module Labels {
  import opened Options
  import opened Text

  predicate IsAlnum(c: char) {
    'A' <= c <= 'Z' || IsDigit(c)
  }

  // [A-Z0-9]{3}
  predicate IsPrefix(p: string) {
    |p| == 3 && IsAlnum(p[0]) && IsAlnum(p[1]) && IsAlnum(p[2])
  }

  // L[1-9]|J[AB]
  predicate IsSuffix(s: string) {
    |s| == 2 && ((s[0] == 'L' && '1' <= s[1] <= '9') || (s[0] == 'J' && (s[1] == 'A' || s[1] == 'B')))
  }

  // The number of a label with this prefix and suffix, as reLabelParts reads it.
  function Numbered(l: string, prefix: string, suffix: string): Option<nat> {
    if |l| == 8 && IsPrefix(l[..3]) && Digits(l[3..6]) && IsSuffix(l[6..]) && l[..3] == prefix && l[6..] == suffix
    then Some(Number(l[3..6])) else None
  }

  // %s%03d%s
  function Label(prefix: string, n: nat, suffix: string): string
    requires n < 1000
  {
    prefix + [DigitOf(n / 100), DigitOf(n / 10 % 10), DigitOf(n % 10)] + suffix
  }

  // The highest number known with this prefix and suffix, 0 when there is none.
  function Top(known: seq<string>, prefix: string, suffix: string): nat {
    if known == [] then 0
    else
      var m, n := Top(known[..|known| - 1], prefix, suffix), Numbered(known[|known| - 1], prefix, suffix);
      if n.Some? && n.value > m then n.value else m
  }

  predicate Upto(l: string, prefix: string, suffix: string, m: nat) {
    Numbered(l, prefix, suffix).Some? ==> Numbered(l, prefix, suffix).value <= m
  }

  // Every known label of this kind is numbered at most Top, and some is, unless Top is 0.
  lemma {:induction false} TopIsHighest(known: seq<string>, prefix: string, suffix: string)
    ensures var m := Top(known, prefix, suffix);
            && (forall i :: 0 <= i < |known| ==> Upto(known[i], prefix, suffix, m))
            && (m == 0 || exists i :: 0 <= i < |known| && Numbered(known[i], prefix, suffix) == Some(m))
  {
    hide Numbered;
    if known != [] {
      var init := known[..|known| - 1];
      TopIsHighest(init, prefix, suffix);
      forall i | 0 <= i < |known| ensures Upto(known[i], prefix, suffix, Top(known, prefix, suffix)) {
        if i < |init| { assert Upto(init[i], prefix, suffix, Top(init, prefix, suffix)); }
      }
      var m := Top(init, prefix, suffix);
      if m > 0 {
        var i :| 0 <= i < |init| && Numbered(init[i], prefix, suffix) == Some(m);
        assert Numbered(known[i], prefix, suffix) == Some(m);
      }
    }
  }

  predicate NoneFree(known: seq<string>, prefix: string, suffix: string, m: nat, n: nat)
    requires n <= 1000
  {
    forall k :: m < k < n ==> Label(prefix, k, suffix) in known
  }

  method NextLabel(known: seq<string>, prefix: string, suffix: string) returns (r: string)
    ensures var m := Top(known, prefix, suffix);
            if r == "" then NoneFree(known, prefix, suffix, m, 1000)
            else && r !in known
                 && exists n :: m < n < 1000 && r == Label(prefix, n, suffix) && NoneFree(known, prefix, suffix, m, n)
  {
    hide Numbered;
    var max: nat := 0;
    var i := 0;
    while i < |known|
      invariant i <= |known| && max == Top(known[..i], prefix, suffix)
    {
      var p := Numbered(known[i], prefix, suffix);
      assert known[..i + 1][..i] == known[..i];
      if p.Some? && p.value > max { max := p.value; }
      i := i + 1;
    }
    assert known[..i] == known;
    var n := max + 1;
    while n < 1000
      invariant max + 1 <= n && (n <= 1000 || n == max + 1)
      invariant NoneFree(known, prefix, suffix, max, if n < 1000 then n else 1000)
    {
      var c := Label(prefix, n, suffix);
      if c !in known { return c; }
      n := n + 1;
    }
    r := "";
  }

  lemma LabelReads(prefix: string, n: nat, suffix: string)
    requires IsPrefix(prefix) && IsSuffix(suffix) && n < 1000
    ensures Numbered(Label(prefix, n, suffix), prefix, suffix) == Some(n)
  {
    var l := Label(prefix, n, suffix);
    var d := [DigitOf(n / 100), DigitOf(n / 10 % 10), DigitOf(n % 10)];
    assert l[..3] == prefix && l[3..6] == d && l[6..] == suffix;
    assert d[..2] == [DigitOf(n / 100), DigitOf(n / 10 % 10)];
    assert d[..2][..1] == [DigitOf(n / 100)];
    assert d[..2][..1][..0] == "";
    assert Number("") == 0;
    assert Number(d[..2][..1]) == n / 100;
    assert Number(d[..2]) == n / 100 * 10 + n / 10 % 10;
  }

  // For a proper prefix and suffix nothing above the highest number is taken, so the
  // proposal is that number plus one, and there is none exactly when it is 999,
  // however many lower numbers are free.
  lemma NextIsHighestPlusOne(known: seq<string>, prefix: string, suffix: string)
    requires IsPrefix(prefix) && IsSuffix(suffix)
    ensures var m := Top(known, prefix, suffix);
            && (forall n :: m < n < 1000 ==> Label(prefix, n, suffix) !in known)
            && m <= 999 && (m > 0 ==> Label(prefix, m, suffix) in known)
  {
    hide Label;
    var m := Top(known, prefix, suffix);
    TopIsHighest(known, prefix, suffix);
    forall n | m < n < 1000 ensures Label(prefix, n, suffix) !in known {
      LabelReads(prefix, n, suffix);
      forall i | 0 <= i < |known| ensures known[i] != Label(prefix, n, suffix) {
        assert Upto(known[i], prefix, suffix, m);
      }
    }
    if m > 0 {
      var i :| 0 <= i < |known| && Numbered(known[i], prefix, suffix) == Some(m);
      NumberBound(known[i], prefix, suffix);
    }
  }

  lemma NumberBound(l: string, prefix: string, suffix: string)
    requires Numbered(l, prefix, suffix).Some?
    ensures Numbered(l, prefix, suffix).value <= 999
    ensures l == Label(prefix, Numbered(l, prefix, suffix).value, suffix)
  {
    hide Number;
    ThreeDigits(l[3..6]);
    assert l == l[..3] + l[3..6] + l[6..];
  }

  // A label is numbered n exactly when it is three upper-case letters or digits, the
  // three digits of n, and one of the eleven media suffixes.
  lemma NumberedIs(l: string, prefix: string, suffix: string, n: nat)
    ensures Numbered(l, prefix, suffix) == Some(n) <==>
              && n < 1000 && |prefix| == 3
              && (forall i :: 0 <= i < 3 ==> 'A' <= prefix[i] <= 'Z' || '0' <= prefix[i] <= '9')
              && suffix in {"L1", "L2", "L3", "L4", "L5", "L6", "L7", "L8", "L9", "JA", "JB"}
              && l == prefix + [DigitOf(n / 100), DigitOf(n / 10 % 10), DigitOf(n % 10)] + suffix
  {
    hide Number;
    Suffixes(suffix);
    if Numbered(l, prefix, suffix) == Some(n) {
      NumberBound(l, prefix, suffix);
    }
    if IsPrefix(prefix) && IsSuffix(suffix) && n < 1000 {
      LabelReads(prefix, n, suffix);
    }
  }

  lemma Suffixes(s: string)
    ensures IsSuffix(s) <==> s in {"L1", "L2", "L3", "L4", "L5", "L6", "L7", "L8", "L9", "JA", "JB"}
  {
    if |s| == 2 { assert s == [s[0], s[1]]; }
  }

  lemma ThreeDigits(d: string)
    requires |d| == 3 && Digits(d)
    ensures Number(d) <= 999 && d == [DigitOf(Number(d) / 100), DigitOf(Number(d) / 10 % 10), DigitOf(Number(d) % 10)]
  {
    hide Number;
    var a, b, c := d[0] as int - '0' as int, d[1] as int - '0' as int, d[2] as int - '0' as int;
    NumberOfThree(d, a, b, c);
    DigitsOfThree(a, b, c);
    assert DigitOf(a) == d[0] && DigitOf(b) == d[1] && DigitOf(c) == d[2];
  }

  lemma NumberOfThree(d: string, a: nat, b: nat, c: nat)
    requires |d| == 3 && Digits(d)
    requires a == d[0] as int - '0' as int && b == d[1] as int - '0' as int && c == d[2] as int - '0' as int
    ensures Number(d) == 100 * a + 10 * b + c
  {
    assert d[..2][..1][..0] == "" && Number("") == 0;
    assert Number(d[..2][..1]) == a;
    assert Number(d[..2]) == a * 10 + b;
  }

  lemma DigitsOfThree(a: nat, b: nat, c: nat)
    requires a < 10 && b < 10 && c < 10
    ensures var n := 100 * a + 10 * b + c; n <= 999 && n / 100 == a && n / 10 % 10 == b && n % 10 == c
  {
    var n := 100 * a + 10 * b + c;
    Hundreds(a, 10 * b + c);
    Tens(10 * a + b, c);
    Tens(a, b);
    assert n == 100 * a + (10 * b + c) && n == 10 * (10 * a + b) + c;
  }

  lemma Tens(q: nat, r: nat)
    requires r < 10
    ensures (10 * q + r) / 10 == q && (10 * q + r) % 10 == r
  {
  }

  lemma Hundreds(q: nat, r: nat)
    requires r < 100
    ensures (100 * q + r) / 100 == q
  {
  }
}
