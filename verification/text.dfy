/** Decimal numerals and the string splitting and joining used by the bot. */
module Text {

  predicate IsDigit(c: char) {
    '0' <= c <= '9'
  }

  predicate AllDigits(s: string) {
    forall i :: 0 <= i < |s| ==> IsDigit(s[i])
  }

  function DigitChar(d: nat): (c: char)
    requires d < 10
    ensures IsDigit(c) && c as int - '0' as int == d
  {
    ('0' as int + d) as char
  }

  /** The value of a string of decimal digits, most significant first. */
  function DigitsValue(s: string): nat
    requires AllDigits(s)
  {
    if |s| == 0 then 0
    else 10 * DigitsValue(s[..|s| - 1]) + (s[|s| - 1] as int - '0' as int)
  }

  /** JavaScript's `String(n)` for a non-negative integer: the shortest decimal
      numeral, which reads back as `n` and has no leading zero. */
  function NatToString(n: nat): (s: string)
    ensures 0 < |s| && AllDigits(s)
    ensures DigitsValue(s) == n
    ensures s[0] == '0' <==> n == 0
    ensures n == 0 ==> s == "0"
    decreases n
  {
    if n < 10 then [DigitChar(n)]
    else
      var prefix := NatToString(n / 10);
      var s := prefix + [DigitChar(n % 10)];
      assert s[..|s| - 1] == prefix;
      s
  }

  /** JavaScript's `String(i)` (or a template literal `${i}`) for an integer. */
  function IntToString(i: int): (s: string)
    ensures 0 < |s|
    ensures s[0] == '-' <==> i < 0
    ensures i >= 0 ==> AllDigits(s) && DigitsValue(s) == i && (s[0] == '0' ==> s == "0")
    ensures i < 0 ==> |s| > 1 && AllDigits(s[1..]) && DigitsValue(s[1..]) == -i && s[1] != '0'
  {
    if i < 0 then "-" + NatToString(-i) else NatToString(i)
  }

  /** Two integers print the same only if they are equal. */
  lemma {:induction false} IntToStringInjective(a: int, b: int)
    requires IntToString(a) == IntToString(b)
    ensures a == b
  {
    if a < 0 && b < 0 {
      assert NatToString(-a) == IntToString(a)[1..] == IntToString(b)[1..] == NatToString(-b);
    }
  }

  /** A decimal numeral without leading zeros: "0", or digits starting with a
      non-zero one. */
  predicate Canonical(s: string) {
    |s| > 0 && AllDigits(s) && (s[0] == '0' ==> s == "0")
  }

  /** `s` is the shortest decimal numeral of `n`: its canonical digits,
      preceded by `-` when `n` is negative. */
  predicate IsNumeralOf(s: string, n: int) {
    if n < 0 then |s| > 1 && s[0] == '-' && Canonical(s[1..]) && DigitsValue(s[1..]) == -n
    else Canonical(s) && DigitsValue(s) == n
  }

  /** Digits that start with a non-zero digit have a positive value. */
  lemma {:induction false} LeadingNonZeroPositive(s: string)
    requires |s| > 0 && AllDigits(s) && s[0] != '0'
    ensures DigitsValue(s) >= 1
  {
    if |s| > 1 {
      var p := s[..|s| - 1];
      assert p[0] == s[0];
      LeadingNonZeroPositive(p);
    }
  }

  /** A canonical numeral is the one `NatToString` prints for its value. */
  lemma {:induction false} CanonicalIsNatToString(s: string)
    requires Canonical(s)
    ensures NatToString(DigitsValue(s)) == s
  {
    var last := s[|s| - 1];
    var d := last as int - '0' as int;
    if |s| == 1 {
      assert s[..0] == "";
      assert DigitChar(d) == last;
      assert [last] == s;
    } else {
      var p := s[..|s| - 1];
      assert p[0] == s[0] != '0';
      CanonicalIsNatToString(p);
      LeadingNonZeroPositive(p);
      var v := DigitsValue(s);
      assert v == 10 * DigitsValue(p) + d;
      assert v / 10 == DigitsValue(p) && v % 10 == d;
      assert DigitChar(d) == last;
      assert p + [last] == s;
    }
  }

  /** The numeral `IntToString` prints is the only shortest numeral of a
      number. */
  lemma {:induction false} NumeralIsIntToString(s: string, n: int)
    ensures IsNumeralOf(s, n) <==> s == IntToString(n)
  {
    var printed := IntToString(n);
    if n < 0 {
      assert printed[1..][0] == printed[1];
      if IsNumeralOf(s, n) {
        CanonicalIsNatToString(s[1..]);
        assert s == "-" + s[1..];
      }
    } else if IsNumeralOf(s, n) {
      CanonicalIsNatToString(s);
    }
  }

  /** The longest prefix of `s` made of decimal digits. */
  function DigitRun(s: string): (d: string)
    ensures |d| <= |s| && d == s[..|d|]
    ensures AllDigits(d)
    ensures |d| == |s| || !IsDigit(s[|d|])
  {
    if |s| == 0 || !IsDigit(s[0]) then ""
    else [s[0]] + DigitRun(s[1..])
  }

  /** Extending a string past the end of its digit run does not change the run. */
  lemma {:induction false} DigitRunAppend(a: string, b: string)
    requires |b| == 0 || !IsDigit(b[0]) || |DigitRun(a)| < |a|
    ensures DigitRun(a + b) == DigitRun(a)
  {
    if |a| > 0 && IsDigit(a[0]) {
      assert (a + b)[1..] == a[1..] + b;
      DigitRunAppend(a[1..], b);
    }
  }

  lemma {:induction false} DigitRunOfDigits(s: string)
    requires AllDigits(s)
    ensures DigitRun(s) == s
  {
    if |s| > 0 {
      DigitRunOfDigits(s[1..]);
    }
  }

  /** JavaScript's `parts.join(sep)`: the empty list joins to "". */
  function Join(parts: seq<string>, sep: string): string
  {
    if |parts| == 0 then ""
    else if |parts| == 1 then parts[0]
    else parts[0] + sep + Join(parts[1..], sep)
  }

  /** Where part `i` starts in `Join(parts, sep)`. */
  function JoinOffset(parts: seq<string>, sep: string, i: nat): nat
    requires i < |parts|
  {
    if i == 0 then 0 else |parts[0]| + |sep| + JoinOffset(parts[1..], sep, i - 1)
  }

  /** The layout of a joined string: part `i` sits at `JoinOffset(parts, sep, i)`
      and, unless it is the last part, is followed by the separator. */
  lemma {:induction false} JoinLayout(parts: seq<string>, sep: string, i: nat)
    requires i < |parts|
    ensures JoinOffset(parts, sep, i) + |parts[i]| <= |Join(parts, sep)|
    ensures Join(parts, sep)[JoinOffset(parts, sep, i)..JoinOffset(parts, sep, i) + |parts[i]|] == parts[i]
    ensures i + 1 < |parts| ==>
              JoinOffset(parts, sep, i) + |parts[i]| + |sep| <= |Join(parts, sep)|
              && Join(parts, sep)[JoinOffset(parts, sep, i) + |parts[i]|..JoinOffset(parts, sep, i) + |parts[i]| + |sep|] == sep
  {
    JoinPartAt(parts, sep, i);
    if i + 1 < |parts| {
      JoinSeparatorAfter(parts, sep, i);
    }
  }

  lemma {:induction false} JoinPartAt(parts: seq<string>, sep: string, i: nat)
    requires i < |parts|
    ensures JoinOffset(parts, sep, i) + |parts[i]| <= |Join(parts, sep)|
    ensures Join(parts, sep)[JoinOffset(parts, sep, i)..JoinOffset(parts, sep, i) + |parts[i]|] == parts[i]
    decreases i
  {
    if i > 0 {
      JoinPartAt(parts[1..], sep, i - 1);
      var head := parts[0] + sep;
      var o := JoinOffset(parts[1..], sep, i - 1);
      assert Join(parts, sep) == head + Join(parts[1..], sep);
      assert parts[1..][i - 1] == parts[i];
      assert Join(parts, sep)[|head| + o..|head| + o + |parts[i]|] == Join(parts[1..], sep)[o..o + |parts[i]|];
    }
  }

  lemma {:induction false} JoinSeparatorAfter(parts: seq<string>, sep: string, i: nat)
    requires i + 1 < |parts|
    ensures JoinOffset(parts, sep, i) + |parts[i]| + |sep| <= |Join(parts, sep)|
    ensures Join(parts, sep)[JoinOffset(parts, sep, i) + |parts[i]|..JoinOffset(parts, sep, i) + |parts[i]| + |sep|] == sep
    decreases i
  {
    if i > 0 {
      JoinSeparatorAfter(parts[1..], sep, i - 1);
      var head := parts[0] + sep;
      var o := JoinOffset(parts[1..], sep, i - 1);
      assert Join(parts, sep) == head + Join(parts[1..], sep);
      assert parts[1..][i - 1] == parts[i];
      assert Join(parts, sep)[|head| + o + |parts[i]|..|head| + o + |parts[i]| + |sep|]
          == Join(parts[1..], sep)[o + |parts[i]|..o + |parts[i]| + |sep|];
    } else {
      assert Join(parts, sep) == parts[0] + sep + Join(parts[1..], sep);
    }
  }

  /** JavaScript's `s.split(sep)` for a one-character separator: always at least
      one part, no part contains the separator, and joining the parts back
      with the separator gives `s` again. */
  function Split(s: string, sep: char): (parts: seq<string>)
    ensures |parts| >= 1
    ensures forall i :: 0 <= i < |parts| ==> sep !in parts[i]
    ensures Join(parts, [sep]) == s
    decreases |s|
  {
    if |s| == 0 then [""]
    else
      var rest := Split(s[1..], sep);
      if s[0] == sep then
        var parts := [""] + rest;
        assert parts[1..] == rest;
        parts
      else
        var parts := [[s[0]] + rest[0]] + rest[1..];
        assert parts[1..] == rest[1..];
        assert sep !in parts[0];
        assert |rest| > 1 ==> Join(rest, [sep]) == rest[0] + [sep] + Join(rest[1..], [sep]);
        parts
  }

  lemma {:induction false} SplitNoSeparator(a: string, sep: char)
    requires sep !in a
    ensures Split(a, sep) == [a]
  {
    if |a| > 0 {
      SplitNoSeparator(a[1..], sep);
      assert [a[0]] + a[1..] == a;
    }
  }

  lemma {:induction false} SplitFirstPart(a: string, sep: char, b: string)
    requires sep !in a
    ensures Split(a + [sep] + b, sep) == [a] + Split(b, sep)
    decreases |a|
  {
    if |a| == 0 {
      assert (a + [sep] + b)[1..] == b;
    } else {
      assert (a + [sep] + b)[1..] == a[1..] + [sep] + b;
      SplitFirstPart(a[1..], sep, b);
      assert [a[0]] + a[1..] == a;
    }
  }

  /** Splitting undoes joining when no part contains the separator: `Split`
      and `Join` are inverse to each other. */
  lemma {:induction false} SplitJoin(parts: seq<string>, sep: char)
    requires |parts| >= 1
    requires forall i :: 0 <= i < |parts| ==> sep !in parts[i]
    ensures Split(Join(parts, [sep]), sep) == parts
    decreases |parts|
  {
    if |parts| == 1 {
      SplitNoSeparator(parts[0], sep);
    } else {
      SplitJoin(parts[1..], sep);
      SplitFirstPart(parts[0], sep, Join(parts[1..], [sep]));
      assert [parts[0]] + parts[1..] == parts;
    }
  }
}
