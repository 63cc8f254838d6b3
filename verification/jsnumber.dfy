/** JavaScript's `parseInt` and the page-argument defaulting built on it. */
module JsNumber {
  import opened Wrappers
  import opened Text

  /** The characters `parseInt` skips before the number: ECMAScript white space
      (tab, vertical tab, form feed, space, no-break space, byte order mark and
      the other space separators) and line terminators. */
  predicate IsJsSpace(c: char) {
    || c == '\t' || c == '\n' || c == '\U{B}' || c == '\U{C}' || c == '\r' || c == ' '
    || c == '\U{A0}' || c == '\U{1680}' || ('\U{2000}' <= c <= '\U{200A}')
    || c == '\U{2028}' || c == '\U{2029}' || c == '\U{202F}' || c == '\U{205F}'
    || c == '\U{3000}' || c == '\U{FEFF}'
  }

  /** `s` without its leading white space. */
  function TrimStart(s: string): (t: string)
    ensures |t| <= |s| && t == s[|s| - |t|..]
    ensures forall i :: 0 <= i < |s| - |t| ==> IsJsSpace(s[i])
    ensures |t| == 0 || !IsJsSpace(t[0])
  {
    if |s| > 0 && IsJsSpace(s[0]) then TrimStart(s[1..]) else s
  }

  predicate IsHexDigit(c: char) {
    IsDigit(c) || 'a' <= c <= 'f' || 'A' <= c <= 'F'
  }

  function HexDigitValue(c: char): nat
    requires IsHexDigit(c)
  {
    if IsDigit(c) then c as int - '0' as int
    else if 'a' <= c <= 'f' then c as int - 'a' as int + 10
    else c as int - 'A' as int + 10
  }

  /** The longest prefix of `s` made of hexadecimal digits. */
  function HexRun(s: string): (d: string)
    ensures |d| <= |s| && d == s[..|d|]
    ensures forall i :: 0 <= i < |d| ==> IsHexDigit(d[i])
    ensures |d| == |s| || !IsHexDigit(s[|d|])
  {
    if |s| == 0 || !IsHexDigit(s[0]) then ""
    else [s[0]] + HexRun(s[1..])
  }

  function HexValue(s: string): nat
    requires forall i :: 0 <= i < |s| ==> IsHexDigit(s[i])
  {
    if |s| == 0 then 0
    else 16 * HexValue(s[..|s| - 1]) + HexDigitValue(s[|s| - 1])
  }

  /** `s` after its leading white space and an optional sign. */
  function Unsigned(s: string): string
  {
    var t := TrimStart(s);
    if |t| > 0 && (t[0] == '-' || t[0] == '+') then t[1..] else t
  }

  /** A magnitude with the sign `parseInt` read in front of it. */
  function Signed(negative: bool, magnitude: nat): int
  {
    var m: int := magnitude;
    if negative then -m else m
  }

  /** `u` starts with `0x` or `0X` and no hexadecimal digit follows. */
  predicate BareHexPrefix(u: string) {
    |u| >= 2 && u[0] == '0' && (u[1] == 'x' || u[1] == 'X') && (|u| == 2 || !IsHexDigit(u[2]))
  }

  /** JavaScript's `parseInt(s)` without a radix argument; `None` stands for
      `NaN`. Leading white space is skipped, one sign is accepted, a `0x`/`0X`
      prefix switches to base 16, and the longest run of digits that follows is
      read; trailing characters are ignored. */
  function ParseInt(s: string): (r: Option<int>)
    ensures r.Some? <==> |Unsigned(s)| > 0 && IsDigit(Unsigned(s)[0]) && !BareHexPrefix(Unsigned(s))
  {
    var t := TrimStart(s);
    var negative := |t| > 0 && t[0] == '-';
    var u := Unsigned(s);
    if |u| >= 2 && u[0] == '0' && (u[1] == 'x' || u[1] == 'X') then
      var z := HexRun(u[2..]);
      if |z| == 0 then None else Some(Signed(negative, HexValue(z)))
    else
      var z := DigitRun(u);
      if |z| == 0 then None else Some(Signed(negative, DigitsValue(z)))
  }

  /** `parseInt` reads back every integer that JavaScript prints. */
  lemma {:induction false} ParseIntOfIntToString(n: int)
    ensures ParseInt(IntToString(n)) == Some(n)
  {
    var s := IntToString(n);
    var digits := if n < 0 then NatToString(-n) else NatToString(n);
    assert TrimStart(s) == s;
    assert Unsigned(s) == digits;
    DigitRunOfDigits(digits);
    if |digits| >= 2 {
      assert digits[0] != '0';
    }
  }

  /** `parseInt` stops at the first character that is not a digit: a
      numeral followed by anything else reads as the numeral, except that
      "0x"/"0X" switches to base 16. */
  lemma {:induction false} ParseIntReadsPrefix(n: nat, rest: string)
    requires |rest| == 0 || !IsDigit(rest[0])
    requires n == 0 && |rest| > 0 ==> rest[0] != 'x' && rest[0] != 'X'
    ensures ParseInt(NatToString(n) + rest) == Some(n)
  {
    var digits := NatToString(n);
    var s := digits + rest;
    assert s[0] == digits[0];
    if |digits| >= 2 {
      assert s[0] != '0';
    } else if |rest| > 0 {
      assert s[1] == rest[0];
    }
    DigitRunAppend(digits, rest);
    DigitRunOfDigits(digits);
    DecimalPrefixed(s, digits);
  }

  /** `parseInt` reads a decimal numeral after any white space and one
      optional sign, leading zeros included, and stops at the first character
      that is not a digit. */
  lemma {:induction false} ParseIntReadsNumeral(ws: string, sign: string, digits: string, rest: string)
    requires forall i :: 0 <= i < |ws| ==> IsJsSpace(ws[i])
    requires IsSign(sign)
    requires |digits| > 0 && AllDigits(digits)
    requires |rest| == 0 || !IsDigit(rest[0])
    requires digits == "0" && |rest| > 0 ==> rest[0] != 'x' && rest[0] != 'X'
    ensures ParseInt(ws + sign + digits + rest) == Some(Signed(sign == ['-'], DigitsValue(digits)))
  {
    var u := digits + rest;
    assert ws + sign + digits + rest == ws + sign + u;
    DigitsThenRest(digits, rest);
    SkipSpacesAndSign(ws, sign, u);
    DecimalAfterSign(ws + sign + u, sign, u, digits);
  }

  /** Decimal digits followed by a non-digit start with a digit, are not a
      `0x` prefix, and the digit run read from them is exactly the digits. */
  lemma {:induction false} DigitsThenRest(digits: string, rest: string)
    requires |digits| > 0 && AllDigits(digits)
    requires |rest| == 0 || !IsDigit(rest[0])
    requires digits == "0" && |rest| > 0 ==> rest[0] != 'x' && rest[0] != 'X'
    ensures var u := digits + rest;
            && IsDigit(u[0])
            && !(|u| >= 2 && u[0] == '0' && (u[1] == 'x' || u[1] == 'X'))
            && DigitRun(u) == digits
  {
    var u := digits + rest;
    assert u[0] == digits[0];
    if |digits| >= 2 {
      assert u[1] == digits[1];
    } else if |rest| > 0 {
      assert u[1] == rest[0];
    }
    DigitRunAppend(digits, rest);
    DigitRunOfDigits(digits);
  }

  /** A decimal numeral after the white space and sign is read with that
      sign. */
  lemma {:induction false} DecimalAfterSign(s: string, sign: string, u: string, d: string)
    requires IsSign(sign) && TrimStart(s) == sign + u && Unsigned(s) == u
    requires |u| > 0 && IsDigit(u[0]) && !(|u| >= 2 && u[0] == '0' && (u[1] == 'x' || u[1] == 'X'))
    requires |d| > 0 && DigitRun(u) == d
    ensures ParseInt(s) == Some(Signed(sign == ['-'], DigitsValue(d)))
  {
    var t := TrimStart(s);
    assert (|t| > 0 && t[0] == '-') <==> sign == ['-'] by {
      if |sign| == 0 {
        assert t[0] == u[0];
      } else {
        assert t[0] == sign[0];
      }
    }
  }

  /** White space and a sign in front of a digit are skipped, and the sign is
      the one `parseInt` applies. */
  lemma {:induction false} SkipSpacesAndSign(ws: string, sign: string, u: string)
    requires forall i :: 0 <= i < |ws| ==> IsJsSpace(ws[i])
    requires IsSign(sign)
    requires |u| > 0 && IsDigit(u[0])
    ensures TrimStart(ws + sign + u) == sign + u
    ensures Unsigned(ws + sign + u) == u
  {
    var t := sign + u;
    assert ws + sign + u == ws + t;
    assert !IsJsSpace(t[0]) by {
      assert t[0] == if |sign| == 0 then u[0] else sign[0];
    }
    TrimStartSpaces(ws, t);
    UnsignedAfterTrim(ws + t, sign, u);
  }

  /** Once the white space is gone, one sign is dropped. */
  lemma {:induction false} UnsignedAfterTrim(s: string, sign: string, u: string)
    requires IsSign(sign) && |u| > 0 && IsDigit(u[0])
    requires TrimStart(s) == sign + u
    ensures Unsigned(s) == u
  {
    var t := TrimStart(s);
    if |sign| == 0 {
      assert t == u;
      assert t[0] != '-' && t[0] != '+';
    } else {
      assert t[0] == sign[0];
      assert t[1..] == u;
    }
  }

  /** No sign, or one `-` or `+`. */
  predicate IsSign(sign: string) {
    |sign| == 0 || (|sign| == 1 && (sign[0] == '-' || sign[0] == '+'))
  }

  /** Leading white space is skipped up to the first other character. */
  lemma {:induction false} TrimStartSpaces(ws: string, t: string)
    requires forall i :: 0 <= i < |ws| ==> IsJsSpace(ws[i])
    requires |t| == 0 || !IsJsSpace(t[0])
    ensures TrimStart(ws + t) == t
  {
    if |ws| > 0 {
      assert (ws + t)[1..] == ws[1..] + t;
      TrimStartSpaces(ws[1..], t);
    }
  }

  lemma {:induction false} DecimalPrefixed(s: string, d: string)
    requires |s| > 0 && IsDigit(s[0])
    requires !(|s| >= 2 && s[0] == '0' && (s[1] == 'x' || s[1] == 'X'))
    requires |d| > 0 && DigitRun(s) == d
    ensures ParseInt(s) == Some(DigitsValue(d))
  {
    UnsignedOfPlain(s);
  }

  /** Text that starts with neither white space nor a sign is read as is. */
  lemma {:induction false} UnsignedOfPlain(s: string)
    requires |s| > 0 && !IsJsSpace(s[0]) && s[0] != '-' && s[0] != '+'
    ensures TrimStart(s) == s && Unsigned(s) == s
  {
  }

  /** A hexadecimal numeral after "0x" or "0X" is read in base 16, up to the
      first character that is not a hexadecimal digit. */
  lemma {:induction false} ParseIntReadsHex(x: char, h: string, rest: string)
    requires x == 'x' || x == 'X'
    requires |h| > 0 && forall i :: 0 <= i < |h| ==> IsHexDigit(h[i])
    requires |rest| == 0 || !IsHexDigit(rest[0])
    ensures ParseInt(['0', x] + h + rest) == Some(HexValue(h))
  {
    var s := ['0', x] + h + rest;
    assert s[2..] == h + rest;
    HexRunAppend(h, rest);
    HexPrefixed(s, h);
  }

  lemma {:induction false} HexPrefixed(s: string, h: string)
    requires |s| >= 2 && s[0] == '0' && (s[1] == 'x' || s[1] == 'X')
    requires |h| > 0 && HexRun(s[2..]) == h
    ensures ParseInt(s) == Some(HexValue(h))
  {
    UnsignedOfPlain(s);
  }

  lemma {:induction false} HexRunAppend(h: string, rest: string)
    requires forall i :: 0 <= i < |h| ==> IsHexDigit(h[i])
    requires |rest| == 0 || !IsHexDigit(rest[0])
    ensures HexRun(h + rest) == h
  {
    if |h| > 0 {
      assert (h + rest)[1..] == h[1..] + rest;
      HexRunAppend(h[1..], rest);
    }
  }

  /** The page argument of the listing command: `parseInt(arg) || 1`, where a
      missing argument parses as `NaN` and both `NaN` and 0 are falsy. */
  function PageArgument(arg: Option<string>): (page: int)
    ensures page != 0
  {
    var parsed := if arg.None? then None else ParseInt(arg.value);
    match parsed
    case None => 1
    case Some(v) => if v == 0 then 1 else v
  }

  /** The page asked for by the text of a listing command: the second word of
      `text.split(' ')`, defaulted by `PageArgument`. */
  function CommandPage(text: string): (page: int)
    ensures page != 0
    ensures ' ' !in text ==> page == 1
  {
    assert ' ' !in text ==> |Split(text, ' ')| == 1 by {
      if ' ' !in text {
        SplitNoSeparator(text, ' ');
      }
    }
    var args := Split(text, ' ');
    PageArgument(if |args| > 1 then Some(args[1]) else None)
  }

  /** A printed non-zero integer is taken as the page itself, negative ones
      included. */
  lemma {:induction false} PageArgumentOfNumeral(n: int)
    requires n != 0
    ensures PageArgument(Some(IntToString(n))) == n
  {
    ParseIntOfIntToString(n);
  }

  /** A missing argument, a zero and anything that does not start with a
      digit, a sign or white space all give page 1. */
  lemma {:induction false} PageArgumentDefaults(w: string)
    ensures PageArgument(None) == 1
    ensures PageArgument(Some("0")) == 1
    ensures |w| == 0 || !(IsDigit(w[0]) || IsJsSpace(w[0]) || w[0] == '-' || w[0] == '+')
            ==> PageArgument(Some(w)) == 1
  {
    PageArgumentZero();
    if |w| > 0 && !(IsDigit(w[0]) || IsJsSpace(w[0]) || w[0] == '-' || w[0] == '+') {
      UnsignedOfPlain(w);
    }
  }

  lemma {:induction false} PageArgumentZero()
    ensures PageArgument(Some("0")) == 1
  {
    ParseIntOfIntToString(0);
  }

  /** A padded, signed argument with leading zeros is still read as its
      number: "\t+02" is page 2 and " -007" page -7. */
  lemma {:induction false} PageArgumentPadded(ws: string, sign: string, digits: string)
    requires forall i :: 0 <= i < |ws| ==> IsJsSpace(ws[i])
    requires IsSign(sign)
    requires |digits| > 0 && AllDigits(digits) && DigitsValue(digits) > 0
    ensures PageArgument(Some(ws + sign + digits)) == Signed(sign == ['-'], DigitsValue(digits))
  {
    ParseIntReadsNumeral(ws, sign, digits, "");
    assert ws + sign + digits + "" == ws + sign + digits;
  }

  /** `parseInt(arg) || 1` drops whatever follows the number: "2abc" is
      page 2. */
  lemma {:induction false} PageArgumentDropsTrailing(n: nat, rest: string)
    requires n >= 1
    requires |rest| == 0 || !IsDigit(rest[0])
    ensures PageArgument(Some(NatToString(n) + rest)) == n
  {
    ParseIntReadsPrefix(n, rest);
  }

  /** The command's page comes from its second space-separated word, whatever
      follows it; a command with no argument lists page 1. */
  lemma {:induction false} CommandPageSecondWord(command: string, word: string, rest: string)
    requires ' ' !in command && ' ' !in word
    ensures CommandPage(command) == 1
    ensures CommandPage(command + " " + word) == PageArgument(Some(word))
    ensures CommandPage(command + " " + word + " " + rest) == PageArgument(Some(word))
  {
    SplitNoSeparator(command, ' ');
    CommandPageOneWord(command, word);
    CommandPageMoreWords(command, word, rest);
  }

  lemma {:induction false} CommandPageOneWord(command: string, word: string)
    requires ' ' !in command && ' ' !in word
    ensures CommandPage(command + " " + word) == PageArgument(Some(word))
  {
    SplitNoSeparator(word, ' ');
    SplitFirstPart(command, ' ', word);
    assert command + " " + word == command + [' '] + word;
  }

  lemma {:induction false} CommandPageMoreWords(command: string, word: string, rest: string)
    requires ' ' !in command && ' ' !in word
    ensures CommandPage(command + " " + word + " " + rest) == PageArgument(Some(word))
  {
    SplitFirstPart(word, ' ', rest);
    SplitFirstPart(command, ' ', word + [' '] + rest);
    assert command + " " + word + " " + rest == command + [' '] + (word + [' '] + rest);
  }
}
