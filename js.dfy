/** The JavaScript built-ins the core relies on, with their ECMAScript behaviour
    restricted to the inputs that occur here:
    - `String.prototype.split` and `Array.prototype.join` with a one-character separator,
    - `parseInt(s, 10)`,
    - the decimal text of an integer number (template literals, `toString`),
    - `Array.prototype.indexOf`. */
module Js {
  import opened Wrappers

  // ---------------------------------------------------------------------------
  // split / join
  // ---------------------------------------------------------------------------

  /** `s.split(sep)`: the maximal runs of `s` between occurrences of `sep`.
      There is always at least one part (`"".split(";")` is `[""]`) and empty parts
      are kept. */
  function Split(s: string, sep: char): (parts: seq<string>)
    ensures |parts| >= 1
    ensures forall i :: 0 <= i < |parts| ==> sep !in parts[i]
    ensures forall i, ch :: 0 <= i < |parts| && ch in parts[i] ==> ch in s
    decreases |s|
  {
    if |s| == 0 then [""]
    else
      var rest := Split(s[1..], sep);
      assert forall ch :: ch in s[1..] ==> ch in s;
      if s[0] == sep then [""] + rest
      else [[s[0]] + rest[0]] + rest[1..]
  }

  /** `parts.join(sep)`; `[].join(sep)` is the empty string. */
  function Join(parts: seq<string>, sep: char): (s: string)
    ensures forall ch :: ch in s ==> ch == sep || exists i :: 0 <= i < |parts| && ch in parts[i]
    decreases |parts|
  {
    if |parts| == 0 then ""
    else if |parts| == 1 then parts[0]
    else
      var rest := Join(parts[1..], sep);
      assert forall i :: 0 <= i < |parts| - 1 ==> parts[1..][i] == parts[i + 1];
      parts[0] + [sep] + rest
  }

  /** Joining what was split gives back the original text. */
  lemma {:induction false} JoinSplit(s: string, sep: char)
    ensures Join(Split(s, sep), sep) == s
    decreases |s|
  {
    if |s| > 0 {
      var rest := Split(s[1..], sep);
      JoinSplit(s[1..], sep);
      if s[0] == sep {
        assert Split(s, sep) == [""] + rest;
        assert ([""] + rest)[1..] == rest;
        assert s == [sep] + s[1..];
      } else {
        var parts := Split(s, sep);
        assert parts == [[s[0]] + rest[0]] + rest[1..];
        if |rest| == 1 {
          assert rest == [rest[0]];
          assert s == [s[0]] + s[1..];
        } else {
          assert parts[1..] == rest[1..];
          assert Join(rest, sep) == rest[0] + [sep] + Join(rest[1..], sep);
          assert s == [s[0]] + s[1..];
        }
      }
    }
  }

  /** Splitting a text that starts with a separator-free prefix `a` glues `a` onto
      the first part of the rest. */
  lemma {:induction false} SplitPrepend(a: string, t: string, sep: char)
    requires sep !in a
    ensures Split(a + t, sep) == [a + Split(t, sep)[0]] + Split(t, sep)[1..]
    decreases |a|
  {
    if |a| > 0 {
      SplitPrepend(a[1..], t, sep);
      assert (a + t)[1..] == a[1..] + t;
      assert (a + t)[0] == a[0];
      assert [a[0]] + (a[1..] + Split(t, sep)[0]) == a + Split(t, sep)[0];
    } else {
      assert a + t == t;
      assert a + Split(t, sep)[0] == Split(t, sep)[0];
      assert Split(t, sep) == [Split(t, sep)[0]] + Split(t, sep)[1..];
    }
  }

  /** Splitting what was joined gives back the parts, provided there is at least one
      part and no part contains the separator. */
  lemma {:induction false} SplitJoin(parts: seq<string>, sep: char)
    requires |parts| >= 1
    requires forall i :: 0 <= i < |parts| ==> sep !in parts[i]
    ensures Split(Join(parts, sep), sep) == parts
    decreases |parts|
  {
    if |parts| == 1 {
      SplitPrepend(parts[0], "", sep);
      assert Split("", sep) == [""];
      assert parts[0] + "" == parts[0];
      assert Join(parts, sep) == parts[0];
      assert parts == [parts[0]];
    } else {
      var tail := Join(parts[1..], sep);
      SplitJoin(parts[1..], sep);
      SplitPrepend(parts[0], [sep] + tail, sep);
      assert Join(parts, sep) == parts[0] + ([sep] + tail);
      var st := Split([sep] + tail, sep);
      assert st == [""] + Split(tail, sep) by {
        assert ([sep] + tail)[1..] == tail;
      }
      assert st[0] == "" && st[1..] == parts[1..];
      assert parts[0] + st[0] == parts[0];
      assert parts == [parts[0]] + parts[1..];
    }
  }

  /** A character that is neither the separator nor in any part is not in the join. */
  lemma {:induction false} JoinAvoids(parts: seq<string>, sep: char, ch: char)
    requires ch != sep
    requires forall i :: 0 <= i < |parts| ==> ch !in parts[i]
    ensures ch !in Join(parts, sep)
    decreases |parts|
  {
    if |parts| > 1 {
      JoinAvoids(parts[1..], sep, ch);
      assert ch !in parts[0];
    }
  }

  // ---------------------------------------------------------------------------
  // decimal digits and the text of a number
  // ---------------------------------------------------------------------------

  predicate IsDigit(ch: char)
  {
    '0' <= ch <= '9'
  }

  predicate AllDigits(s: string)
  {
    forall i :: 0 <= i < |s| ==> IsDigit(s[i])
  }

  function DigitChar(d: nat): char
    requires d < 10
  {
    ['0', '1', '2', '3', '4', '5', '6', '7', '8', '9'][d]
  }

  function DigitValue(ch: char): nat
    requires IsDigit(ch)
  {
    (ch as int - '0' as int) as nat
  }

  /** The value of a run of decimal digits (leading zeros allowed). */
  function DigitsValue(s: string): nat
    requires AllDigits(s)
    decreases |s|
  {
    if |s| == 0 then 0
    else DigitsValue(s[..|s| - 1]) * 10 + DigitValue(s[|s| - 1])
  }

  /** The shortest decimal text of a non-negative integer, as JavaScript prints it. */
  function NatToString(n: nat): (s: string)
    ensures |s| >= 1 && AllDigits(s)
    ensures n < 10 ==> |s| == 1
  {
    if n < 10 then [DigitChar(n)]
    else NatToString(n / 10) + [DigitChar(n % 10)]
  }

  /** The decimal text of an integer number: a minus sign for negative values. */
  function IntToString(n: int): (s: string)
    ensures |s| >= 1
    ensures s[0] == '-' <==> n < 0
    ensures forall i :: 1 <= i < |s| ==> IsDigit(s[i])
  {
    if n < 0 then "-" + NatToString(-n) else NatToString(n)
  }

  /** Reading back the printed digits gives the number. */
  lemma {:induction false} NatToStringValue(n: nat)
    ensures DigitsValue(NatToString(n)) == n
  {
    if n >= 10 {
      NatToStringValue(n / 10);
      var s := NatToString(n);
      assert s[..|s| - 1] == NatToString(n / 10);
    }
  }

  /** Distinct numbers print differently. */
  lemma NatToStringInjective(m: nat, n: nat)
    requires NatToString(m) == NatToString(n)
    ensures m == n
  {
    NatToStringValue(m);
    NatToStringValue(n);
  }

  // ---------------------------------------------------------------------------
  // parseInt(s, 10)
  // ---------------------------------------------------------------------------

  /** The characters that `parseInt` skips at the start (StrWhiteSpaceChar of
      ECMAScript: white space and line terminators). */
  predicate IsJsWhiteSpace(ch: char)
  {
    ch == '\t' || ch == '\n' || ch == '\U{000B}' || ch == '\U{000C}' || ch == '\r' || ch == ' '
    || ch == '\U{00A0}' || ch == '\U{1680}' || ('\U{2000}' <= ch <= '\U{200A}')
    || ch == '\U{2028}' || ch == '\U{2029}' || ch == '\U{202F}' || ch == '\U{205F}'
    || ch == '\U{3000}' || ch == '\U{FEFF}'
  }

  /** What `parseInt` looks at: `s` without its leading white space. */
  function TrimStart(s: string): string
  {
    if |s| > 0 && IsJsWhiteSpace(s[0]) then TrimStart(s[1..]) else s
  }

  /** The longest prefix of `s` made of decimal digits. */
  function DigitPrefix(s: string): (d: string)
    ensures AllDigits(d)
  {
    if |s| > 0 && IsDigit(s[0]) then [s[0]] + DigitPrefix(s[1..]) else ""
  }

  /** `parseInt(s, 10)`: skip leading white space, read an optional sign, then the
      longest run of decimal digits; no digits is `NaN` (here `None`). Anything after
      the digits is ignored. The value is exact: JavaScript would round very long
      digit runs, which never turns a value other than 1 into 1. */
  function ParseInt(s: string): Option<int>
  {
    ParseSigned(TrimStart(s))
  }

  function ParseSigned(t: string): Option<int>
  {
    if |t| > 0 && t[0] == '-' then
      match ParseDigits(t[1..])
      case None => None
      case Some(v) => Some(-v)
    else if |t| > 0 && t[0] == '+' then ParseDigits(t[1..])
    else ParseDigits(t)
  }

  function ParseDigits(body: string): Option<int>
  {
    var digits := DigitPrefix(body);
    if |digits| == 0 then None else Some(DigitsValue(digits))
  }

  /** `parseInt(token, 10) === 1`. */
  predicate ParsesToOne(token: string)
  {
    ParseInt(token) == Some(1)
  }

  lemma {:induction false} DigitPrefixOfDigits(s: string, rest: string)
    requires AllDigits(s)
    requires |rest| > 0 ==> !IsDigit(rest[0])
    ensures DigitPrefix(s + rest) == s
    decreases |s|
  {
    if |s| > 0 {
      DigitPrefixOfDigits(s[1..], rest);
      assert (s + rest)[1..] == s[1..] + rest;
      assert s == [s[0]] + s[1..];
    } else {
      assert s + rest == rest;
    }
  }

  lemma TrimStartKeeps(s: string)
    requires |s| > 0 && !IsJsWhiteSpace(s[0])
    ensures TrimStart(s) == s
  {
  }

  /** `parseInt` of a text that starts with a digit reads its leading digit run. */
  lemma ParseIntUnsigned(s: string)
    requires |s| > 0 && IsDigit(s[0])
    ensures ParseInt(s) == Some(DigitsValue(DigitPrefix(s)) as int)
  {
    TrimStartKeeps(s);
    assert ParseInt(s) == ParseDigits(s);
  }

  /** `parseInt` of a minus sign followed by a digit reads the negated digit run. */
  lemma ParseIntNegative(s: string)
    requires |s| > 1 && s[0] == '-' && IsDigit(s[1])
    ensures ParseInt(s) == Some(-(DigitsValue(DigitPrefix(s[1..])) as int))
  {
    TrimStartKeeps(s);
    assert ParseInt(s) == ParseSigned(s);
  }

  /** `parseInt` reads back the decimal text of every integer. */
  lemma ParseIntOfIntToString(n: int)
    ensures ParseInt(IntToString(n)) == Some(n)
  {
    var m: nat := if n < 0 then -n else n;
    var digits := NatToString(m);
    DigitPrefixOfDigits(digits, "");
    assert digits + "" == digits;
    NatToStringValue(m);
    if n < 0 {
      var s := "-" + digits;
      assert s[1..] == digits;
      ParseIntNegative(s);
    } else {
      ParseIntUnsigned(digits);
    }
  }

  lemma {:induction false} TrimStartPadding(pad: string, x: string)
    requires forall i :: 0 <= i < |pad| ==> IsJsWhiteSpace(pad[i])
    requires |x| > 0 && !IsJsWhiteSpace(x[0])
    ensures TrimStart(pad + x) == x
    decreases |pad|
  {
    if |pad| > 0 {
      assert (pad + x)[1..] == pad[1..] + x;
      TrimStartPadding(pad[1..], x);
    } else {
      assert pad + x == x;
      TrimStartKeeps(x);
    }
  }

  lemma {:induction false} ZerosValue(zeros: string)
    requires forall i :: 0 <= i < |zeros| ==> zeros[i] == '0'
    ensures AllDigits(zeros) && DigitsValue(zeros) == 0
    decreases |zeros|
  {
    if |zeros| > 0 {
      ZerosValue(zeros[..|zeros| - 1]);
    }
  }

  lemma {:induction false} OneAfterZeros(zeros: string, rest: string)
    requires forall i :: 0 <= i < |zeros| ==> zeros[i] == '0'
    requires |rest| > 0 ==> !IsDigit(rest[0])
    ensures ParseDigits(zeros + "1" + rest) == Some(1)
  {
    var digits := zeros + "1";
    ZerosValue(zeros);
    assert AllDigits(digits);
    assert digits[..|digits| - 1] == zeros;
    assert DigitsValue(digits) == 1;
    DigitPrefixOfDigits(digits, rest);
  }

  /** Every token made of optional white space, an optional `+`, any number of
      zeros, a `1` and then anything that does not start with a digit reads as 1:
      `"1"`, `"01"`, `"1x"`, `" +1"`, `"1.5"`. */
  lemma ParsesToOneShapes(pad: string, sign: string, zeros: string, rest: string)
    requires forall i :: 0 <= i < |pad| ==> IsJsWhiteSpace(pad[i])
    requires sign == "" || sign == "+"
    requires forall i :: 0 <= i < |zeros| ==> zeros[i] == '0'
    requires |rest| > 0 ==> !IsDigit(rest[0])
    ensures ParsesToOne(pad + sign + zeros + "1" + rest)
  {
    var body := zeros + "1" + rest;
    OneAfterZeros(zeros, rest);
    var x := sign + body;
    assert pad + sign + zeros + "1" + rest == pad + x;
    assert |x| > 0 && !IsJsWhiteSpace(x[0]) by {
      if sign == "" {
        assert x == body;
        if |zeros| > 0 { assert x[0] == '0'; } else { assert x[0] == '1'; }
      } else {
        assert x[0] == '+';
      }
    }
    TrimStartPadding(pad, x);
    assert ParseSigned(x) == Some(1) by {
      if sign == "+" {
        assert x[0] == '+' && x[1..] == body;
      } else {
        assert x == body;
        if |zeros| > 0 { assert x[0] == '0'; } else { assert x[0] == '1'; }
      }
    }
  }

  /** The other direction, in part: a token that reads as 1 holds the digit 1, so
      the empty token and a token without a `1` never read as 1. */
  lemma ParsesToOneHasOne(token: string)
    requires ParsesToOne(token)
    ensures '1' in token
  {
    var t := TrimStart(token);
    TrimStartSuffix(token);
    var body := if |t| > 0 && t[0] == '+' then t[1..] else t;
    assert ParseDigits(body) == Some(1);
    var digits := DigitPrefix(body);
    DigitPrefixPrefix(body);
    ValueOneEndsInOne(digits);
    assert digits[|digits| - 1] == body[|digits| - 1];
    assert '1' in body;
    assert '1' in t;
  }

  lemma {:induction false} TrimStartSuffix(s: string)
    ensures |TrimStart(s)| <= |s| && TrimStart(s) == s[|s| - |TrimStart(s)|..]
    decreases |s|
  {
    if |s| > 0 && IsJsWhiteSpace(s[0]) {
      TrimStartSuffix(s[1..]);
    }
  }

  lemma {:induction false} DigitPrefixPrefix(s: string)
    ensures |DigitPrefix(s)| <= |s| && DigitPrefix(s) == s[..|DigitPrefix(s)|]
    decreases |s|
  {
    if |s| > 0 && IsDigit(s[0]) {
      DigitPrefixPrefix(s[1..]);
    }
  }

  /** A run of digits worth 1 ends in the digit 1. */
  lemma ValueOneEndsInOne(d: string)
    requires AllDigits(d) && DigitsValue(d) == 1
    ensures |d| > 0 && d[|d| - 1] == '1'
  {
  }

  /** The tokens this system writes: `"1"` reads as 1, `"0"` does not. */
  lemma OneAndZero()
    ensures ParsesToOne("1")
    ensures !ParsesToOne("0")
  {
    ParsesToOneShapes("", "", "", "");
    assert "" + "" + "" + "1" + "" == "1";
    assert ParseInt("0") == Some(0) by {
      DigitPrefixOfDigits("0", "");
      assert "0" + "" == "0";
      ParseIntUnsigned("0");
    }
  }

  // ---------------------------------------------------------------------------
  // Array.prototype.indexOf
  // ---------------------------------------------------------------------------

  /** `s.indexOf(x)`: the first position holding `x`, or -1 when there is none. */
  function IndexOf<T(==)>(s: seq<T>, x: T): (i: int)
    ensures -1 <= i < |s|
    ensures i == -1 <==> x !in s
    ensures 0 <= i ==> s[i] == x && x !in s[..i]
  {
    if |s| == 0 then -1
    else if s[0] == x then 0
    else
      var j := IndexOf(s[1..], x);
      if j == -1 then -1
      else
        assert s[..j + 1] == [s[0]] + s[1..][..j];
        j + 1
  }
}
