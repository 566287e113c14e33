/**
 * The JavaScript string and number primitives the snapshot parsers of
 * anim/main.js and src/main/java/anim/main.js rely on: `trim`, `split`
 * on a character and on `/\r?\n/`, `parseFloat` and `parseInt(_, 10)`.
 * Numbers are exact reals; the IEEE-754 double a JavaScript engine would
 * round them to is not modelled.
 */
module JsText {

  /** The characters `trim` removes and the regular expression `\s`
      matches: WhiteSpace and LineTerminator of the language. */
  predicate IsSpace(c: char) {
    c == ' ' || c == '\t' || c == '\n' || c == '\r' || c == '\U{B}' || c == '\U{C}'
    || c == '\U{A0}' || c == '\U{1680}' || ('\U{2000}' <= c <= '\U{200A}')
    || c == '\U{2028}' || c == '\U{2029}' || c == '\U{202F}' || c == '\U{205F}'
    || c == '\U{3000}' || c == '\U{FEFF}'
  }

  /** The regular expression `\d`: ASCII digits only. */
  predicate IsDigit(c: char) {
    '0' <= c <= '9'
  }

  predicate AllSpace(s: string) {
    forall k :: 0 <= k < |s| ==> IsSpace(s[k])
  }

  predicate AllDigits(s: string) {
    forall k :: 0 <= k < |s| ==> IsDigit(s[k])
  }

  /** `trimStart`: `s` without its leading space. */
  function TrimStart(s: string): string {
    if |s| > 0 && IsSpace(s[0]) then TrimStart(s[1..]) else s
  }

  /** `trimEnd`: `s` without its trailing space. */
  function TrimEnd(s: string): string {
    if |s| > 0 && IsSpace(s[|s| - 1]) then TrimEnd(s[..|s| - 1]) else s
  }

  /** `trimStart` cuts a run of space off the front, and nothing else. */
  lemma {:induction false} TrimStartCut(s: string)
    ensures |TrimStart(s)| <= |s| && TrimStart(s) == s[|s| - |TrimStart(s)|..]
    ensures AllSpace(s[..|s| - |TrimStart(s)|])
    ensures TrimStart(s) == [] || !IsSpace(TrimStart(s)[0])
    decreases |s|
  {
    if |s| > 0 && IsSpace(s[0]) {
      TrimStartCut(s[1..]);
      var r := TrimStart(s[1..]);
      assert s[..|s| - |r|] == [s[0]] + s[1..][..|s| - 1 - |r|];
    }
  }

  /** `trimEnd` cuts a run of space off the back, and nothing else. */
  lemma {:induction false} TrimEndCut(s: string)
    ensures |TrimEnd(s)| <= |s| && TrimEnd(s) == s[..|TrimEnd(s)|]
    ensures AllSpace(s[|TrimEnd(s)|..])
    ensures TrimEnd(s) == [] || !IsSpace(TrimEnd(s)[|TrimEnd(s)| - 1])
    decreases |s|
  {
    if |s| > 0 && IsSpace(s[|s| - 1]) {
      TrimEndCut(s[..|s| - 1]);
      var r := TrimEnd(s[..|s| - 1]);
      assert s[|r|..] == s[..|s| - 1][|r|..] + [s[|s| - 1]];
    }
  }

  /** `String.prototype.trim`. */
  function Trim(s: string): string {
    TrimEnd(TrimStart(s))
  }

  /** What `trim` leaves: a slice of `s`, with only space cut on either side,
      and no space at either end. */
  lemma TrimIsCore(s: string)
    ensures exists a, b :: 0 <= a <= b <= |s| && Trim(s) == s[a..b] && AllSpace(s[..a]) && AllSpace(s[b..])
    ensures Trim(s) == [] || (!IsSpace(Trim(s)[0]) && !IsSpace(Trim(s)[|Trim(s)| - 1]))
  {
    var t := TrimStart(s);
    var r := TrimEnd(t);
    TrimStartCut(s);
    TrimEndCut(t);
    var a := |s| - |t|;
    var b := a + |r|;
    assert s[a..] == t;
    assert s[a..b] == t[..|r|] == r;
    assert s[b..] == t[|r|..];
    assert Trim(s) == s[a..b] && AllSpace(s[..a]) && AllSpace(s[b..]);
  }

  /** A string with no space at either end is its own trim; so `trim` is
      idempotent. */
  lemma TrimOfTrimmed(s: string)
    requires s == [] || (!IsSpace(s[0]) && !IsSpace(s[|s| - 1]))
    ensures Trim(s) == s
  {
  }

  lemma TrimIdempotent(s: string)
    ensures Trim(Trim(s)) == Trim(s)
  {
    TrimIsCore(s);
    TrimOfTrimmed(Trim(s));
  }

  /** `s.split(sep)` for a one-character separator: the pieces between the
      separators, empty ones included; `"".split(sep)` is `[""]`. */
  function Split(s: string, sep: char): (parts: seq<string>)
    ensures |parts| >= 1
    ensures forall k :: 0 <= k < |parts| ==> sep !in parts[k]
  {
    if sep !in s then [s]
    else
      var i := IndexOf(s, sep);
      [s[..i]] + Split(s[i + 1..], sep)
  }

  /** The first position of `c` in `s`. */
  function IndexOf(s: string, c: char): (i: nat)
    requires c in s
    ensures i < |s| && s[i] == c && c !in s[..i]
  {
    if s[0] == c then 0 else 1 + IndexOf(s[1..], c)
  }

  /** The first position of `c` is the one with `c` there and nowhere before. */
  lemma IndexOfAt(s: string, c: char, j: nat)
    requires j < |s| && s[j] == c && c !in s[..j]
    ensures IndexOf(s, c) == j
  {
  }

  /** `parts.join(sep)`. */
  function Join(parts: seq<string>, sep: char): string
    requires |parts| >= 1
  {
    if |parts| == 1 then parts[0] else parts[0] + [sep] + Join(parts[1..], sep)
  }

  /** Joining the pieces of a split gives back the string. */
  lemma {:induction false} SplitJoin(s: string, sep: char)
    ensures Join(Split(s, sep), sep) == s
    decreases |s|
  {
    if sep in s {
      var i := IndexOf(s, sep);
      var parts, rest := Split(s, sep), Split(s[i + 1..], sep);
      assert parts == [s[..i]] + rest;
      assert |parts| > 1 && parts[0] == s[..i] && parts[1..] == rest;
      SplitJoin(s[i + 1..], sep);
      assert s == s[..i] + [sep] + s[i + 1..];
    }
  }

  /** Concatenation regrouped; stated once for any element type, where it
      is cheap to prove. */
  lemma Associates<T>(a: seq<T>, b: seq<T>, c: seq<T>)
    ensures a + (b + c) == a + b + c
  {
  }

  lemma ConsAssociates<T>(x: T, p: seq<T>, q: seq<T>)
    ensures [x] + (p + q) == ([x] + p) + q
  {
  }

  /** What follows the head of a sequence, cut after `n` more elements. */
  lemma TailSplit<T>(s: seq<T>, n: nat)
    requires 1 + n <= |s|
    ensures s[1..] == s[1..1 + n] + s[1 + n..]
  {
  }

  /** A separator between `a` and `b` ends the pieces of `a` there. */
  lemma {:induction false} SplitAppend(a: string, b: string, sep: char)
    ensures Split(a + [sep] + b, sep) == Split(a, sep) + Split(b, sep)
    decreases |a|
  {
    var s := a + [sep] + b;
    var i := IndexOf(s, sep);
    if sep in a {
      var j := IndexOf(a, sep);
      assert s[..j] == a[..j];
      assert i == j by {
        IndexOfAt(s, sep, j);
      }
      assert s[i + 1..] == a[j + 1..] + [sep] + b;
      SplitAppend(a[j + 1..], b, sep);
      ConsAssociates(a[..j], Split(a[j + 1..], sep), Split(b, sep));
    } else {
      assert s[..|a|] == a;
      assert i == |a| by {
        IndexOfAt(s, sep, |a|);
      }
      assert s[i + 1..] == b;
    }
  }

  /** `text.split(/\r?\n/)`: the pieces between line feeds, each but the
      last without the one carriage return that ends it, if any. (A carriage
      return followed by a line feed is the leftmost match there; any other
      one, the last piece's included, stays in its piece.) */
  function SplitLines(text: string): (lines: seq<string>)
    ensures |lines| == |Split(text, '\n')|
    ensures forall k :: 0 <= k < |lines| ==> '\n' !in lines[k]
    ensures lines[|lines| - 1] == Split(text, '\n')[|lines| - 1]
    ensures forall k :: 0 <= k < |lines| - 1 ==>
      Split(text, '\n')[k] == lines[k] + ['\r']
      || (Split(text, '\n')[k] == lines[k] && !EndsInCr(lines[k]))
  {
    var pieces := Split(text, '\n');
    seq(|pieces|, k requires 0 <= k < |pieces| => if k < |pieces| - 1 then DropCr(pieces[k]) else pieces[k])
  }

  predicate EndsInCr(s: string) {
    |s| > 0 && s[|s| - 1] == '\r'
  }

  function DropCr(s: string): (r: string)
    ensures '\n' !in s ==> '\n' !in r
  {
    if EndsInCr(s) then s[..|s| - 1] else s
  }

  /** A space added at the end of a string that is all space, or that is
      not, leaves `trimStart` nothing new to cut but that space. */
  lemma {:induction false} TrimStartSnoc(s: string, c: char)
    ensures TrimStart(s + [c]) == (if AllSpace(s) then TrimStart([c]) else TrimStart(s) + [c])
    decreases |s|
  {
    if |s| > 0 {
      assert (s + [c])[0] == s[0];
      assert (s + [c])[1..] == s[1..] + [c];
      if IsSpace(s[0]) {
        TrimStartSnoc(s[1..], c);
        assert AllSpace(s) <==> AllSpace(s[1..]) by {
          assert forall k :: 0 <= k < |s| - 1 ==> s[1..][k] == s[k + 1];
        }
      }
    } else {
      assert s + [c] == [c];
    }
  }

  /** `trim` ignores one more space at the end. */
  lemma TrimSpaceSnoc(s: string, c: char)
    requires IsSpace(c)
    ensures Trim(s + [c]) == Trim(s)
  {
    TrimStartSnoc(s, c);
    if AllSpace(s) {
      TrimStartCut(s);
      assert TrimStart([c]) == TrimStart([c][1..]);
    } else {
      var t := TrimStart(s);
      assert (t + [c])[..|t + [c]| - 1] == t;
    }
  }

  /** `trim` cuts the carriage return `DropCr` removes anyway. */
  lemma TrimDropCr(s: string)
    ensures Trim(DropCr(s)) == Trim(s)
  {
    if EndsInCr(s) {
      assert s == s[..|s| - 1] + ['\r'];
      TrimSpaceSnoc(s[..|s| - 1], '\r');
    }
  }

  /** A JavaScript number: `NaN`, a finite value, or an infinity. */
  datatype Num = NaN | Finite(v: real) | Infinity(negative: bool)

  /** The length of the run of digits `s` starts with. */
  function DigitRun(s: string): (n: nat)
    ensures n <= |s| && AllDigits(s[..n]) && (n < |s| ==> !IsDigit(s[n]))
  {
    if |s| > 0 && IsDigit(s[0]) then 1 + DigitRun(s[1..]) else 0
  }

  function DigitValue(c: char): nat
    requires IsDigit(c)
  {
    (c as int - '0' as int) as nat
  }

  /** The value of a run of decimal digits (0 for none). */
  function DigitsValue(d: string): nat
    requires AllDigits(d)
  {
    if d == [] then 0 else 10 * DigitsValue(d[..|d| - 1]) + DigitValue(d[|d| - 1])
  }

  function Pow10(n: nat): (r: real)
    ensures r >= 1.0
  {
    if n == 0 then 1.0 else 10.0 * Pow10(n - 1)
  }

  /** `m * 10^e` for an integer exponent. */
  function Scale10(m: real, e: int): real {
    if e >= 0 then m * Pow10(e) else m / Pow10(-e)
  }

  /** The optional sign a numeral starts with: whether it is `-`, and what
      follows it. */
  function Sign(s: string): (bool, string) {
    if |s| > 0 && (s[0] == '-' || s[0] == '+') then (s[0] == '-', s[1..]) else (false, s)
  }

  /** An exponent part `[eE][+-]?\d+` at the start of `s`: its value, or 0
      when `s` does not start with a complete one (it is then not part of
      the numeral). */
  function Exponent(s: string): int {
    if |s| > 0 && (s[0] == 'e' || s[0] == 'E') then
      var (neg, u) := Sign(s[1..]);
      var n := DigitRun(u);
      if n == 0 then 0
      else if neg then -(DigitsValue(u[..n]) as int) else DigitsValue(u[..n]) as int
    else 0
  }

  /** `parseFloat`: leading space skipped, then the longest prefix that is a
      decimal numeral (`[+-]?` then `Infinity`, or digits with an optional
      fraction and an optional exponent, at least one digit in the
      mantissa); `NaN` when there is none. */
  function ParseFloat(s: string): Num {
    var (neg, u) := Sign(TrimStart(s));
    Signed(neg, UnsignedDecimal(u))
  }

  /** A number with the sign a numeral started with. */
  function Signed(neg: bool, x: Num): Num {
    if !neg then x
    else match x
      case NaN => NaN
      case Finite(v) => Finite(-v)
      case Infinity(b) => Infinity(!b)
  }

  /** The longest unsigned decimal numeral `u` starts with, read. */
  function UnsignedDecimal(u: string): Num {
    if |u| >= 8 && u[..8] == "Infinity" then Infinity(false)
    else
      var a := DigitRun(u);
      if a < |u| && u[a] == '.' then Fraction(u[..a], u[a + 1..])
      else if a == 0 then NaN
      else Finite(Scale10(DigitsValue(u[..a]) as real, Exponent(u[a..])))
  }

  /** The numeral with whole part `whole` and what follows its point `v`. */
  function Fraction(whole: string, v: string): Num
    requires AllDigits(whole)
  {
    var f := DigitRun(v);
    if |whole| + f == 0 then NaN
    else Finite(Scale10(DigitsValue(whole + v[..f]) as real, Exponent(v[f..]) - f))
  }

  /** `parseInt(s, 10)`: leading space skipped, an optional sign, then the
      longest run of digits; `NaN` when there is none. */
  function ParseInt(s: string): Num {
    var (neg, u) := Sign(TrimStart(s));
    var n := DigitRun(u);
    if n == 0 then NaN
    else Finite(if neg then -(DigitsValue(u[..n]) as real) else DigitsValue(u[..n]) as real)
  }

  /** The digit character of `k < 10`. */
  function DigitChar(k: nat): (c: char)
    requires k < 10
    ensures IsDigit(c) && DigitValue(c) == k
  {
    ('0' as int + k) as char
  }

  /** The decimal digits of `n`, most significant first. */
  function Digits(n: nat): (d: string)
    ensures |d| >= 1 && AllDigits(d)
    decreases n
  {
    (if n < 10 then "" else Digits(n / 10)) + [DigitChar(n % 10)]
  }

  lemma {:induction false} DigitsValueOfDigits(n: nat)
    ensures DigitsValue(Digits(n)) == n
    decreases n
  {
    var d := Digits(n);
    var front := if n < 10 then "" else Digits(n / 10);
    assert d == front + [DigitChar(n % 10)];
    assert d[..|d| - 1] == front;
    if n >= 10 {
      DigitsValueOfDigits(n / 10);
    }
    assert DigitsValue(d) == 10 * DigitsValue(front) + n % 10;
  }

  /** A run of digits followed by what cannot continue it is read whole. */
  lemma DigitRunOfDigits(d: string, rest: string)
    requires AllDigits(d) && (rest == [] || !IsDigit(rest[0]))
    ensures DigitRun(d + rest) == |d|
    decreases |d|
  {
    if |d| > 0 {
      assert (d + rest)[1..] == d[1..] + rest;
      DigitRunOfDigits(d[1..], rest);
    } else {
      assert d + rest == rest;
    }
  }

  /** No digit is a space. */
  lemma DigitNotSpace(c: char)
    requires IsDigit(c)
    ensures !IsSpace(c)
  {
  }

  /** The sign and the digits of a rendered integer come apart again. */
  lemma SignedDigits(d: string, neg: bool)
    requires |d| >= 1 && IsDigit(d[0])
    ensures TrimStart((if neg then "-" else "") + d) == (if neg then "-" else "") + d
    ensures Sign((if neg then "-" else "") + d) == (neg, d)
  {
    var s := (if neg then "-" else "") + d;
    if neg {
      assert s[0] == '-' && s[1..] == d;
    } else {
      DigitNotSpace(d[0]);
      assert s == d;
    }
  }

  /** The digits of `n` are read whole, with value `n`. */
  lemma DigitsRead(n: nat)
    ensures DigitRun(Digits(n)) == |Digits(n)| && Digits(n)[..|Digits(n)|] == Digits(n)
    ensures DigitsValue(Digits(n)) == n
  {
    var d := Digits(n);
    DigitRunOfDigits(d, "");
    assert d + "" == d;
    DigitsValueOfDigits(n);
  }

  /** `parseFloat` reads back the digits of any natural number, with or
      without a leading minus. */
  lemma ParseFloatDigits(n: nat, neg: bool)
    ensures ParseFloat((if neg then "-" else "") + Digits(n)) == Finite(if neg then -(n as real) else n as real)
  {
    var d := Digits(n);
    assert IsDigit(d[0]);
    SignedDigits(d, neg);
    DigitsRead(n);
    UnsignedDigits(d);
  }

  /** A run of digits alone reads as its value. */
  lemma UnsignedDigits(d: string)
    requires |d| >= 1 && AllDigits(d)
    ensures UnsignedDecimal(d) == Finite(DigitsValue(d) as real)
  {
    DigitRunOfDigits(d, "");
    assert d + "" == d && d[..|d|] == d && d[|d|..] == "";
    if |d| >= 8 {
      assert d[..8][0] == d[0];
      assert IsDigit(d[0]);
    }
    assert Exponent(d[|d|..]) == 0;
    assert Scale10(DigitsValue(d) as real, 0) == DigitsValue(d) as real;
  }

  /** `parseInt(_, 10)` reads back the digits of any natural number, with
      or without a leading minus. */
  lemma ParseIntDigits(n: nat, neg: bool)
    ensures ParseInt((if neg then "-" else "") + Digits(n)) == Finite(if neg then -(n as real) else n as real)
  {
    assert IsDigit(Digits(n)[0]);
    SignedDigits(Digits(n), neg);
    DigitsRead(n);
  }
}
