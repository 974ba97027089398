/**
 * The JavaScript string operations the core relies on, written out on
 * `seq<char>`: `includes`, `join`, `split` on one character, `trim`,
 * `toLowerCase`/`toUpperCase` (restricted to ASCII and Latin-1, which covers
 * Portuguese text) and the decimal rendering of a natural number.
 */
module JsText {

  predicate IsDigit(c: char) { '0' <= c <= '9' }

  /** The characters `\s` and `String.prototype.trim` treat as white space. */
  predicate IsJsSpace(c: char)
  {
    c == ' ' || c == '\t' || c == '\n' || c == '\r' || c == '\U{000B}' || c == '\U{000C}'
    || c == '\U{00A0}' || c == '\U{1680}' || ('\U{2000}' <= c <= '\U{200A}')
    || c == '\U{2028}' || c == '\U{2029}' || c == '\U{202F}' || c == '\U{205F}'
    || c == '\U{3000}' || c == '\U{FEFF}'
  }

  /** `s.includes(sub)`. */
  predicate Contains(s: string, sub: string)
  {
    exists i | 0 <= i <= |s| - |sub| :: OccursAt(s, sub, i)
  }

  /** `sub` occurs in `s` starting at index `i`. */
  predicate OccursAt(s: string, sub: string, i: int)
  {
    0 <= i <= |s| - |sub| && s[i..i + |sub|] == sub
  }

  /** `parts.join(sep)`. */
  function Join(parts: seq<string>, sep: string): string
  {
    if |parts| == 0 then ""
    else if |parts| == 1 then parts[0]
    else parts[0] + sep + Join(parts[1..], sep)
  }

  /** A join is empty exactly when there is nothing to join or every piece and separator is empty; in particular it is non-empty when its first piece is. */
  lemma {:induction false} JoinNonEmpty(parts: seq<string>, sep: string)
    requires |parts| > 0 && parts[0] != ""
    ensures Join(parts, sep) != ""
    ensures |Join(parts, sep)| >= |parts[0]|
  {
  }

  /** Index of the first `c` in `s`, or `|s|` when there is none. */
  function IndexOf(s: string, c: char): (k: nat)
    ensures k <= |s|
    ensures forall j | 0 <= j < k :: s[j] != c
    ensures k < |s| ==> s[k] == c
  {
    if |s| == 0 then 0
    else if s[0] == c then 0
    else 1 + IndexOf(s[1..], c)
  }

  /** `s.split(c)` for a one-character separator. */
  function Split(s: string, c: char): (parts: seq<string>)
    ensures |parts| >= 1
    decreases |s|
  {
    var k := IndexOf(s, c);
    if k == |s| then [s] else [s[..k]] + Split(s[k + 1..], c)
  }

  /** Splitting then joining with the same separator gives the text back, and no piece holds the separator. */
  lemma {:induction false} SplitJoin(s: string, c: char)
    ensures Join(Split(s, c), [c]) == s
    ensures forall i, j | 0 <= i < |Split(s, c)| && 0 <= j < |Split(s, c)[i]| :: Split(s, c)[i][j] != c
    decreases |s|
  {
    var k := IndexOf(s, c);
    if k < |s| {
      SplitJoin(s[k + 1..], c);
      var rest := Split(s[k + 1..], c);
      assert Split(s, c) == [s[..k]] + rest;
      assert s == s[..k] + [c] + s[k + 1..];
      forall i, j | 0 <= i < |Split(s, c)| && 0 <= j < |Split(s, c)[i]|
        ensures Split(s, c)[i][j] != c
      {
        if i > 0 { assert Split(s, c)[i] == rest[i - 1]; }
      }
    }
  }

  /** Where `p` holds no `c`, the first `c` of `p + r` is the first `c` of `r`, shifted by `|p|`. */
  lemma {:induction false} IndexOfAfter(p: string, r: string, c: char)
    requires c !in p
    ensures IndexOf(p + r, c) == |p| + IndexOf(r, c)
    decreases |p|
  {
    if |p| > 0 {
      assert p[0] in p;
      assert (p + r)[0] == p[0];
      assert c !in p[1..] by {
        forall j | 0 <= j < |p| - 1 ensures p[1..][j] != c {
          assert p[1..][j] == p[j + 1] && p[j + 1] in p;
        }
      }
      assert (p + r)[1..] == p[1..] + r;
      IndexOfAfter(p[1..], r, c);
    } else {
      assert p + r == r;
    }
  }

  /** Joining pieces that hold no `c` with `c` and splitting the result at `c` gives the pieces back. */
  lemma {:induction false} JoinSplit(parts: seq<string>, c: char)
    requires |parts| >= 1
    requires forall i | 0 <= i < |parts| :: c !in parts[i]
    ensures Split(Join(parts, [c]), c) == parts
    decreases |parts|
  {
    var p := parts[0];
    if |parts| == 1 {
      IndexOfAfter(p, "", c);
      assert p + "" == p;
    } else {
      var rest := Join(parts[1..], [c]);
      var s := p + [c] + rest;
      assert Join(parts, [c]) == s;
      IndexOfAfter(p, [c] + rest, c);
      assert p + ([c] + rest) == s;
      assert s[..|p|] == p && s[|p| + 1..] == rest;
      JoinSplit(parts[1..], c);
      assert Split(s, c) == [p] + Split(rest, c);
    }
  }

  /** Number of leading white-space characters. */
  function LeadingSpace(s: string): (k: nat)
    ensures k <= |s|
    ensures forall j | 0 <= j < k :: IsJsSpace(s[j])
    ensures k < |s| ==> !IsJsSpace(s[k])
  {
    if |s| == 0 || !IsJsSpace(s[0]) then 0 else 1 + LeadingSpace(s[1..])
  }

  /** Number of trailing white-space characters. */
  function TrailingSpace(s: string): (k: nat)
    ensures k <= |s|
    ensures forall j | |s| - k <= j < |s| :: IsJsSpace(s[j])
    ensures k < |s| ==> !IsJsSpace(s[|s| - 1 - k])
  {
    if |s| == 0 || !IsJsSpace(s[|s| - 1]) then 0 else 1 + TrailingSpace(s[..|s| - 1])
  }

  /** `s.trim()`: the text between the leading and the trailing white space. */
  function Trim(s: string): (t: string)
    ensures |t| <= |s|
    ensures t == "" || (!IsJsSpace(t[0]) && !IsJsSpace(t[|t| - 1]))
    ensures (forall j | 0 <= j < |s| :: IsJsSpace(s[j])) <==> t == ""
    ensures exists a | 0 <= a <= |s| - |t| :: TrimmedAt(s, t, a)
  {
    var a := LeadingSpace(s);
    if a == |s| then assert TrimmedAt(s, "", 0); ""
    else
      var b := TrailingSpace(s);
      assert !IsJsSpace(s[a]);
      assert b < |s| - a;
      var t := s[a..|s| - b];
      assert t[0] == s[a];
      assert exists j | 0 <= j < |s| :: !IsJsSpace(s[j]);
      assert TrimmedAt(s, t, a);
      t
  }

  /** `t` occurs in `s` at `a`, and everything before and after it is white space. */
  predicate TrimmedAt(s: string, t: string, a: int)
  {
    && OccursAt(s, t, a)
    && (forall j | 0 <= j < a :: IsJsSpace(s[j]))
    && (forall j | a + |t| <= j < |s| :: IsJsSpace(s[j]))
  }

  /** Lower-case mapping of one character (ASCII and Latin-1 capitals). */
  function LowerChar(c: char): char
  {
    if 'A' <= c <= 'Z' || ('À' <= c <= 'Þ' && c != '×') then (c as int + 32) as char
    else c
  }

  /** `s.toLowerCase()`. */
  function ToLower(s: string): (t: string)
    ensures |t| == |s|
    ensures forall i | 0 <= i < |s| :: t[i] == LowerChar(s[i])
  {
    if |s| == 0 then "" else [LowerChar(s[0])] + ToLower(s[1..])
  }

  /** Upper-case mapping of one character; the German sharp s becomes two letters. */
  function UpperChars(c: char): string
  {
    if 'a' <= c <= 'z' || ('à' <= c <= 'þ' && c != '÷') then [(c as int - 32) as char]
    else if c == 'ß' then "SS"
    else if c == 'ÿ' then "Ÿ"
    else if c == 'µ' then "Μ"
    else [c]
  }

  /** `s.toUpperCase()`. */
  function ToUpper(s: string): (t: string)
    ensures |t| >= |s|
    ensures t == "" <==> s == ""
  {
    if |s| == 0 then "" else UpperChars(s[0]) + ToUpper(s[1..])
  }

  function DigitChar(d: nat): char
    requires d < 10
  {
    ('0' as int + d) as char
  }

  /** The decimal rendering of `n`, as `String(n)` gives it. */
  function NatToString(n: nat): (s: string)
    ensures |s| >= 1
    ensures forall i | 0 <= i < |s| :: IsDigit(s[i])
  {
    if n < 10 then [DigitChar(n)] else NatToString(n / 10) + [DigitChar(n % 10)]
  }

  /** The value of a non-empty run of decimal digits. */
  function DigitsValue(s: string): nat
    requires forall i | 0 <= i < |s| :: IsDigit(s[i])
  {
    if |s| == 0 then 0
    else
      assert IsDigit(s[|s| - 1]);
      10 * DigitsValue(s[..|s| - 1]) + (s[|s| - 1] as int - '0' as int)
  }

  /** Rendering a number and reading it back gives the number. */
  lemma {:induction false} NatToStringValue(n: nat)
    ensures DigitsValue(NatToString(n)) == n
  {
    if n >= 10 {
      NatToStringValue(n / 10);
      var s := NatToString(n);
      assert s[..|s| - 1] == NatToString(n / 10);
    }
  }

  predicate AllDigits(s: string)
  {
    forall i | 0 <= i < |s| :: IsDigit(s[i])
  }

  function Pow10(n: nat): (r: nat)
    ensures r >= 1
  {
    if n == 0 then 1 else 10 * Pow10(n - 1)
  }

  /** Digits written after other digits shift them left by their own length. */
  lemma {:induction false} DigitsValueAppend(x: string, y: string)
    requires AllDigits(x) && AllDigits(y)
    ensures AllDigits(x + y)
    ensures DigitsValue(x + y) == DigitsValue(x) * Pow10(|y|) + DigitsValue(y)
  {
    if |y| == 0 {
      assert x + y == x;
    } else {
      var y' := y[..|y| - 1];
      var d := y[|y| - 1] as int - '0' as int;
      DigitsValueAppend(x, y');
      assert (x + y)[..|x + y| - 1] == x + y';
      assert (x + y)[|x + y| - 1] == y[|y| - 1];
      ShiftStep(DigitsValue(x), Pow10(|y'|), DigitsValue(y'), d);
    }
  }

  lemma ShiftStep(vx: int, p: int, vy: int, d: int)
    ensures 10 * (vx * p + vy) + d == vx * (10 * p) + (10 * vy + d)
  {
  }
}
