/**
 * The JavaScript built-ins on strings that the application code relies on:
 * `String(n)` for a non-negative integer, `String.prototype.split` and
 * `Array.prototype.join` with a one-character separator, `replace` with a
 * global one-character pattern, and `trim`. Each is given a definition that
 * follows the ECMAScript behaviour, and the properties the application
 * depends on are proved about it. `LastIndexOf` is not called by the
 * application: it is the reference definition of "the last occurrence"
 * against which the client's file-name handling is proved.
 */
module JsStrings {

  // ---------------------------------------------------------------------------
  // Decimal text of a non-negative integer
  // ---------------------------------------------------------------------------

  predicate IsDigit(c: char) { '0' <= c <= '9' }

  predicate AllDigits(s: string) { forall i | 0 <= i < |s| :: IsDigit(s[i]) }

  function DigitValue(c: char): (d: nat)
    requires IsDigit(c)
    ensures d < 10
  {
    c as int - '0' as int
  }

  function DigitChar(d: nat): (c: char)
    requires d < 10
    ensures IsDigit(c) && DigitValue(c) == d
  {
    ('0' as int + d) as char
  }

  /**
   * `String(n)` for an integer `0 <= n < 1e21`: its decimal digits, without
   * leading zeros.
   */
  function Decimal(n: nat): (s: string)
    ensures 1 <= |s| && AllDigits(s)
    ensures |s| > 1 ==> s[0] != '0'
    decreases n
  {
    if n < 10 then [DigitChar(n)] else Decimal(n / 10) + [DigitChar(n % 10)]
  }

  /** The number a string of decimal digits denotes (reference for `Decimal`). */
  function DecimalValue(s: string): nat
    requires AllDigits(s)
  {
    if s == [] then 0 else DecimalValue(s[..|s| - 1]) * 10 + DigitValue(s[|s| - 1])
  }

  /** Reading back the decimal text of `n` gives `n`. */
  lemma {:induction false} DecimalValueOfDecimal(n: nat)
    ensures DecimalValue(Decimal(n)) == n
    decreases n
  {
    if n >= 10 {
      DecimalValueOfDecimal(n / 10);
      var s := Decimal(n);
      assert s[..|s| - 1] == Decimal(n / 10);
    }
  }

  /** Different numbers have different decimal texts. */
  lemma DecimalInjective(a: nat, b: nat)
    ensures Decimal(a) == Decimal(b) ==> a == b
  {
    DecimalValueOfDecimal(a);
    DecimalValueOfDecimal(b);
  }

  // ---------------------------------------------------------------------------
  // split / join on a one-character separator
  // ---------------------------------------------------------------------------

  /**
   * `s.split(sep)`: the maximal runs of characters other than `sep`, in
   * order; there is always one more piece than there are separators, so
   * `"".split(sep)` is `[""]`.
   */
  function Split(s: string, sep: char): (parts: seq<string>)
    ensures |parts| >= 1
    ensures forall i | 0 <= i < |parts| :: sep !in parts[i]
  {
    if s == [] then [[]]
    else
      var rest := Split(s[1..], sep);
      if s[0] == sep then [[]] + rest
      else [[s[0]] + rest[0]] + rest[1..]
  }

  /** `parts.join(sep)`: the pieces with `sep` between neighbours. */
  function Join(parts: seq<string>, sep: char): string
  {
    if |parts| == 0 then []
    else if |parts| == 1 then parts[0]
    else parts[0] + [sep] + Join(parts[1..], sep)
  }

  /** Joining the pieces of a split with the same separator restores the string. */
  lemma {:induction false} JoinSplit(s: string, sep: char)
    ensures Join(Split(s, sep), sep) == s
  {
    if s != [] {
      JoinSplit(s[1..], sep);
      var rest := Split(s[1..], sep);
      var parts := Split(s, sep);
      if s[0] == sep {
        assert parts[1..] == rest;
      } else if |rest| == 1 {
        assert parts == [[s[0]] + rest[0]];
      } else {
        assert parts[1..] == rest[1..];
        assert Join(rest, sep) == rest[0] + [sep] + Join(rest[1..], sep);
      }
    }
  }

  /** Joining one more piece at the end adds a separator and that piece. */
  lemma {:induction false} JoinSnoc(p: seq<string>, x: string, sep: char)
    requires |p| >= 1
    ensures Join(p + [x], sep) == Join(p, sep) + [sep] + x
    decreases |p|
  {
    if |p| > 1 {
      JoinSnoc(p[1..], x, sep);
      assert (p + [x])[1..] == p[1..] + [x];
    } else {
      assert (p + [x])[1..] == [x];
    }
  }

  // ---------------------------------------------------------------------------
  // The last occurrence of a character
  // ---------------------------------------------------------------------------

  /**
   * The position of the last occurrence of `c` in `s`, or -1 when `c` does
   * not occur (the meaning of `s.lastIndexOf(c)`). The application does not
   * call it; it is the reference for "the last `.`" of a file name.
   */
  function LastIndexOf(s: string, c: char): (r: int)
    ensures -1 <= r < |s|
    ensures r == -1 <==> c !in s
    ensures 0 <= r ==> s[r] == c && c !in s[r + 1..]
  {
    if s == [] then -1
    else if s[|s| - 1] == c then |s| - 1
    else
      var r := LastIndexOf(s[..|s| - 1], c);
      assert s == s[..|s| - 1] + [s[|s| - 1]];
      r
  }

  /** In `a + [c] + b` with no `c` in `b`, the last `c` is the one after `a`. */
  lemma LastIndexOfBeforeTail(a: string, c: char, b: string)
    requires c !in b
    ensures LastIndexOf(a + [c] + b, c) == |a|
  {
    var s := a + [c] + b;
    assert s[|a|] == c;
    assert s[|a| + 1..] == b;
    assert forall k | 0 < k <= |a| :: c in s[k..];
  }

  // ---------------------------------------------------------------------------
  // replace(/x/g, y) for single characters
  // ---------------------------------------------------------------------------

  /** `s.replace(/from/g, to)`: every `from` becomes `to`, nothing else moves. */
  function ReplaceAll(s: string, from: char, to: char): (r: string)
    ensures |r| == |s|
    ensures forall i | 0 <= i < |s| :: r[i] == if s[i] == from then to else s[i]
  {
    if s == [] then []
    else [if s[0] == from then to else s[0]] + ReplaceAll(s[1..], from, to)
  }

  /**
   * Replacing in `a + [c] + b`, where only `c` may be a `from`, changes at
   * most that one character.
   */
  lemma ReplaceAllAround(a: string, c: char, b: string, from: char, to: char)
    requires from !in a && from !in b
    ensures ReplaceAll(a + [c] + b, from, to) == a + [if c == from then to else c] + b
  {
    var s := a + [c] + b;
    var r := ReplaceAll(s, from, to);
    var e := a + [if c == from then to else c] + b;
    forall i | 0 <= i < |s|
      ensures r[i] == e[i]
    {
      if i < |a| {
        assert s[i] == a[i] && e[i] == a[i];
      } else if i > |a| {
        assert s[i] == b[i - |a| - 1] && e[i] == b[i - |a| - 1];
      }
    }
  }

  // ---------------------------------------------------------------------------
  // trim
  // ---------------------------------------------------------------------------

  /**
   * The characters `String.prototype.trim` removes: the ECMAScript
   * WhiteSpace set (tab, vertical tab, form feed, space, no-break space,
   * byte-order mark and the Unicode space separators) and LineTerminator
   * (line feed, carriage return, line and paragraph separators).
   */
  predicate IsWhiteSpace(c: char)
  {
    || '\U{0009}' <= c <= '\U{000D}'
    || c == ' '
    || c == '\U{00A0}'
    || c == '\U{1680}'
    || '\U{2000}' <= c <= '\U{200A}'
    || c == '\U{2028}' || c == '\U{2029}'
    || c == '\U{202F}' || c == '\U{205F}'
    || c == '\U{3000}'
    || c == '\U{FEFF}'
  }

  /** Drops the leading white space. */
  function TrimStart(s: string): (r: string)
    ensures |r| <= |s| && r == s[|s| - |r|..]
    ensures forall i | 0 <= i < |s| - |r| :: IsWhiteSpace(s[i])
    ensures r != [] ==> !IsWhiteSpace(r[0])
  {
    if s != [] && IsWhiteSpace(s[0]) then TrimStart(s[1..]) else s
  }

  /** Drops the trailing white space. */
  function TrimEnd(s: string): (r: string)
    ensures |r| <= |s| && r == s[..|r|]
    ensures forall i | |r| <= i < |s| :: IsWhiteSpace(s[i])
    ensures r != [] ==> !IsWhiteSpace(r[|r| - 1])
  {
    if s != [] && IsWhiteSpace(s[|s| - 1]) then TrimEnd(s[..|s| - 1]) else s
  }

  /**
   * `s.trim()`: what lies between the leading and the trailing white space.
   * The result is the piece of `s` starting after its leading white space;
   * everything before and after that piece is white space, and the piece
   * neither starts nor ends with white space.
   */
  function Trim(s: string): (t: string)
    ensures var i := |s| - |TrimStart(s)|;
      && i + |t| <= |s| && (forall k | 0 <= k < |t| :: t[k] == s[i + k])
      && (forall k | 0 <= k < i :: IsWhiteSpace(s[k]))
      && (forall k | i + |t| <= k < |s| :: IsWhiteSpace(s[k]))
    ensures t != [] ==> !IsWhiteSpace(t[0]) && !IsWhiteSpace(t[|t| - 1])
  {
    TrimEnd(TrimStart(s))
  }

  /** A string is all white space exactly when it trims to the empty string. */
  lemma TrimEmptyIffAllWhiteSpace(s: string)
    ensures Trim(s) == [] <==> forall i | 0 <= i < |s| :: IsWhiteSpace(s[i])
  {
    var t := TrimStart(s);
    if t != [] {
      assert !IsWhiteSpace(s[|s| - |t|]);
      assert !IsWhiteSpace(t[0]);
    }
  }
}
