/**
 * String operations of the JavaScript runtime that the core relies on:
 * `startsWith`, `trim`, `[...].filter(Boolean).join(sep)` and the decimal
 * rendering of a non-negative integer in a template literal.
 */
module Text {

  /** `s.startsWith(prefix)`. */
  predicate StartsWith(s: string, prefix: string) {
    |prefix| <= |s| && s[..|prefix|] == prefix
  }

  lemma StartsWithConcat(prefix: string, rest: string)
    ensures StartsWith(prefix + rest, prefix)
    ensures (prefix + rest)[|prefix|..] == rest
  {
  }

  /**
   * The characters `String.prototype.trim` removes: the ECMAScript
   * WhiteSpace set (tab, vertical tab, form feed, space, no-break space,
   * byte-order mark and the Unicode space separators) and the line
   * terminators.
   */
  predicate IsWhitespace(c: char) {
    || c == '\t' || c == '\n' || c == '\U{000B}' || c == '\U{000C}' || c == '\r'
    || c == ' ' || c == '\U{00A0}' || c == '\U{1680}'
    || ('\U{2000}' <= c <= '\U{200A}')
    || c == '\U{2028}' || c == '\U{2029}' || c == '\U{202F}' || c == '\U{205F}'
    || c == '\U{3000}' || c == '\U{FEFF}'
  }

  /** The number of leading whitespace characters of `s`. */
  function LeadingWhitespace(s: string): (n: nat)
    ensures n <= |s|
    ensures forall i | 0 <= i < n :: IsWhitespace(s[i])
    ensures n < |s| ==> !IsWhitespace(s[n])
  {
    if s == [] || !IsWhitespace(s[0]) then 0 else 1 + LeadingWhitespace(s[1..])
  }

  /** The number of trailing whitespace characters of `s`. */
  function TrailingWhitespace(s: string): (n: nat)
    ensures n <= |s|
    ensures forall i | |s| - n <= i < |s| :: IsWhitespace(s[i])
    ensures n < |s| ==> !IsWhitespace(s[|s| - 1 - n])
  {
    if s == [] || !IsWhitespace(s[|s| - 1]) then 0 else 1 + TrailingWhitespace(s[..|s| - 1])
  }

  /** `s.trim()`: `s` without its leading and trailing whitespace. */
  function Trim(s: string): (r: string)
  {
    var a := LeadingWhitespace(s);
    var rest := s[a..];
    rest[..|rest| - TrailingWhitespace(rest)]
  }

  /**
   * Trim cuts a contiguous piece out of `s`: what it cuts off on either side
   * is whitespace, and the piece neither starts nor ends with whitespace.
   */
  lemma TrimIsTightSlice(s: string)
    ensures exists i, j | 0 <= i <= j <= |s| ::
      && Trim(s) == s[i..j]
      && (forall k | 0 <= k < i :: IsWhitespace(s[k]))
      && (forall k | j <= k < |s| :: IsWhitespace(s[k]))
    ensures Trim(s) != [] ==> !IsWhitespace(Trim(s)[0]) && !IsWhitespace(Trim(s)[|Trim(s)| - 1])
  {
    var a := LeadingWhitespace(s);
    var rest := s[a..];
    var b := TrailingWhitespace(rest);
    var j := a + |rest| - b;
    assert Trim(s) == s[a..j];
    forall k | j <= k < |s| ensures IsWhitespace(s[k]) {
      assert s[k] == rest[k - a];
    }
    if Trim(s) != [] {
      assert Trim(s)[0] == rest[0];
      if b < |rest| {
        assert Trim(s)[|Trim(s)| - 1] == rest[|rest| - 1 - b];
      }
    }
  }

  /** Trimming twice is trimming once. */
  lemma TrimIdempotent(s: string)
    ensures Trim(Trim(s)) == Trim(s)
  {
    var t := Trim(s);
    TrimIsTightSlice(s);
    if t != [] {
      assert LeadingWhitespace(t) == 0;
      assert t[0..] == t;
      assert TrailingWhitespace(t) == 0;
    }
  }

  /** `parts.filter(Boolean)`: the non-empty strings of `parts`, in order. */
  function NonEmptyParts(parts: seq<string>): (r: seq<string>)
    ensures forall i | 0 <= i < |r| :: r[i] != ""
    ensures forall p | p in parts && p != "" :: p in r
    ensures forall p | p in r :: p in parts
  {
    if parts == [] then []
    else if parts[0] == "" then NonEmptyParts(parts[1..])
    else [parts[0]] + NonEmptyParts(parts[1..])
  }

  /** Dropping empty parts preserves order: the parts of `a + b` are those of `a`, then those of `b`. */
  lemma {:induction false} NonEmptyPartsConcat(a: seq<string>, b: seq<string>)
    ensures NonEmptyParts(a + b) == NonEmptyParts(a) + NonEmptyParts(b)
  {
    if a == [] {
      assert a + b == b;
    } else {
      NonEmptyPartsConcat(a[1..], b);
      assert (a + b)[0] == a[0];
      assert (a + b)[1..] == a[1..] + b;
    }
  }

  /** `parts.join(sep)`. */
  function Join(parts: seq<string>, sep: string): string
  {
    if parts == [] then ""
    else if |parts| == 1 then parts[0]
    else parts[0] + sep + Join(parts[1..], sep)
  }

  /** `t` occurs in `s` starting at position `i`. */
  predicate OccursAt(t: string, s: string, i: int) {
    0 <= i <= |s| - |t| && s[i..i + |t|] == t
  }

  /** `t` occurs in `s` as a contiguous piece. */
  ghost predicate IsInfix(t: string, s: string) {
    exists i :: OccursAt(t, s, i)
  }

  /** Every part of a join occurs in the joined string. */
  lemma {:induction false} PartIsInfixOfJoin(parts: seq<string>, sep: string, p: string)
    requires p in parts
    ensures IsInfix(p, Join(parts, sep))
  {
    var j := Join(parts, sep);
    if |parts| == 1 {
      assert OccursAt(p, j, 0);
    } else if p == parts[0] {
      assert j == p + (sep + Join(parts[1..], sep));
      assert OccursAt(p, j, 0);
    } else {
      PartIsInfixOfJoin(parts[1..], sep, p);
      var rest := Join(parts[1..], sep);
      var i :| OccursAt(p, rest, i);
      var off := |parts[0]| + |sep|;
      assert j == (parts[0] + sep) + rest;
      assert j[off + i..off + i + |p|] == rest[i..i + |p|];
      assert OccursAt(p, j, off + i);
    }
  }

  /** A join of non-empty parts is empty exactly when there are no parts. */
  lemma {:induction false} JoinEmptyIff(parts: seq<string>, sep: string)
    requires forall i | 0 <= i < |parts| :: parts[i] != ""
    ensures Join(parts, sep) == "" <==> parts == []
  {
    if |parts| > 1 {
      assert |Join(parts, sep)| >= |parts[0]|;
    }
  }

  /** The decimal digits of `n`, as `${n}` writes a non-negative integer. */
  function DecimalString(n: nat): (r: string)
    ensures |r| > 0
    ensures forall i | 0 <= i < |r| :: '0' <= r[i] <= '9'
    ensures |r| > 1 ==> r[0] != '0'
  {
    if n < 10 then [DigitChar(n)] else DecimalString(n / 10) + [DigitChar(n % 10)]
  }

  function DigitChar(d: nat): (c: char)
    requires d < 10
    ensures '0' <= c <= '9'
  {
    ['0', '1', '2', '3', '4', '5', '6', '7', '8', '9'][d]
  }

  /** The value of a string of decimal digits. */
  function DecimalValue(s: string): nat
    requires forall i | 0 <= i < |s| :: '0' <= s[i] <= '9'
  {
    if s == [] then 0 else 10 * DecimalValue(s[..|s| - 1]) + (s[|s| - 1] - '0') as nat
  }

  /** Reading the decimal string back gives the number. */
  lemma {:induction false} DecimalRoundTrip(n: nat)
    ensures DecimalValue(DecimalString(n)) == n
  {
    var r := DecimalString(n);
    if n >= 10 {
      DecimalRoundTrip(n / 10);
      assert r[..|r| - 1] == DecimalString(n / 10);
    }
  }
}
