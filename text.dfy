/**
 * The string operations the core relies on: .NET's `string.IsNullOrEmpty`,
 * `string.IsNullOrWhiteSpace`, the decimal rendering of integers used by string
 * interpolation, and the case-insensitive match of a `BsonRegularExpression(p, "i")`.
 */
module Text {

  import opened Wrappers

  /**
   * .NET `char.IsWhiteSpace`: the Unicode space, line and paragraph separators
   * together with U+0009..U+000D, U+0085 and U+00A0.
   */
  predicate IsWhiteSpace(c: char) {
    || c == ' ' || '\t' <= c <= '\r' || c == '\U{0085}' || c == '\U{00A0}'
    || c == '\U{1680}' || '\U{2000}' <= c <= '\U{200A}' || c == '\U{2028}' || c == '\U{2029}'
    || c == '\U{202F}' || c == '\U{205F}' || c == '\U{3000}'
  }

  /** `string.IsNullOrEmpty`. */
  predicate IsNullOrEmpty(s: Option<string>) {
    s.None? || s.value == []
  }

  /** Every character of `s` is white space (so the empty string is blank). */
  predicate IsBlank(s: string) {
    forall i | 0 <= i < |s| :: IsWhiteSpace(s[i])
  }

  /** `string.IsNullOrWhiteSpace`. */
  predicate IsNullOrWhiteSpace(s: Option<string>) {
    s.None? || IsBlank(s.value)
  }

  /** String interpolation of a nullable value: `null` renders as the empty string. */
  function OrEmpty(s: Option<string>): (r: string)
    ensures s.Some? ==> r == s.value
    ensures s.None? ==> r == []
  {
    if s.Some? then s.value else []
  }

  // ---------------------------------------------------------------------------
  // Decimal rendering of integers (`int.ToString()`, invariant digits)

  function DigitChar(d: int): (c: char)
    requires 0 <= d < 10
    ensures '0' <= c <= '9'
  {
    (48 + d) as char
  }

  /** The decimal digits of `n`, most significant first, without leading zeros. */
  function NatToString(n: nat): (s: string)
    ensures 1 <= |s|
    ensures |s| == 1 <==> n < 10
    ensures forall i | 0 <= i < |s| :: '0' <= s[i] <= '9'
    decreases n
  {
    if n < 10 then [DigitChar(n)] else NatToString(n / 10) + [DigitChar(n % 10)]
  }

  /** `n.ToString()`: a minus sign before the digits of a negative number. */
  function IntToString(n: int): (s: string)
    ensures s != []
    ensures ':' !in s
    ensures n < 0 <==> s[0] == '-'
  {
    if n < 0 then "-" + NatToString(-n) else NatToString(n)
  }

  /** Different numbers render differently. */
  lemma {:induction false} NatToStringInjective(a: nat, b: nat)
    requires NatToString(a) == NatToString(b)
    ensures a == b
    decreases a
  {
    if 10 <= a {
      var sa, sb := NatToString(a / 10), NatToString(b / 10);
      assert NatToString(a) == sa + [DigitChar(a % 10)];
      assert NatToString(b) == sb + [DigitChar(b % 10)];
      assert sa == NatToString(a)[..|sa|];
      assert sb == NatToString(b)[..|sb|];
      assert a % 10 == b % 10 by {
        assert NatToString(a)[|sa|] == DigitChar(a % 10);
        assert NatToString(b)[|sb|] == DigitChar(b % 10);
      }
      NatToStringInjective(a / 10, b / 10);
    }
  }

  lemma IntToStringInjective(a: int, b: int)
    requires IntToString(a) == IntToString(b)
    ensures a == b
  {
    if a < 0 {
      assert IntToString(a)[1..] == NatToString(-a);
      assert IntToString(b)[1..] == NatToString(-b);
      NatToStringInjective(-a, -b);
    } else {
      NatToStringInjective(a, b);
    }
  }

  // ---------------------------------------------------------------------------
  // Splitting at a separator

  /** In `a + [sep] + b` with `sep !in a`, the first `sep` stands at index `|a|`. */
  lemma FirstSeparatorAt(a: string, b: string, sep: char)
    requires sep !in a
    ensures (a + [sep] + b)[|a|] == sep
    ensures forall i | 0 <= i < |a| :: (a + [sep] + b)[i] != sep
  {
    forall i | 0 <= i < |a| ensures (a + [sep] + b)[i] != sep {
      assert (a + [sep] + b)[i] == a[i];
    }
  }

  /** `sep` between two pieces can be found again when the first piece is free of it. */
  lemma SplitAtSeparator(a1: string, b1: string, a2: string, b2: string, sep: char)
    requires sep !in a1 && sep !in a2
    requires a1 + [sep] + b1 == a2 + [sep] + b2
    ensures a1 == a2 && b1 == b2
  {
    var s := a1 + [sep] + b1;
    FirstSeparatorAt(a1, b1, sep);
    FirstSeparatorAt(a2, b2, sep);
    assert |a1| == |a2|;
    assert a1 == s[..|a1|] == a2;
    assert b1 == s[|a1| + 1..] == b2;
  }

  /** The pieces of `parts` joined with `sep` between them. */
  function Join(parts: seq<string>, sep: char): (r: string)
    ensures forall i | 0 <= i < |parts| :: |parts[i]| <= |r|
    decreases |parts|
  {
    if |parts| == 0 then []
    else if |parts| == 1 then parts[0]
    else parts[0] + [sep] + Join(parts[1..], sep)
  }

  /** Joining is not injective once a piece contains the separator: it can move to a neighbour. */
  lemma JoinMovesSeparator(a: string, b: string, c: string, rest: seq<string>, sep: char)
    ensures Join([a + [sep] + b, c] + rest, sep) == Join([a, b + [sep] + c] + rest, sep)
  {
    var xs, ys := [a + [sep] + b, c] + rest, [a, b + [sep] + c] + rest;
    assert xs[1..] == [c] + rest;
    assert ys[1..] == [b + [sep] + c] + rest;
    if rest == [] {
      assert Join(xs, sep) == (a + [sep] + b) + [sep] + c;
      assert Join(ys, sep) == a + [sep] + (b + [sep] + c);
    } else {
      assert ([c] + rest)[1..] == rest;
      assert ([b + [sep] + c] + rest)[1..] == rest;
      assert Join(xs, sep) == (a + [sep] + b) + [sep] + (c + [sep] + Join(rest, sep));
      assert Join(ys, sep) == a + [sep] + ((b + [sep] + c) + [sep] + Join(rest, sep));
    }
  }

  /** Joining pieces that do not contain the separator loses nothing. */
  lemma {:induction false} JoinInjective(xs: seq<string>, ys: seq<string>, sep: char)
    requires |xs| == |ys|
    requires forall i | 0 <= i < |xs| :: sep !in xs[i]
    requires forall i | 0 <= i < |ys| :: sep !in ys[i]
    requires Join(xs, sep) == Join(ys, sep)
    ensures xs == ys
    decreases |xs|
  {
    if |xs| > 1 {
      SplitAtSeparator(xs[0], Join(xs[1..], sep), ys[0], Join(ys[1..], sep), sep);
      JoinInjective(xs[1..], ys[1..], sep);
      assert xs == [xs[0]] + xs[1..];
      assert ys == [ys[0]] + ys[1..];
    }
  }

  // ---------------------------------------------------------------------------
  // Case-insensitive matching

  /** Simple case folding of the ASCII letters. */
  function ToLower(c: char): (r: char)
    ensures 'A' <= c <= 'Z' ==> r as int == c as int + 32
    ensures !('A' <= c <= 'Z') ==> r == c
  {
    if 'A' <= c <= 'Z' then (c as int + 32) as char else c
  }

  predicate EqualIgnoreCase(a: string, b: string) {
    |a| == |b| && forall i | 0 <= i < |a| :: ToLower(a[i]) == ToLower(b[i])
  }

  /** `pattern` occurs in `text` at `k`, letters compared without regard to case. */
  predicate OccursIgnoreCaseAt(pattern: string, text: string, k: nat) {
    k + |pattern| <= |text| && EqualIgnoreCase(text[k..k + |pattern|], pattern)
  }

  /** `pattern` is a case-insensitive substring of `text`. */
  predicate ContainsIgnoreCase(text: string, pattern: string) {
    exists k: nat | k <= |text| :: OccursIgnoreCaseAt(pattern, text, k)
  }

  lemma ContainsIgnoreCaseFacts(text: string, pattern: string)
    ensures ContainsIgnoreCase(text, [])
    ensures ContainsIgnoreCase(text, pattern) ==> |pattern| <= |text|
    ensures ContainsIgnoreCase(text + pattern, pattern)
  {
    assert OccursIgnoreCaseAt([], text, 0);
    assert (text + pattern)[|text|..|text| + |pattern|] == pattern;
    assert OccursIgnoreCaseAt(pattern, text + pattern, |text|);
  }

  /** A prefix of `text` is contained in it. */
  lemma PrefixIsContained(text: string, pattern: string)
    requires pattern <= text
    ensures ContainsIgnoreCase(text, pattern)
  {
    assert text[0..|pattern|] == pattern;
    assert OccursIgnoreCaseAt(pattern, text, 0);
  }

  /** A pattern whose first letter appears nowhere in `text`, in either case, is not contained in it. */
  lemma FirstLetterAbsent(text: string, pattern: string)
    requires pattern != []
    requires forall i | 0 <= i < |text| :: ToLower(text[i]) != ToLower(pattern[0])
    ensures !ContainsIgnoreCase(text, pattern)
  {
    forall k: nat | k <= |text| ensures !OccursIgnoreCaseAt(pattern, text, k) {
      if k + |pattern| <= |text| {
        assert text[k..k + |pattern|][0] == text[k];
      }
    }
  }
}
