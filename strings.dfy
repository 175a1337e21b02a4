/**
 * The C library and Rust standard-library routines the core leans on, stated over
 * sequences: strchr / `iter().position`, has_prefix, strstr, strtok_r with a one-character
 * delimiter set, splitting at every delimiter, and strtoul in base 10.
 * C strings are modelled as the characters before their terminating NUL.
 */
module Strings {
  import opened Wrappers

  /** Index of the first `x` in `s` (strchr, memchr, Rust's `iter().position`). */
  function IndexOf<T(==)>(s: seq<T>, x: T): (r: Option<nat>)
    ensures r.None? <==> x !in s
    ensures r.Some? ==> r.value < |s| && s[r.value] == x && x !in s[..r.value]
  {
    if s == [] then None
    else if s[0] == x then Some(0)
    else match IndexOf(s[1..], x)
      case None => None
      case Some(i) =>
        assert s[..i + 1] == [s[0]] + s[1..][..i];
        Some(i + 1)
  }

  /** has_prefix: `s` starts with `p`. */
  predicate HasPrefix<T(==)>(s: seq<T>, p: seq<T>) {
    |p| <= |s| && s[..|p|] == p
  }

  /** strstr: index of an occurrence of `p` in `s`; FindSubstringFirst shows it is the first. */
  function FindSubstring<T(==)>(s: seq<T>, p: seq<T>): (r: Option<nat>)
    ensures r.Some? ==> r.value + |p| <= |s| && HasPrefix(s[r.value..], p)
    decreases |s|
  {
    if HasPrefix(s, p) then Some(0)
    else if s == [] then None
    else
      match FindSubstring(s[1..], p)
        case None => None
        case Some(i) =>
          assert s[i + 1..] == s[1..][i..];
          Some(i + 1)
  }

  /** No occurrence of `p` starts before the one strstr returns, and None means there is none. */
  lemma {:induction false} FindSubstringFirst<T>(s: seq<T>, p: seq<T>)
    ensures var r := FindSubstring(s, p);
      && (r.Some? ==> forall j | 0 <= j < r.value :: !HasPrefix(s[j..], p))
      && (r.None? ==> forall j | 0 <= j <= |s| :: !HasPrefix(s[j..], p))
    decreases |s|
  {
    if !HasPrefix(s, p) && s != [] {
      FindSubstringFirst(s[1..], p);
      forall j | 1 <= j <= |s| ensures s[j..] == s[1..][j - 1..] { }
    }
  }

  /**
   * One call of strtok_r whose delimiter set is the single element `d`: `skipped` delimiters
   * are passed over, then `token` is returned; `terminated` tells whether a delimiter ended the
   * token (it is overwritten with NUL and the saved pointer moves past it), and `rest` is
   * what the saved pointer designates afterwards.
   */
  datatype Token<T> = Token(skipped: nat, token: seq<T>, terminated: bool, rest: seq<T>)

  function NextToken<T(==)>(s: seq<T>, d: T): (r: Option<Token<T>>)
    ensures r.None? <==> forall i | 0 <= i < |s| :: s[i] == d
    ensures r.Some? ==> |r.value.rest| < |s|
    decreases |s|
  {
    if s == [] then None
    else if s[0] == d then
      match NextToken(s[1..], d)
        case None => None
        case Some(t) => Some(t.(skipped := t.skipped + 1))
    else match IndexOf(s, d)
      case None => Some(Token(0, s, false, []))
      case Some(e) => Some(Token(0, s[..e], true, s[e + 1..]))
  }

  /** `t` is a correct description of the first token of `s`. */
  ghost predicate TokenOf<T>(s: seq<T>, d: T, t: Token<T>) {
    var end := t.skipped + |t.token|;
    && end <= |s|
    && (forall i | 0 <= i < t.skipped :: s[i] == d)
    && t.token != [] && s[t.skipped..end] == t.token
    && (forall i | 0 <= i < |t.token| :: t.token[i] != d)
    && (if t.terminated then end < |s| && s[end] == d && t.rest == s[end + 1..]
        else end == |s| && t.rest == [])
  }

  /** What NextToken returns is the first token of `s`, as strtok_r finds it. */
  lemma {:induction false} NextTokenIsToken<T>(s: seq<T>, d: T)
    ensures NextToken(s, d).Some? ==> TokenOf(s, d, NextToken(s, d).value)
    decreases |s|
  {
    if s != [] {
      if s[0] == d {
        NextTokenIsToken(s[1..], d);
        if NextToken(s[1..], d).Some? {
          TokenOfSkip(s, d, NextToken(s[1..], d).value);
        }
      } else {
        FirstTokenOf(s, d);
      }
    }
  }

  /** A text not starting with the delimiter has its first token at its start. */
  lemma FirstTokenOf<T>(s: seq<T>, d: T)
    requires s != [] && s[0] != d
    ensures TokenOf(s, d, NextToken(s, d).value)
  {
    match IndexOf(s, d)
    case None =>
      assert s[0..|s|] == s;
    case Some(e) =>
      assert s[0..e] == s[..e];
  }

  lemma SliceOfSuffix<T>(s: seq<T>, k: nat, i: nat, j: nat)
    requires k <= |s| && i <= j <= |s| - k
    ensures s[k..][i..j] == s[k + i..k + j]
  {
  }

  lemma SuffixOfSuffix<T>(s: seq<T>, k: nat, i: nat)
    requires k + i <= |s|
    ensures s[k..][i..] == s[k + i..]
  {
  }

  lemma PrefixOfSuffix<T>(s: seq<T>, k: nat, j: nat)
    requires k + j < |s|
    ensures s[k..][..j] == s[k..k + j] && s[k..][j] == s[k + j]
  {
  }

  /** A leading delimiter is skipped: the first token of the rest is that of the whole. */
  lemma TokenOfSkip<T>(s: seq<T>, d: T, t: Token<T>)
    requires s != [] && s[0] == d && TokenOf(s[1..], d, t)
    ensures TokenOf(s, d, t.(skipped := t.skipped + 1))
  {
    var end := t.skipped + |t.token|;
    SliceOfSuffix(s, 1, t.skipped, end);
    if t.terminated {
      assert s[end + 1] == s[1..][end];
      SuffixOfSuffix(s, 1, end + 1);
    }
    forall i | 0 <= i < t.skipped + 1
      ensures s[i] == d
    {
      if i > 0 {
        assert s[i] == s[1..][i - 1];
      }
    }
  }

  /** Every token a strtok_r loop over `s` with delimiter `d` returns, in order. */
  function Tokens<T(==)>(s: seq<T>, d: T): (r: seq<seq<T>>)
    ensures forall i | 0 <= i < |r| :: r[i] != [] && d !in r[i]
    decreases |s|
  {
    match NextToken(s, d)
      case None => []
      case Some(t) =>
        NextTokenIsToken(s, d);
        [t.token] + Tokens(t.rest, d)
  }

  /**
   * A strtok_r loop returns at most one token more than there are delimiters, and no more
   * tokens than delimiters when the text starts with a delimiter.
   */
  lemma {:induction false} TokenCountBound<T>(s: seq<T>, d: T)
    ensures |Tokens(s, d)| <= multiset(s)[d] + 1
    ensures |s| > 0 && s[0] == d ==> |Tokens(s, d)| <= multiset(s)[d]
    decreases |s|
  {
    var r := NextToken(s, d);
    if r.Some? {
      var t := r.value;
      assert Tokens(s, d) == [t.token] + Tokens(t.rest, d);
      TokenCountBound(t.rest, d);
      NextTokenDelimiters(s, d);
      if !t.terminated {
        assert Tokens(t.rest, d) == [];
      }
    }
  }

  /**
   * The delimiters of `s` are those strtok_r skips, the one ending the first token and those
   * of the rest; a text starting with a delimiter has one skipped.
   */
  lemma NextTokenDelimiters<T>(s: seq<T>, d: T)
    requires NextToken(s, d).Some?
    ensures var t := NextToken(s, d).value;
      && multiset(s)[d] == t.skipped + (if t.terminated then 1 + multiset(t.rest)[d] else 0)
      && (s[0] == d ==> t.skipped >= 1)
      && (!t.terminated ==> t.rest == [])
  {
    var t := NextToken(s, d).value;
    NextTokenIsToken(s, d);
    TokenDelimiterCount(s, d, t);
    if t.skipped == 0 {
      assert s[0] == t.token[0];
    }
  }

  /** The delimiters of `s` are the skipped ones, the terminating one and those of the rest. */
  lemma TokenDelimiterCount<T>(s: seq<T>, d: T, t: Token<T>)
    requires TokenOf(s, d, t)
    ensures multiset(s)[d] == t.skipped + (if t.terminated then 1 + multiset(t.rest)[d] else 0)
  {
    var skipped := s[..t.skipped];
    var tail := if t.terminated then [d] + t.rest else [];
    TokenOfParts(s, d, t);
    assert s == skipped + t.token + tail;
    assert multiset(s) == multiset(skipped) + multiset(t.token) + multiset(tail);
    AllEqualCount(skipped, d);
    NoneEqualCount(t.token, d);
  }

  /** A text is its skipped delimiters, its first token, and the terminator with the rest. */
  lemma TokenOfParts<T>(s: seq<T>, d: T, t: Token<T>)
    requires TokenOf(s, d, t)
    ensures s == s[..t.skipped] + t.token + (if t.terminated then [d] + t.rest else [])
    ensures forall i | 0 <= i < t.skipped :: s[..t.skipped][i] == d
    ensures forall i | 0 <= i < |t.token| :: t.token[i] != d
  {
    var end := t.skipped + |t.token|;
    assert s == s[..t.skipped] + s[t.skipped..end] + s[end..];
    if t.terminated {
      assert s[end..] == [d] + s[end + 1..];
    }
  }

  lemma {:induction false} AllEqualCount<T>(s: seq<T>, d: T)
    requires forall i | 0 <= i < |s| :: s[i] == d
    ensures multiset(s)[d] == |s|
  {
    if s != [] {
      AllEqualCount(s[1..], d);
      assert s == [s[0]] + s[1..];
    }
  }

  lemma {:induction false} NoneEqualCount<T>(s: seq<T>, d: T)
    requires forall i | 0 <= i < |s| :: s[i] != d
    ensures multiset(s)[d] == 0
  {
    if s != [] {
      NoneEqualCount(s[1..], d);
      assert s == [s[0]] + s[1..];
    }
  }

  /** The pieces of `s` between consecutive `d`s, empty pieces included. */
  function Split<T(==)>(s: seq<T>, d: T): (r: seq<seq<T>>)
    ensures |r| >= 1
    decreases |s|
  {
    match IndexOf(s, d)
      case None => [s]
      case Some(i) => [s[..i]] + Split(s[i + 1..], d)
  }

  /** No piece holds a delimiter. */
  lemma {:induction false} SplitPiecesFree<T>(s: seq<T>, d: T)
    ensures var r := Split(s, d); forall i | 0 <= i < |r| :: d !in r[i]
    decreases |s|
  {
    match IndexOf(s, d)
    case None =>
    case Some(i) =>
      SplitPiecesFree(s[i + 1..], d);
      assert Split(s, d)[1..] == Split(s[i + 1..], d);
  }

  /** The pieces put back together, with one `d` between neighbours. */
  function Join<T>(parts: seq<seq<T>>, d: T): seq<T>
    requires |parts| >= 1
  {
    if |parts| == 1 then parts[0] else parts[0] + [d] + Join(parts[1..], d)
  }

  /** Splitting loses nothing: joining the pieces gives the text back. */
  lemma {:induction false} JoinSplit<T>(s: seq<T>, d: T)
    ensures Join(Split(s, d), d) == s
    decreases |s|
  {
    match IndexOf(s, d)
    case None =>
    case Some(i) =>
      JoinSplit(s[i + 1..], d);
      assert Split(s, d)[1..] == Split(s[i + 1..], d);
      assert s == s[..i] + [d] + s[i + 1..];
  }

  // ---------------------------------------------------------------------------
  // strtoul (base 10) and the conversion of its result to a 32-bit pid_t
  // ---------------------------------------------------------------------------

  const ULONG_MAX: nat := 0xFFFF_FFFF_FFFF_FFFF

  /** isspace in the C locale. */
  predicate IsSpace(c: char) {
    c == ' ' || c == '\t' || c == '\n' || c == '\U{000B}' || c == '\U{000C}' || c == '\r'
  }

  predicate IsDigit(c: char) {
    '0' <= c <= '9'
  }

  function DigitValue(c: char): nat
    requires IsDigit(c)
  {
    (c as int) - ('0' as int)
  }

  function DigitChar(v: nat): (c: char)
    requires v < 10
    ensures IsDigit(c) && DigitValue(c) == v
  {
    (('0' as int) + v) as char
  }

  /** The number of white-space characters `s` starts with. */
  function LeadingSpaces(s: string): (k: nat)
    ensures k <= |s|
  {
    if s != [] && IsSpace(s[0]) then 1 + LeadingSpaces(s[1..]) else 0
  }

  /** What LeadingSpaces skips is white space, and it stops at the first character that is not. */
  lemma {:induction false} LeadingSpacesSkipsSpace(s: string)
    ensures var k := LeadingSpaces(s);
      (k == |s| || !IsSpace(s[k])) && forall i | 0 <= i < k :: IsSpace(s[i])
  {
    if s != [] && IsSpace(s[0]) {
      LeadingSpacesSkipsSpace(s[1..]);
      var k := LeadingSpaces(s[1..]);
      assert forall i | 1 <= i < k + 1 :: s[i] == s[1..][i - 1];
    }
  }

  /** The value of a decimal numeral, most significant digit first. */
  function DecimalValue(digits: string): nat
    requires forall i | 0 <= i < |digits| :: IsDigit(digits[i])
  {
    if digits == [] then 0
    else 10 * DecimalValue(digits[..|digits| - 1]) + DigitValue(digits[|digits| - 1])
  }

  /**
   * The digits `s` starts with, accumulated onto `acc` one at a time as strtoul's loop does;
   * the first character that is not a digit ends the number.
   */
  function LeadingNumber(s: string, acc: nat): nat {
    if s != [] && IsDigit(s[0]) then LeadingNumber(s[1..], 10 * acc + DigitValue(s[0])) else acc
  }

  /** One more digit at the end multiplies what was accumulated by ten and adds the digit. */
  lemma {:induction false} LeadingNumberSnoc(a: string, c: char, acc: nat)
    requires forall i | 0 <= i < |a| :: IsDigit(a[i])
    requires IsDigit(c)
    ensures LeadingNumber(a + [c], acc) == 10 * LeadingNumber(a, acc) + DigitValue(c)
  {
    if a == [] {
      assert (a + [c])[1..] == [];
    } else {
      assert (a + [c])[1..] == a[1..] + [c];
      LeadingNumberSnoc(a[1..], c, 10 * acc + DigitValue(a[0]));
    }
  }

  /** Accumulating a whole numeral from zero gives its value. */
  lemma {:induction false} LeadingNumberOfDigits(t: string)
    requires forall i | 0 <= i < |t| :: IsDigit(t[i])
    ensures LeadingNumber(t, 0) == DecimalValue(t)
  {
    if t != [] {
      var p := t[..|t| - 1];
      LeadingNumberOfDigits(p);
      LeadingNumberSnoc(p, t[|t| - 1], 0);
      assert p + [t[|t| - 1]] == t;
    }
  }

  /**
   * strtoul(s, NULL, 10) as glibc computes it: leading white space, an optional sign, the
   * longest run of digits (none gives 0); a value past ULONG_MAX saturates, and a minus sign
   * negates modulo 2^64.
   */
  function Strtoul(s: string): (v: nat)
    ensures v <= ULONG_MAX
  {
    var t := s[LeadingSpaces(s)..];
    var negative := t != [] && t[0] == '-';
    var u := if t != [] && (t[0] == '-' || t[0] == '+') then t[1..] else t;
    var n := LeadingNumber(u, 0);
    if n > ULONG_MAX then ULONG_MAX
    else if negative && n != 0 then ULONG_MAX + 1 - n
    else n
  }

  /** An unsigned value stored into a 32-bit signed integer (pid_t): two's-complement truncation. */
  function ToInt32(v: int): (r: int)
    ensures -0x8000_0000 <= r < 0x8000_0000
    ensures 0 <= v < 0x8000_0000 ==> r == v
  {
    var m := v % 0x1_0000_0000;
    if m >= 0x8000_0000 then m - 0x1_0000_0000 else m
  }

  /** The decimal numeral of `n`, without sign or leading zeros. */
  function DecimalText(n: nat): (r: string)
    ensures r != [] && forall i | 0 <= i < |r| :: IsDigit(r[i])
  {
    if n < 10 then [DigitChar(n)] else DecimalText(n / 10) + [DigitChar(n % 10)]
  }

  /** printf's %d: a minus sign before the numeral of a negative number. */
  function SignedDecimalText(n: int): (r: string)
    ensures r != [] && (n < 0 <==> r[0] == '-')
  {
    if n < 0 then "-" + DecimalText(-n) else DecimalText(n)
  }

  lemma {:induction false} DecimalValueOfText(n: nat)
    ensures DecimalValue(DecimalText(n)) == n
  {
    if n >= 10 {
      DecimalValueOfText(n / 10);
      var t := DecimalText(n);
      assert t[..|t| - 1] == DecimalText(n / 10);
    }
  }

  /** strtoul of a bare numeral in range is its value. */
  lemma StrtoulOfNumeral(t: string)
    requires t != [] && forall i | 0 <= i < |t| :: IsDigit(t[i])
    requires DecimalValue(t) <= ULONG_MAX
    ensures Strtoul(t) == DecimalValue(t)
  {
    assert !IsSpace(t[0]) && t[0] != '-' && t[0] != '+';
    assert LeadingSpaces(t) == 0 && t[0..] == t;
    LeadingNumberOfDigits(t);
  }

  /** strtoul reads back every numeral DecimalText writes. */
  lemma StrtoulDecimalText(n: nat)
    requires n <= ULONG_MAX
    ensures Strtoul(DecimalText(n)) == n
  {
    DecimalValueOfText(n);
    StrtoulOfNumeral(DecimalText(n));
  }
}
