/**
 * The parts of java.lang.String, Long, Integer and Boolean that the chat
 * application relies on, as functions over `string` (a `seq<char>`).
 *
 * Java integers are bounded; the model uses unbounded `int` and states the
 * 64-bit and 32-bit ranges explicitly where a parse or a value depends on them.
 */
module JavaText {

  datatype Option<T> = None | Some(value: T)

  const MinLong: int := -0x8000_0000_0000_0000
  const MaxLong: int := 0x7FFF_FFFF_FFFF_FFFF
  const MinInt: int := -0x8000_0000
  const MaxInt: int := 0x7FFF_FFFF

  /** A value a Java `long` can hold. */
  predicate IsLong(n: int) { MinLong <= n <= MaxLong }

  /** A value a Java `int` can hold. */
  predicate IsInt(n: int) { MinInt <= n <= MaxInt }

  // ---------------------------------------------------------------------------
  // Prefixes, searching, substrings

  /** `s.startsWith(prefix)` */
  predicate StartsWith(s: string, prefix: string) {
    |prefix| <= |s| && s[..|prefix|] == prefix
  }

  /** `sep` occurs in `s` starting at index `k`. */
  predicate MatchAt(s: string, sep: string, k: int) {
    0 <= k && k + |sep| <= |s| && s[k..k + |sep|] == sep
  }

  /** The first index at or after `from` where `sep` occurs in `s` (`s.indexOf(sep, from)`). */
  function FindFrom(s: string, sep: string, from: nat): (r: Option<nat>)
    ensures r.Some? ==> from <= r.value && MatchAt(s, sep, r.value)
    ensures r.Some? ==> forall k :: from <= k < r.value ==> !MatchAt(s, sep, k)
    ensures r.None? ==> forall k :: from <= k ==> !MatchAt(s, sep, k)
    decreases |s| - from
  {
    if from + |sep| > |s| then None
    else if s[from..from + |sep|] == sep then Some(from)
    else FindFrom(s, sep, from + 1)
  }

  /** `s.indexOf(sep)`, absent when `sep` does not occur. */
  function Find(s: string, sep: string): Option<nat> {
    FindFrom(s, sep, 0)
  }

  /** `s.contains(t)` */
  predicate Contains(s: string, t: string) {
    Find(s, t).Some?
  }

  /** The first index of character `c` in `s`. */
  function IndexOfChar(s: string, c: char): (i: nat)
    requires c in s
    ensures i < |s| && s[i] == c && c !in s[..i]
    ensures forall k :: 0 <= k < i ==> s[k] != c
  {
    if s[0] == c then 0
    else
      assert c in s[1..] by { var k :| 0 <= k < |s| && s[k] == c; assert s[1..][k - 1] == c; }
      var j := IndexOfChar(s[1..], c);
      assert s[..j + 1] == [s[0]] + s[1..][..j];
      j + 1
  }

  // ---------------------------------------------------------------------------
  // Splitting and joining

  /**
   * `s.split(c, 2)` for a one-character separator: the text before the first
   * `c` and everything after it, or `[s]` when `c` does not occur.
   */
  function SplitFirst(s: string, c: char): (parts: seq<string>)
    ensures 1 <= |parts| <= 2
    ensures |parts| == 2 <==> c in s
    ensures |parts| == 1 ==> parts[0] == s
    ensures |parts| == 2 ==> c !in parts[0] && s == parts[0] + [c] + parts[1]
  {
    if c in s then
      var i := IndexOfChar(s, c);
      assert s == s[..i] + [c] + s[i + 1..];
      [s[..i], s[i + 1..]]
    else [s]
  }

  /**
   * `s.split(sep, 2)` for a multi-character literal separator: the text before
   * the first occurrence of `sep` and everything after it, or `[s]`.
   */
  function SplitFirstSeq(s: string, sep: string): (parts: seq<string>)
    requires |sep| > 0
    ensures 1 <= |parts| <= 2
    ensures |parts| == 1 <==> !Contains(s, sep)
    ensures |parts| == 1 ==> parts[0] == s
    ensures |parts| == 2 ==> s == parts[0] + sep + parts[1] && !Contains(parts[0], sep)
  {
    match Find(s, sep)
    case None => [s]
    case Some(i) =>
      assert s == s[..i] + sep + s[i + |sep|..];
      assert !Contains(s[..i], sep) by {
        forall k | 0 <= k ensures !MatchAt(s[..i], sep, k) {
          if k + |sep| <= i {
            assert FindFrom(s, sep, 0) == Some(i);
            assert !MatchAt(s, sep, k);
            assert s[..i][k..k + |sep|] == s[k..k + |sep|];
          }
        }
      }
      [s[..i], s[i + |sep|..]]
  }

  /** Every piece between the occurrences of `c`, empty pieces included. */
  function Pieces(s: string, c: char): (r: seq<string>)
    ensures |r| >= 1
    ensures forall k :: 0 <= k < |r| ==> c !in r[k]
    decreases |s|
  {
    if c in s then
      var i := IndexOfChar(s, c);
      [s[..i]] + Pieces(s[i + 1..], c)
    else [s]
  }

  /** The sequence without its trailing empty strings. */
  function DropTrailingEmpty(xs: seq<string>): (r: seq<string>)
    ensures |r| <= |xs| && r == xs[..|r|]
    ensures r == [] || r[|r| - 1] != ""
    ensures forall k :: |r| <= k < |xs| ==> xs[k] == ""
  {
    if xs == [] then []
    else if xs[|xs| - 1] == "" then DropTrailingEmpty(xs[..|xs| - 1])
    else xs
  }

  /**
   * `s.split(c)` for a one-character literal separator: no occurrence gives
   * `[s]` (so `"".split(c)` is `[""]`); otherwise every piece, with trailing
   * empty pieces removed.
   */
  function JavaSplit(s: string, c: char): (r: seq<string>)
    ensures c !in s ==> r == [s]
  {
    if c in s then DropTrailingEmpty(Pieces(s, c)) else [s]
  }

  /** `String.join(sep, xs)` for a one-character separator. */
  function Join(xs: seq<string>, c: char): string {
    if xs == [] then ""
    else if |xs| == 1 then xs[0]
    else xs[0] + [c] + Join(xs[1..], c)
  }

  /** `n` copies of `c`. */
  function Repeat(c: char, n: nat): (r: string)
    ensures |r| == n && forall k :: 0 <= k < n ==> r[k] == c
  {
    if n == 0 then [] else Repeat(c, n - 1) + [c]
  }

  /** Joining the pieces between separators back gives the string. */
  lemma {:induction false} JoinOfPieces(s: string, c: char)
    ensures Join(Pieces(s, c), c) == s
    decreases |s|
  {
    if c in s {
      var i := IndexOfChar(s, c);
      var rest := Pieces(s[i + 1..], c);
      JoinOfPieces(s[i + 1..], c);
      var xs := [s[..i]] + rest;
      assert xs[1..] == rest;
      assert s == s[..i] + [c] + s[i + 1..];
    }
  }

  /** Joining trailing empty pieces onto a non-empty sequence adds one separator each. */
  lemma {:induction false} JoinTrailingEmpty(xs: seq<string>, e: seq<string>, c: char)
    requires xs != []
    requires forall k :: 0 <= k < |e| ==> e[k] == ""
    ensures Join(xs + e, c) == Join(xs, c) + Repeat(c, |e|)
    decreases |e|
  {
    if e == [] {
      assert xs + e == xs;
    } else {
      var e' := e[..|e| - 1];
      JoinTrailingEmpty(xs, e', c);
      assert e == e' + [""];
      assert xs + e == (xs + e') + [""];
      JoinSnoc(xs + e', "", c);
      assert Join(xs + e, c) == Join(xs + e', c) + [c];
      assert Repeat(c, |e|) == Repeat(c, |e'|) + [c];
    }
  }

  /**
   * What `split(c)` drops is a run of separators at the end: its pieces,
   * joined back with `c`, are a prefix of `s` followed only by `c`.
   */
  lemma JavaSplitJoinBack(s: string, c: char)
    ensures var j := Join(JavaSplit(s, c), c);
            |j| <= |s| && s[..|j|] == j && forall k :: |j| <= k < |s| ==> s[k] == c
  {
    if c in s {
      var n := SplitDropsRun(s, c);
      PrefixThenRun(s, Join(JavaSplit(s, c), c), c, n);
    }
  }

  /** The pieces of `split(c)`, joined back, followed by `n` separators, give the string. */
  lemma SplitDropsRun(s: string, c: char) returns (n: nat)
    requires c in s
    ensures s == Join(JavaSplit(s, c), c) + Repeat(c, n)
  {
    var xs := Pieces(s, c);
    var r := DropTrailingEmpty(xs);
    var e := xs[|r|..];
    assert xs == r + e;
    JoinOfPieces(s, c);
    if r != [] {
      JoinTrailingEmpty(r, e, c);
      n := |e|;
    } else {
      var e' := e[1..];
      assert xs == [""] + e';
      JoinTrailingEmpty([""], e', c);
      n := |e'|;
    }
  }

  lemma PrefixThenRun(s: string, j: string, c: char, n: nat)
    requires s == j + Repeat(c, n)
    ensures |j| <= |s| && s[..|j|] == j && forall k :: |j| <= k < |s| ==> s[k] == c
  {
    assert forall k :: |j| <= k < |s| ==> s[k] == Repeat(c, n)[k - |j|];
  }

  /** A non-empty set of ids has an element, so a loop over a hash map's keys can pick one. */
  lemma NonEmptyHasElement(s: set<int>)
    requires s != {}
    ensures exists x :: x in s
  {
    if forall x :: x !in s {
      assert false;
    }
  }

  /** Appending one more element to a non-empty join, as a `StringBuilder` loop does. */
  lemma {:induction false} JoinSnoc(xs: seq<string>, x: string, c: char)
    requires xs != []
    ensures Join(xs + [x], c) == Join(xs, c) + [c] + x
    decreases |xs|
  {
    if |xs| > 1 {
      assert (xs + [x])[1..] == xs[1..] + [x];
      JoinSnoc(xs[1..], x, c);
    }
  }

  /** Splitting `x + [c] + rest` peels off `x` when `x` has no `c`. */
  lemma PiecesCons(x: string, c: char, rest: string)
    requires c !in x
    ensures Pieces(x + [c] + rest, c) == [x] + Pieces(rest, c)
  {
    var s := x + [c] + rest;
    assert s[|x|] == c;
    var i := IndexOfChar(s, c);
    forall k | 0 <= k < |x| ensures s[k] != c { assert s[k] == x[k]; }
    assert i == |x|;
    assert s[..i] == x;
    assert s[i + 1..] == rest;
  }

  lemma {:induction false} PiecesOfJoin(xs: seq<string>, c: char)
    requires |xs| >= 1
    requires forall k :: 0 <= k < |xs| ==> c !in xs[k]
    ensures Pieces(Join(xs, c), c) == xs
    decreases |xs|
  {
    if |xs| > 1 {
      PiecesCons(xs[0], c, Join(xs[1..], c));
      PiecesOfJoin(xs[1..], c);
      assert xs == [xs[0]] + xs[1..];
    }
  }

  /**
   * Splitting a joined list gives the list back when no element contains the
   * separator, the last element is non-empty (Java drops trailing empty
   * pieces) and, for a single element, that element is non-empty too.
   */
  lemma JavaSplitOfJoin(xs: seq<string>, c: char)
    requires |xs| >= 1 && xs[|xs| - 1] != ""
    requires forall k :: 0 <= k < |xs| ==> c !in xs[k]
    ensures JavaSplit(Join(xs, c), c) == xs
  {
    PiecesOfJoin(xs, c);
    if c in Join(xs, c) {
      assert DropTrailingEmpty(xs) == xs;
    } else {
      assert |Pieces(Join(xs, c), c)| == 1;
    }
  }

  // ---------------------------------------------------------------------------
  // Case and whitespace (ASCII letters only)

  function ToLowerChar(c: char): char {
    if 'A' <= c <= 'Z' then (c as int + 32) as char else c
  }

  function ToUpperChar(c: char): char {
    if 'a' <= c <= 'z' then (c as int - 32) as char else c
  }

  /** `s.toLowerCase()` on ASCII letters. */
  function ToLower(s: string): (r: string)
    ensures |r| == |s| && forall i :: 0 <= i < |s| ==> r[i] == ToLowerChar(s[i])
  {
    if s == [] then [] else [ToLowerChar(s[0])] + ToLower(s[1..])
  }

  /** `a.equalsIgnoreCase(b)` on ASCII letters. */
  predicate EqualsIgnoreCase(a: string, b: string) {
    ToLower(a) == ToLower(b)
  }

  /** `s.trim()`: removes leading and trailing characters up to U+0020. */
  function Trim(s: string): (r: string)
    ensures |r| <= |s|
    ensures r != [] ==> r[0] > ' ' && r[|r| - 1] > ' '
  {
    TrimEnd(TrimStart(s))
  }

  /** No character beyond U+0020. */
  predicate AllBlank(s: string) {
    forall k :: 0 <= k < |s| ==> s[k] <= ' '
  }

  /** `trim()` cuts blanks only, from the two ends: the result sits between a blank prefix and a blank suffix. */
  lemma TrimIsSlice(s: string)
    ensures exists i :: 0 <= i <= |s| - |Trim(s)| && s == s[..i] + Trim(s) + s[i + |Trim(s)|..]
                        && AllBlank(s[..i]) && AllBlank(s[i + |Trim(s)|..])
  {
    var t := TrimStart(s);
    var r := Trim(s);
    assert r == TrimEnd(t);
    var i := |s| - |t|;
    BlankEnds(s, t, r, i);
    assert 0 <= i <= |s| - |r| && s == s[..i] + r + s[i + |r|..] && AllBlank(s[..i]) && AllBlank(s[i + |r|..]);
  }

  lemma BlankEnds(s: string, t: string, r: string, i: int)
    requires i == |s| - |t| && 0 <= i && t == s[i..] && |r| <= |t| && r == t[..|r|]
    requires forall k :: 0 <= k < i ==> s[k] <= ' '
    requires forall k :: |r| <= k < |t| ==> t[k] <= ' '
    ensures i + |r| <= |s| && s == s[..i] + r + s[i + |r|..]
    ensures AllBlank(s[..i]) && AllBlank(s[i + |r|..])
  {
    assert s[i + |r|..] == t[|r|..];
    assert t == r + t[|r|..];
    assert s == s[..i] + t;
  }

  function TrimStart(s: string): (r: string)
    ensures |r| <= |s| && (r != [] ==> r[0] > ' ')
    ensures r == s[|s| - |r|..]
    ensures forall k :: 0 <= k < |s| - |r| ==> s[k] <= ' '
  {
    if s != [] && s[0] <= ' ' then TrimStart(s[1..]) else s
  }

  function TrimEnd(s: string): (r: string)
    ensures |r| <= |s| && (r != [] ==> r[|r| - 1] > ' ')
    ensures r == s[..|r|]
    ensures forall k :: |r| <= k < |s| ==> s[k] <= ' '
  {
    if s != [] && s[|s| - 1] <= ' ' then TrimEnd(s[..|s| - 1]) else s
  }

  // ---------------------------------------------------------------------------
  // Decimal numbers

  predicate IsDigit(c: char) { '0' <= c <= '9' }

  predicate AllDigits(s: string) { forall i :: 0 <= i < |s| ==> IsDigit(s[i]) }

  function DigitChar(d: int): (c: char)
    requires 0 <= d < 10
    ensures IsDigit(c)
  {
    ('0' as int + d) as char
  }

  /** The value of a string of decimal digits, most significant digit first. */
  function DigitsValue(s: string): nat
    requires AllDigits(s)
  {
    if s == [] then 0 else DigitsValue(s[..|s| - 1]) * 10 + (s[|s| - 1] as int - '0' as int)
  }

  /** `Long.toString(n)` for `n >= 0`. */
  function NatToString(n: nat): (s: string)
    ensures |s| > 0 && AllDigits(s)
  {
    if n < 10 then [DigitChar(n)] else NatToString(n / 10) + [DigitChar(n % 10)]
  }

  /** `Long.toString(n)` / `String.valueOf(n)`: a `'-'` and the digits of `-n` for negative `n`. */
  function LongToString(n: int): (s: string)
    ensures ':' !in s && ',' !in s && '\n' !in s
  {
    var s := if n < 0 then "-" + NatToString(-n) else NatToString(n);
    assert forall i :: 0 <= i < |s| ==> IsDigit(s[i]) || s[i] == '-';
    s
  }

  /** An optional `'-'` or `'+'` followed by at least one ASCII digit. */
  predicate Numeral(s: string) {
    && |s| > 0
    && (IsDigit(s[0]) || (|s| > 1 && (s[0] == '-' || s[0] == '+')))
    && forall i :: 1 <= i < |s| ==> IsDigit(s[i])
  }

  /**
   * Decimal parse with an optional leading `'-'` or `'+'`, at least one digit
   * and the result within `[lo, hi]`; `None` is Java's NumberFormatException.
   */
  function ParseSigned(s: string, lo: int, hi: int): (r: Option<int>)
    ensures r.Some? ==> lo <= r.value <= hi
    ensures r.Some? ==> Numeral(s)
    ensures r.Some? && r.value < 0 ==> s[0] == '-'
    ensures r.Some? && s[0] == '-' ==> r.value <= 0
    ensures |s| > 0 && AllDigits(s) && lo <= DigitsValue(s) <= hi ==> r == Some(DigitsValue(s))
    ensures Numeral(s) && s[0] == '+' && lo <= DigitsValue(s[1..]) <= hi ==> r == Some(DigitsValue(s[1..]))
    ensures Numeral(s) && s[0] == '-' && lo <= 0 - DigitsValue(s[1..]) <= hi ==> r == Some(0 - DigitsValue(s[1..]))
  {
    if |s| == 0 then None
    else if s[0] == '-' || s[0] == '+' then
      var digits := s[1..];
      if |digits| == 0 || !AllDigits(digits) then None
      else
        var v: int := if s[0] == '-' then 0 - DigitsValue(digits) else DigitsValue(digits);
        if lo <= v <= hi then Some(v) else None
    else if !AllDigits(s) then None
    else
      var v: int := DigitsValue(s);
      if lo <= v <= hi then Some(v) else None
  }

  /** `Long.parseLong(s)` */
  function ParseLong(s: string): (r: Option<int>)
    ensures r.Some? <==> Numeral(s) && IsLong(SignedValue(s))
    ensures r.Some? ==> r.value == SignedValue(s)
  {
    SignedValueParses(s, MinLong, MaxLong);
    ParseSigned(s, MinLong, MaxLong)
  }

  /** `Integer.parseInt(s)` */
  function ParseInt(s: string): (r: Option<int>)
    ensures r.Some? <==> Numeral(s) && IsInt(SignedValue(s))
    ensures r.Some? ==> r.value == SignedValue(s)
  {
    SignedValueParses(s, MinInt, MaxInt);
    ParseSigned(s, MinInt, MaxInt)
  }

  /** The value a numeral denotes: its digits, negated after a `'-'`. */
  function SignedValue(s: string): int
    requires Numeral(s)
  {
    if s[0] == '-' then 0 - DigitsValue(s[1..])
    else if s[0] == '+' then DigitsValue(s[1..])
    else DigitsValue(s)
  }

  /** Parsing accepts exactly the numerals whose value is in range, and yields that value. */
  lemma SignedValueParses(s: string, lo: int, hi: int)
    ensures ParseSigned(s, lo, hi).Some? <==> Numeral(s) && lo <= SignedValue(s) <= hi
    ensures ParseSigned(s, lo, hi).Some? ==> ParseSigned(s, lo, hi).value == SignedValue(s)
  {
    if Numeral(s) && IsDigit(s[0]) {
      assert AllDigits(s);
    }
  }

  lemma {:induction false} DigitsValueOfNatToString(n: nat)
    ensures DigitsValue(NatToString(n)) == n
  {
    if n >= 10 {
      var s := NatToString(n);
      var p := NatToString(n / 10);
      assert s[..|s| - 1] == p;
      DigitsValueOfNatToString(n / 10);
    }
  }

  /** `Long.parseLong(Long.toString(n)) == n` for every 64-bit `n`. */
  lemma ParseLongOfLongToString(n: int)
    requires IsLong(n)
    ensures ParseLong(LongToString(n)) == Some(n)
  {
    if n < 0 {
      DigitsValueOfNatToString(-n);
      assert LongToString(n)[1..] == NatToString(-n);
    } else {
      DigitsValueOfNatToString(n);
    }
  }

  /** The same round trip for `Integer.parseInt` and `String.valueOf(int)`. */
  lemma ParseIntOfLongToString(n: int)
    requires IsInt(n)
    ensures ParseInt(LongToString(n)) == Some(n)
  {
    if n < 0 {
      DigitsValueOfNatToString(-n);
      assert LongToString(n)[1..] == NatToString(-n);
    } else {
      DigitsValueOfNatToString(n);
    }
  }
}
