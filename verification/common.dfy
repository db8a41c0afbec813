/** Shared vocabulary: optional values, results, and the few string operations
    both services rely on (Java's isBlank, decimal rendering of integers,
    joining and splitting on a separator). */
module Common {

  datatype Option<+T> = None | Some(value: T)

  datatype Result<+T, +E> = Ok(value: T) | Err(error: E)

  /** Character.isWhitespace in Java: the ASCII separators, the four
      information separators U+001C..U+001F, and the Unicode space, line and
      paragraph separators except the non-breaking ones. */
  predicate IsJavaWhitespace(c: char)
  {
    c == ' ' || c == '\t' || c == '\n' || c == '\U{000B}' || c == '\U{000C}' || c == '\r'
    || ('\U{001C}' <= c <= '\U{001F}')
    || c == '\U{1680}'
    || ('\U{2000}' <= c <= '\U{2006}')
    || ('\U{2008}' <= c <= '\U{200A}')
    || c == '\U{2028}' || c == '\U{2029}' || c == '\U{205F}' || c == '\U{3000}'
  }

  /** String.isBlank: empty or only whitespace. */
  predicate IsBlank(s: string)
  {
    forall k :: 0 <= k < |s| ==> IsJavaWhitespace(s[k])
  }

  /** A nullable Java string that is neither null nor blank. */
  predicate IsPresent(s: Option<string>)
  {
    s.Some? && !IsBlank(s.value)
  }

  lemma NonBlankConcat(a: string, b: string)
    requires !IsBlank(a) || !IsBlank(b)
    ensures !IsBlank(a + b)
  {
    if !IsBlank(a) {
      var k :| 0 <= k < |a| && !IsJavaWhitespace(a[k]);
      assert (a + b)[k] == a[k];
    } else {
      var k :| 0 <= k < |b| && !IsJavaWhitespace(b[k]);
      assert (a + b)[|a| + k] == b[k];
    }
  }

  // ---------------------------------------------------------------------
  // Decimal rendering of integers (Java's int-to-String, Python's f"{n}")
  // ---------------------------------------------------------------------

  function DigitChar(d: nat): char
    requires d < 10
  {
    "0123456789"[d]
  }

  predicate IsDigit(c: char)
  {
    '0' <= c <= '9'
  }

  function DigitValue(c: char): nat
    requires IsDigit(c)
  {
    (c as int - '0' as int) as nat
  }

  /** The decimal digits of n, most significant first, without leading
      zeros: the text of n / 10 (when n has more than one digit) followed by
      the last digit. */
  function Digits(n: nat): (r: string)
    ensures |r| >= 1
    ensures forall k :: 0 <= k < |r| ==> IsDigit(r[k])
    ensures n > 0 ==> r[0] != '0'
    decreases n, 0
  {
    if n < 10 then [DigitChar(n)] else DecimalString(n / 10) + [DigitChar(n % 10)]
  }

  /** Decimal text of an integer, with a leading '-' when negative. */
  function DecimalString(n: int): (r: string)
    ensures |r| >= 1 && '\n' !in r
    ensures n >= 0 <==> IsDigit(r[0])
    ensures n >= 0 ==> r == Digits(n)
    decreases if n >= 0 then n else -n, 1
  {
    if n >= 0 then Digits(n) else "-" + Digits(-n)
  }

  /** The number a string of decimal digits stands for. */
  function DigitsValue(s: string): nat
    requires forall k :: 0 <= k < |s| ==> IsDigit(s[k])
    decreases |s|
  {
    if s == [] then 0 else 10 * DigitsValue(s[..|s| - 1]) + DigitValue(s[|s| - 1])
  }

  /** Reading the digits back gives the number: the rendering loses nothing. */
  lemma {:induction false} DigitsRoundTrip(n: nat)
    ensures DigitsValue(Digits(n)) == n
    decreases n
  {
    var r := Digits(n);
    if n >= 10 {
      DigitsRoundTrip(n / 10);
      assert r[..|r| - 1] == Digits(n / 10);
      assert DigitValue(r[|r| - 1]) == n % 10;
    } else {
      assert DigitValue(r[0]) == n;
    }
  }

  // ---------------------------------------------------------------------
  // Joining and splitting on a separator
  // ---------------------------------------------------------------------

  /** `sep.join(parts)` in Python, String.join in Java. */
  function Join(parts: seq<string>, sep: string): string
    decreases |parts|
  {
    if |parts| == 0 then ""
    else if |parts| == 1 then parts[0]
    else parts[0] + sep + Join(parts[1..], sep)
  }

  /** The pieces between the occurrences of `d`; always at least one piece. */
  function Split(s: string, d: char): (r: seq<string>)
    ensures |r| >= 1
    decreases |s|
  {
    if |s| == 0 then [""]
    else if s[0] == d then [""] + Split(s[1..], d)
    else
      var rest := Split(s[1..], d);
      [[s[0]] + rest[0]] + rest[1..]
  }

  lemma {:induction false} SplitNoSeparator(a: string, d: char)
    requires d !in a
    ensures Split(a, d) == [a]
    decreases |a|
  {
    if |a| > 0 {
      SplitNoSeparator(a[1..], d);
      assert [a[0]] + a[1..] == a;
    }
  }

  /** Splitting at one occurrence of the separator splits each side on its
      own: the pieces of the whole are the pieces of the left side followed
      by the pieces of the right side. */
  lemma {:induction false} SplitAround(a: string, d: char, b: string)
    ensures Split(a + [d] + b, d) == Split(a, d) + Split(b, d)
    decreases |a|
  {
    var s := a + [d] + b;
    if |a| == 0 {
      assert s == [d] + b;
      assert s[1..] == b;
    } else {
      assert s[0] == a[0];
      assert s[1..] == a[1..] + [d] + b;
      SplitAround(a[1..], d, b);
    }
  }

  /** A first piece without the separator comes off the front whole. */
  lemma SplitPiece(a: string, d: char, b: string)
    requires d !in a
    ensures Split(a + [d] + b, d) == [a] + Split(b, d)
  {
    SplitAround(a, d, b);
    SplitNoSeparator(a, d);
  }

  /** Two separators and then a last piece without the separator: an empty
      piece and that piece follow the pieces of the left side. */
  lemma SplitBlankThenPiece(a: string, d: char, b: string)
    requires d !in b
    ensures Split(a + [d, d] + b, d) == Split(a, d) + ["", b]
  {
    assert a + [d, d] + b == a + [d] + ([] + [d] + b);
    SplitAround(a, d, [] + [d] + b);
    SplitPiece([], d, b);
    SplitNoSeparator(b, d);
  }

  /** Splitting the joined pieces recovers them, provided no piece contains
      the separator. */
  lemma {:induction false} SplitJoin(parts: seq<string>, d: char)
    requires |parts| >= 1
    requires forall k :: 0 <= k < |parts| ==> d !in parts[k]
    ensures Split(Join(parts, [d]), d) == parts
    decreases |parts|
  {
    if |parts| == 1 {
      SplitNoSeparator(parts[0], d);
    } else {
      SplitJoin(parts[1..], d);
      SplitPiece(parts[0], d, Join(parts[1..], [d]));
      assert [parts[0]] + parts[1..] == parts;
    }
  }
}
