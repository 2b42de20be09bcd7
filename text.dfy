/** String building blocks used by the map rendering and the catalog serialiser:
    Java's decimal rendering of an int, joining, left-justified padding, lastIndexOf. */
module Text {

  /** The character of one decimal digit. */
  function DigitChar(d: nat): (c: char)
    requires d < 10
    ensures '0' <= c <= '9' && c as int - '0' as int == d
  {
    "0123456789"[d]
  }

  /** The value of one decimal digit character. */
  function DigitValue(c: char): nat
    requires '0' <= c <= '9'
  {
    c as int - '0' as int
  }

  predicate IsDigits(s: string)
  {
    forall i :: 0 <= i < |s| ==> '0' <= s[i] <= '9'
  }

  /** Decimal rendering of a non-negative number, most significant digit first,
      without leading zeros. */
  function NatToString(n: nat): (s: string)
    ensures 1 <= |s| && IsDigits(s)
    ensures |s| > 1 ==> s[0] != '0'
    decreases n
  {
    if n < 10 then [DigitChar(n)] else NatToString(n / 10) + [DigitChar(n % 10)]
  }

  /** Reads a string of decimal digits back as a number. */
  function ParseDigits(s: string): nat
    requires IsDigits(s)
  {
    if s == [] then 0 else 10 * ParseDigits(s[..|s| - 1]) + DigitValue(s[|s| - 1])
  }

  /** Reading the rendering back gives the number: the rendering loses nothing. */
  lemma {:induction false} NatToStringRoundTrip(n: nat)
    ensures ParseDigits(NatToString(n)) == n
    decreases n
  {
    var s := NatToString(n);
    if n >= 10 {
      NatToStringRoundTrip(n / 10);
      assert s[..|s| - 1] == NatToString(n / 10);
    }
  }

  /** Java's Integer.toString / StringBuilder.append(int): a minus sign for negative values. */
  function IntToString(n: int): (s: string)
    ensures 1 <= |s|
    ensures forall i :: 0 <= i < |s| ==> s[i] == '-' || '0' <= s[i] <= '9'
    ensures n < 0 <==> s[0] == '-'
  {
    if n < 0 then "-" + NatToString(-n) else NatToString(n)
  }

  /** The rendering of an int reads back as its value: the digits of a non-negative
      value, or a minus sign followed by the digits of the magnitude. */
  lemma IntToStringValue(n: int)
    ensures n >= 0 ==> IsDigits(IntToString(n)) && ParseDigits(IntToString(n)) == n
    ensures n < 0 ==> 2 <= |IntToString(n)| && IsDigits(IntToString(n)[1..]) &&
                      ParseDigits(IntToString(n)[1..]) == -n
  {
    if n < 0 {
      NatToStringRoundTrip(-n);
      assert IntToString(n)[1..] == NatToString(-n);
    } else {
      NatToStringRoundTrip(n);
    }
  }

  /** The concatenation of a sequence of strings. */
  function Concat(parts: seq<string>): (s: string)
  {
    if parts == [] then "" else Concat(parts[..|parts| - 1]) + parts[|parts| - 1]
  }

  /** The strings of `parts` with `sep` between consecutive ones and nowhere else. */
  function Join(parts: seq<string>, sep: string): (s: string)
  {
    if parts == [] then ""
    else if |parts| == 1 then parts[0]
    else Join(parts[..|parts| - 1], sep) + sep + parts[|parts| - 1]
  }

  /** Joining one more part: the separator goes in front of it unless it is the first. */
  lemma JoinStep(parts: seq<string>, sep: string, j: nat)
    requires j < |parts|
    ensures Join(parts[..j + 1], sep) == Join(parts[..j], sep) + (if 0 < j then sep else "") + parts[j]
  {
    assert parts[..j + 1][..j] == parts[..j];
  }

  /** Every part followed by `sep`: what a loop appending `part + sep` builds. */
  function Terminated(parts: seq<string>, sep: string): (s: string)
  {
    if parts == [] then "" else Terminated(parts[..|parts| - 1], sep) + parts[|parts| - 1] + sep
  }

  /** Dropping the final separator of a terminated list gives the joined list. */
  lemma {:induction false} TerminatedIsJoinedPlusSep(parts: seq<string>, sep: string)
    requires parts != []
    ensures Terminated(parts, sep) == Join(parts, sep) + sep
    decreases |parts|
  {
    if |parts| > 1 {
      var init := parts[..|parts| - 1];
      TerminatedIsJoinedPlusSep(init, sep);
      assert Terminated(parts, sep) == Terminated(init, sep) + parts[|parts| - 1] + sep;
    } else {
      assert Terminated(parts, sep) == Terminated([], sep) + parts[0] + sep;
    }
  }

  function Spaces(n: nat): (s: string)
    ensures |s| == n && forall i :: 0 <= i < n ==> s[i] == ' '
  {
    if n == 0 then "" else Spaces(n - 1) + " "
  }

  /** Java's String.format("%-<width>s", s): left-justified, padded with spaces on the
      right up to `width`, never truncated. */
  function PadRight(s: string, width: nat): (r: string)
    ensures |r| == if |s| < width then width else |s|
    ensures r[..|s|] == s
    ensures forall i :: |s| <= i < |r| ==> r[i] == ' '
  {
    s + Spaces(if |s| < width then width - |s| else 0)
  }

  predicate EndsWith(s: string, suffix: string)
  {
    |suffix| <= |s| && s[|s| - |suffix|..] == suffix
  }

  /** `p` occurs in `s` starting at index `j`. */
  predicate OccursAt(s: string, p: string, j: int)
  {
    0 <= j && j + |p| <= |s| && s[j..j + |p|] == p
  }

  /** Java's String/StringBuilder lastIndexOf for a non-empty pattern: the largest start
      index of an occurrence at or below `from`, or -1. */
  function LastIndexFrom(s: string, p: string, from: int): (k: int)
    requires |p| > 0 && from <= |s| - |p|
    ensures k == -1 || (0 <= k <= from && OccursAt(s, p, k))
    ensures forall j :: k < j <= from ==> !OccursAt(s, p, j)
    decreases from + 1
  {
    if from < 0 then -1
    else if s[from..from + |p|] == p then from
    else LastIndexFrom(s, p, from - 1)
  }

  function LastIndexOf(s: string, p: string): (k: int)
    requires |p| > 0
  {
    LastIndexFrom(s, p, |s| - |p|)
  }

  /** The test `lastIndexOf(p) == length - |p|` the serialiser uses is "ends with p",
      as long as the text is at least as long as the pattern. */
  lemma LastIndexAtEndIffEndsWith(s: string, p: string)
    requires 0 < |p| <= |s|
    ensures LastIndexOf(s, p) == |s| - |p| <==> EndsWith(s, p)
  {
  }

  /** The test `lastIndexOf(c) == length - 2` holds exactly when the last-but-one
      character is c and the last one is not. */
  lemma LastIndexOfCharIsSecondLast(s: string, c: char)
    requires 2 <= |s|
    ensures LastIndexOf(s, [c]) == |s| - 2 <==> s[|s| - 2] == c && s[|s| - 1] != c
  {
    var n := |s|;
    var k := LastIndexOf(s, [c]);
    if k == n - 2 {
      assert s[k..k + 1] == [c];
      assert !OccursAt(s, [c], n - 1);
      assert s[n - 1..n] != [c];
    }
    if s[n - 2] == c && s[n - 1] != c {
      assert s[n - 2..n - 1] == [c];
      assert OccursAt(s, [c], n - 2);
      assert s[n - 1..n] == [s[n - 1]];
      assert !OccursAt(s, [c], n - 1);
    }
  }

  function Count(s: string, c: char): (n: nat)
    ensures n <= |s|
  {
    if s == [] then 0 else Count(s[..|s| - 1], c) + (if s[|s| - 1] == c then 1 else 0)
  }

  lemma {:induction false} CountConcat(a: string, b: string, c: char)
    ensures Count(a + b, c) == Count(a, c) + Count(b, c)
    decreases |b|
  {
    if b == [] {
      assert a + b == a;
    } else {
      var b' := b[..|b| - 1];
      CountConcat(a, b', c);
      assert (a + b)[..|a + b| - 1] == a + b';
    }
  }

  lemma {:induction false} CountAbsent(s: string, c: char)
    requires forall i :: 0 <= i < |s| ==> s[i] != c
    ensures Count(s, c) == 0
    decreases |s|
  {
    if s != [] {
      CountAbsent(s[..|s| - 1], c);
    }
  }
}
