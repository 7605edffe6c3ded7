/**
 * Atom labels: the `prefix$index` split used by every suffix field and by the
 * drawing code, Python's `int()` on a label (restricted to an optional `-`
 * followed by decimal digits) and `str()` on an integer.
 */
module Labels {
  import opened Errors

  /** The first position of `c` in `s`, if any. */
  function IndexOf(s: string, c: char): Option<nat> {
    if |s| == 0 then None
    else if s[0] == c then Some(0)
    else
      match IndexOf(s[1..], c)
      case None => None
      case Some(i) => Some(i + 1)
  }

  /** `IndexOf` finds nothing exactly when `c` does not occur, and otherwise its first occurrence. */
  lemma {:induction false} IndexOfFirst(s: string, c: char)
    ensures IndexOf(s, c).None? <==> c !in s
    ensures IndexOf(s, c).Some? ==>
      var i := IndexOf(s, c).value; i < |s| && s[i] == c && c !in s[..i]
  {
    if |s| > 0 && s[0] != c {
      IndexOfFirst(s[1..], c);
      assert s == [s[0]] + s[1..];
      if IndexOf(s[1..], c).Some? {
        var i := IndexOf(s[1..], c).value;
        assert s[..i + 1] == [s[0]] + s[1..][..i];
      }
    }
  }

  /**
   * `label.split('$')[1]`: the text after the first `$` up to the next `$` or
   * the end of the label; there is none when the label holds no `$`.
   */
  function Segment(atom: string): Option<string> {
    match IndexOf(atom, '$')
    case None => None
    case Some(i) =>
      IndexOfFirst(atom, '$');
      var rest := atom[i + 1..];
      match IndexOf(rest, '$')
      case None => Some(rest)
      case Some(j) =>
        IndexOfFirst(rest, '$');
        Some(rest[..j])
  }

  /** A label has a segment exactly when it holds a `$`, and the segment holds none. */
  lemma SegmentShape(atom: string)
    ensures Segment(atom).None? <==> '$' !in atom
    ensures Segment(atom).Some? ==> '$' !in Segment(atom).value
  {
    IndexOfFirst(atom, '$');
    if IndexOf(atom, '$').Some? {
      var rest := atom[IndexOf(atom, '$').value + 1..];
      IndexOfFirst(rest, '$');
    }
  }

  /** `IndexOf` finds the position of the first occurrence. */
  lemma IndexOfAt(s: string, c: char, k: nat)
    requires k < |s| && s[k] == c && c !in s[..k]
    ensures IndexOf(s, c) == Some(k)
  {
    if k > 0 {
      assert s[0] == s[..k][0];
      assert s[1..][..k - 1] == s[..k][1..];
      IndexOfAt(s[1..], c, k - 1);
    }
  }

  /** A label built as `prefix$segment`, possibly followed by more `$` parts, splits back into that segment. */
  lemma SegmentOfJoined(prefix: string, segment: string, tail: string)
    requires '$' !in prefix && '$' !in segment
    requires tail == [] || tail[0] == '$'
    ensures Segment(prefix + "$" + segment + tail) == Some(segment)
  {
    var atom := prefix + "$" + segment + tail;
    assert atom[..|prefix|] == prefix;
    IndexOfAt(atom, '$', |prefix|);
    var rest := atom[|prefix| + 1..];
    assert rest == segment + tail;
    if tail == [] {
      assert rest == segment;
      IndexOfFirst(rest, '$');
    } else {
      assert rest[..|segment|] == segment;
      IndexOfAt(rest, '$', |segment|);
    }
  }

  predicate IsDigit(c: char) {
    '0' <= c <= '9'
  }

  /** A non-empty run of decimal digits. */
  predicate IsNumeral(s: string) {
    |s| > 0 && forall i | 0 <= i < |s| :: IsDigit(s[i])
  }

  /** The value of a run of decimal digits, most significant first. */
  function NumeralValue(s: string): nat
    requires forall i | 0 <= i < |s| :: IsDigit(s[i])
  {
    if s == [] then 0
    else
      assert IsDigit(s[|s| - 1]);
      NumeralValue(s[..|s| - 1]) * 10 + (s[|s| - 1] as int - '0' as int)
  }

  /** `int(s)` for an optional minus sign followed by decimal digits; anything else is rejected. */
  function ParseInt(s: string): Option<int> {
    if |s| > 0 && s[0] == '-' then
      if IsNumeral(s[1..]) then Some(-(NumeralValue(s[1..]) as int)) else None
    else if IsNumeral(s) then Some(NumeralValue(s))
    else None
  }

  function DigitChar(d: nat): (c: char)
    requires d < 10
    ensures IsDigit(c) && c as int - '0' as int == d
  {
    (d + '0' as int) as char
  }

  /** `str(n)` for a natural number: its decimal digits without leading zeros. */
  function NatToString(n: nat): string {
    if n < 10 then [DigitChar(n)] else NatToString(n / 10) + [DigitChar(n % 10)]
  }

  /** `str(n)`. */
  function IntToString(n: int): string {
    if n < 0 then "-" + NatToString(-n) else NatToString(n)
  }

  /** `str(n)` of a natural number is a numeral, without leading zeros, whose value is `n`. */
  lemma {:induction false} NatToStringValue(n: nat)
    ensures IsNumeral(NatToString(n))
    ensures NumeralValue(NatToString(n)) == n
    ensures NatToString(n)[0] == '0' ==> NatToString(n) == "0"
  {
    if n >= 10 {
      NatToStringValue(n / 10);
      var s := NatToString(n);
      assert s[..|s| - 1] == NatToString(n / 10);
    }
  }

  /** `int(str(n)) == n`, and `str(n)` holds no `$`, so it can be the segment of a label. */
  lemma IntToStringRoundTrip(n: int)
    ensures ParseInt(IntToString(n)) == Some(n)
    ensures '$' !in IntToString(n)
  {
    var m: nat := if n < 0 then -n else n;
    var digits := NatToString(m);
    NatToStringValue(m);
    NumeralWithoutDollar(digits);
    if n < 0 {
      var s := "-" + digits;
      assert s[1..] == digits;
      assert s[0] == '-';
      assert '$' !in s by {
        assert forall i | 1 <= i < |s| :: s[i] == digits[i - 1];
      }
    } else {
      assert digits[0] != '-';
    }
  }

  /** A numeral holds no `$`. */
  lemma NumeralWithoutDollar(s: string)
    requires IsNumeral(s)
    ensures '$' !in s && s[0] != '-'
  {
    assert forall i | 0 <= i < |s| :: s[i] != '$';
  }

  /**
   * `int(label.split('$')[1])`, the shared sub-parser of every suffix field:
   * it fails when the label holds no `$` or the segment is not an integer.
   */
  function Suffix(atom: string): Result<int> {
    match Segment(atom)
    case None => Err(MalformedIndex(atom))
    case Some(segment) =>
      match ParseInt(segment)
      case None => Err(MalformedIndex(atom))
      case Some(n) => Ok(n)
  }

  /** The only error of `Suffix` names the label, and a label without `$` always has it. */
  lemma SuffixError(atom: string)
    ensures '$' !in atom ==> Suffix(atom) == Err(MalformedIndex(atom))
    ensures Suffix(atom).Err? ==> Suffix(atom).error == MalformedIndex(atom)
  {
    SegmentShape(atom);
  }

  /** The suffix of `prefix$n` is `n`, whatever the prefix, so long as it holds no `$`. */
  lemma SuffixOfJoined(prefix: string, n: int)
    requires '$' !in prefix
    ensures Suffix(prefix + "$" + IntToString(n)) == Ok(n)
  {
    IntToStringRoundTrip(n);
    SegmentOfJoined(prefix, IntToString(n), []);
    assert prefix + "$" + IntToString(n) + [] == prefix + "$" + IntToString(n);
  }

  /** The items of `str(xs)` for a list of integers: each in decimal, separated by `", "`. */
  function JoinInts(xs: seq<int>): string {
    if xs == [] then ""
    else if |xs| == 1 then IntToString(xs[0])
    else IntToString(xs[0]) + ", " + JoinInts(xs[1..])
  }

  /** `str(xs)` for a list of integers, as the label of a functional operation shows it. */
  function ListToString(xs: seq<int>): string {
    "[" + JoinInts(xs) + "]"
  }

  /** `str([4, -9]) == "[4, -9]"`: each item in decimal, separated by a comma and a space. */
  lemma ListToStringExample()
    ensures ListToString([4, -9]) == "[4, -9]"
  {
    assert IntToString(4) == "4" && IntToString(-9) == "-9";
  }
}
