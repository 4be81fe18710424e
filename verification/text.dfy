/** The PHP string primitives the report is built with: `str_replace` with a
    one-character search string, `implode`, concatenation of a list of pieces,
    and the decimal rendering of integers done by `sprintf("%d")` and by
    string concatenation of an integer. */
module Text {

  /** Number of occurrences of `c` in `s`. */
  function Count(s: string, c: char): (n: nat)
    ensures n <= |s|
    ensures n == 0 <==> c !in s
  {
    if |s| == 0 then 0
    else (if s[0] == c then 1 else 0) + Count(s[1..], c)
  }

  /** `str_replace(needle, rep, s)` for a one-character `needle`: every
      occurrence of `needle` is replaced by `rep`, every other character is
      kept in place. */
  function Replace(s: string, needle: char, rep: string): (r: string)
    ensures needle !in s ==> r == s
  {
    if |s| == 0 then ""
    else (if s[0] == needle then rep else [s[0]]) + Replace(s[1..], needle, rep)
  }

  /** Each occurrence of `needle` grows the text by `|rep| - 1` characters. */
  lemma {:induction false} ReplaceLength(s: string, needle: char, rep: string)
    ensures |Replace(s, needle, rep)| == |s| + Count(s, needle) * (|rep| - 1)
    decreases |s|
  {
    if |s| > 0 {
      var tail := Replace(s[1..], needle, rep);
      ReplaceLength(s[1..], needle, rep);
      var k := Count(s[1..], needle);
      var d := |rep| - 1;
      assert |tail| == |s| - 1 + k * d;
      if s[0] == needle {
        assert Replace(s, needle, rep) == rep + tail;
        assert Count(s, needle) == 1 + k;
        MulStep(k, d);
      } else {
        assert Replace(s, needle, rep) == [s[0]] + tail;
        assert Count(s, needle) == k;
      }
    }
  }

  /** One more occurrence adds one more `d`. */
  lemma MulStep(k: int, d: int)
    ensures (1 + k) * d == d + k * d
  {
  }

  /** Replacement works piecewise: it commutes with concatenation. */
  lemma {:induction false} ReplaceAppend(a: string, b: string, needle: char, rep: string)
    ensures Replace(a + b, needle, rep) == Replace(a, needle, rep) + Replace(b, needle, rep)
    decreases |a|
  {
    if |a| == 0 {
      assert a + b == b;
    } else {
      assert (a + b)[0] == a[0];
      assert (a + b)[1..] == a[1..] + b;
      ReplaceAppend(a[1..], b, needle, rep);
    }
  }

  /** The inverse of `Replace` when `rep` begins with `needle`: every
      occurrence of `rep` (scanned left to right) collapses back to `needle`. */
  function Restore(t: string, needle: char, rep: string): (s: string)
    requires |rep| > 0
    ensures |s| <= |t|
    decreases |t|
  {
    if |t| == 0 then ""
    else if |rep| <= |t| && t[..|rep|] == rep then [needle] + Restore(t[|rep|..], needle, rep)
    else [t[0]] + Restore(t[1..], needle, rep)
  }

  /** No character other than `needle` is changed: the original text can be
      recovered from the replaced one. */
  lemma {:induction false} RestoreReplace(s: string, needle: char, rep: string)
    requires |rep| > 0 && rep[0] == needle
    ensures Restore(Replace(s, needle, rep), needle, rep) == s
    decreases |s|
  {
    if |s| > 0 {
      var tail := Replace(s[1..], needle, rep);
      RestoreReplace(s[1..], needle, rep);
      if s[0] == needle {
        var t := rep + tail;
        assert t[..|rep|] == rep;
        assert t[|rep|..] == tail;
        assert [needle] + s[1..] == s;
      } else {
        var t := [s[0]] + tail;
        assert t[0] != rep[0];
        assert !(|rep| <= |t| && t[..|rep|] == rep) by {
          if |rep| <= |t| {
            assert t[..|rep|][0] == t[0];
          }
        }
        assert t[1..] == tail;
        assert [s[0]] + s[1..] == s;
      }
    }
  }

  /** Concatenation of a list of pieces, in order (repeated `.=`). */
  function Concat(parts: seq<string>): (r: string)
    ensures |parts| == 0 ==> r == ""
  {
    if |parts| == 0 then "" else Concat(parts[..|parts| - 1]) + parts[|parts| - 1]
  }

  /** Extending a prefix by one piece appends that piece. */
  lemma ConcatPrefixStep(parts: seq<string>, i: nat)
    requires i < |parts|
    ensures Concat(parts[..i + 1]) == Concat(parts[..i]) + parts[i]
  {
    assert parts[..i + 1][..i] == parts[..i];
  }

  // Plain sequence facts, stated generically so that using them never
  // unfolds the strings they are applied to.

  /** Appending nothing changes nothing. */
  lemma AppendEmpty<T>(s: seq<T>)
    ensures s + [] == s
    ensures [] + s == s
  {
  }

  /** Concatenation is associative. */
  lemma AppendAssoc<T>(a: seq<T>, b: seq<T>, c: seq<T>)
    ensures (a + b) + c == a + (b + c)
  {
  }

  /** Taking the whole of a list gives the list. */
  lemma PrefixAll<T>(s: seq<T>)
    ensures s[..|s|] == s
  {
  }

  /** A slice of the second operand of a concatenation, read through the concatenation. */
  lemma SliceOfAppend<T>(a: seq<T>, b: seq<T>, j: nat, n: nat)
    requires j + n <= |b|
    ensures (a + b)[|a| + j..|a| + j + n] == b[j..j + n]
  {
  }

  /** A prefix of the first operand of a concatenation, read through the concatenation. */
  lemma PrefixOfAppend<T>(a: seq<T>, b: seq<T>, n: nat)
    requires n <= |a|
    ensures (a + b)[..n] == a[..n]
  {
  }

  /** Dropping the first operand of a concatenation leaves the second. */
  lemma SuffixOfAppend<T>(a: seq<T>, b: seq<T>)
    ensures (a + b)[|a|..] == b
  {
  }

  /** `implode(sep, parts)`. */
  function Join(sep: string, parts: seq<string>): (r: string)
    ensures |parts| == 0 ==> r == ""
    ensures |parts| == 1 ==> r == parts[0]
  {
    if |parts| == 0 then ""
    else if |parts| == 1 then parts[0]
    else parts[0] + sep + Join(sep, parts[1..])
  }

  /** Appending a piece to a non-empty list appends the separator and the piece. */
  lemma {:induction false} JoinAppend(sep: string, parts: seq<string>, p: string)
    requires |parts| > 0
    ensures Join(sep, parts + [p]) == Join(sep, parts) + sep + p
    decreases |parts|
  {
    var ps := parts + [p];
    assert ps[0] == parts[0];
    if |parts| > 1 {
      assert ps[1..] == parts[1..] + [p];
      JoinAppend(sep, parts[1..], p);
    } else {
      assert ps[1..] == [p];
    }
  }

  /** Total length of a list of pieces. */
  function TotalLength(parts: seq<string>): nat
  {
    if |parts| == 0 then 0 else |parts[0]| + TotalLength(parts[1..])
  }

  /** The pieces after the first, each preceded by the separator. */
  function Separated(sep: string, parts: seq<string>): (out: seq<string>)
    requires |parts| > 0
    ensures |out| == |parts| - 1
  {
    seq(|parts| - 1, i requires 0 <= i < |parts| - 1 => sep + parts[i + 1])
  }

  /** `implode` as plain concatenation: the first piece, then every other
      piece preceded by one separator, in order. */
  lemma {:induction false} JoinIsSeparatedConcat(sep: string, parts: seq<string>)
    requires |parts| > 0
    ensures Join(sep, parts) == parts[0] + Concat(Separated(sep, parts))
    decreases |parts|
  {
    var n := |parts|;
    if n > 1 {
      var init := parts[..n - 1];
      var last := parts[n - 1];
      assert parts == init + [last];
      JoinIsSeparatedConcat(sep, init);
      JoinAppend(sep, init, last);
      var s := Separated(sep, parts);
      assert s[..n - 2] == Separated(sep, init);
      assert s[n - 2] == sep + last;
      assert Concat(s) == Concat(Separated(sep, init)) + (sep + last);
      AppendAssoc(Join(sep, init), sep, last);
      AppendAssoc(parts[0], Concat(Separated(sep, init)), sep + last);
    } else {
      assert Separated(sep, parts) == [];
    }
  }

  /** The joined text holds every piece and exactly one separator between neighbours. */
  lemma {:induction false} JoinLength(sep: string, parts: seq<string>)
    requires |parts| > 0
    ensures |Join(sep, parts)| == TotalLength(parts) + (|parts| - 1) * |sep|
    decreases |parts|
  {
    if |parts| > 1 {
      JoinLength(sep, parts[1..]);
    }
  }

  predicate IsDigit(c: char)
  {
    '0' <= c <= '9'
  }

  function DigitChar(d: nat): (c: char)
    requires d < 10
    ensures IsDigit(c)
  {
    "0123456789"[d]
  }

  function DigitValue(c: char): (d: nat)
    requires IsDigit(c)
    ensures d < 10
  {
    (c - '0') as nat
  }

  /** Decimal digits of a non-negative integer, without leading zeros. */
  function NatToDecimal(n: nat): (r: string)
    ensures |r| > 0
    ensures forall i :: 0 <= i < |r| ==> IsDigit(r[i])
    ensures r[0] == '0' ==> n == 0
  {
    if n < 10 then [DigitChar(n)] else NatToDecimal(n / 10) + [DigitChar(n % 10)]
  }

  /** PHP's conversion of an integer to a string (`%d`, `.`): an optional minus sign and the digits. */
  function IntToDecimal(i: int): (r: string)
    ensures |r| > 0
    ensures r[0] == '-' <==> i < 0
  {
    if i < 0 then "-" + NatToDecimal(-i) else NatToDecimal(i)
  }

  /** Value of a string of decimal digits. */
  function ParseDecimal(s: string): nat
    requires forall i :: 0 <= i < |s| ==> IsDigit(s[i])
  {
    if |s| == 0 then 0 else ParseDecimal(s[..|s| - 1]) * 10 + DigitValue(s[|s| - 1])
  }

  /** Value of an optionally signed decimal numeral. */
  function ParseInt(s: string): int
    requires |s| > 0
    requires s[0] == '-' ==> forall i :: 1 <= i < |s| ==> IsDigit(s[i])
    requires s[0] != '-' ==> forall i :: 0 <= i < |s| ==> IsDigit(s[i])
  {
    if s[0] == '-' then -(ParseDecimal(s[1..]) as int) else ParseDecimal(s)
  }

  /** Decimal rendering of a non-negative integer loses nothing. */
  lemma {:induction false} NatDecimalRoundTrip(n: nat)
    ensures ParseDecimal(NatToDecimal(n)) == n
    decreases n
  {
    var r := NatToDecimal(n);
    if n < 10 {
      assert r[..0] == "";
      assert DigitValue(DigitChar(n)) == n by {
        assert "0123456789"[n] as int == '0' as int + n;
      }
    } else {
      NatDecimalRoundTrip(n / 10);
      assert r[..|r| - 1] == NatToDecimal(n / 10);
      assert DigitValue(DigitChar(n % 10)) == n % 10 by {
        assert "0123456789"[n % 10] as int == '0' as int + n % 10;
      }
    }
  }

  /** Decimal rendering of any integer loses nothing, so distinct lines print distinctly. */
  lemma IntDecimalRoundTrip(i: int)
    ensures ParseInt(IntToDecimal(i)) == i
  {
    var t := IntToDecimal(i);
    if i < 0 {
      var digits := NatToDecimal(-i);
      NatDecimalRoundTrip(-i);
      SuffixOfAppend("-", digits);
      assert ParseInt(t) == -(ParseDecimal(t[1..]) as int);
    } else {
      NatDecimalRoundTrip(i);
      assert ParseInt(t) == ParseDecimal(t);
    }
  }
}
