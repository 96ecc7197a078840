/**
 * The Python string operations the bot relies on (`str.strip`, `in`, `split`,
 * `replace`, `lower`, `str(int)`, `int(str)`, slicing with an ellipsis),
 * over strings of Unicode code points, which is what Python's `len` counts.
 */
module Text {
  import opened Wrappers

  /** `c.isspace()` in Python: the characters `str.strip()` removes. */
  predicate IsSpace(c: char)
  {
    || ('\t' <= c <= '\r')
    || ('\U{1C}' <= c <= ' ')
    || c == '\U{85}' || c == '\U{A0}' || c == '\U{1680}'
    || ('\U{2000}' <= c <= '\U{200A}')
    || c == '\U{2028}' || c == '\U{2029}' || c == '\U{202F}' || c == '\U{205F}' || c == '\U{3000}'
  }

  /** The first index at or after `from` that does not hold whitespace (or `|s|`). */
  function SkipSpace(s: string, from: nat): (i: nat)
    requires from <= |s|
    ensures from <= i <= |s|
    ensures forall k :: from <= k < i ==> IsSpace(s[k])
    ensures i == |s| || !IsSpace(s[i])
    decreases |s| - from
  {
    if from == |s| || !IsSpace(s[from]) then from else SkipSpace(s, from + 1)
  }

  /** The end of `s[lo..hi]` once its trailing whitespace is dropped. */
  function SkipSpaceBack(s: string, lo: nat, hi: nat): (j: nat)
    requires lo <= hi <= |s|
    ensures lo <= j <= hi
    ensures forall k :: j <= k < hi ==> IsSpace(s[k])
    ensures j == lo || !IsSpace(s[j - 1])
    decreases hi - lo
  {
    if hi == lo || !IsSpace(s[hi - 1]) then hi else SkipSpaceBack(s, lo, hi - 1)
  }

  /** Where `s.strip()` starts: the length of the leading whitespace. */
  function StripStart(s: string): (i: nat)
    ensures i <= |s|
    ensures forall k :: 0 <= k < i ==> IsSpace(s[k])
  {
    SkipSpace(s, 0)
  }

  /** Where `s.strip()` ends. */
  function StripEnd(s: string): (j: nat)
    ensures StripStart(s) <= j <= |s|
    ensures forall k :: j <= k < |s| ==> IsSpace(s[k])
  {
    SkipSpaceBack(s, StripStart(s), |s|)
  }

  /**
   * `s.strip()`: the middle of `s` between two runs of whitespace. Everything
   * before `StripStart(s)` and from `StripEnd(s)` on is whitespace.
   */
  function Strip(s: string): (r: string)
    ensures r == s[StripStart(s)..StripEnd(s)]
    ensures r == [] || (!IsSpace(r[0]) && !IsSpace(r[|r| - 1]))
  {
    s[StripStart(s)..StripEnd(s)]
  }

  /** Stripping text that has no whitespace at either end leaves it alone. */
  lemma StripNoEdgeSpace(s: string)
    requires s == [] || (!IsSpace(s[0]) && !IsSpace(s[|s| - 1]))
    ensures Strip(s) == s
  {
  }

  /** Stripping only removes characters: whatever it returns was in its input. */
  lemma StripKeeps(s: string)
    ensures forall c :: c in Strip(s) ==> c in s
  {
    var r := Strip(s);
    var i := StripStart(s);
    forall c | c in r ensures c in s {
      var k :| 0 <= k < |r| && r[k] == c;
      assert s[i + k] == c;
    }
  }

  /** `str.strip` is idempotent. */
  lemma StripIdempotent(s: string)
    ensures Strip(Strip(s)) == Strip(s)
  {
    StripNoEdgeSpace(Strip(s));
  }

  predicate StartsWith(s: string, prefix: string)
  {
    |prefix| <= |s| && s[..|prefix|] == prefix
  }

  predicate EndsWith(s: string, suffix: string)
  {
    |suffix| <= |s| && s[|s| - |suffix|..] == suffix
  }

  predicate OccursAt(s: string, sub: string, i: int)
  {
    0 <= i && i + |sub| <= |s| && s[i..i + |sub|] == sub
  }

  /** The first occurrence of `sub` in `s` at or after `from`. */
  function IndexOfFrom(s: string, sub: string, from: nat): (r: Option<nat>)
    requires from <= |s|
    ensures r.Some? ==> from <= r.value && OccursAt(s, sub, r.value)
    ensures r.Some? ==> forall k :: from <= k < r.value ==> !OccursAt(s, sub, k)
    ensures r.None? ==> forall k :: from <= k ==> !OccursAt(s, sub, k)
    decreases |s| - from
  {
    if from + |sub| > |s| then None
    else if s[from..from + |sub|] == sub then Some(from)
    else if from == |s| then None
    else IndexOfFrom(s, sub, from + 1)
  }

  /** `s.find(sub)`, as an option. */
  function IndexOf(s: string, sub: string): Option<nat>
  {
    IndexOfFrom(s, sub, 0)
  }

  /** `sub in s` for strings. */
  predicate Contains(s: string, sub: string)
  {
    IndexOf(s, sub).Some?
  }

  lemma ContainsIff(s: string, sub: string)
    ensures Contains(s, sub) <==> exists k :: OccursAt(s, sub, k)
  {
  }

  /** An occurrence inside a prefix is an occurrence in the whole string. */
  lemma OccursInPrefix(s: string, sub: string, p: nat, k: int)
    requires p <= |s| && OccursAt(s[..p], sub, k)
    ensures OccursAt(s, sub, k) && k + |sub| <= p
  {
    assert s[..p][k..k + |sub|] == s[k..k + |sub|];
  }

  /** Nothing before the first occurrence of a non-empty `sub` contains `sub`. */
  lemma NoneBeforeFirst(s: string, sub: string, i: nat)
    requires sub != [] && IndexOf(s, sub) == Some(i)
    ensures !Contains(s[..i], sub)
  {
    if Contains(s[..i], sub) {
      OccursInPrefix(s, sub, i, IndexOf(s[..i], sub).value);
    }
  }

  /** `s.split(sep, 1)` when `sep` occurs in `s`: the text before and after its first occurrence. */
  function SplitOnce(s: string, sep: string): (r: Option<(string, string)>)
    ensures r.None? <==> !Contains(s, sep)
    ensures r.Some? ==> r.value.0 + sep + r.value.1 == s
    ensures r.Some? && sep != [] ==> !Contains(r.value.0, sep)
  {
    match IndexOf(s, sep)
    case None => None
    case Some(i) =>
      assert s == s[..i] + sep + s[i + |sep|..];
      if sep != [] then NoneBeforeFirst(s, sep, i); Some((s[..i], s[i + |sep|..]))
      else Some((s[..i], s[i + |sep|..]))
  }

  /** The position of the first `c` in `s`. */
  function CharIndex(s: string, c: char): (i: nat)
    requires c in s
    ensures i < |s| && s[i] == c && c !in s[..i]
  {
    if s[0] == c then 0
    else
      var i := CharIndex(s[1..], c);
      assert s[..i + 1] == [s[0]] + s[1..][..i];
      i + 1
  }

  /** `sep.join(parts)` */
  function Join(parts: seq<string>, sep: string): string
  {
    if parts == [] then ""
    else if |parts| == 1 then parts[0]
    else parts[0] + sep + Join(parts[1..], sep)
  }

  /** `s.split(c)` for a one-character separator: the pieces between the `c`s. */
  function Split(s: string, c: char): (r: seq<string>)
    ensures |r| >= 1
  {
    if s == [] then [""]
    else
      var r := Split(s[1..], c);
      if s[0] == c then [""] + r else [[s[0]] + r[0]] + r[1..]
  }

  /** No piece holds the separator. */
  lemma {:induction false} SplitPiecesFree(s: string, c: char)
    ensures forall k :: 0 <= k < |Split(s, c)| ==> c !in Split(s, c)[k]
  {
    if s != [] {
      SplitPiecesFree(s[1..], c);
    }
  }

  /** A string without the separator is a single piece. */
  lemma {:induction false} SplitWhole(s: string, c: char)
    requires c !in s
    ensures Split(s, c) == [s]
  {
    if s != [] {
      SplitWhole(s[1..], c);
      assert s == [s[0]] + s[1..];
    }
  }

  /** Prefixing a character to a string that does not start a new piece extends its first piece. */
  lemma GlueFirst(x: char, p: seq<string>, q: seq<string>)
    requires |p| >= 1
    ensures [[x] + (p + q)[0]] + (p + q)[1..] == ([[x] + p[0]] + p[1..]) + q
  {
    assert (p + q)[0] == p[0];
    assert (p + q)[1..] == p[1..] + q;
  }

  /** Splitting around a separator splits each side. */
  lemma {:induction false} SplitAround(a: string, b: string, c: char)
    ensures Split(a + [c] + b, c) == Split(a, c) + Split(b, c)
  {
    var s := a + [c] + b;
    var q := Split(b, c);
    if a == [] {
      assert s[0] == c && s[1..] == b;
      assert Split(s, c) == [""] + q;
    } else {
      assert s[0] == a[0] && s[1..] == a[1..] + [c] + b;
      var p := Split(a[1..], c);
      var r := Split(s[1..], c);
      SplitAround(a[1..], b, c);
      assert r == p + q;
      if a[0] == c {
        assert Split(s, c) == [""] + r;
        assert Split(a, c) == [""] + p;
        assert [""] + r == ([""] + p) + q;
      } else {
        assert Split(s, c) == [[a[0]] + r[0]] + r[1..];
        assert Split(a, c) == [[a[0]] + p[0]] + p[1..];
        GlueFirst(a[0], p, q);
      }
    }
  }

  /** The first `c` of `s` ends its first piece. */
  lemma SplitAt(s: string, c: char, i: nat)
    requires i < |s| && s[i] == c && c !in s[..i]
    ensures Split(s, c) == [s[..i]] + Split(s[i + 1..], c)
  {
    assert s == s[..i] + [c] + s[i + 1..];
    SplitAround(s[..i], s[i + 1..], c);
    SplitWhole(s[..i], c);
  }

  /** Joining the pieces with the separator gives back the string. */
  lemma {:induction false} SplitJoin(s: string, c: char)
    ensures Join(Split(s, c), [c]) == s
  {
    if s != [] {
      var r := Split(s[1..], c);
      SplitJoin(s[1..], c);
      if s[0] == c {
        assert ([""] + r)[1..] == r;
      } else if |r| > 1 {
        assert ([[s[0]] + r[0]] + r[1..])[1..] == r[1..];
      }
      assert s == [s[0]] + s[1..];
    }
  }

  /** `s.lower()` for the ASCII letters. */
  function LowerAscii(s: string): (r: string)
    ensures |r| == |s|
    ensures forall k :: 0 <= k < |s| ==> (r[k] == s[k] <==> !('A' <= s[k] <= 'Z'))
  {
    if s == [] then ""
    else
      var c := s[0];
      [if 'A' <= c <= 'Z' then (c as int + 32) as char else c] + LowerAscii(s[1..])
  }

  /** `s.replace(sub, '')`: every non-overlapping occurrence of `sub`, scanned from the left, removed. */
  function RemoveAll(s: string, sub: string): (r: string)
    requires sub != []
    ensures |r| <= |s|
    ensures !Contains(s, sub) ==> r == s
    decreases |s|
  {
    match IndexOf(s, sub)
    case None => s
    case Some(i) => s[..i] + RemoveAll(s[i + |sub|..], sub)
  }

  /** `text[:n] + "..." if len(text) > n else text` */
  function Truncate(s: string, n: nat): (r: string)
    ensures |s| <= n ==> r == s
    ensures |s| > n ==> |r| == n + 3 && r[..n] == s[..n] && r[n..] == "..."
  {
    if |s| > n then s[..n] + "..." else s
  }

  predicate IsDigit(c: char)
  {
    '0' <= c <= '9'
  }

  predicate AllDigits(s: string)
  {
    forall k :: 0 <= k < |s| ==> IsDigit(s[k])
  }

  function DigitChar(d: nat): (c: char)
    requires d < 10
    ensures IsDigit(c)
  {
    ('0' as int + d) as char
  }

  function DigitValue(c: char): (d: nat)
    requires IsDigit(c)
    ensures d < 10 && DigitChar(d) == c
  {
    c as int - '0' as int
  }

  /** The value of a string of decimal digits. */
  function DigitsValue(s: string): nat
    requires AllDigits(s)
  {
    if s == [] then 0 else DigitsValue(s[..|s| - 1]) * 10 + DigitValue(s[|s| - 1])
  }

  /** `str(n)` for a natural number. */
  function NatToString(n: nat): (r: string)
    ensures |r| >= 1 && AllDigits(r)
    ensures |r| > 1 ==> r[0] != '0'
  {
    if n < 10 then [DigitChar(n)] else NatToString(n / 10) + [DigitChar(n % 10)]
  }

  /** Numbers below 10 print as one digit, numbers below 100 as at most two. */
  lemma NatToStringShort(n: nat)
    ensures n < 10 ==> |NatToString(n)| == 1
    ensures n < 100 ==> |NatToString(n)| <= 2
  {
  }

  /** `str(n)` for an integer. */
  function IntToString(n: int): (r: string)
    ensures |r| >= 1
    ensures n < 0 <==> r[0] == '-'
  {
    if n < 0 then "-" + NatToString(-n) else NatToString(n)
  }

  /** `f"{n:0{width}d}"` for a natural number: padded with leading zeros to at least `width` digits. */
  function ZeroPad(n: nat, width: nat): (r: string)
    ensures |r| >= width && AllDigits(r)
    ensures |NatToString(n)| <= width ==> |r| == width
    ensures EndsWith(r, NatToString(n))
    ensures forall k :: 0 <= k < |r| - |NatToString(n)| ==> r[k] == '0'
  {
    var digits := NatToString(n);
    if |digits| >= width then digits
    else
      var zeros := seq(width - |digits|, _ => '0');
      assert (zeros + digits)[|zeros|..] == digits;
      zeros + digits
  }

  /**
   * `int(s)` for an optional sign followed by ASCII digits; `None` where
   * Python would raise ValueError.
   */
  function ParseInt(s: string): (r: Option<int>)
    ensures r.Some? ==> s != []
  {
    if s == [] then None
    else if s[0] == '-' || s[0] == '+' then
      var digits := s[1..];
      if digits != [] && AllDigits(digits) then
        var n: int := DigitsValue(digits);
        var v := if s[0] == '-' then -n else n;
        Some(v)
      else None
    else if AllDigits(s) then Some(DigitsValue(s))
    else None
  }

  lemma {:induction false} DigitsOfNat(n: nat)
    ensures DigitsValue(NatToString(n)) == n
    decreases n
  {
    if n >= 10 {
      var s := NatToString(n);
      assert s[..|s| - 1] == NatToString(n / 10);
      DigitsOfNat(n / 10);
    }
  }

  /** `int(str(n)) == n` */
  lemma IntRoundTrip(n: int)
    ensures ParseInt(IntToString(n)) == Some(n)
  {
    if n < 0 {
      DigitsOfNat(-n);
      assert IntToString(n)[1..] == NatToString(-n);
    } else {
      DigitsOfNat(n);
    }
  }

  /** Distinct numbers print differently. */
  lemma IntToStringInjective(m: int, n: int)
    requires IntToString(m) == IntToString(n)
    ensures m == n
  {
    IntRoundTrip(m);
    IntRoundTrip(n);
  }

  lemma {:induction false} LeadingZerosValue(zeros: string, digits: string)
    requires AllDigits(digits)
    requires forall k :: 0 <= k < |zeros| ==> zeros[k] == '0'
    ensures AllDigits(zeros + digits) && DigitsValue(zeros + digits) == DigitsValue(digits)
    decreases |digits|
  {
    var s := zeros + digits;
    if digits == [] {
      assert s == zeros;
      AllZerosValue(zeros);
    } else {
      assert s[..|s| - 1] == zeros + digits[..|digits| - 1];
      LeadingZerosValue(zeros, digits[..|digits| - 1]);
    }
  }

  lemma {:induction false} AllZerosValue(zeros: string)
    requires forall k :: 0 <= k < |zeros| ==> zeros[k] == '0'
    ensures AllDigits(zeros) && DigitsValue(zeros) == 0
  {
    if zeros != [] {
      AllZerosValue(zeros[..|zeros| - 1]);
    }
  }

  /** Zero padding keeps the number's value. */
  lemma ZeroPadValue(n: nat, width: nat)
    ensures DigitsValue(ZeroPad(n, width)) == n
  {
    var r := ZeroPad(n, width);
    var d := NatToString(n);
    assert r == r[..|r| - |d|] + d;
    LeadingZerosValue(r[..|r| - |d|], d);
    DigitsOfNat(n);
  }
}
