/** The handful of Python `str` and `int` operations the translator relies on:
    `strip()`, `split(sep)` for a one-character separator, the prefix before
    the first `"//"`, `str(n)` for integers and `int(s)` for decimal text.
    Each is defined once here and characterised by its contract. */
module Strings {

  import opened Base

  /** Characters for which Python's `str.isspace()` holds; `str.strip()`
      with no argument removes exactly these from both ends. */
  predicate IsSpace(c: char) {
    || c == ' '
    || ('\t' <= c <= '\r')
    || ('\U{1c}' <= c <= '\U{1f}')
    || c == '\U{85}'
    || c == '\U{a0}'
    || c == '\U{1680}'
    || ('\U{2000}' <= c <= '\U{200a}')
    || c == '\U{2028}'
    || c == '\U{2029}'
    || c == '\U{202f}'
    || c == '\U{205f}'
    || c == '\U{3000}'
  }

  /** The ASCII information separators `\x1c`..`\x1f`.  `str.isspace()`
      holds of them, but `int()` does not skip them: it reads ASCII text as
      it is and skips only space and `\t`..`\r` around the number. */
  predicate IsSeparator(c: char) {
    '\U{1c}' <= c <= '\U{1f}'
  }

  /** Some character of `s` is a separator. */
  predicate HoldsSeparator(s: string) {
    |s| > 0 && (IsSeparator(s[0]) || HoldsSeparator(s[1..]))
  }

  /** A string holds a separator exactly when one of its characters is one. */
  lemma {:induction false} HoldsSeparatorAt(s: string)
    ensures HoldsSeparator(s) <==> exists k :: 0 <= k < |s| && IsSeparator(s[k])
  {
    if |s| > 0 {
      HoldsSeparatorAt(s[1..]);
      if exists k :: 0 <= k < |s[1..]| && IsSeparator(s[1..][k]) {
        var k :| 0 <= k < |s[1..]| && IsSeparator(s[1..][k]);
        assert IsSeparator(s[k + 1]);
      }
      if exists k :: 0 <= k < |s| && IsSeparator(s[k]) {
        var k :| 0 <= k < |s| && IsSeparator(s[k]);
        if k > 0 {
          assert IsSeparator(s[1..][k - 1]);
        }
      }
    }
  }

  predicate IsDigit(c: char) {
    '0' <= c <= '9'
  }

  /** `r` occurs in `s` at position `i`, and everything around it is white space. */
  ghost predicate PaddedBySpace(s: string, r: string, i: int) {
    && 0 <= i <= i + |r| <= |s|
    && r == s[i..i + |r|]
    && (forall k :: 0 <= k < i ==> IsSpace(s[k]))
    && (forall k :: i + |r| <= k < |s| ==> IsSpace(s[k]))
  }

  /** `s.lstrip()` */
  function StripLeft(s: string): (r: string)
    ensures PaddedBySpace(s, r, |s| - |r|)
    ensures r == [] || !IsSpace(r[0])
  {
    if |s| > 0 && IsSpace(s[0]) then StripLeft(s[1..]) else s
  }

  /** `s.rstrip()` */
  function StripRight(s: string): (r: string)
    ensures PaddedBySpace(s, r, 0)
    ensures r == [] || !IsSpace(r[|r| - 1])
  {
    if |s| > 0 && IsSpace(s[|s| - 1]) then StripRight(s[..|s| - 1]) else s
  }

  /** `s.strip()`: the result is the infix of `s` left after removing white
      space from both ends; it neither starts nor ends with white space. */
  function Strip(s: string): (r: string)
    ensures exists i :: PaddedBySpace(s, r, i)
    ensures r == [] || (!IsSpace(r[0]) && !IsSpace(r[|r| - 1]))
  {
    StripBothEnds(s);
    StripRight(StripLeft(s))
  }

  /** Stripping the left end, then the right end, leaves padded text that
      starts and ends with something other than white space. */
  lemma StripBothEnds(s: string)
    ensures var r := StripRight(StripLeft(s));
      && PaddedBySpace(s, r, |s| - |StripLeft(s)|)
      && (r == [] || (!IsSpace(r[0]) && !IsSpace(r[|r| - 1])))
  {
    var left := StripLeft(s);
    var r := StripRight(left);
    PaddedInside(s, left, r, |s| - |left|, 0);
    if r != [] {
      assert r[0] == left[0];
    }
  }

  /** Padding inside padding is padding. */
  lemma PaddedInside(s: string, mid: string, r: string, i: int, j: int)
    requires PaddedBySpace(s, mid, i)
    requires PaddedBySpace(mid, r, j)
    ensures PaddedBySpace(s, r, i + j)
  {
    forall k | 0 <= k < i + j
      ensures IsSpace(s[k])
    {
      if k >= i {
        assert s[k] == mid[k - i];
      }
    }
    forall k | i + j + |r| <= k < |s|
      ensures IsSpace(s[k])
    {
      if k < i + |mid| {
        assert s[k] == mid[k - i];
      }
    }
    forall k | 0 <= k < |r|
      ensures r[k] == s[i + j + k]
    {
      assert r[k] == mid[j + k];
    }
  }

  /** Stripping text that already has no white space at either end changes nothing. */
  lemma StripUnpadded(s: string)
    requires s == [] || (!IsSpace(s[0]) && !IsSpace(s[|s| - 1]))
    ensures Strip(s) == s
  {
  }

  /** `"//"` starts at position `k` of `s`. */
  predicate SlashesAt(s: string, k: int) {
    0 <= k && k + 1 < |s| && s[k] == '/' && s[k + 1] == '/'
  }

  /** `s.split('//')[0]`: the longest prefix of `s` in which no `"//"` starts;
      either it is all of `s` or a `"//"` follows it. */
  function BeforeComment(s: string): (r: string)
    ensures r <= s
    ensures forall k :: 0 <= k < |r| ==> !SlashesAt(s, k)
    ensures r == s || SlashesAt(s, |r|)
  {
    if |s| < 2 then s
    else if SlashesAt(s, 0) then []
    else
      var rest := BeforeComment(s[1..]);
      assert forall k :: 1 <= k < |rest| + 1 ==> SlashesAt(s, k) == SlashesAt(s[1..], k - 1);
      [s[0]] + rest
  }

  /** `sep.join(parts)`; Python's `split` never returns an empty list, so
      neither is joined here. */
  function Join(parts: seq<string>, sep: char): string
    requires |parts| >= 1
  {
    if |parts| == 1 then parts[0] else parts[0] + [sep] + Join(parts[1..], sep)
  }

  /** `s.split(sep)` for a one-character `sep`: cuts `s` at every occurrence
      of `sep`, keeping empty pieces.  The pieces never contain `sep` and
      joining them back with `sep` gives `s`. */
  function Split(s: string, sep: char): (r: seq<string>)
    ensures |r| >= 1
    ensures forall k :: 0 <= k < |r| ==> sep !in r[k]
    ensures Join(r, sep) == s
  {
    if |s| == 0 then [""]
    else
      var rest := Split(s[1..], sep);
      if s[0] == sep then
        [""] + rest
      else
        assert [s[0]] + rest[0] + Join(rest, sep)[|rest[0]|..] == s by {
          JoinFirst(rest, sep);
        }
        JoinFirst([[s[0]] + rest[0]] + rest[1..], sep);
        [[s[0]] + rest[0]] + rest[1..]
  }

  /** The first piece of a join is a prefix of it, followed by the separator
      when there are more pieces. */
  lemma JoinFirst(parts: seq<string>, sep: char)
    requires |parts| >= 1
    ensures parts[0] <= Join(parts, sep)
    ensures |parts| == 1 ==> Join(parts, sep) == parts[0]
    ensures |parts| > 1 ==> Join(parts, sep) == parts[0] + [sep] + Join(parts[1..], sep)
  {
  }

  /** Splitting undoes joining: any non-empty list of pieces free of the
      separator comes back unchanged from `split`. */
  lemma {:induction false} SplitJoin(parts: seq<string>, sep: char)
    requires |parts| >= 1
    requires forall k :: 0 <= k < |parts| ==> sep !in parts[k]
    ensures Split(Join(parts, sep), sep) == parts
    decreases |parts|, |parts[0]|
  {
    var s := Join(parts, sep);
    if |parts[0]| == 0 {
      if |parts| == 1 {
        assert s == "";
      } else {
        assert s == [sep] + Join(parts[1..], sep);
        assert s[1..] == Join(parts[1..], sep);
        SplitJoin(parts[1..], sep);
        assert Split(s, sep) == [""] + parts[1..];
      }
    } else {
      var tail := [parts[0][1..]] + parts[1..];
      assert parts[0][0] != sep by { assert parts[0][0] in parts[0]; }
      assert Join(tail, sep) == s[1..] by {
        if |parts| == 1 {
        } else {
          assert Join(tail, sep) == parts[0][1..] + [sep] + Join(parts[1..], sep);
        }
      }
      assert forall k :: 0 <= k < |tail| ==> sep !in tail[k] by {
        forall k | 0 <= k < |tail| ensures sep !in tail[k] {
          if k == 0 {
            assert forall c :: c in parts[0][1..] ==> c in parts[0];
          } else {
            assert tail[k] == parts[k];
          }
        }
      }
      SplitJoin(tail, sep);
      assert s[0] == parts[0][0];
      assert Split(s, sep) == [[s[0]] + tail[0]] + tail[1..];
      assert [s[0]] + tail[0] == parts[0];
    }
  }

  /** The character of a decimal digit value. */
  function DigitChar(d: nat): (c: char)
    requires d < 10
    ensures IsDigit(c)
  {
    ('0' as int + d) as char
  }

  function DigitValue(c: char): nat
    requires IsDigit(c)
  {
    (c as int) - ('0' as int)
  }

  /** `str(n)` for a natural number: its decimal digits, most significant first. */
  function NatToString(n: nat): (r: string)
    ensures |r| >= 1
    ensures forall k :: 0 <= k < |r| ==> IsDigit(r[k])
  {
    if n < 10 then [DigitChar(n)] else NatToString(n / 10) + [DigitChar(n % 10)]
  }

  /** `str(n)` for any integer: a minus sign in front of negative numbers. */
  function IntToString(n: int): (r: string)
    ensures |r| >= 1
    ensures r[0] == '-' <==> n < 0
    ensures n >= 0 ==> forall k :: 0 <= k < |r| ==> IsDigit(r[k])
  {
    if n < 0 then "-" + NatToString(-n) else NatToString(n)
  }

  /** CPython's default limit on decimal digits, `sys.get_int_max_str_digits()`
      (since 3.11 and the matching security releases of 3.7 to 3.10):
      `int(s)` and `str(n)` raise ValueError beyond it.  Leading zeros count
      as digits; underscores and the sign do not. */
  const MaxStrDigits := 4300

  /** `str(n)` stays within the digit limit. */
  predicate FitsStrDigits(n: int) {
    |NatToString(if n < 0 then -n else n)| <= MaxStrDigits
  }

  /** The number a string of decimal digits denotes. */
  function DigitsValue(ds: string): nat
    requires forall k :: 0 <= k < |ds| ==> IsDigit(ds[k])
  {
    if |ds| == 0 then 0 else DigitsValue(ds[..|ds| - 1]) * 10 + DigitValue(ds[|ds| - 1])
  }

  /** Reading back the decimal digits of `n` gives `n`. */
  lemma {:induction false} DigitsValueOfNatToString(n: nat)
    ensures DigitsValue(NatToString(n)) == n
  {
    var s := NatToString(n);
    if n >= 10 {
      DigitsValueOfNatToString(n / 10);
      assert s[..|s| - 1] == NatToString(n / 10);
    }
  }

  /** Digits with single underscores between them, the only form of a
      decimal integer body that Python's `int()` accepts. */
  predicate IsDigitGroups(b: string) {
    && |b| >= 1
    && IsDigit(b[0])
    && IsDigit(b[|b| - 1])
    && (forall k :: 0 <= k < |b| ==> IsDigit(b[k]) || b[k] == '_')
    && (forall k :: 0 <= k < |b| - 1 ==> !(b[k] == '_' && b[k + 1] == '_'))
  }

  function DropUnderscores(b: string): (r: string)
    ensures forall k :: 0 <= k < |r| ==> r[k] != '_'
    ensures (forall k :: 0 <= k < |b| ==> b[k] != '_') ==> r == b
  {
    if |b| == 0 then []
    else if b[0] == '_' then DropUnderscores(b[1..])
    else [b[0]] + DropUnderscores(b[1..])
  }

  lemma DropUnderscoresDigits(b: string)
    requires forall k :: 0 <= k < |b| ==> IsDigit(b[k]) || b[k] == '_'
    ensures forall k :: 0 <= k < |DropUnderscores(b)| ==> IsDigit(DropUnderscores(b)[k])
  {
  }

  function Sign(c: char): int {
    if c == '-' then -1 else 1
  }

  /** `int(s)` on decimal text: surrounding white space is ignored, one
      optional sign is allowed, and the body must be digit groups of at most
      `MaxStrDigits` digits; any other text is a ValueError, reported as
      `None`.  A separator is neither
      skipped as white space nor part of a number, so one anywhere in `s`
      is a ValueError; without separators, `int()` skips exactly what
      `strip()` removes. */
  function ParseInt(s: string): (r: Option<int>)
    ensures r.Some? ==> |Strip(s)| >= 1
    ensures r.Some? && r.value < 0 ==> Strip(s)[0] == '-'
    ensures r.Some? ==> !HoldsSeparator(s)
  {
    var t := Strip(s);
    var signed := |t| >= 1 && (t[0] == '+' || t[0] == '-');
    var body := if signed then t[1..] else t;
    if HoldsSeparator(s) then
      None
    else if IsDigitGroups(body) && |DropUnderscores(body)| <= MaxStrDigits then
      DropUnderscoresDigits(body);
      Some((if signed then Sign(t[0]) else 1) * DigitsValue(DropUnderscores(body)))
    else
      None
  }

  /** `int(str(n)) == n`: the decimal text of every integer within the digit
      limit parses back to it. */
  lemma ParseIntToString(n: int)
    requires FitsStrDigits(n)
    ensures ParseInt(IntToString(n)) == Some(n)
  {
    var s := IntToString(n);
    var digits := NatToString(if n < 0 then -n else n);
    StripUnpadded(s);
    assert Strip(s) == s;
    forall k | 0 <= k < |s| ensures !IsSeparator(s[k]) {
      if k > 0 || n >= 0 {
        assert IsDigit(digits[if n < 0 then k - 1 else k]);
      }
    }
    HoldsSeparatorAt(s);
    assert IsDigitGroups(digits);
    assert DropUnderscores(digits) == digits;
    DigitsValueOfNatToString(if n < 0 then -n else n);
    if n < 0 {
      assert s[1..] == digits;
      assert ParseInt(s) == Some(Sign('-') * DigitsValue(digits));
    } else {
      assert s == digits;
      assert !(s[0] == '+' || s[0] == '-');
    }
  }

  /** `int()` rejects a run of more than `MaxStrDigits` decimal digits,
      leading zeros included. */
  lemma ParseIntDigitLimit(s: string)
    requires |s| > MaxStrDigits
    requires forall k :: 0 <= k < |s| ==> IsDigit(s[k])
    ensures ParseInt(s) == None
  {
    StripUnpadded(s);
    assert !(s[0] == '+' || s[0] == '-');
    assert DropUnderscores(s) == s;
  }

  /** Distinct integers have distinct decimal texts. */
  lemma IntToStringInjective(m: int, n: int)
    ensures IntToString(m) == IntToString(n) <==> m == n
  {
    if IntToString(m) == IntToString(n) {
      var a := if m < 0 then -m else m;
      var b := if n < 0 then -n else n;
      assert NatToString(a) == NatToString(b) by {
        if m < 0 {
          assert NatToString(a) == IntToString(m)[1..];
          assert NatToString(b) == IntToString(n)[1..];
        }
      }
      DigitsValueOfNatToString(a);
      DigitsValueOfNatToString(b);
    }
  }

}
