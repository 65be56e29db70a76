/** Text helpers that the profiler's Python code gets from the language itself:
    `str(int)`, `sep.join(parts)`, slicing-based truncation, `str.lower()` on
    ASCII names and the `in` test for substrings. */
module Text {

  predicate IsDigit(c: char) { '0' <= c <= '9' }

  predicate IsDigits(s: string) {
    forall k :: 0 <= k < |s| ==> IsDigit(s[k])
  }

  function DigitChar(d: nat): (c: char)
    requires d < 10
    ensures IsDigit(c)
  {
    ('0' as int + d) as char
  }

  function DigitValue(c: char): (d: nat)
    requires IsDigit(c)
    ensures d < 10 && DigitChar(d) == c
  {
    c as int - '0' as int
  }

  /** Decimal digits of a natural number, most significant first. */
  function NatText(n: nat): (s: string)
    ensures |s| > 0 && IsDigits(s)
    ensures |s| > 1 ==> s[0] != '0'
    ensures n < 10 <==> |s| == 1
    decreases n
  {
    if n < 10 then [DigitChar(n)] else NatText(n / 10) + [DigitChar(n % 10)]
  }

  /** Python's `str(n)` (and an f-string's `{n}`) for an integer. */
  function DecimalText(n: int): (s: string)
    ensures |s| > 0
    ensures n >= 0 ==> IsDigits(s)
    ensures n < 0 ==> s[0] == '-' && |s| > 1 && IsDigits(s[1..])
  {
    if n < 0 then "-" + NatText(-n) else NatText(n)
  }

  /** Reading decimal digits back: the inverse of `NatText`. */
  function ParseNat(s: string): nat
    requires IsDigits(s)
  {
    if s == [] then 0 else ParseNat(s[..|s| - 1]) * 10 + DigitValue(s[|s| - 1])
  }

  function ParseInt(s: string): int
    requires |s| > 0
    requires IsDigits(s) || (s[0] == '-' && IsDigits(s[1..]))
  {
    if IsDigits(s) then ParseNat(s) else -(ParseNat(s[1..]) as int)
  }

  lemma {:induction false} ParseNatText(n: nat)
    ensures ParseNat(NatText(n)) == n
  {
    if n >= 10 {
      var s := NatText(n);
      assert s[..|s| - 1] == NatText(n / 10);
      ParseNatText(n / 10);
    }
  }

  /** A minus sign before digits reads as the negated number. */
  lemma {:induction false} ParseNegative(t: string)
    requires |t| > 0 && IsDigits(t)
    ensures ParseInt("-" + t) == -(ParseNat(t) as int)
  {
    var s := "-" + t;
    assert s[1..] == t;
    assert !IsDigits(s) by { assert !IsDigit(s[0]); }
  }

  /** The integer text the summary prints is read back as the same integer. */
  lemma {:induction false} DecimalRoundTrip(n: int)
    ensures ParseInt(DecimalText(n)) == n
  {
    if n < 0 {
      ParseNegative(NatText(-n));
    }
    ParseNatText(if n < 0 then -n else n);
  }

  /** `sep.join(parts)`. */
  function Join(parts: seq<string>, sep: string): string
  {
    if |parts| == 0 then ""
    else if |parts| == 1 then parts[0]
    else Join(parts[..|parts| - 1], sep) + sep + parts[|parts| - 1]
  }

  /** The joined text begins with the first part. */
  lemma {:induction false} JoinStartsWithFirst(parts: seq<string>, sep: string)
    requires |parts| > 0
    ensures |parts[0]| <= |Join(parts, sep)|
    ensures Join(parts, sep)[..|parts[0]|] == parts[0]
  {
    if |parts| > 1 {
      var init := parts[..|parts| - 1];
      JoinStartsWithFirst(init, sep);
      assert init[0] == parts[0];
      var j := Join(parts, sep);
      assert j == Join(init, sep) + sep + parts[|parts| - 1];
      assert j[..|parts[0]|] == Join(init, sep)[..|parts[0]|];
    }
  }

  /** The joined text ends with the last part. */
  lemma {:induction false} JoinEndsWithLast(parts: seq<string>, sep: string)
    requires |parts| > 0
    ensures var j, last := Join(parts, sep), parts[|parts| - 1];
      |last| <= |j| && j[|j| - |last|..] == last
  {
  }

  /** Joining with one more part appends the separator and that part. */
  lemma {:induction false} JoinSnoc(parts: seq<string>, last: string, sep: string)
    requires |parts| > 0
    ensures Join(parts + [last], sep) == Join(parts, sep) + sep + last
  {
    assert (parts + [last])[..|parts|] == parts;
  }

  /** `s[:maxLength] + '...' if len(s) > maxLength else s`: the ellipsis comes on top
      of the kept characters, so a truncated text is `maxLength + 3` long. */
  function Truncate(s: string, maxLength: nat): (r: string)
    ensures |r| <= maxLength + 3
    ensures |s| <= maxLength ==> r == s
    ensures |s| > maxLength ==> |r| == maxLength + 3 && r[..maxLength] == s[..maxLength] && r[maxLength..] == "..."
  {
    if |s| > maxLength then s[..maxLength] + "..." else s
  }

  /** Truncating a truncated text changes nothing. */
  lemma {:induction false} TruncateIdempotent(s: string, maxLength: nat)
    ensures Truncate(Truncate(s, maxLength), maxLength) == Truncate(s, maxLength)
  {
    if |s| > maxLength {
      var r := Truncate(s, maxLength);
      assert r[..maxLength] == s[..maxLength];
    }
  }

  /** `c.lower()` for an ASCII letter; every other character is left as it is. */
  function LowerChar(c: char): char
  {
    if 'A' <= c <= 'Z' then (c as int + 32) as char else c
  }

  function Lower(s: string): (r: string)
    ensures |r| == |s|
    ensures forall k :: 0 <= k < |s| ==> r[k] == LowerChar(s[k])
  {
    seq(|s|, k requires 0 <= k < |s| => LowerChar(s[k]))
  }

  /** Python's `sub in s`. */
  predicate Contains(s: string, sub: string)
    decreases |s|
  {
    |sub| <= |s| && (s[..|sub|] == sub || Contains(s[1..], sub))
  }

  /** `Contains` holds exactly when `sub` occurs at some position of `s`. */
  lemma {:induction false} ContainsAt(s: string, sub: string)
    ensures Contains(s, sub) <==> exists i :: 0 <= i && i + |sub| <= |s| && s[i..][..|sub|] == sub
    decreases |s|
  {
    if |sub| <= |s| && s[..|sub|] != sub {
      ContainsAt(s[1..], sub);
      if Contains(s[1..], sub) {
        var i :| 0 <= i && i + |sub| <= |s| - 1 && s[1..][i..][..|sub|] == sub;
        assert s[i + 1..] == s[1..][i..];
      }
      if exists i :: 0 <= i && i + |sub| <= |s| && s[i..][..|sub|] == sub {
        var i :| 0 <= i && i + |sub| <= |s| && s[i..][..|sub|] == sub;
        assert i != 0 by { assert s[0..] == s; }
        assert s[1..][i - 1..] == s[i..];
      }
    } else if |sub| <= |s| {
      assert s[0..] == s;
    }
  }

  /** True when some character lies outside `\x00`-`\x7F` (what the regular
      expression `[^\x00-\x7F]` finds). */
  predicate HasNonAscii(s: string) {
    exists k :: 0 <= k < |s| && s[k] as int > 0x7F
  }
}
