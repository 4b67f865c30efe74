/**
  String helpers shared by the models of the hooks: the JavaScript string
  operations they use (`toLowerCase`, `includes`, `substring(0, n)`,
  `Array.prototype.join`) and decimal printing and reading of numbers
  (template-literal interpolation, `parseInt` on a run of digits).
  Strings are sequences of characters.
 */
module Text {

  /** ASCII lower-casing of one character; every other character is kept. */
  function LowerChar(c: char): (r: char)
    ensures !('A' <= r <= 'Z')
    ensures !('A' <= c <= 'Z') ==> r == c
  {
    if 'A' <= c <= 'Z' then (c as int + 32) as char else c
  }

  /** `s.toLowerCase()`, restricted to the ASCII letters (see README). */
  function Lower(s: string): (r: string)
    ensures |r| == |s|
    ensures forall i :: 0 <= i < |s| ==> r[i] == LowerChar(s[i])
  {
    seq(|s|, i requires 0 <= i < |s| => LowerChar(s[i]))
  }

  lemma LowerIdempotent(s: string)
    ensures Lower(Lower(s)) == Lower(s)
  {
  }

  /** `w` occurs in `s` starting at index `k`. */
  predicate OccursAt(s: string, w: string, k: int)
  {
    0 <= k && k + |w| <= |s| && s[k..k + |w|] == w
  }

  /** `s.includes(w)`: a plain substring test, computed by walking `s`. */
  function Contains(s: string, w: string): (r: bool)
    ensures r <==> exists k :: OccursAt(s, w, k)
    decreases |s|
  {
    if |w| <= |s| && s[..|w|] == w then
      assert OccursAt(s, w, 0);
      true
    else if |s| <= |w| then
      assert forall k :: !OccursAt(s, w, k);
      false
    else
      ContainsTail(s, w);
      Contains(s[1..], w)
  }

  /** Past a front position where `w` does not start, `w` occurs in `s` iff it occurs in `s[1..]`. */
  lemma ContainsTail(s: string, w: string)
    requires s != [] && !OccursAt(s, w, 0)
    ensures (exists k :: OccursAt(s, w, k)) <==> (exists k :: OccursAt(s[1..], w, k))
  {
    if k :| OccursAt(s, w, k) {
      assert s[1..][k - 1..k - 1 + |w|] == s[k..k + |w|];
      assert OccursAt(s[1..], w, k - 1);
    }
    if k :| OccursAt(s[1..], w, k) {
      assert s[k + 1..k + 1 + |w|] == s[1..][k..k + |w|];
      assert OccursAt(s, w, k + 1);
    }
  }

  /** A word whose first character does not appear in `s` does not occur in `s`. */
  lemma Absent(s: string, w: string)
    requires w != [] && forall i :: 0 <= i < |s| ==> s[i] != w[0]
    ensures !Contains(s, w)
  {
    forall k
      ensures !OccursAt(s, w, k)
    {
      if 0 <= k && k + |w| <= |s| {
        assert s[k..k + |w|][0] == s[k];
      }
    }
  }

  /** `s.substring(0, n)` for a non-negative `n`: at most the first `n` characters. */
  function Prefix(s: string, n: nat): (r: string)
    ensures |r| == (if n < |s| then n else |s|)
    ensures r <= s
  {
    if n < |s| then s[..n] else s
  }

  /** The marker appended to a shortened quote. */
  const Ellipsis: string := "..."

  /** `parts.join(sep)`. */
  function Join(parts: seq<string>, sep: string): string
  {
    if |parts| == 0 then ""
    else if |parts| == 1 then parts[0]
    else Join(parts[..|parts| - 1], sep) + sep + parts[|parts| - 1]
  }

  predicate IsDigit(c: char)
  {
    '0' <= c <= '9'
  }

  predicate AllDigits(s: string)
  {
    forall i :: 0 <= i < |s| ==> IsDigit(s[i])
  }

  function DigitChar(d: nat): (c: char)
    requires d < 10
    ensures IsDigit(c) && c as int - '0' as int == d
  {
    ('0' as int + d) as char
  }

  /** The decimal representation of a natural number, without padding (`${n}`). */
  function Digits(n: nat): (r: string)
    ensures |r| >= 1 && AllDigits(r)
    ensures r[0] != '0' || n == 0
  {
    if n < 10 then [DigitChar(n)] else Digits(n / 10) + [DigitChar(n % 10)]
  }

  /** The value of a run of decimal digits (`parseInt` on such a run). */
  function DigitsValue(s: string): nat
    requires AllDigits(s)
  {
    if s == [] then 0
    else DigitsValue(s[..|s| - 1]) * 10 + (s[|s| - 1] as int - '0' as int)
  }

  /** Reading back the decimal representation of `n` gives `n`. */
  lemma {:induction false} DigitsRoundTrip(n: nat)
    ensures DigitsValue(Digits(n)) == n
  {
    if n >= 10 {
      DigitsRoundTrip(n / 10);
      var d := Digits(n);
      assert d[..|d| - 1] == Digits(n / 10);
    }
  }

  /** `${i}` for an integer value of a JavaScript number. */
  function IntToString(i: int): (r: string)
    ensures |r| >= 1
    ensures r[0] == '-' <==> i < 0
  {
    if i < 0 then "-" + Digits(-i) else Digits(i)
  }

  /** The longest prefix of `s` made of decimal digits. */
  function DigitRun(s: string): (r: string)
    ensures r <= s && AllDigits(r)
    ensures |r| < |s| ==> !IsDigit(s[|r|])
  {
    if s != [] && IsDigit(s[0]) then [s[0]] + DigitRun(s[1..]) else []
  }

  /** The digit run of a decimal numeral followed by a non-digit is that numeral. */
  lemma {:induction false} DigitRunOfDigits(d: string, rest: string)
    requires AllDigits(d)
    requires rest == [] || !IsDigit(rest[0])
    ensures DigitRun(d + rest) == d
  {
    if d != [] {
      assert (d + rest)[1..] == d[1..] + rest;
      DigitRunOfDigits(d[1..], rest);
    } else {
      assert d + rest == rest;
    }
  }
}
