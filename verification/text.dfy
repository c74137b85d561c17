/** String helpers shared by the URL builders and the session store:
    prefixes, substrings, and the decimal form of integers that
    `Number.prototype.toString` writes and `parseInt` reads back. */
module Text {

  import opened Wrappers

  predicate HasPrefix(s: string, prefix: string) {
    |prefix| <= |s| && s[..|prefix|] == prefix
  }

  /** `sub` occurs somewhere in `s` (JavaScript's `s.includes(sub)`). */
  ghost predicate Contains(s: string, sub: string) {
    exists i: nat :: OccursAt(s, sub, i)
  }

  /** `sub` occurs in `s` starting at position `i`. */
  predicate OccursAt(s: string, sub: string, i: nat) {
    i + |sub| <= |s| && s[i..i + |sub|] == sub
  }

  /** An occurrence in the right operand is an occurrence in the concatenation. */
  lemma ContainsInSuffix(x: string, y: string, sub: string)
    requires Contains(y, sub)
    ensures Contains(x + y, sub)
  {
    var i: nat :| OccursAt(y, sub, i);
    assert (x + y)[|x| + i..|x| + i + |sub|] == y[i..i + |sub|];
    assert OccursAt(x + y, sub, |x| + i);
  }

  /** Query parameters joined with `&`, as written in a URL query. */
  function JoinParams(params: seq<string>): string {
    if |params| == 0 then ""
    else if |params| == 1 then params[0]
    else params[0] + "&" + JoinParams(params[1..])
  }

  /** Every parameter occurs in the joined query. */
  lemma {:induction false} JoinParamsContainsEach(params: seq<string>, i: nat)
    requires i < |params|
    ensures Contains(JoinParams(params), params[i])
  {
    var q := JoinParams(params);
    if i == 0 {
      if |params| == 1 {
        assert q[0..|params[0]|] == params[0];
      } else {
        assert q == params[0] + ("&" + JoinParams(params[1..]));
        assert q[0..|params[0]|] == params[0];
      }
      assert OccursAt(q, params[0], 0);
    } else {
      JoinParamsContainsEach(params[1..], i - 1);
      assert q == (params[0] + "&") + JoinParams(params[1..]);
      ContainsInSuffix(params[0] + "&", JoinParams(params[1..]), params[i]);
    }
  }

  // ---- decimal integers ----------------------------------------------------

  predicate IsDigit(c: char) {
    '0' <= c <= '9'
  }

  predicate AllDigits(s: string) {
    forall i :: 0 <= i < |s| ==> IsDigit(s[i])
  }

  function DigitChar(d: nat): (c: char)
    requires d < 10
    ensures IsDigit(c)
  {
    (('0' as int) + d) as char
  }

  function DigitValue(c: char): (d: nat)
    requires IsDigit(c)
    ensures d < 10
  {
    (c as int) - ('0' as int)
  }

  /** The decimal digits of `n`, most significant first, without leading zeros. */
  function NatToString(n: nat): (s: string)
    ensures |s| >= 1 && AllDigits(s)
    ensures |s| > 1 ==> s[0] != '0'
    ensures n >= 1 ==> s[0] != '0'
  {
    if n < 10 then [DigitChar(n)] else NatToString(n / 10) + [DigitChar(n % 10)]
  }

  /** The value of a string of decimal digits (the empty string reads as 0). */
  function ParseNat(s: string): nat
    requires AllDigits(s)
  {
    if |s| == 0 then 0 else 10 * ParseNat(s[..|s| - 1]) + DigitValue(s[|s| - 1])
  }

  /** A digit string with a nonzero leading digit has a positive value. */
  lemma {:induction false} ParseNatPositive(s: string)
    requires |s| >= 1 && AllDigits(s) && s[0] != '0'
    ensures ParseNat(s) >= 1
  {
    if |s| > 1 {
      ParseNatPositive(s[..|s| - 1]);
    }
  }

  /** Writing back the value of a digit string without leading zeros gives that string. */
  lemma {:induction false} NatToStringParseNat(s: string)
    requires |s| >= 1 && AllDigits(s) && (|s| == 1 || s[0] != '0')
    ensures NatToString(ParseNat(s)) == s
  {
    var d := s[|s| - 1];
    assert DigitChar(DigitValue(d)) == d;
    if |s| > 1 {
      var p := s[..|s| - 1];
      ParseNatPositive(p);
      NatToStringParseNat(p);
      var n := ParseNat(s);
      assert n / 10 == ParseNat(p) && n % 10 == DigitValue(d);
      assert p + [d] == s;
    }
  }

  lemma {:induction false} ParseNatToString(n: nat)
    ensures ParseNat(NatToString(n)) == n
  {
    if n >= 10 {
      var s := NatToString(n);
      assert s[..|s| - 1] == NatToString(n / 10);
      ParseNatToString(n / 10);
    }
  }

  /** The strings `toString` writes for integers: an optional minus sign, then
      decimal digits without leading zeros, and no `-0`. */
  predicate Canonical(s: string) {
    if |s| >= 1 && s[0] == '-' then |s| >= 2 && AllDigits(s[1..]) && s[1] != '0'
    else |s| >= 1 && AllDigits(s) && (|s| == 1 || s[0] != '0')
  }

  /** `n.toString()` for an integer `n`: a minus sign before the digits of a negative value. */
  function ShowInt(n: int): (s: string)
    ensures Canonical(s)
    ensures (s[0] == '-') <==> n < 0
  {
    if n < 0 then "-" + NatToString(-n) else NatToString(n)
  }

  /** `parseInt` restricted to the strings `ShowInt` produces: an optional minus sign
      followed by at least one digit. Any other string reads as None. */
  function ParseInt(s: string): (r: Option<int>)
    ensures r.Some? <==> (|s| >= 1 && AllDigits(s)) || (|s| >= 2 && s[0] == '-' && AllDigits(s[1..]))
    ensures r.Some? && r.value < 0 ==> s[0] == '-'
  {
    if |s| >= 2 && s[0] == '-' && AllDigits(s[1..]) then Some(-(ParseNat(s[1..]) as int))
    else if |s| >= 1 && AllDigits(s) then Some(ParseNat(s))
    else None
  }

  lemma ParseShowInt(n: int)
    ensures ParseInt(ShowInt(n)) == Some(n)
  {
    if n < 0 {
      ParseNatToString(-n);
      assert ShowInt(n)[1..] == NatToString(-n);
    } else {
      ParseNatToString(n);
    }
  }

  /** The converse round trip: a canonical string reads as an integer that is
      written back as that same string. */
  lemma ShowParseInt(s: string)
    requires Canonical(s)
    ensures ParseInt(s).Some? && ShowInt(ParseInt(s).value) == s
  {
    if s[0] == '-' {
      NatToStringParseNat(s[1..]);
      ParseNatPositive(s[1..]);
      assert "-" + s[1..] == s;
    } else {
      NatToStringParseNat(s);
    }
  }
}
