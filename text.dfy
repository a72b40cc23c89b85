/**
 * String operations of the WMS tile source: `std::string::find` as used by
 * `replaceIn`, the replace-all loop `replaceIn` itself, the space escaping that
 * `createURI` applies to server addresses (percent-encoding of U+0020 as
 * "%20", section 2.1 of RFC 3986), and the decimal rendering that
 * `operator<<` gives the tile size inside the request prototype.
 */
module Text {
  import opened Wrappers

  /** `sub` occurs in `s` starting at index `j`. */
  predicate OccursAt(s: string, sub: string, j: nat)
  {
    j <= |s| && sub <= s[j..]
  }

  /**
   * `s.find(sub, b)`: the first index at or after `b` where `sub` occurs,
   * or None for `npos`.
   */
  function FindFrom(s: string, sub: string, b: nat): (r: Option<nat>)
    ensures r.Some? ==> b <= r.value && OccursAt(s, sub, r.value)
    ensures r.Some? ==> forall j :: b <= j < r.value ==> !OccursAt(s, sub, j)
    ensures r.None? ==> forall j :: b <= j ==> !OccursAt(s, sub, j)
    decreases |s| - b
  {
    if b + |sub| > |s| then None
    else if sub <= s[b..] then Some(b)
    else FindFrom(s, sub, b + 1)
  }

  /**
   * Reference definition of replacing every occurrence of `sub` in `t` by
   * `other`, scanning left to right and never rescanning inserted text.
   */
  function Replaced(t: string, sub: string, other: string): (r: string)
    requires sub != []
    ensures other == sub ==> r == t
    ensures |other| == |sub| ==> |r| == |t|
  {
    if t == [] then []
    else if sub <= t then
      assert sub + t[|sub|..] == t;
      other + Replaced(t[|sub|..], sub, other)
    else
      assert [t[0]] + t[1..] == t;
      [t[0]] + Replaced(t[1..], sub, other)
  }

  /** A prefix of `t` free of occurrences of `sub` passes through `Replaced` untouched. */
  lemma {:induction false} ReplacedSkip(t: string, sub: string, other: string, k: nat)
    requires sub != [] && k <= |t|
    requires forall j :: 0 <= j < k ==> !OccursAt(t, sub, j)
    ensures Replaced(t, sub, other) == t[..k] + Replaced(t[k..], sub, other)
  {
    if k > 0 {
      assert !OccursAt(t, sub, 0);
      assert t[0..] == t;
      forall j | 0 <= j < k - 1
        ensures !OccursAt(t[1..], sub, j)
      {
        assert !OccursAt(t, sub, j + 1);
        assert t[1..][j..] == t[j + 1..];
      }
      ReplacedSkip(t[1..], sub, other, k - 1);
      assert t[1..][k - 1..] == t[k..];
      assert [t[0]] + t[1..][..k - 1] == t[..k];
    }
  }

  /** Text free of `sub` is left as it is. */
  lemma ReplacedAbsent(t: string, sub: string, other: string)
    requires sub != []
    requires forall j :: 0 <= j ==> !OccursAt(t, sub, j)
    ensures Replaced(t, sub, other) == t
  {
    ReplacedSkip(t, sub, other, |t|);
    assert t[..|t|] == t;
  }

  /** The text still to be replaced, up to and including the next occurrence of `sub` at `i`. */
  lemma ReplacedUpTo(r: string, sub: string, other: string, b: nat, i: nat)
    requires sub != [] && b <= i && OccursAt(r, sub, i)
    requires forall j :: b <= j < i ==> !OccursAt(r, sub, j)
    ensures Replaced(r[b..], sub, other) == r[b..i] + other + Replaced(r[i + |sub|..], sub, other)
  {
    var rest := r[b..];
    forall j | 0 <= j < i - b
      ensures !OccursAt(rest, sub, j)
    {
      assert !OccursAt(r, sub, b + j);
      assert rest[j..] == r[b + j..];
    }
    ReplacedSkip(rest, sub, other, i - b);
    assert rest[i - b..] == r[i..];
    assert rest[..i - b] == r[b..i];
    var at := r[i..];
    assert at != [] && sub <= at;
    assert Replaced(at, sub, other) == other + Replaced(at[|sub|..], sub, other);
    assert at[|sub|..] == r[i + |sub|..];
  }

  /** One pass of the `replaceIn` loop keeps "done part + rest still to replace" fixed. */
  lemma ReplaceStep(r: string, sub: string, other: string, b: nat, i: nat)
    requires sub != [] && b <= i && OccursAt(r, sub, i)
    requires forall j :: b <= j < i ==> !OccursAt(r, sub, j)
    ensures var next := r[..i] + other + r[i + |sub|..];
      i + |other| <= |next| &&
      next[..i + |other|] + Replaced(next[i + |other|..], sub, other)
        == r[..b] + Replaced(r[b..], sub, other)
  {
    ReplacedUpTo(r, sub, other, b, i);
    var next := r[..i] + other + r[i + |sub|..];
    assert next[..i + |other|] == r[..b] + r[b..i] + other;
    assert next[i + |other|..] == r[i + |sub|..];
  }

  /** When no occurrence is left at or after `b`, the loop's string is the final result. */
  lemma ReplaceDone(r: string, sub: string, other: string, b: nat)
    requires sub != [] && b <= |r|
    requires forall j :: b <= j ==> !OccursAt(r, sub, j)
    ensures r[..b] + Replaced(r[b..], sub, other) == r
  {
    forall j | 0 <= j
      ensures !OccursAt(r[b..], sub, j)
    {
      assert !OccursAt(r, sub, b + j);
      if j <= |r| - b {
        assert r[b..][j..] == r[b + j..];
      }
    }
    ReplacedAbsent(r[b..], sub, other);
    assert r[..b] + r[b..] == r;
  }

  /**
   * `replaceIn(s, sub, other)`: the loop of the source, working on a copy of
   * `s`. `b` is where the next search starts; it moves past each inserted
   * `other`, so `|r| - b` shrinks by at least one per replacement.
   */
  method ReplaceIn(s: string, sub: string, other: string) returns (r: string)
    ensures sub == [] ==> r == s
    ensures sub != [] ==> r == Replaced(s, sub, other)
  {
    r := s;
    if sub == [] {
      return;
    }
    var b: nat := 0;
    while true
      invariant b <= |r|
      invariant r[..b] + Replaced(r[b..], sub, other) == Replaced(s, sub, other)
      decreases |r| - b
    {
      var found := FindFrom(r, sub, b);
      if found.None? {
        ReplaceDone(r, sub, other, b);
        break;
      }
      var i := found.value;
      ReplaceStep(r, sub, other, b, i);
      r := r[..i] + other + r[i + |sub|..];
      b := i + |other|;
    }
  }

  /** The escaped form of one character. */
  function EscapeChar(c: char): string
  {
    if c == ' ' then "%20" else [c]
  }

  /** Reference definition of the URI escaping: every space becomes "%20", nothing else changes. */
  function EscapeSpaces(t: string): (r: string)
    ensures ' ' !in r
    ensures |r| >= |t|
  {
    if t == [] then [] else EscapeChar(t[0]) + EscapeSpaces(t[1..])
  }

  /** The inverse of `EscapeSpaces`: each "%20" becomes a space again. */
  function UnescapeSpaces(u: string): string
  {
    if u == [] then []
    else if "%20" <= u then " " + UnescapeSpaces(u[3..])
    else [u[0]] + UnescapeSpaces(u[1..])
  }

  /** `replaceIn(s, " ", "%20")` is exactly the space escaping. */
  lemma {:induction false} ReplacedSpaces(t: string)
    ensures Replaced(t, " ", "%20") == EscapeSpaces(t)
  {
    if t != [] {
      ReplacedSpaces(t[1..]);
      if " " <= t {
        assert t[0] == ' ';
      } else {
        assert t[0] != ' ';
      }
    }
  }

  /**
   * Escaping loses nothing: on text without '%', undoing the escape gives
   * the text back, so every non-space character is kept, in order.
   */
  lemma {:induction false} EscapeRoundTrip(t: string)
    requires '%' !in t
    ensures UnescapeSpaces(EscapeSpaces(t)) == t
  {
    if t != [] {
      assert '%' !in t[1..] by {
        forall k | 0 <= k < |t[1..]| ensures t[1..][k] != '%' {
          assert t[1..][k] == t[k + 1];
        }
      }
      EscapeRoundTrip(t[1..]);
      var e := EscapeSpaces(t);
      if t[0] == ' ' {
        assert e == "%20" + EscapeSpaces(t[1..]);
        assert "%20" <= e;
        assert e[3..] == EscapeSpaces(t[1..]);
      } else {
        assert e == [t[0]] + EscapeSpaces(t[1..]);
        assert e[0] != '%';
        assert e[1..] == EscapeSpaces(t[1..]);
      }
    }
  }

  /** Text without spaces is not changed by the escaping. */
  lemma {:induction false} EscapeWithoutSpaces(t: string)
    requires ' ' !in t
    ensures EscapeSpaces(t) == t
  {
    if t != [] {
      assert t[1..] + [] == t[1..];
      assert ' ' !in t[1..] by {
        forall k | 0 <= k < |t[1..]| ensures t[1..][k] != ' ' {
          assert t[1..][k] == t[k + 1];
        }
      }
      EscapeWithoutSpaces(t[1..]);
      assert [t[0]] + t[1..] == t;
    }
  }

  /** The decimal digit for `d`. */
  function DigitChar(d: nat): char
    requires d < 10
  {
    "0123456789"[d]
  }

  /** The value of a decimal digit character. */
  function DigitValue(c: char): nat
  {
    if '0' <= c <= '9' then (c as int - '0' as int) as nat else 0
  }

  predicate IsDigits(s: string)
  {
    s != [] && forall k :: 0 <= k < |s| ==> '0' <= s[k] <= '9'
  }

  /** The decimal rendering of a natural number, most significant digit first, without leading zeros. */
  function NatToDecimal(n: nat): (r: string)
    ensures IsDigits(r)
    ensures |r| > 1 ==> r[0] != '0'
  {
    if n < 10 then [DigitChar(n)] else NatToDecimal(n / 10) + [DigitChar(n % 10)]
  }

  /** `operator<<` of an `int`: an optional minus sign and the decimal digits of its magnitude. */
  function IntToDecimal(n: int): (r: string)
    ensures r != [] && (r[0] == '-' <==> n < 0)
    ensures forall k :: 0 < k < |r| ==> '0' <= r[k] <= '9'
    ensures n >= 0 ==> IsDigits(r)
  {
    if n < 0 then ['-'] + NatToDecimal(-n) else NatToDecimal(n)
  }

  /** The value of a string of decimal digits. */
  function ParseDigits(s: string): nat
  {
    if s == [] then 0 else 10 * ParseDigits(s[..|s| - 1]) + DigitValue(s[|s| - 1])
  }

  /** The value of an optionally signed decimal string. */
  function ParseDecimal(s: string): int
  {
    if s != [] && s[0] == '-' then -(ParseDigits(s[1..]) as int) else ParseDigits(s)
  }

  lemma {:induction false} NatDecimalRoundTrip(n: nat)
    ensures ParseDigits(NatToDecimal(n)) == n
  {
    var r := NatToDecimal(n);
    if n < 10 {
      assert r[..0] == [];
    } else {
      NatDecimalRoundTrip(n / 10);
      assert r[..|r| - 1] == NatToDecimal(n / 10);
    }
  }

  /** The rendered tile size reads back as the same number, so WIDTH and HEIGHT carry it exactly. */
  lemma DecimalRoundTrip(n: int)
    ensures ParseDecimal(IntToDecimal(n)) == n
  {
    if n < 0 {
      var d := NatToDecimal(-n);
      NatDecimalRoundTrip(-n);
      assert IntToDecimal(n) == ['-'] + d;
      assert (['-'] + d)[1..] == d;
    } else {
      var d := NatToDecimal(n);
      NatDecimalRoundTrip(n);
      assert d[0] != '-';
    }
  }
}
