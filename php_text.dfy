/** The PHP string operations the dialog wrapper relies on: integer casts and
    their decimal text, `ucfirst`, `explode('|', ...)` with its inverse
    `implode`, and string building by concatenation in a loop.
 */
module PhpText {

  import opened Wrappers

  /** The decimal digit character for `d`. */
  function DigitChar(d: nat): char
    requires d < 10
  {
    "0123456789"[d]
  }

  predicate IsDigit(c: char)
  {
    '0' <= c <= '9'
  }

  /** Every character is a decimal digit. */
  predicate AllDigits(s: string)
  {
    forall i :: 0 <= i < |s| ==> IsDigit(s[i])
  }

  function DigitValue(c: char): nat
    requires IsDigit(c)
  {
    (c as int - '0' as int) as nat
  }

  /** The decimal text of a natural number, most significant digit first. */
  function NatToString(n: nat): (s: string)
    ensures |s| >= 1 && AllDigits(s)
    ensures s[0] == '0' ==> n == 0
  {
    if n < 10 then [DigitChar(n)]
    else NatToString(n / 10) + [DigitChar(n % 10)]
  }

  /** PHP's conversion of an integer to a string: a leading minus for a
      negative number, then the decimal digits. */
  function IntToString(n: int): (s: string)
    ensures |s| >= 1
    ensures s[0] == '-' <==> n < 0
  {
    if n < 0 then "-" + NatToString(-n) else NatToString(n)
  }

  /** The value of a non-empty string of decimal digits. */
  function ParseNat(s: string): nat
    requires |s| >= 1 && AllDigits(s)
  {
    if |s| == 1 then DigitValue(s[0])
    else 10 * ParseNat(s[..|s| - 1]) + DigitValue(s[|s| - 1])
  }

  /** Reads back an integer written by `IntToString`; `None` on anything else. */
  function ParseInt(s: string): Option<int>
  {
    if |s| >= 1 && s[0] == '-' then
      if |s| >= 2 && AllDigits(s[1..]) then Some(-(ParseNat(s[1..]) as int)) else None
    else if |s| >= 1 && AllDigits(s) then
      Some(ParseNat(s))
    else
      None
  }

  lemma {:induction false} ParseNatToString(n: nat)
    ensures ParseNat(NatToString(n)) == n
    decreases n
  {
    if n >= 10 {
      var s := NatToString(n);
      assert s[..|s| - 1] == NatToString(n / 10);
      ParseNatToString(n / 10);
    }
  }

  /** Decimal text round-trips: the line written for a percentage reads back
      as the same integer. */
  lemma {:induction false} IntToStringRoundTrip(n: int)
    ensures ParseInt(IntToString(n)) == Some(n)
  {
    var s := IntToString(n);
    if n < 0 {
      assert s[1..] == NatToString(-n);
      ParseNatToString(-n);
    } else {
      assert IsDigit(s[0]);
      ParseNatToString(n);
    }
  }

  /** PHP's `(int)` cast of a number: truncation toward zero. */
  function TruncateToInt(x: real): (r: int)
    ensures 0.0 <= x ==> r as real <= x < r as real + 1.0
    ensures x < 0.0 ==> r as real - 1.0 < x <= r as real
  {
    if x >= 0.0 then x.Floor else -((-x).Floor)
  }

  /** PHP's `ucfirst`: an ASCII lower-case first letter becomes upper case;
      every other character is kept. */
  function Ucfirst(s: string): (r: string)
    ensures |r| == |s|
    ensures |s| > 0 ==> r[1..] == s[1..]
    ensures |s| > 0 && 'a' <= s[0] <= 'z' ==> 'A' <= r[0] <= 'Z' && r[0] as int + 32 == s[0] as int
    ensures |s| > 0 && !('a' <= s[0] <= 'z') ==> r[0] == s[0]
  {
    if |s| > 0 && 'a' <= s[0] <= 'z' then [(s[0] as int - 32) as char] + s[1..] else s
  }

  /** PHP's `implode('|', parts)`. */
  function Implode(parts: seq<string>): string
    requires |parts| >= 1
  {
    if |parts| == 1 then parts[0] else parts[0] + "|" + Implode(parts[1..])
  }

  /** PHP's `explode('|', s)`: the pieces of `s` between the `|` characters. */
  function Explode(s: string): (parts: seq<string>)
    ensures |parts| >= 1
    ensures forall i :: 0 <= i < |parts| ==> '|' !in parts[i]
    ensures Implode(parts) == s
  {
    if s == [] then [""]
    else
      var rest := Explode(s[1..]);
      if s[0] == '|' then
        assert [s[0]] + s[1..] == s;
        [""] + rest
      else
        var parts := [[s[0]] + rest[0]] + rest[1..];
        assert parts[1..] == rest[1..];
        assert Implode(parts) == [s[0]] + Implode(rest);
        parts
  }

  /** Text without `|` is a single piece. */
  lemma ExplodeNoBar(w: string)
    requires '|' !in w
    ensures Explode(w) == [w]
  {
  }

  /** Text that starts with a piece free of `|` and then a `|` splits there. */
  lemma {:induction false} ExplodeFirstPiece(w: string, tail: string)
    requires '|' !in w
    ensures Explode(w + "|" + tail) == [w] + Explode(tail)
  {
    if w == [] {
      assert (w + "|" + tail)[1..] == tail;
    } else {
      var s := w + "|" + tail;
      assert s[0] == w[0] != '|';
      assert s[1..] == w[1..] + "|" + tail;
      ExplodeFirstPiece(w[1..], tail);
      assert [w[0]] + w[1..] == w;
    }
  }

  /** `explode` inverts `implode` on pieces that hold no `|`, so a result of
      `explode` is exactly the list of selected paths. */
  lemma {:induction false} ExplodeImplode(parts: seq<string>)
    requires |parts| >= 1
    requires forall i :: 0 <= i < |parts| ==> '|' !in parts[i]
    ensures Explode(Implode(parts)) == parts
  {
    if |parts| == 1 {
      ExplodeNoBar(parts[0]);
    } else {
      ExplodeImplode(parts[1..]);
      ExplodeFirstPiece(parts[0], Implode(parts[1..]));
    }
  }

  /** The concatenation of `f(x)` over `xs`, built left to right as a PHP
      `.=` loop builds it. */
  function ConcatMap<T>(f: T -> string, xs: seq<T>): string
  {
    if xs == [] then "" else ConcatMap(f, xs[..|xs| - 1]) + f(xs[|xs| - 1])
  }

  lemma {:induction false} ConcatMapAppend<T>(f: T -> string, xs: seq<T>, ys: seq<T>)
    ensures ConcatMap(f, xs + ys) == ConcatMap(f, xs) + ConcatMap(f, ys)
    decreases |ys|
  {
    if ys == [] {
      assert xs + ys == xs;
    } else {
      var ys' := ys[..|ys| - 1];
      assert (xs + ys)[..|xs + ys| - 1] == xs + ys';
      ConcatMapAppend(f, xs, ys');
    }
  }

  /** Element `i` contributes exactly `f(xs[i])`, between the text of the
      elements before it and the text of those after it. */
  lemma {:induction false} ConcatMapAt<T>(f: T -> string, xs: seq<T>, i: nat)
    requires i < |xs|
    ensures ConcatMap(f, xs) == ConcatMap(f, xs[..i]) + f(xs[i]) + ConcatMap(f, xs[i + 1..])
  {
    assert xs == xs[..i] + [xs[i]] + xs[i + 1..];
    ConcatMapAppend(f, xs[..i] + [xs[i]], xs[i + 1..]);
    ConcatMapAppend(f, xs[..i], [xs[i]]);
    assert ConcatMap(f, [xs[i]]) == f(xs[i]) by {
      assert [xs[i]][..0] == [];
    }
  }
}
