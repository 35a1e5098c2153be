/**
  String operations the JavaScript core relies on, written out over `seq<char>`:
  ASCII case mapping (`toUpperCase` on addresses), `split` on one character,
  `replace(/c/g, t)`, decimal integers (`%d`) and `Number.prototype.toFixed`.
 */
module Text {

  // ---------------------------------------------------------------------------
  // Case mapping (addresses are ASCII hex and colons)

  function UpperChar(c: char): char {
    if 'a' <= c <= 'z' then (c as int - 32) as char else c
  }

  function LowerChar(c: char): char {
    if 'A' <= c <= 'Z' then (c as int + 32) as char else c
  }

  function Upper(s: string): (r: string)
    ensures |r| == |s|
    ensures forall i :: 0 <= i < |s| ==> r[i] == UpperChar(s[i])
  {
    if s == [] then [] else [UpperChar(s[0])] + Upper(s[1..])
  }

  function Lower(s: string): (r: string)
    ensures |r| == |s|
    ensures forall i :: 0 <= i < |s| ==> r[i] == LowerChar(s[i])
  {
    if s == [] then [] else [LowerChar(s[0])] + Lower(s[1..])
  }

  /** Upper-casing forgets the case a string was written in. */
  lemma UpperForgetsCase(s: string)
    ensures Upper(Upper(s)) == Upper(s)
    ensures Upper(Lower(s)) == Upper(s)
  {
    assert forall i :: 0 <= i < |s| ==> UpperChar(UpperChar(s[i])) == UpperChar(s[i]);
    assert forall i :: 0 <= i < |s| ==> UpperChar(LowerChar(s[i])) == UpperChar(s[i]);
  }

  // ---------------------------------------------------------------------------
  // Counting, removing and replacing one character

  function Count(s: string, c: char): nat {
    if s == [] then 0 else (if s[0] == c then 1 else 0) + Count(s[1..], c)
  }

  /** `s.replace(/c/g, "")` */
  function RemoveAll(s: string, c: char): (r: string)
    ensures c !in r
    ensures |r| == |s| - Count(s, c)
  {
    if s == [] then [] else (if s[0] == c then [] else [s[0]]) + RemoveAll(s[1..], c)
  }

  /** Upper-casing brings in no character that is not an upper-case letter. */
  lemma UpperKeepsAbsent(s: string, c: char)
    requires c !in s && !('A' <= c <= 'Z')
    ensures c !in Upper(s)
  {
    forall i | 0 <= i < |s|
      ensures Upper(s)[i] != c
    {
      assert s[i] != c;
    }
  }

  /** Removing one character brings in no other one. */
  lemma {:induction false} RemoveAllKeepsAbsent(s: string, x: char, c: char)
    requires c !in s
    ensures c !in RemoveAll(s, x)
  {
    if s != [] {
      RemoveAllKeepsAbsent(s[1..], x, c);
    }
  }

  /** Removing works piece by piece: each part loses its own occurrences and keeps the rest in order. */
  lemma {:induction false} RemoveAllConcat(a: string, b: string, c: char)
    ensures RemoveAll(a + b, c) == RemoveAll(a, c) + RemoveAll(b, c)
  {
    if a == [] {
      assert a + b == b;
    } else {
      assert (a + b)[1..] == a[1..] + b;
      RemoveAllConcat(a[1..], b, c);
    }
  }

  /** A string without the character is left as it is. */
  lemma {:induction false} RemoveAllAbsent(s: string, c: char)
    requires c !in s
    ensures RemoveAll(s, c) == s
  {
    if s != [] {
      RemoveAllAbsent(s[1..], c);
    }
  }

  /** Upper-casing works piece by piece. */
  lemma UpperConcat(a: string, b: string)
    ensures Upper(a + b) == Upper(a) + Upper(b)
  {
    assert forall i :: 0 <= i < |a + b| ==> Upper(a + b)[i] == (Upper(a) + Upper(b))[i];
  }

  /** `s.replace(/c/g, t)` */
  function ReplaceAll(s: string, c: char, t: string): string {
    if s == [] then [] else (if s[0] == c then t else [s[0]]) + ReplaceAll(s[1..], c, t)
  }

  /** Replacing works piece by piece: a prefix is rewritten exactly as it would be on its own. */
  lemma {:induction false} ReplaceAllConcat(a: string, b: string, c: char, t: string)
    ensures ReplaceAll(a + b, c, t) == ReplaceAll(a, c, t) + ReplaceAll(b, c, t)
  {
    if a != [] {
      var head := if a[0] == c then t else [a[0]];
      assert (a + b)[0] == a[0];
      assert (a + b)[1..] == a[1..] + b;
      assert ReplaceAll(a + b, c, t) == head + ReplaceAll(a[1..] + b, c, t);
      ReplaceAllConcat(a[1..], b, c, t);
      assert ReplaceAll(a, c, t) == head + ReplaceAll(a[1..], c, t);
    } else {
      assert a + b == b;
    }
  }

  /** Replacing leaves a string without the character untouched. */
  lemma {:induction false} ReplaceAllAbsent(s: string, c: char, t: string)
    requires c !in s
    ensures ReplaceAll(s, c, t) == s
  {
    if s != [] {
      ReplaceAllAbsent(s[1..], c, t);
    }
  }

  lemma ReplaceAllConcat3(a: string, b: string, d: string, c: char, t: string)
    ensures ReplaceAll(a + b + d, c, t) == ReplaceAll(a, c, t) + ReplaceAll(b, c, t) + ReplaceAll(d, c, t)
  {
    ReplaceAllConcat(a + b, d, c, t);
    ReplaceAllConcat(a, b, c, t);
  }

  /** A string with the character only at its head has the replacement there and itself after. */
  lemma ReplaceAllLeading(c: char, rest: string, t: string)
    requires c !in rest
    ensures ReplaceAll([c] + rest, c, t) == t + rest
  {
    assert ([c] + rest)[1..] == rest;
    ReplaceAllAbsent(rest, c, t);
  }

  /** When the replacement does not contain the character, none is left afterwards. */
  lemma {:induction false} ReplaceAllEliminates(s: string, c: char, t: string)
    requires c !in t
    ensures c !in ReplaceAll(s, c, t)
  {
    if s != [] {
      ReplaceAllEliminates(s[1..], c, t);
    }
  }

  /** Every occurrence is replaced: the length grows by |t| - 1 per occurrence. */
  lemma {:induction false} ReplaceAllLength(s: string, c: char, t: string)
    ensures |ReplaceAll(s, c, t)| == |s| + Count(s, c) * (|t| - 1)
  {
    if s != [] {
      ReplaceAllLength(s[1..], c, t);
    }
  }

  // ---------------------------------------------------------------------------
  // String.prototype.split with a one-character separator, and its inverse

  /** `s.split(c)`: one part more than `s` has separators, none of them holding one. */
  function Split(s: string, c: char): (parts: seq<string>)
    ensures |parts| >= 1
    ensures |parts| == 1 <==> c !in s
    ensures forall i :: 0 <= i < |parts| ==> c !in parts[i]
  {
    if s == [] then [""]
    else
      var rest := Split(s[1..], c);
      assert s == [s[0]] + s[1..];
      if s[0] == c then [""] + rest else [[s[0]] + rest[0]] + rest[1..]
  }

  function JoinWith(parts: seq<string>, c: char): string
    requires |parts| >= 1
  {
    if |parts| == 1 then parts[0] else parts[0] + [c] + JoinWith(parts[1..], c)
  }

  /** A string without the separator splits into itself alone. */
  lemma {:induction false} SplitAbsent(s: string, c: char)
    requires c !in s
    ensures Split(s, c) == [s]
  {
    if s != [] {
      SplitAbsent(s[1..], c);
      assert s == [s[0]] + s[1..];
    }
  }

  /** Splitting consumes the text up to the first separator as the first part. */
  lemma {:induction false} SplitAtFirst(p: string, q: string, c: char)
    requires c !in p
    ensures Split(p + [c] + q, c) == [p] + Split(q, c)
  {
    if p == [] {
      assert p + [c] + q == [c] + q;
      assert ([c] + q)[1..] == q;
    } else {
      assert (p + [c] + q)[1..] == p[1..] + [c] + q;
      SplitAtFirst(p[1..], q, c);
      assert [p[0]] + p[1..] == p;
    }
  }

  /** Splitting undoes joining when no part contains the separator. */
  lemma {:induction false} SplitJoin(parts: seq<string>, c: char)
    requires |parts| >= 1
    requires forall i :: 0 <= i < |parts| ==> c !in parts[i]
    ensures Split(JoinWith(parts, c), c) == parts
  {
    if |parts| == 1 {
      SplitAbsent(parts[0], c);
    } else {
      SplitJoin(parts[1..], c);
      SplitAtFirst(parts[0], JoinWith(parts[1..], c), c);
      assert [parts[0]] + parts[1..] == parts;
    }
  }

  lemma JoinWithCons(p: string, rest: seq<string>, c: char)
    requires |rest| >= 1
    ensures JoinWith([p] + rest, c) == p + [c] + JoinWith(rest, c)
  {
    assert ([p] + rest)[1..] == rest;
  }

  /** Joining six parts, written out. */
  lemma JoinWithSix(a: string, b: string, d: string, e: string, f: string, g: string, c: char)
    ensures JoinWith([a, b, d, e, f, g], c) == a + [c] + b + [c] + d + [c] + e + [c] + f + [c] + g
  {
    assert [a, b, d, e, f, g] == [a] + ([b] + ([d] + ([e] + ([f] + [g]))));
    JoinWithCons(f, [g], c);
    JoinWithCons(e, [f] + [g], c);
    JoinWithCons(d, [e] + ([f] + [g]), c);
    JoinWithCons(b, [d] + ([e] + ([f] + [g])), c);
    JoinWithCons(a, [b] + ([d] + ([e] + ([f] + [g]))), c);
  }

  /** Joining six parts and an empty seventh one: the text ends with the separator. */
  lemma JoinWithSixThenEmpty(a: string, b: string, d: string, e: string, f: string, g: string, c: char)
    ensures JoinWith([a, b, d, e, f, g, ""], c) == a + [c] + b + [c] + d + [c] + e + [c] + f + [c] + g + [c]
  {
    assert [a, b, d, e, f, g, ""] == [a, b, d, e, f, g] + [""];
    JoinWithSnoc([a, b, d, e, f, g], "", c);
    JoinWithSix(a, b, d, e, f, g, c);
  }

  /** One more part at the end adds the separator and that part. */
  lemma {:induction false} JoinWithSnoc(parts: seq<string>, q: string, c: char)
    requires |parts| >= 1
    ensures JoinWith(parts + [q], c) == JoinWith(parts, c) + [c] + q
  {
    if |parts| > 1 {
      assert (parts + [q])[1..] == parts[1..] + [q];
      JoinWithSnoc(parts[1..], q, c);
    }
  }

  /** Joining undoes splitting. */
  lemma {:induction false} JoinSplit(s: string, c: char)
    ensures JoinWith(Split(s, c), c) == s
  {
    if s != [] {
      JoinSplit(s[1..], c);
      var rest := Split(s[1..], c);
      if s[0] == c {
        assert ([""] + rest)[1..] == rest;
      } else {
        JoinPrepend(s[0], rest, c);
      }
      assert s == [s[0]] + s[1..];
    }
  }

  /** A character put in front of the first part comes out in front of the joined text. */
  lemma JoinPrepend(x: char, rest: seq<string>, c: char)
    requires |rest| >= 1
    ensures JoinWith([[x] + rest[0]] + rest[1..], c) == [x] + JoinWith(rest, c)
  {
    var parts := [[x] + rest[0]] + rest[1..];
    if |rest| > 1 {
      assert parts[1..] == rest[1..];
    }
  }

  // ---------------------------------------------------------------------------
  // Decimal digits

  predicate IsDigit(c: char) { '0' <= c <= '9' }

  predicate AllDigits(s: string) { forall i :: 0 <= i < |s| ==> IsDigit(s[i]) }

  function DigitChar(d: nat): (c: char)
    requires d < 10
    ensures IsDigit(c)
  {
    ('0' as int + d) as char
  }

  /** The number a string of decimal digits denotes. */
  function DigitsValue(s: string): nat
    requires AllDigits(s)
  {
    if s == [] then 0 else DigitsValue(s[..|s| - 1]) * 10 + (s[|s| - 1] as int - '0' as int)
  }

  function Pow10(d: nat): (p: nat)
    ensures p >= 1
  {
    if d == 0 then 1 else 10 * Pow10(d - 1)
  }

  /** A natural number in decimal, without leading zeros. */
  function NatToString(n: nat): string {
    if n < 10 then [DigitChar(n)] else NatToString(n / 10) + [DigitChar(n % 10)]
  }

  /** The last `d` decimal digits of `m`, zero padded on the left. */
  function Padded(m: nat, d: nat): string {
    if d == 0 then [] else Padded(m / 10, d - 1) + [DigitChar(m % 10)]
  }

  /** An integer as `%d` prints it: a minus sign for negative values. */
  function IntToString(n: int): string {
    if n < 0 then "-" + NatToString(-n) else NatToString(n)
  }

  /** The sign `toFixed` prints. */
  function Sign(negative: bool): string {
    if negative then "-" else ""
  }

  /**
    `toFixed(d)` of a value whose magnitude, rounded to `d` decimals, is
    `units` / 10^d: the sign, the integer part, a point and `d` digits.
   */
  function ToFixed(negative: bool, units: nat, d: nat): string {
    var p := Pow10(d);
    DivModNat(units, p);
    Sign(negative) + NatToString(units / p) + (if d == 0 then "" else "." + Padded(units % p, d))
  }

  lemma DivModNat(a: nat, p: nat)
    requires p >= 1
    ensures a / p >= 0 && a % p >= 0
  {
  }

  lemma {:induction false} NatToStringDigits(n: nat)
    ensures |NatToString(n)| >= 1
    ensures AllDigits(NatToString(n))
    ensures DigitsValue(NatToString(n)) == n
    ensures n > 0 ==> NatToString(n)[0] != '0'
  {
    if n >= 10 {
      NatToStringDigits(n / 10);
      var s := NatToString(n / 10) + [DigitChar(n % 10)];
      assert s[..|s| - 1] == NatToString(n / 10);
    }
  }

  lemma {:induction false} PaddedDigits(m: nat, d: nat)
    requires m < Pow10(d)
    ensures |Padded(m, d)| == d
    ensures AllDigits(Padded(m, d))
    ensures DigitsValue(Padded(m, d)) == m
  {
    if d > 0 {
      PaddedDigits(m / 10, d - 1);
      var s := Padded(m / 10, d - 1) + [DigitChar(m % 10)];
      assert s[..|s| - 1] == Padded(m / 10, d - 1);
    }
  }

  /**
    What `ToFixed` prints, for p = 10^d: the integer part `units` div p in
    decimal, a point and the remainder `units` mod p in exactly `d` digits.
   */
  lemma FixedParts(negative: bool, units: nat, d: nat, p: nat, q: nat, r: nat)
    requires d > 0 && p == Pow10(d) && q == units / p && r == units % p
    ensures ToFixed(negative, units, d) == Sign(negative) + NatToString(q) + "." + Padded(r, d)
  {
  }

  lemma DigitsHaveNoComma(s: string)
    requires AllDigits(s)
    ensures ',' !in s
  {
  }

  /** Text `toFixed` produces never contains a comma, so it stays one CSV field. */
  lemma FixedHasNoComma(negative: bool, units: nat, d: nat)
    ensures ',' !in ToFixed(negative, units, d)
  {
    var p := Pow10(d);
    QuotientDigits(units, p);
    DigitsHaveNoComma(NatToString(units / p));
    if d > 0 {
      DivModNat(units, p);
      FixedParts(negative, units, d, p, units / p, units % p);
      PaddedDigits(units % p, d);
      DigitsHaveNoComma(Padded(units % p, d));
    }
  }

  lemma IntToStringHasNoComma(n: int)
    ensures ',' !in IntToString(n)
  {
    NatToStringDigits(if n < 0 then -n else n);
    DigitsHaveNoComma(NatToString(if n < 0 then -n else n));
  }

  lemma QuotientDigits(units: nat, p: nat)
    requires p > 0
    ensures AllDigits(NatToString(units / p)) && DigitsValue(NatToString(units / p)) == units / p
  {
    NatToStringDigits(units / p);
  }

  /** Zero prints as "0." followed by `d` zeros. */
  lemma {:induction false} FixedZero(d: nat)
    ensures ToFixed(false, 0, d) == "0" + (if d == 0 then "" else "." + Zeros(d))
  {
    PaddedZero(d);
  }

  function Zeros(d: nat): string {
    if d == 0 then [] else Zeros(d - 1) + "0"
  }

  lemma {:induction false} PaddedZero(d: nat)
    ensures Padded(0, d) == Zeros(d)
  {
    if d > 0 {
      PaddedZero(d - 1);
    }
  }

  // ---------------------------------------------------------------------------
  // Repetition

  function Repeat(c: char, n: nat): (r: string)
    ensures |r| == n
    ensures forall i :: 0 <= i < n ==> r[i] == c
  {
    if n == 0 then [] else Repeat(c, n - 1) + [c]
  }
}
