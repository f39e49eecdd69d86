/** Barcode normalisation and the mod-10 check of GS1 General Specifications, section 7.9
    (fpt/core/gtin.py). */
module Gtin {
  import opened Core

  predicate IsDigit(c: char) {
    '0' <= c <= '9'
  }

  function Value(c: char): (v: nat)
    requires IsDigit(c)
    ensures v <= 9
  {
    c as int - '0' as int
  }

  predicate AllDigits(s: string) {
    forall i :: 0 <= i < |s| ==> IsDigit(s[i])
  }

  type Weight = w: nat | w == 1 || w == 3 witness 1

  /** The digit sum with weights 1 and 3 alternating from the right, `w` on the rightmost. */
  function Weighted(s: string, w: Weight): nat
    requires AllDigits(s)
  {
    if s == [] then 0 else Value(s[|s| - 1]) * w + Weighted(s[..|s| - 1], 4 - w)
  }

  // ---------------------------------------------------------------- the check digit

  /** The check at any length: the last digit brings the weighted body to a multiple of 10. */
  predicate CheckDigitOk(s: string)
    requires AllDigits(s) && s != []
  {
    (10 - Weighted(s[..|s| - 1], 3) % 10) % 10 == Value(s[|s| - 1])
  }

  predicate ChecksumValid(s: string) {
    |s| == 14 && AllDigits(s) && CheckDigitOk(s)
  }

  /** _gs1_checksum_valid. */
  method CheckGtin14(s: string) returns (valid: bool)
    ensures valid <==> ChecksumValid(s)
  {
    if |s| != 14 || !AllDigits(s) { return false; }
    var body := s[..|s| - 1];
    var total := 0;
    assert body[..|body|] == body;
    for i := 0 to |body|
      invariant total + Weighted(body[..|body| - i], if i % 2 == 0 then 3 else 1) == Weighted(body, 3)
    {
      var left := body[..|body| - i];
      assert left[..|left| - 1] == body[..|body| - (i + 1)];
      var weight := if i % 2 == 0 then 3 else 1;
      total := total + Value(body[|body| - 1 - i]) * weight;
    }
    return (10 - total % 10) % 10 == Value(s[|s| - 1]);
  }

  /** The check digit is right exactly when the whole weighted sum is a multiple of 10. */
  lemma ValidExactly(s: string)
    requires AllDigits(s) && s != []
    ensures CheckDigitOk(s) <==> Weighted(s, 1) % 10 == 0
  {
    var body, last := Weighted(s[..|s| - 1], 3), Value(s[|s| - 1]);
    assert Weighted(s, 1) == last + body;
    Complement(body, last);
  }

  lemma Complement(total: nat, digit: nat)
    requires digit <= 9
    ensures (10 - total % 10) % 10 == digit <==> (digit + total) % 10 == 0
  {
    var q, r := total / 10, total % 10;
    assert digit + total == 10 * q + (digit + r);
  }

  /** The sum over the first k positions from the left, the even ones (from 0) counted three
      times. */
  function PositionSum(s: string, k: nat): nat
    requires AllDigits(s) && k <= |s|
  {
    if k == 0 then 0 else PositionSum(s, k - 1) + Value(s[k - 1]) * (if k % 2 == 1 then 3 else 1)
  }

  lemma {:induction false} WeightedByPosition(s: string, k: nat)
    requires AllDigits(s) && k <= |s|
    ensures Weighted(s[..k], if k % 2 == 0 then 1 else 3) == PositionSum(s, k)
  {
    if k > 0 {
      WeightedByPosition(s, k - 1);
      assert s[..k][..k - 1] == s[..k - 1];
    }
  }

  /** A code is valid if and only if it has fourteen characters from 0 to 9 that, those in the
      odd places counted three times, add up to a multiple of 10. */
  lemma ValidByPosition(s: string)
    ensures ChecksumValid(s)
       <==> |s| == 14 && (forall i :: 0 <= i < 14 ==> '0' <= s[i] <= '9') && PositionSum(s, 14) % 10 == 0
  {
    if |s| == 14 && AllDigits(s) {
      ValidExactly(s);
      WeightedByPosition(s, 14);
      assert s[..14] == s;
    }
  }

  function Zeros(n: nat): (s: string)
    ensures |s| == n && AllDigits(s)
  {
    if n == 0 then "" else "0" + Zeros(n - 1)
  }

  lemma {:induction false} ZerosWeighNothing(n: nat, w: Weight)
    ensures Weighted(Zeros(n), w) == 0
  {
    if n > 0 {
      ZerosEnd(n);
      ZerosWeighNothing(n - 1, 4 - w);
    }
  }

  lemma {:induction false} ZerosEnd(n: nat)
    requires n > 0
    ensures Zeros(n)[n - 1] == '0' && Zeros(n)[..n - 1] == Zeros(n - 1)
  {
    if n > 1 {
      ZerosEnd(n - 1);
      assert Zeros(n)[..n - 1] == "0" + Zeros(n - 1)[..n - 2];
    }
  }

  lemma {:induction false} PadWeighs(n: nat, s: string, w: Weight)
    requires AllDigits(s)
    ensures AllDigits(Zeros(n) + s) && Weighted(Zeros(n) + s, w) == Weighted(s, w)
  {
    if s == [] {
      assert Zeros(n) + s == Zeros(n);
      ZerosWeighNothing(n, w);
    } else {
      var m := |s| - 1;
      PadWeighs(n, s[..m], 4 - w);
      assert (Zeros(n) + s)[..n + m] == Zeros(n) + s[..m];
    }
  }

  /** Zero padding on the left keeps a code valid or invalid. */
  lemma PaddingKeepsCheck(n: nat, s: string)
    requires AllDigits(s) && s != []
    ensures AllDigits(Zeros(n) + s) && (CheckDigitOk(Zeros(n) + s) <==> CheckDigitOk(s))
  {
    PadWeighs(n, s, 1);
    ValidExactly(s);
    ValidExactly(Zeros(n) + s);
  }

  // ---------------------------------------------------------------- transcription errors

  function WeightAt(s: string, w: Weight, i: nat): Weight
    requires i < |s|
  {
    if (|s| - 1 - i) % 2 == 0 then w else 4 - w
  }

  lemma {:induction false} ReplaceDigit(s: string, w: Weight, i: nat, d: char)
    requires AllDigits(s) && i < |s| && IsDigit(d)
    ensures AllDigits(s[i := d])
    ensures Weighted(s[i := d], w) == Weighted(s, w) + (Value(d) - Value(s[i])) * WeightAt(s, w, i)
  {
    var n := |s| - 1;
    if i < n {
      ReplaceDigit(s[..n], 4 - w, i, d);
      assert s[i := d][..n] == s[..n][i := d];
      assert WeightAt(s[..n], 4 - w, i) == WeightAt(s, w, i);
    } else {
      assert s[i := d][..n] == s[..n];
      assert (Value(d) - Value(s[i])) * w == Value(d) * w - Value(s[i]) * w;
    }
  }

  /** A valid code with any one digit changed is invalid. */
  lemma OneDigitChanged(s: string, i: nat, d: char)
    requires AllDigits(s) && i < |s| && IsDigit(d) && d != s[i] && CheckDigitOk(s)
    ensures AllDigits(s[i := d]) && !CheckDigitOk(s[i := d])
  {
    ReplaceDigit(s, 1, i, d);
    ValidExactly(s);
    ValidExactly(s[i := d]);
    DifferenceShows(Weighted(s, 1), Value(d) - Value(s[i]), WeightAt(s, 1, i));
  }

  /** No single-digit difference, once or three times, is a multiple of 10. */
  lemma DifferenceShows(total: nat, delta: int, w: Weight)
    requires total % 10 == 0 && -9 <= delta <= 9 && delta != 0 && total + delta * w >= 0
    ensures (total + delta * w) % 10 != 0
  {
    var q := total / 10;
    assert total == 10 * q;
    if (total + delta * w) % 10 == 0 {
      var r := (total + delta * w) / 10;
      assert total + delta * w == 10 * r;
      NoMultiple(delta, w, r - q);
      assert false;
    }
  }

  lemma NoMultiple(delta: int, w: Weight, n: int)
    requires -9 <= delta <= 9 && delta != 0
    ensures delta * w != 10 * n
  {
    if w == 1 {
      assert delta * w == delta;
    } else {
      assert delta * w == 3 * delta;
    }
  }

  function Swapped(s: string, i: nat): string
    requires i + 1 < |s|
  {
    s[i := s[i + 1]][i + 1 := s[i]]
  }

  /** Swapping two different neighbours of a valid code goes unnoticed exactly when they
      differ by 5. */
  lemma NeighboursSwapped(s: string, i: nat)
    requires AllDigits(s) && i + 1 < |s| && s[i] != s[i + 1] && CheckDigitOk(s)
    ensures AllDigits(Swapped(s, i))
    ensures CheckDigitOk(Swapped(s, i)) <==> Value(s[i]) - Value(s[i + 1]) == 5 || Value(s[i + 1]) - Value(s[i]) == 5
  {
    hide Weighted, CheckDigitOk;
    var first := s[i := s[i + 1]];
    ReplaceDigit(s, 1, i, s[i + 1]);
    ReplaceDigit(first, 1, i + 1, s[i]);
    ValidExactly(s);
    ValidExactly(Swapped(s, i));
    SwapShows(Weighted(s, 1), Weighted(Swapped(s, i), 1), Value(s[i]), Value(s[i + 1]), WeightAt(s, 1, i));
  }

  lemma SwapShows(total: nat, after: nat, a: nat, b: nat, w: Weight)
    requires total % 10 == 0 && a <= 9 && b <= 9 && a != b
    requires after == total + (b - a) * w + (a - b) * (4 - w)
    ensures after % 10 == 0 <==> a - b == 5 || b - a == 5
  {
    if w == 1 {
      assert after == total + 2 * (a - b);
    } else {
      assert after == total + 2 * (b - a);
    }
  }

  // ---------------------------------------------------------------- normalisation

  /** "".join of all digit runs. */
  function DigitsOf(raw: string): (r: string)
    ensures AllDigits(r)
  {
    if raw == [] then [] else (if IsDigit(raw[0]) then [raw[0]] else []) + DigitsOf(raw[1..])
  }

  lemma {:induction false} DigitsOfDigits(s: string)
    requires AllDigits(s)
    ensures DigitsOf(s) == s
  {
    if s != [] { DigitsOfDigits(s[1..]); }
  }

  function DigitIn(c: char): string {
    if '0' <= c <= '9' then [c] else []
  }

  lemma DigitsCons(c: char, s: string)
    ensures DigitsOf([c] + s) == DigitIn(c) + DigitsOf(s)
  {
    assert ([c] + s)[1..] == s;
  }

  lemma {:induction false} DigitsConcat(a: string, b: string)
    ensures DigitsOf(a + b) == DigitsOf(a) + DigitsOf(b)
  {
    if a == [] {
      assert a + b == b;
    } else {
      hide DigitsOf, DigitIn;
      DigitsConcat(a[1..], b);
      DigitsCons(a[0], a[1..]);
      DigitsCons(a[0], a[1..] + b);
      assert [a[0]] + a[1..] == a && [a[0]] + (a[1..] + b) == a + b;
    }
  }

  lemma OneCharacter(c: char)
    ensures DigitsOf([c]) == DigitIn(c)
  {
    assert [c][1..] == [];
  }

  /** Whatever is no digit is skipped. */
  lemma OthersSkipped(a: string, c: char, b: string)
    requires !('0' <= c <= '9')
    ensures DigitsOf(a + [c] + b) == DigitsOf(a + b)
  {
    hide DigitsOf;
    OneCharacter(c);
    DigitsConcat(a + [c], b);
    DigitsConcat(a, [c]);
    DigitsConcat(a, b);
  }

  /** A digit is kept in its place. */
  lemma DigitsKept(a: string, c: char, b: string)
    requires '0' <= c <= '9'
    ensures DigitsOf(a + [c] + b) == DigitsOf(a) + [c] + DigitsOf(b)
  {
    hide DigitsOf;
    OneCharacter(c);
    DigitsConcat(a + [c], b);
    DigitsConcat(a, [c]);
  }

  predicate PlausibleLength(n: nat) {
    n == 8 || n == 12 || n == 13 || n == 14
  }

  function Checked(code: string): Option<string> {
    if ChecksumValid(code) then Some(code) else None
  }

  function NormalizeGtin(raw: string): Option<string> {
    var digits := DigitsOf(raw);
    if PlausibleLength(|digits|) then Checked(Zeros(14 - |digits|) + digits) else None
  }

  /** A string normalises exactly when its own digits, unpadded, pass the check; its value is
      those digits padded. */
  lemma NormalizesExactly(raw: string)
    ensures var d := DigitsOf(raw);
            && (NormalizeGtin(raw).Some? <==> (|d| == 8 || |d| == 12 || |d| == 13 || |d| == 14) && CheckDigitOk(d))
            && (NormalizeGtin(raw).Some? ==>
                NormalizeGtin(raw).value == Zeros(14 - |d|) + d && |NormalizeGtin(raw).value| == 14)
  {
    var d := DigitsOf(raw);
    if PlausibleLength(|d|) { PaddingKeepsCheck(14 - |d|, d); }
  }

  /** Normalising a normalised code changes nothing. */
  lemma NormalizeTwice(raw: string)
    requires NormalizeGtin(raw).Some?
    ensures NormalizeGtin(NormalizeGtin(raw).value) == NormalizeGtin(raw)
  {
    var code := NormalizeGtin(raw).value;
    DigitsOfDigits(code);
    assert Zeros(0) + code == code;
  }

  lemma {:induction false} ZerosJoin(m: nat, n: nat)
    ensures Zeros(m) + Zeros(n) == Zeros(m + n)
  {
    if m > 0 {
      ZerosJoin(m - 1, n);
      assert Zeros(m) + Zeros(n) == "0" + (Zeros(m - 1) + Zeros(n));
    } else {
      assert Zeros(0) + Zeros(n) == Zeros(n);
    }
  }

  lemma PaddedTwice(code: string, k: nat)
    requires k + |code| <= 14
    ensures Zeros(14 - k - |code|) + (Zeros(k) + code) == Zeros(14 - |code|) + code
  {
    ZerosJoin(14 - k - |code|, k);
    assert Zeros(14 - k - |code|) + (Zeros(k) + code) == Zeros(14 - k - |code|) + Zeros(k) + code;
  }

  lemma DigitsNormalize(s: string)
    requires AllDigits(s) && PlausibleLength(|s|)
    ensures NormalizeGtin(s) == Checked(Zeros(14 - |s|) + s)
  {
    DigitsOfDigits(s);
  }

  /** The same barcode written at two plausible lengths normalises to one code. */
  lemma LengthsAgree(code: string, longer: string)
    requires AllDigits(code) && PlausibleLength(|code|) && PlausibleLength(|longer|)
    requires |longer| >= |code| && longer == Zeros(|longer| - |code|) + code
    ensures NormalizeGtin(longer) == NormalizeGtin(code)
  {
    DigitsNormalize(code);
    DigitsNormalize(longer);
    PaddedTwice(code, |longer| - |code|);
  }

  // ---------------------------------------------------------------- lists

  function NormalizeAll(values: seq<string>): seq<string> {
    if values == [] then [] else
      var n := |values| - 1;
      var before, g := NormalizeAll(values[..n]), NormalizeGtin(values[n]);
      if g.Some? && g.value !in before then before + [g.value] else before
  }

  /** normalize_all. */
  method NormalizeValues(values: seq<string>) returns (r: seq<string>)
    ensures r == NormalizeAll(values)
  {
    r := [];
    for i := 0 to |values|
      invariant r == NormalizeAll(values[..i])
    {
      assert values[..i + 1][..i] == values[..i];
      var normalized := NormalizeGtin(values[i]);
      if normalized.Some? && normalized.value !in r {
        r := r + [normalized.value];
      }
    }
    assert values[..|values|] == values;
  }

  /** g is first found at value i. */
  predicate FirstFound(values: seq<string>, g: string, i: nat) {
    i < |values| && NormalizeGtin(values[i]) == Some(g) && forall j :: 0 <= j < i ==>
        NormalizeGtin(values[j]) != Some(g)
  }

  lemma FoundEarlier(values: seq<string>, n: nat, g: string, i: nat)
    requires n <= |values| && FirstFound(values[..n], g, i)
    ensures FirstFound(values, g, i)
  {
    assert forall j :: 0 <= j <= i ==> values[..n][j] == values[j];
  }

  lemma FoundLast(values: seq<string>, n: nat, g: string, found: seq<string>)
    requires n < |values| && NormalizeGtin(values[n]) == Some(g) && g !in found
    requires forall i :: 0 <= i < |values[..n]| && NormalizeGtin(values[..n][i]).Some? ==>
               NormalizeGtin(values[..n][i]).value in found
    ensures FirstFound(values, g, n)
  {
    assert forall j :: 0 <= j < n ==> values[..n][j] == values[j];
  }

  ghost predicate EveryCodeIn(values: seq<string>, found: seq<string>) {
    forall i :: 0 <= i < |values| && NormalizeGtin(values[i]).Some? ==> NormalizeGtin(values[i]).value in found
  }

  lemma EveryCodeMore(values: seq<string>, n: nat, before: seq<string>, found: seq<string>)
    requires |values| == n + 1 && EveryCodeIn(values[..n], before) && before <= found
    requires NormalizeGtin(values[n]).Some? ==> NormalizeGtin(values[n]).value in found
    ensures EveryCodeIn(values, found)
  {
    assert forall j :: 0 <= j < n ==> values[..n][j] == values[j];
  }

  /** The list has every code found, once, in the order of first finding. */
  lemma {:induction false} FirstSeenOrder(values: seq<string>) returns (first: seq<nat>)
    ensures var r := NormalizeAll(values);
            && |first| == |r| && (forall k :: 0 <= k < |r| ==> FirstFound(values, r[k], first[k]))
            && (forall k, l :: 0 <= k < l < |r| ==> first[k] < first[l] && r[k] != r[l])
            && EveryCodeIn(values, r)
  {
    if values == [] {
      first := [];
    } else {
      var n := |values| - 1;
      first := FirstSeenOrder(values[..n]);
      var before, r, g := NormalizeAll(values[..n]), NormalizeAll(values), NormalizeGtin(values[n]);
      forall k | 0 <= k < |before| ensures FirstFound(values, before[k], first[k]) {
        FoundEarlier(values, n, before[k], first[k]);
      }
      EveryCodeMore(values, n, before, r);
      if g.Some? && g.value !in before {
        FoundLast(values, n, g.value, before);
        first := first + [n];
      }
    }
  }
}
