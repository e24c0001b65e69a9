/**
 Check digits of profile and device identifiers (core/esim/profile/profile.go).  A validated
 identifier is one whose alternately doubled digit sum is a multiple of ten; the random octets behind
 a minted identifier are a parameter.
 */
module Luhn {
  import opened Wrappers
  import opened Bytes

  predicate IsDigit(c: char) { '0' <= c <= '9' }

  predicate AllDigits(s: string) { forall i :: 0 <= i < |s| ==> IsDigit(s[i]) }

  /** What a digit adds to the sum: itself, or the digit sum of its double. */
  function Weight(c: char, double: bool): int {
    var d := c as int - '0' as int;
    if !double then d else if 2 * d > 9 then 2 * d - 9 else 2 * d
  }

  /** The sum over the digits, doubling every second one from the right. */
  function WeightedSum(s: string, double: bool): int {
    if s == [] then 0 else WeightedSum(s[..|s| - 1], !double) + Weight(s[|s| - 1], double)
  }

  function CheckDigit(data: string): int {
    if AllDigits(data) then (10 - WeightedSum(data, true) % 10) % 10 else -1
  }

  lemma {:induction false} SumIsNatural(s: string, double: bool)
    requires AllDigits(s)
    ensures WeightedSum(s, double) >= 0
  {
    if s != [] { SumIsNatural(s[..|s| - 1], !double); }
  }

  method ComputeLuhn(data: string) returns (check: int)
    ensures check == CheckDigit(data)
  {
    var sum, double, i := 0, true, |data|;
    assert data[..i] == data;
    while i > 0
      invariant 0 <= i <= |data| && AllDigits(data[i..])
      invariant WeightedSum(data, true) == WeightedSum(data[..i], double) + sum
    {
      i := i - 1;
      if !IsDigit(data[i]) {
        return -1;
      }
      var d := data[i] as int - '0' as int;
      if double {
        d := d * 2;
        if d > 9 {
          d := d - 9;
        }
      }
      assert data[..i + 1][..i] == data[..i] && data[i..] == [data[i]] + data[i + 1..];
      sum := sum + d;
      double := !double;
    }
    assert data[i..] == data && data[..i] == [];
    check := (10 - sum % 10) % 10;
  }

  /** The defining property of the code: at least two digits, with a weighted sum divisible by ten. */
  predicate Valid(s: string) {
    |s| >= 2 && AllDigits(s) && WeightedSum(s, false) % 10 == 0
  }

  /** Comparing the last digit with the check of the others decides validity. */
  method ValidLuhn(s: string) returns (ok: bool)
    ensures ok <==> Valid(s)
  {
    if |s| < 2 {
      return false;
    }
    for i := 0 to |s|
      invariant AllDigits(s[..i])
    {
      if !IsDigit(s[i]) {
        return false;
      }
    }
    assert s[..|s|] == s;
    var check := ComputeLuhn(s[..|s| - 1]);
    CheckDigitDecides(s);
    ok := check == s[|s| - 1] as int - '0' as int;
  }

  lemma CheckDigitDecides(s: string)
    requires |s| > 0 && AllDigits(s)
    ensures CheckDigit(s[..|s| - 1]) == s[|s| - 1] as int - '0' as int <==> WeightedSum(s, false) % 10 == 0
  {
    var sum, d := WeightedSum(s[..|s| - 1], true), s[|s| - 1] as int - '0' as int;
    assert AllDigits(s[..|s| - 1]);
    assert WeightedSum(s, false) == sum + d;
    CheckMakesTen(sum, d);
  }

  lemma CheckMakesTen(sum: int, d: int)
    requires 0 <= d <= 9
    ensures (10 - sum % 10) % 10 == d <==> (sum + d) % 10 == 0
  {
    var q, r := sum / 10, sum % 10;
    assert sum + d == 10 * q + (r + d);
    assert (10 * q + (r + d)) % 10 == (r + d) % 10;
  }

  function DigitChar(d: int): char
    requires 0 <= d <= 9
  {
    '0' + d as char
  }

  /** A check digit in decimal; the error value is two characters. */
  function Rendered(check: int): string
    requires -1 <= check <= 9
  {
    if check == -1 then "-1" else [DigitChar(check)]
  }

  /** Appending the check of a digit string always gives a valid one. */
  lemma AppendedCheckIsValid(data: string)
    requires AllDigits(data) && data != []
    ensures Valid(data + Rendered(CheckDigit(data)))
  {
    var s := data + Rendered(CheckDigit(data));
    assert s[..|s| - 1] == data;
    CheckDigitDecides(s);
  }

  // ---- minting ----

  function RandomDigits(random: Octets): (s: string)
    ensures |s| == |random| && AllDigits(s)
  {
    seq(|random|, i requires 0 <= i < |random| => DigitChar(random[i] % 10))
  }

  method RandDigits(random: Octets) returns (s: string)
    ensures s == RandomDigits(random)
  {
    var buf := new char[|random|](i requires 0 <= i < |random| => random[i] as char);
    for i := 0 to buf.Length
      invariant forall k ::
                  0 <= k < buf.Length ==> buf[k] == if k < i then DigitChar(random[k] % 10) else random[k] as char
    {
      buf[i] := DigitChar(buf[i] as int % 10);
    }
    s := buf[..];
  }

  /** A minted profile identifier is valid, and 20 digits long, exactly when the operator code is made of digits. */
  method NewICCID(mno: string, random: Octets) returns (r: Result<string, string>)
    requires |mno| <= 14 ==> |random| == 17 - |mno|
    ensures r.Err? <==> |mno| > 14
    ensures r.Ok? ==> |"89" + mno| <= |r.value| && r.value[..2 + |mno|] == "89" + mno
    ensures r.Ok? ==> (Valid(r.value) <==> AllDigits(mno)) && (|r.value| == 20 <==> AllDigits(mno))
  {
    if |mno| > 14 {
      return Err("mno code too long");
    }
    var digits := RandDigits(random);
    var payload := "89" + mno + digits;
    var check := ComputeLuhn(payload);
    assert AllDigits("89");
    assert forall i :: 0 <= i < |mno| ==> payload[2 + i] == mno[i];
    assert forall i :: 0 <= i < |digits| ==> payload[2 + |mno| + i] == digits[i];
    assert AllDigits(payload) <==> AllDigits(mno);
    if AllDigits(payload) {
      AppendedCheckIsValid(payload);
    } else {
      assert (payload + Rendered(check))[|payload|] == '-';
    }
    r := Ok(payload + Rendered(check));
    assert r.value[..2 + |mno|] == "89" + mno;
  }

  /** A device identifier has 32 digits and is valid, and so is its prefix that ends in the first check digit. */
  method NewEID(random: Octets) returns (eid: string)
    requires |random| == 26
    ensures |eid| == 32 && eid[..4] == "8904" && Valid(eid) && Valid(eid[..31])
  {
    var digits := RandDigits(random);
    var data := "8904" + digits;
    assert AllDigits("8904");
    assert AllDigits(data) by {
      assert forall i :: 0 <= i < |digits| ==> data[4 + i] == digits[i];
    }
    var first := ComputeLuhn(data);
    AppendedCheckIsValid(data);
    var second := ComputeLuhn(data + Rendered(first));
    AppendedCheckIsValid(data + Rendered(first));
    eid := data + (Rendered(first) + Rendered(second));
    assert eid == data + Rendered(first) + Rendered(second);
    assert eid[..31] == data + Rendered(first);
  }

  // ---- what the code detects ----

  predicate DoubledAt(n: nat, i: nat, double: bool)
    requires i < n
  {
    double != ((n - 1 - i) % 2 == 1)
  }

  lemma {:induction false} SumAfterChange(s: string, i: nat, c: char, double: bool)
    requires i < |s|
    ensures WeightedSum(s[i := c], double) - WeightedSum(s, double)
         == Weight(c, DoubledAt(|s|, i, double)) - Weight(s[i], DoubledAt(|s|, i, double))
  {
    hide Weight;
    var n := |s| - 1;
    if i < n {
      SumAfterChange(s[..n], i, c, !double);
      assert s[i := c][..n] == s[..n][i := c];
    } else {
      assert s[i := c][..n] == s[..n];
    }
  }

  /** Doubling and adding the digits permutes the ten digits. */
  lemma WeightsDiffer(c: char, d: char, double: bool)
    requires IsDigit(c) && IsDigit(d)
    ensures (Weight(c, double) - Weight(d, double)) % 10 == 0 <==> c == d
  {
    assert -9 <= Weight(c, double) - Weight(d, double) <= 9;
  }

  /** A valid identifier stays valid under a change of one digit only if nothing changed. */
  lemma SingleDigitErrorsAreDetected(s: string, i: nat, c: char)
    requires Valid(s) && i < |s| && IsDigit(c)
    ensures Valid(s[i := c]) <==> c == s[i]
  {
    hide Weight, WeightedSum;
    SumAfterChange(s, i, c, false);
    WeightsDiffer(c, s[i], DoubledAt(|s|, i, false));
    assert AllDigits(s[i := c]);
  }

  function Swapped(s: string, i: nat): string
    requires i + 1 < |s|
  {
    s[i := s[i + 1]][i + 1 := s[i]]
  }

  lemma SwapWeights(c: char, d: char, double: bool)
    requires IsDigit(c) && IsDigit(d)
    ensures (Weight(d, double) - Weight(c, double) + Weight(c, !double) - Weight(d, !double)) % 10 == 0
      <==> c == d || {c, d} == {'0', '9'}
  {
    var x, y := Weight(c, true) - Weight(c, false), Weight(d, true) - Weight(d, false);
    assert {c, d} == {'0', '9'} <==> (c == '0' && d == '9') || (c == '9' && d == '0') by {
      if {c, d} == {'0', '9'} { assert '0' in {c, d} && '9' in {c, d}; }
    }
    assert -9 <= x - y <= 9;
  }

  /** Swapping two neighbours of a valid identifier goes unnoticed exactly when they are equal, or are 0 and 9. */
  lemma NeighbourSwapsDetectedIff(s: string, i: nat)
    requires Valid(s) && i + 1 < |s|
    ensures Valid(Swapped(s, i)) <==> s[i] == s[i + 1] || {s[i], s[i + 1]} == {'0', '9'}
  {
    hide Weight, WeightedSum;
    var t := s[i := s[i + 1]];
    SumAfterChange(s, i, s[i + 1], false);
    SumAfterChange(t, i + 1, s[i], false);
    SwapWeights(s[i], s[i + 1], DoubledAt(|s|, i, false));
    assert DoubledAt(|s|, i + 1, false) == !DoubledAt(|s|, i, false);
    assert AllDigits(Swapped(s, i));
  }

  // ---- by position ----

  /** The digits in odd places from the right are doubled, the last digit's place being zero. */
  function Placed(s: string, i: nat): int
    requires i < |s|
  {
    var d := s[i] as int - '0' as int;
    if (|s| - 1 - i) % 2 == 0 then d else if d < 5 then 2 * d else 2 * d - 9
  }

  function PlacedSum(s: string, n: nat): int
    requires n <= |s|
  {
    if n == 0 then 0 else PlacedSum(s, n - 1) + Placed(s, n - 1)
  }

  lemma {:induction false} SumByPlace(s: string, n: nat)
    requires n <= |s|
    ensures WeightedSum(s[..n], (|s| - n) % 2 == 1) == PlacedSum(s, n)
  {
    if n > 0 {
      SumByPlace(s, n - 1);
      assert s[..n][..n - 1] == s[..n - 1];
      assert ((|s| - n) % 2 == 1) != ((|s| - (n - 1)) % 2 == 1);
    }
  }

  /** An identifier is valid exactly when it is two or more digits whose sum by place is a multiple of ten. */
  lemma {:induction false} ValidByPlace(s: string)
    ensures Valid(s) <==>
      |s| >= 2 && (forall i :: 0 <= i < |s| ==> '0' <= s[i] <= '9') && PlacedSum(s, |s|) % 10 == 0
  {
    SumByPlace(s, |s|);
    assert s[..|s|] == s;
  }
}
