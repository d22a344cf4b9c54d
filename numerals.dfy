/** Runs of digits and full stops, as both `make_number` loops consume them. */
module Numerals {
  import opened Tokens

  predicate AllDigits(s: string)
  {
    forall k :: 0 <= k < |s| ==> IsDigit(s[k])
  }

  predicate AllNumberChars(s: string)
  {
    forall k :: 0 <= k < |s| ==> IsNumberChar(s[k])
  }

  lemma DigitsInSlice(s: string, a: nat, b: nat)
    requires a <= b <= |s| && AllDigits(s[a..b])
    ensures forall q :: a <= q < b ==> IsDigit(s[q])
  {
    forall q | a <= q < b
      ensures IsDigit(s[q])
    {
      assert s[a..b][q - a] == s[q];
    }
  }

  /** Extending a slice by the character just after it. */
  lemma SliceSnoc(s: string, a: nat, b: nat)
    requires a <= b < |s|
    ensures s[a..b] + [s[b]] == s[a..b + 1]
  {
  }

  function DigitValue(c: char): nat
    requires IsDigit(c)
  {
    c as int - '0' as int
  }

  function DigitChar(d: nat): (c: char)
    requires d < 10
    ensures IsDigit(c) && DigitValue(c) == d
  {
    ('0' as int + d) as char
  }

  /** A run of number characters without a full stop is all digits. */
  lemma NoDotsAllDigits(s: string)
    requires AllNumberChars(s) && Dots(s) == 0
    ensures AllDigits(s)
  {
    DotsZero(s);
  }

  function Pow10(n: nat): (p: nat)
    ensures p > 0
  {
    if n == 0 then 1 else 10 * Pow10(n - 1)
  }

  /** The number `Number(...)` reads from a string of decimal digits, exactly
      (the empty string reads as 0). */
  function DecimalValue(ds: string): nat
    requires AllDigits(ds)
  {
    if ds == [] then 0
    else 10 * DecimalValue(ds[..|ds| - 1]) + DigitValue(ds[|ds| - 1])
  }

  /** `n` digits read as a number below `10^n`, and at least `10^(n-1)` when
      the first digit is not zero. */
  lemma {:induction false} DecimalBounds(ds: string)
    requires AllDigits(ds)
    ensures DecimalValue(ds) < Pow10(|ds|)
    ensures ds != [] && ds[0] != '0' ==> Pow10(|ds| - 1) <= DecimalValue(ds)
  {
    if ds != [] {
      var front := ds[..|ds| - 1];
      assert front != [] ==> front[0] == ds[0];
      DecimalBounds(front);
    }
  }

  /** The shortest decimal spelling of `n`. */
  function DecimalDigits(n: nat): (ds: string)
    ensures |ds| > 0 && AllDigits(ds)
  {
    if n < 10 then [DigitChar(n)] else DecimalDigits(n / 10) + [DigitChar(n % 10)]
  }

  /** Reading the decimal spelling of `n` back gives `n`. */
  lemma {:induction false} DecimalRoundTrip(n: nat)
    ensures DecimalValue(DecimalDigits(n)) == n
  {
    if n >= 10 {
      var front := DecimalDigits(n / 10);
      var ds := front + [DigitChar(n % 10)];
      assert ds[..|ds| - 1] == front;
      DecimalRoundTrip(n / 10);
    }
  }

  /** How many full stops `s` holds: the `fullStops` counter after reading `s`. */
  function Dots(s: string): (n: nat)
    ensures n <= |s|
  {
    if s == [] then 0
    else Dots(s[..|s| - 1]) + if s[|s| - 1] == '.' then 1 else 0
  }

  /** A string has no full stop exactly when its count is zero. */
  lemma {:induction false} DotsZero(s: string)
    ensures Dots(s) == 0 <==> forall k :: 0 <= k < |s| ==> s[k] != '.'
  {
    if s != [] {
      var front := s[..|s| - 1];
      DotsZero(front);
      assert forall k :: 0 <= k < |front| ==> front[k] == s[k];
    }
  }

  lemma {:induction false} DotsAppend(a: string, b: string)
    ensures Dots(a + b) == Dots(a) + Dots(b)
    decreases |b|
  {
    if b == [] {
      assert a + b == a;
    } else {
      var b' := b[..|b| - 1];
      assert (a + b)[..|a + b| - 1] == a + b';
      DotsAppend(a, b');
    }
  }

  lemma DotsSnoc(s: string, c: char)
    ensures Dots(s + [c]) == Dots(s) + if c == '.' then 1 else 0
  {
    assert (s + [c])[..|s|] == s;
  }

  /** Extending a prefix by one character adds one exactly when it is a full stop. */
  lemma DotsStep(s: string, k: nat)
    requires k < |s|
    ensures Dots(s[..k + 1]) == Dots(s[..k]) + if s[k] == '.' then 1 else 0
  {
    assert s[..k + 1][..k] == s[..k];
  }

  lemma {:induction false} DotsMonotone(s: string, a: nat, b: nat)
    requires a <= b <= |s|
    ensures Dots(s[..a]) <= Dots(s[..b])
    decreases b - a
  {
    if a < b {
      DotsStep(s, b - 1);
      DotsMonotone(s, a, b - 1);
    }
  }

  /** The index of the full stop that has exactly `n` full stops before it. */
  function DotIndex(s: string, n: nat): (k: nat)
    requires n < Dots(s)
    ensures k < |s| && s[k] == '.' && Dots(s[..k]) == n
  {
    var front := s[..|s| - 1];
    assert s[..|s|] == s;
    DotsStep(s, |s| - 1);
    if n < Dots(front) then
      var k := DotIndex(front, n);
      assert s[..k] == front[..k];
      k
    else
      |s| - 1
  }

  /** A full stop with exactly `n` full stops before it is the one `DotIndex` finds. */
  lemma DotIndexUnique(s: string, n: nat, k: nat)
    requires k < |s| && s[k] == '.' && Dots(s[..k]) == n
    ensures n < Dots(s) && DotIndex(s, n) == k
  {
    DotsStep(s, k);
    assert s[..|s|] == s;
    DotsMonotone(s, k + 1, |s|);
    var d := DotIndex(s, n);
    if d < k {
      DotsStep(s, d);
      DotsMonotone(s, d + 1, k);
    } else if k < d {
      DotsMonotone(s, k + 1, d);
    }
  }

  /** Where the second full stop of `s[i..j]` sits in `s`: strictly after `i`,
      with exactly one full stop between `i` and it. */
  lemma SecondDotAt(s: string, i: nat, j: nat)
    requires i <= j <= |s| && Dots(s[i..j]) > 1
    ensures var k := i + DotIndex(s[i..j], 1);
            i < k < j && s[k] == '.' && Dots(s[i..k]) == 1
  {
    var run := s[i..j];
    var d := DotIndex(run, 1);
    assert run[..d] == s[i..i + d] && run[d] == s[i + d];
    assert run[..0] == [];
  }

  /** The index just past the maximal run of digits and full stops that starts at `i`. */
  function RunEnd(s: string, i: nat): (j: nat)
    requires i <= |s|
    ensures i <= j <= |s|
    ensures forall k :: i <= k < j ==> IsNumberChar(s[k])
    ensures j == |s| || !IsNumberChar(s[j])
    decreases |s| - i
  {
    if i < |s| && IsNumberChar(s[i]) then RunEnd(s, i + 1) else i
  }

  /** Any index that closes a run of number characters from `i` is `RunEnd(s, i)`. */
  lemma RunEndUnique(s: string, i: nat, j: nat)
    requires i <= j <= |s|
    requires forall k :: i <= k < j ==> IsNumberChar(s[k])
    requires j == |s| || !IsNumberChar(s[j])
    ensures RunEnd(s, i) == j
  {
  }

  /** The token for a run of number characters with at most one full stop:
      `Integer` without a full stop, `Float` with one. */
  function NumberToken(run: string): Token
    requires AllNumberChars(run) && Dots(run) <= 1
  {
    if Dots(run) == 0 then
      NoDotsAllDigits(run);
      Integer(DecimalValue(run))
    else
      Float(run)
  }

  /** A run makes an `Integer` exactly when it holds no full stop, and a
      `Float` that keeps the run as its lexeme exactly when it holds one. */
  lemma NumberTokenKind(run: string)
    requires AllNumberChars(run) && Dots(run) <= 1
    ensures NumberToken(run).Integer? <==> Dots(run) == 0
    ensures NumberToken(run).Float? <==> Dots(run) == 1
    ensures NumberToken(run).Float? ==> NumberToken(run).lexeme == run
  {
  }
}
