/** Strings as JavaScript has them, sequences of UTF-16 code units, and the two orders on object keys. */
module Texts {

  type CodeUnit = c: int | 0 <= c < 0x1_0000

  type Text = seq<CodeUnit>

  /** The code units of a literal. */
  function Ascii(literal: string): (t: Text)
    requires forall i :: 0 <= i < |literal| ==> literal[i] as int < 128
    ensures |t| == |literal| && forall i :: 0 <= i < |t| ==> t[i] == literal[i] as int
  {
    seq(|literal|, i requires 0 <= i < |literal| => literal[i] as int)
  }

  /** String.prototype.repeat for one code unit. */
  function Repeat(c: CodeUnit, n: nat): (t: Text)
    ensures |t| == n && forall i :: 0 <= i < n ==> t[i] == c
  {
    if n == 0 then [] else [c] + Repeat(c, n - 1)
  }

  /** Array.prototype.sort without a comparator: by code units, a prefix first. */
  predicate Less(a: Text, b: Text) {
    if b == [] then false
    else if a == [] then true
    else a[0] < b[0] || (a[0] == b[0] && Less(a[1..], b[1..]))
  }

  lemma LessIsStrict(a: Text)
    ensures !Less(a, a)
  {
  }

  lemma LessIsTransitive(a: Text, b: Text, c: Text)
    requires Less(a, b) && Less(b, c)
    ensures Less(a, c)
  {
  }

  lemma {:induction false} LessIsTotal(a: Text, b: Text)
    ensures Less(a, b) || Less(b, a) || a == b
  {
    if a != [] && b != [] {
      LessIsTotal(a[1..], b[1..]);
      if a[0] == b[0] && a[1..] == b[1..] {
        assert a == [a[0]] + a[1..] && b == [b[0]] + b[1..];
      }
    }
  }

  /** Where two texts first differ decides. */
  lemma {:induction false} LessAt(a: Text, b: Text, k: nat)
    requires k < |a| && k < |b| && a[..k] == b[..k] && a[k] < b[k]
    ensures Less(a, b)
    decreases k
  {
    if k > 0 {
      assert a[0] == a[..k][0] && b[0] == b[..k][0];
      assert a[1..][..k - 1] == a[..k][1..] && b[1..][..k - 1] == b[..k][1..];
      LessAt(a[1..], b[1..], k - 1);
    }
  }

  /** The texts agree up to k, where the first one ends or has the lower unit. */
  ghost predicate DiffersAt(a: Text, b: Text, k: nat) {
    k <= |a| && k < |b| && (forall i :: 0 <= i < k ==> a[i] == b[i]) && (k == |a| || a[k] < b[k])
  }

  lemma {:induction false} LessDiffers(a: Text, b: Text)
    requires Less(a, b)
    ensures exists k: nat :: DiffersAt(a, b, k)
  {
    if a == [] || a[0] < b[0] {
      assert DiffersAt(a, b, 0);
    } else {
      LessDiffers(a[1..], b[1..]);
      var k: nat :| DiffersAt(a[1..], b[1..], k);
      assert forall i :: 0 < i < k + 1 ==> a[i] == a[1..][i - 1] && b[i] == b[1..][i - 1];
      assert DiffersAt(a, b, k + 1);
    }
  }

  predicate StartsWith(text: Text, prefix: Text) {
    |text| >= |prefix| && text[..|prefix|] == prefix
  }

  predicate OccursAt(text: Text, part: Text, i: nat) {
    i + |part| <= |text| && text[i..i + |part|] == part
  }

  predicate Includes(text: Text, part: Text) {
    exists i :: 0 <= i <= |text| && OccursAt(text, part, i)
  }

  /* ---- array indices ---- */

  const MAX_ARRAY_INDEX := 4_294_967_294

  predicate IsDigit(c: CodeUnit) {
    48 <= c <= 57
  }

  function Value(digits: Text): int
    requires forall i :: 0 <= i < |digits| ==> IsDigit(digits[i])
  {
    if digits == [] then 0 else Value(digits[..|digits| - 1]) * 10 + (digits[|digits| - 1] as int - 48)
  }

  /** A key that an object treats as an array index: a decimal without leading zeros, small enough. */
  predicate IsArrayIndex(key: Text) {
    && key != []
    && (forall i :: 0 <= i < |key| ==> IsDigit(key[i]))
    && (key[0] == 48 ==> |key| == 1)
    && Value(key) <= MAX_ARRAY_INDEX
  }

  /** The order in which an object lists its own keys when the others were assigned in sorted order: array
      indices first and ascending, then the others by code units. */
  predicate Before(a: Text, b: Text) {
    if IsArrayIndex(a) then
      if IsArrayIndex(b) then Value(a) < Value(b) else true
    else
      !IsArrayIndex(b) && Less(a, b)
  }

  lemma BeforeIsStrict(a: Text)
    ensures !Before(a, a)
  {
    LessIsStrict(a);
  }

  lemma BeforeIsTransitive(a: Text, b: Text, c: Text)
    requires Before(a, b) && Before(b, c)
    ensures Before(a, c)
  {
    if !IsArrayIndex(a) {
      LessIsTransitive(a, b, c);
    }
  }

  lemma BeforeIsAsymmetric(a: Text, b: Text)
    ensures !(Before(a, b) && Before(b, a))
  {
    if Before(a, b) && Before(b, a) {
      BeforeIsTransitive(a, b, a);
      BeforeIsStrict(a);
    }
  }

  lemma BeforeIsTotal(a: Text, b: Text)
    ensures Before(a, b) || Before(b, a) || a == b
  {
    LessIsTotal(a, b);
    if IsArrayIndex(a) && IsArrayIndex(b) && Value(a) == Value(b) {
      SameValueSameDigits(a, b);
    }
  }

  predicate PlainDecimal(digits: Text) {
    && digits != []
    && (forall i :: 0 <= i < |digits| ==> IsDigit(digits[i]))
    && (digits[0] == 48 ==> |digits| == 1)
  }

  /** A number has one decimal without leading zeros, so indices are told apart by their value. */
  lemma {:induction false} SameValueSameDigits(a: Text, b: Text)
    requires PlainDecimal(a) && PlainDecimal(b) && Value(a) == Value(b)
    ensures a == b
    decreases |a| + |b|
  {
    var i, j := |a| - 1, |b| - 1;
    ValueIsPositive(a);
    ValueIsPositive(b);
    assert a == a[..i] + [a[i]] && b == b[..j] + [b[j]];
    if i > 0 {
      SameValueSameDigits(a[..i], b[..j]);
    }
  }

  lemma {:induction false} ValueIsPositive(digits: Text)
    requires PlainDecimal(digits)
    ensures Value(digits) >= 0
    ensures digits[0] != 48 ==> Value(digits) >= 1
    ensures if |digits| >= 2 then Value(digits) >= 10 else Value(digits) == digits[0] as int - 48
  {
    if |digits| >= 2 {
      ValueIsPositive(digits[..|digits| - 1]);
    } else {
      assert digits[..0] == [];
    }
  }
}
