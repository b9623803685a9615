/** A medication dose: an integer amount and a unit of mass. */
module Dosages {
  import opened Wrappers
  import opened Decimal

  datatype DosageUnit = Grams | Milligrams | Micrograms

  /** The raw string symbol of each unit. */
  function Symbol(u: DosageUnit): (sym: string)
    ensures 1 <= |sym| <= 3 && sym[|sym| - 1] == 'g'
    ensures forall i | 0 <= i < |sym| :: !IsDigit(sym[i])
  {
    match u
    case Grams => "g"
    case Milligrams => "mg"
    case Micrograms => "mcg"
  }

  /** Equality of dosages is equality of value and unit (a Swift synthesised `Equatable`). */
  datatype Dosage = Dosage(value: int, unit: DosageUnit)

  /** The amount immediately followed by the unit symbol, e.g. "25mg". */
  function Description(d: Dosage): (s: string)
    ensures |s| > |Symbol(d.unit)|
    ensures s[|s| - |Symbol(d.unit)|..] == Symbol(d.unit)
    ensures ParseInt(s[..|s| - |Symbol(d.unit)|]) == Some(d.value)
    ensures Canonical(s[..|s| - |Symbol(d.unit)|])
  {
    IntToStringRoundTrip(d.value);
    IntToString(d.value) + Symbol(d.unit)
  }

  /** Two dosages share a description only when they are equal: no two units collide. */
  lemma DescriptionInjective(d1: Dosage, d2: Dosage)
    ensures Description(d1) == Description(d2) <==> d1 == d2
  {
    if Description(d1) == Description(d2) {
      SymbolFollowsDigit(IntToString(d1.value), IntToString(d2.value), d1.unit, d2.unit);
      IntToStringInjective(d1.value, d2.value);
    }
  }

  /**
   * Text ending in a digit followed by a unit symbol splits back into the
   * two: the character before the symbol is a digit, and no symbol contains
   * a digit.
   */
  lemma SymbolFollowsDigit(a: string, b: string, u1: DosageUnit, u2: DosageUnit)
    requires |a| > 0 && IsDigit(a[|a| - 1]) && |b| > 0 && IsDigit(b[|b| - 1])
    requires a + Symbol(u1) == b + Symbol(u2)
    ensures a == b && u1 == u2
  {
    var s := a + Symbol(u1);
    assert |Symbol(u1)| == |Symbol(u2)| by {
      assert IsDigit(s[|s| - |Symbol(u1)| - 1]) && IsDigit(s[|s| - |Symbol(u2)| - 1]);
    }
    assert a == s[..|a|] == b;
  }

  /** The worked examples of the unit tests. */
  lemma DescriptionExamples()
    ensures Description(Dosage(81, Milligrams)) == "81mg"
    ensures Description(Dosage(1, Grams)) == "1g"
    ensures Description(Dosage(100, Micrograms)) == "100mcg"
  {
  }
}
