/** Letters without their case. */
module Texts {

  function LowerCase(text: string): string {
    seq(|text|, i requires 0 <= i < |text| => if 'A' <= text[i] <= 'Z' then text[i] + 32 as char else text[i])
  }

  predicate Capital(c: char) {
    'A' <= c <= 'Z'
  }

  /** Equal, or at the same place in the two alphabets. */
  predicate SameLetter(a: char, b: char) {
    || a == b
    || (Capital(a) && 'a' <= b <= 'z' && a as int - 'A' as int == b as int - 'a' as int)
    || (Capital(b) && 'a' <= a <= 'z' && b as int - 'A' as int == a as int - 'a' as int)
  }

  /** The two texts differ in case alone. */
  predicate SameLetters(a: string, b: string) {
    |a| == |b| && forall i | 0 <= i < |a| :: SameLetter(a[i], b[i])
  }

  /** Lower-casing gives a text without capitals if and only if the two differ in case alone. */
  lemma LowerCaseIff(text: string, lower: string)
    requires forall i | 0 <= i < |lower| :: !Capital(lower[i])
    ensures LowerCase(text) == lower <==> SameLetters(text, lower)
  {
    if |text| == |lower| {
      forall i | 0 <= i < |text| ensures LowerCase(text)[i] == lower[i] <==> SameLetter(text[i], lower[i]) {
      }
    }
  }

  /** Two texts are equal without their case if and only if they differ in case alone. */
  lemma FoldedAlikeIff(a: string, b: string)
    ensures LowerCase(a) == LowerCase(b) <==> SameLetters(a, b)
  {
    if |a| == |b| {
      forall i | 0 <= i < |a| ensures LowerCase(a)[i] == LowerCase(b)[i] <==> SameLetter(a[i], b[i]) {
      }
    } else {
      assert |LowerCase(a)| != |LowerCase(b)|;
    }
  }
}
