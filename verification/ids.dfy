/** `PlayService.generateId`: short random identifiers over the 62-character
    alphanumeric alphabet. */
module Ids {

  /** The alphabet `A–Z a–z 0–9`, in the order the source lists it. */
  const Upper: string := seq(26, i requires 0 <= i < 26 => (65 + i) as char)
  const Lower: string := seq(26, i requires 0 <= i < 26 => (97 + i) as char)
  const Digits: string := seq(10, i requires 0 <= i < 10 => (48 + i) as char)
  const Chars: string := Upper + Lower + Digits

  /** Length of a page or version `_id`. */
  const IdLength: nat := 6
  /** Length of a version's `versionId` label. */
  const LabelLength: nat := 4

  predicate IsAlphanumeric(c: char) {
    ('A' <= c <= 'Z') || ('a' <= c <= 'z') || ('0' <= c <= '9')
  }

  /** What `generateId(length)` can return. */
  predicate IsGeneratedId(s: string, length: nat) {
    |s| == length && forall i :: 0 <= i < |s| ==> IsAlphanumeric(s[i])
  }

  lemma UpperLiteral()
    ensures Upper == "ABCDEFGHIJKLMNOPQRSTUVWXYZ"
  {
    var upper := "ABCDEFGHIJKLMNOPQRSTUVWXYZ";
    forall i | 0 <= i < 26 ensures Upper[i] == upper[i] { }
  }

  lemma LowerLiteral()
    ensures Lower == "abcdefghijklmnopqrstuvwxyz"
  {
    var lower := "abcdefghijklmnopqrstuvwxyz";
    forall i | 0 <= i < 26 ensures Lower[i] == lower[i] { }
  }

  lemma DigitsLiteral()
    ensures Digits == "0123456789"
  {
    var digits := "0123456789";
    forall i | 0 <= i < 10 ensures Digits[i] == digits[i] { }
  }

  /** The alphabet is the literal string the source spells out. */
  lemma AlphabetLiteral()
    ensures Chars == "ABCDEFGHIJKLMNOPQRSTUVWXYZabcdefghijklmnopqrstuvwxyz0123456789"
  {
    UpperLiteral();
    LowerLiteral();
    DigitsLiteral();
  }

  /** The alphabet has 62 characters and holds exactly the alphanumeric ones. */
  lemma AlphabetIsAlphanumeric()
    ensures |Chars| == 62
    ensures forall c :: c in Chars <==> IsAlphanumeric(c)
  {
    forall c | IsAlphanumeric(c) ensures c in Chars {
      if 'A' <= c <= 'Z' {
        assert Chars[c as int - 65] == c;
      } else if 'a' <= c <= 'z' {
        assert Chars[c as int - 97 + 26] == c;
      } else {
        assert Chars[c as int - 48 + 52] == c;
      }
    }
  }

  /** Each character is `chars.charAt(Math.floor(Math.random() * 62))`; the
      random draw is modelled as an arbitrary index in `[0, 62)`. */
  method GenerateId(length: nat) returns (r: string)
    ensures IsGeneratedId(r, length)
  {
    AlphabetIsAlphanumeric();
    r := "";
    var i := 0;
    while i < length
      invariant i <= length
      invariant IsGeneratedId(r, i)
    {
      var k :| 0 <= k < |Chars|;
      assert Chars[k] in Chars;
      r := r + [Chars[k]];
      i := i + 1;
    }
  }
}
