/** The text operations names go through: stripping and lower-casing. */
module Text {

  predicate IsSpace(c: char) { c in {' ', '\t', '\n', '\r'} }

  /** The text without its leading and trailing spaces. */
  function Strip(text: string): string {
    if |text| == 0 then ""
    else if IsSpace(text[0]) then Strip(text[1..])
    else if IsSpace(text[|text| - 1]) then Strip(text[..|text| - 1])
    else text
  }

  /** The text in lower case, character by character. */
  function Lower(text: string): string {
    seq(|text|, i requires 0 <= i < |text| => if 'A' <= text[i] <= 'Z' then text[i] - 'A' + 'a' else text[i])
  }

  /** Stripping takes away exactly the spaces at the two ends. */
  lemma {:induction false} StripMeaning(text: string) returns (i: nat, j: nat)
    ensures i <= j <= |text| && Strip(text) == text[i..j]
    ensures forall k :: 0 <= k < i ==> IsSpace(text[k])
    ensures forall k :: j <= k < |text| ==> IsSpace(text[k])
    ensures i < j ==> !IsSpace(text[i]) && !IsSpace(text[j - 1])
  {
    if |text| == 0 {
      i, j := 0, 0;
    } else if IsSpace(text[0]) {
      i, j := StripMeaning(text[1..]);
      assert text[1..][i..j] == text[i + 1..j + 1];
      assert forall k :: 0 < k < i + 1 ==> text[k] == text[1..][k - 1];
      assert forall k :: j + 1 <= k < |text| ==> text[k] == text[1..][k - 1];
      i, j := i + 1, j + 1;
    } else if IsSpace(text[|text| - 1]) {
      i, j := StripMeaning(text[..|text| - 1]);
    } else {
      i, j := 0, |text|;
    }
  }

  /** Two texts are alike in lower case exactly when they differ at most in the case of their letters. */
  lemma LowerMeaning(a: string, b: string)
    ensures Lower(a) == Lower(b) <==> |a| == |b| && forall i :: 0 <= i < |a| ==> SameLetter(a[i], b[i])
    ensures Lower(Lower(a)) == Lower(a)
  {
    if Lower(a) == Lower(b) {
      assert |Lower(a)| == |a| && |Lower(b)| == |b|;
      forall i | 0 <= i < |a| ensures SameLetter(a[i], b[i]) {
        assert Lower(a)[i] == Lower(b)[i];
      }
    }
  }

  predicate SameLetter(c: char, d: char) {
    c == d || ('A' <= c <= 'Z' && d == c - 'A' + 'a') || ('A' <= d <= 'Z' && c == d - 'A' + 'a')
  }
}
