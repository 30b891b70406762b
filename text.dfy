/** Python's substring test `pattern in text`. */
module Text {

  /** `pattern` occurs in `text` starting at index `i`. */
  predicate OccursAt(text: string, pattern: string, i: int) {
    0 <= i && i + |pattern| <= |text| && text[i..i + |pattern|] == pattern
  }

  /** `pattern in text`, scanning `text` from the left. */
  predicate Contains(text: string, pattern: string)
    ensures Contains(text, pattern) ==> |pattern| <= |text|
    ensures pattern == [] ==> Contains(text, pattern)
    decreases |text|
  {
    if |text| < |pattern| then false
    else text[..|pattern|] == pattern || Contains(text[1..], pattern)
  }

  /** The scan finds `pattern` exactly when it occurs at some index of `text`. */
  lemma {:induction false} ContainsIff(text: string, pattern: string)
    ensures Contains(text, pattern) <==> exists i :: OccursAt(text, pattern, i)
    decreases |text|
  {
    if |text| >= |pattern| {
      if text[..|pattern|] == pattern {
        assert OccursAt(text, pattern, 0);
        return;
      }
      ContainsIff(text[1..], pattern);
      if Contains(text[1..], pattern) {
        var i :| OccursAt(text[1..], pattern, i);
        assert text[1..][i..i + |pattern|] == text[i + 1..i + 1 + |pattern|];
        assert OccursAt(text, pattern, i + 1);
      } else {
        forall i | OccursAt(text, pattern, i)
          ensures OccursAt(text[1..], pattern, i - 1)
        {
          assert text[1..][i - 1..i - 1 + |pattern|] == text[i..i + |pattern|];
        }
      }
    }
  }
}
