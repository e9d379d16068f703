/** The two ordinal string comparisons the filters use (.NET's
    `StringComparison.Ordinal` and `OrdinalIgnoreCase`): equality and
    `IndexOf`, whose result is non-negative exactly when the substring occurs. */
module Text {

  datatype Comparison = Ordinal | OrdinalIgnoreCase

  /** The character a comparison actually looks at: under OrdinalIgnoreCase
      lower-case ASCII letters are mapped to upper case. */
  function Fold(c: char, cmp: Comparison): char
  {
    if cmp == OrdinalIgnoreCase && 'a' <= c <= 'z' then (c as int - 32) as char else c
  }

  predicate SameChar(a: char, b: char, cmp: Comparison)
  {
    Fold(a, cmp) == Fold(b, cmp)
  }

  /** `sub` occurs in `s` at index `i`. */
  predicate MatchAt(s: string, sub: string, i: int, cmp: Comparison)
  {
    0 <= i && i + |sub| <= |s| &&
    forall k :: 0 <= k < |sub| ==> SameChar(s[i + k], sub[k], cmp)
  }

  /** `sub` occurs somewhere in `s` (the empty string occurs everywhere). */
  ghost predicate Contains(s: string, sub: string, cmp: Comparison)
  {
    exists i :: MatchAt(s, sub, i, cmp)
  }

  /** `string.Equals(a, b, cmp)`. */
  predicate EqualsCmp(a: string, b: string, cmp: Comparison)
  {
    |a| == |b| && MatchAt(a, b, 0, cmp)
  }

  /** The first index at or after `from` where `sub` occurs, or -1. */
  function IndexFrom(s: string, sub: string, cmp: Comparison, from: nat): (r: int)
    decreases |s| - from
    ensures r == -1 || (from <= r && MatchAt(s, sub, r, cmp))
    ensures forall j :: from <= j && (r == -1 || j < r) ==> !MatchAt(s, sub, j, cmp)
  {
    if from + |sub| > |s| then -1
    else if MatchAt(s, sub, from, cmp) then from
    else IndexFrom(s, sub, cmp, from + 1)
  }

  /** `s.IndexOf(sub, cmp)`: the first occurrence of `sub` in `s`, or -1. */
  function IndexOf(s: string, sub: string, cmp: Comparison): (r: int)
    ensures r >= 0 <==> Contains(s, sub, cmp)
    ensures r >= 0 ==> MatchAt(s, sub, r, cmp) && forall j :: 0 <= j < r ==> !MatchAt(s, sub, j, cmp)
  {
    IndexFrom(s, sub, cmp, 0)
  }

  /** Ordinal comparison is plain string equality. */
  lemma OrdinalEqualsIsEquality(a: string, b: string)
    ensures EqualsCmp(a, b, Ordinal) <==> a == b
  {
    if EqualsCmp(a, b, Ordinal) {
      assert forall k :: 0 <= k < |a| ==> a[k] == b[k] by {
        forall k | 0 <= k < |a| ensures a[k] == b[k] {
          assert SameChar(a[0 + k], b[k], Ordinal);
        }
      }
    }
  }

  /** A substring whose first character occurs nowhere in `s` is not found. */
  lemma AbsentFirstChar(s: string, sub: string, cmp: Comparison)
    requires |sub| > 0
    requires forall k :: 0 <= k < |s| ==> !SameChar(s[k], sub[0], cmp)
    ensures IndexOf(s, sub, cmp) == -1
  {
  }

  /** Case is ignored under OrdinalIgnoreCase: "holiday" is found in
      "US Holidays" at index 3. */
  lemma IgnoreCaseFindsHoliday()
    ensures IndexOf("US Holidays", "holiday", OrdinalIgnoreCase) == 3
  {
    var s, sub := "US Holidays", "holiday";
    assert MatchAt(s, sub, 3, OrdinalIgnoreCase) by {
      assert s[3..10] == "Holiday";
    }
    assert !MatchAt(s, sub, 0, OrdinalIgnoreCase) by { assert !SameChar(s[0], sub[0], OrdinalIgnoreCase); }
    assert !MatchAt(s, sub, 1, OrdinalIgnoreCase) by { assert !SameChar(s[1], sub[0], OrdinalIgnoreCase); }
    assert !MatchAt(s, sub, 2, OrdinalIgnoreCase) by { assert !SameChar(s[2], sub[0], OrdinalIgnoreCase); }
  }

  /** ... and only there: the ordinal search does not find it. */
  lemma OrdinalRespectsCase()
    ensures IndexOf("US Holidays", "holiday", Ordinal) == -1
  {
    AbsentFirstChar("US Holidays", "holiday", Ordinal);
  }
}
