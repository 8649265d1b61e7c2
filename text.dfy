/** String operations the dashboard and the list query rely on.
    `Compare` stands in for `String.prototype.localeCompare` (ordinal
    order on character codes), and `ContainsIgnoreCase` stands in for a
    MongoDB `$regex` match with `$options: "i"` on a pattern free of
    regular-expression metacharacters (ASCII case folding only). */
module Text {

  /** Three-way ordinal comparison: negative, zero or positive as `x`
      sorts before, equal to, or after `y`. */
  function Compare(x: string, y: string): (c: int)
    ensures -1 <= c <= 1
  {
    if x == [] && y == [] then 0
    else if x == [] then -1
    else if y == [] then 1
    else if x[0] < y[0] then -1
    else if x[0] > y[0] then 1
    else Compare(x[1..], y[1..])
  }

  lemma {:induction false} CompareZeroIffEqual(x: string, y: string)
    ensures Compare(x, y) == 0 <==> x == y
  {
    if x != [] && y != [] && x[0] == y[0] {
      CompareZeroIffEqual(x[1..], y[1..]);
      assert x == [x[0]] + x[1..] && y == [y[0]] + y[1..];
    }
  }

  /** Swapping the operands negates the comparison, so the descending
      comparator `b.localeCompare(a)` is the ascending one reversed. */
  lemma {:induction false} CompareAntisymmetric(x: string, y: string)
    ensures Compare(y, x) == -Compare(x, y)
  {
    if x != [] && y != [] && x[0] == y[0] {
      CompareAntisymmetric(x[1..], y[1..]);
    }
  }

  lemma {:induction false} CompareTransitive(x: string, y: string, z: string)
    requires Compare(x, y) <= 0 && Compare(y, z) <= 0
    ensures Compare(x, z) <= 0
  {
    if x != [] && y != [] && z != [] && x[0] == y[0] == z[0] {
      CompareTransitive(x[1..], y[1..], z[1..]);
    }
  }

  function LowerChar(c: char): (d: char)
    ensures 'A' <= c <= 'Z' ==> 'a' <= d <= 'z'
    ensures !('A' <= c <= 'Z') ==> d == c
  {
    if 'A' <= c <= 'Z' then (c as int - 'A' as int + 'a' as int) as char else c
  }

  /** ASCII lower-casing, character by character. */
  function Lower(s: string): (r: string)
    ensures |r| == |s|
  {
    seq(|s|, i requires 0 <= i < |s| => LowerChar(s[i]))
  }

  lemma LowerIdempotent(s: string)
    ensures Lower(Lower(s)) == Lower(s)
  {
  }

  predicate StartsWith(s: string, prefix: string) {
    |prefix| <= |s| && s[..|prefix|] == prefix
  }

  /** `needle` occurs somewhere in `s` (as a contiguous block). */
  predicate Contains(s: string, needle: string)
    decreases |s|
  {
    StartsWith(s, needle) || (s != [] && Contains(s[1..], needle))
  }

  /** `needle` sits in `s` starting at index `i`. */
  predicate OccursAt(s: string, needle: string, i: int) {
    0 <= i && i + |needle| <= |s| && s[i..i + |needle|] == needle
  }

  /** `Contains` agrees with the reference definition "some window of `s`
      equals `needle`". */
  lemma {:induction false} ContainsAt(s: string, needle: string)
    ensures Contains(s, needle) <==> exists i :: OccursAt(s, needle, i)
    decreases |s|
  {
    if StartsWith(s, needle) {
      assert OccursAt(s, needle, 0);
    }
    if s != [] {
      ContainsAt(s[1..], needle);
      if Contains(s[1..], needle) {
        var i :| OccursAt(s[1..], needle, i);
        assert s[i + 1..i + 1 + |needle|] == s[1..][i..i + |needle|];
        assert OccursAt(s, needle, i + 1);
      }
      if exists i :: OccursAt(s, needle, i) {
        var i :| OccursAt(s, needle, i);
        if i > 0 {
          assert s[1..][i - 1..i - 1 + |needle|] == s[i..i + |needle|];
          assert OccursAt(s[1..], needle, i - 1);
        }
      }
    }
  }

  /** Case-insensitive containment, as `{$regex: needle, $options: "i"}`. */
  predicate ContainsIgnoreCase(s: string, needle: string) {
    Contains(Lower(s), Lower(needle))
  }

  /** The empty pattern occurs in every string. */
  lemma EmptyNeedleMatches(s: string)
    ensures ContainsIgnoreCase(s, "")
  {
    assert StartsWith(Lower(s), Lower(""));
  }

  /** Letter case of either operand does not affect the outcome. */
  lemma {:induction false} ContainsIgnoreCaseIsCaseBlind(s: string, needle: string)
    ensures ContainsIgnoreCase(s, needle) == ContainsIgnoreCase(Lower(s), needle)
    ensures ContainsIgnoreCase(s, needle) == ContainsIgnoreCase(s, Lower(needle))
  {
    LowerIdempotent(s);
    LowerIdempotent(needle);
  }
}
