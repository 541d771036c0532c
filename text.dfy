/** Substring tests, as the database evaluates `contains` and `icontains`. */
module Text {

  /** `needle` occurs in `hay` starting at offset `i`. */
  predicate OccursAt(needle: string, hay: string, i: int)
  {
    0 <= i <= |hay| - |needle| && hay[i..i + |needle|] == needle
  }

  /** `needle` occurs in `hay` at some offset. */
  ghost predicate IsInfix(needle: string, hay: string)
  {
    exists i :: OccursAt(needle, hay, i)
  }

  /** Substring search by trying each offset in turn. */
  function Contains(hay: string, needle: string): (r: bool)
    ensures r <==> IsInfix(needle, hay)
    decreases |hay|
  {
    if |needle| > |hay| then false
    else if hay[..|needle|] == needle then
      assert OccursAt(needle, hay, 0);
      true
    else
      var r := Contains(hay[1..], needle);
      assert r ==> IsInfix(needle, hay) by {
        if r {
          var i :| OccursAt(needle, hay[1..], i);
          assert hay[1..][i..i + |needle|] == hay[i + 1..i + 1 + |needle|];
          assert OccursAt(needle, hay, i + 1);
        }
      }
      assert IsInfix(needle, hay) ==> r by {
        if IsInfix(needle, hay) {
          var i :| OccursAt(needle, hay, i);
          assert i != 0;
          assert hay[1..][i - 1..i - 1 + |needle|] == hay[i..i + |needle|];
          assert OccursAt(needle, hay[1..], i - 1);
        }
      }
      r
  }

  /** Case folding applied character by character. */
  function Fold(s: string, lower: char -> char): string
  {
    seq(|s|, i requires 0 <= i < |s| => lower(s[i]))
  }

  /** The `icontains` lookup: a substring test after folding both sides. */
  predicate ContainsIgnoringCase(hay: string, needle: string, lower: char -> char)
  {
    Contains(Fold(hay, lower), Fold(needle, lower))
  }

  /** A query that occurs verbatim matches whatever the folding is. */
  lemma ExactInfixMatches(needle: string, hay: string, lower: char -> char)
    requires IsInfix(needle, hay)
    ensures ContainsIgnoringCase(hay, needle, lower)
  {
    var i :| OccursAt(needle, hay, i);
    var fh, fn := Fold(hay, lower), Fold(needle, lower);
    assert fh[i..i + |fn|] == fn;
    assert OccursAt(fn, fh, i);
  }
}
