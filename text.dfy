/** The string operations the search uses: `toLowerCase` and `includes`.
 *  Lowering covers the ASCII letters A-Z and the Russian letters А-Я and Ё only;
 *  every other character is left as it is. */
module Text {

  /** True for the characters this model lowers: ASCII A-Z, Cyrillic А-Я (U+0410-U+042F) and Ё (U+0401). */
  predicate IsUpper(c: char)
  {
    'A' <= c <= 'Z' || 'А' <= c <= 'Я' || c == 'Ё'
  }

  /** `toLowerCase` on one character. */
  function ToLower(c: char): (r: char)
    ensures 'A' <= c <= 'Z' ==> r as int == c as int + 32
    ensures 'А' <= c <= 'Я' ==> r as int == c as int + 32
    ensures c == 'Ё' ==> r == 'ё'
    ensures !IsUpper(c) ==> r == c
    ensures !IsUpper(r)
  {
    if 'A' <= c <= 'Z' then (c as int + 32) as char
    else if 'А' <= c <= 'Я' then (c as int + 32) as char
    else if c == 'Ё' then 'ё'
    else c
  }

  /** Lowering a lowered character changes nothing. */
  lemma ToLowerIdempotent(c: char)
    ensures ToLower(ToLower(c)) == ToLower(c)
  {
  }

  /** The only characters that lower to a Cyrillic small letter а-я are that letter and its capital. */
  lemma ToLowerPreimage(x: char, c: char)
    requires 'а' <= c <= 'я'
    requires ToLower(x) == c
    ensures x == c || x as int == c as int - 32
  {
  }

  /** `toLowerCase` on a string: the same length, each character lowered in place. */
  function Lower(s: string): (r: string)
    ensures |r| == |s|
    ensures forall i :: 0 <= i < |s| ==> r[i] == ToLower(s[i])
  {
    if s == [] then [] else [ToLower(s[0])] + Lower(s[1..])
  }

  /** Lowering twice is lowering once. */
  lemma LowerIdempotent(s: string)
    ensures Lower(Lower(s)) == Lower(s)
  {
    forall i | 0 <= i < |s|
      ensures Lower(Lower(s))[i] == Lower(s)[i]
    {
      ToLowerIdempotent(s[i]);
    }
  }

  /** `q` occurs in `s` at index `i`. */
  predicate OccursAt(s: string, q: string, i: int)
  {
    0 <= i && i + |q| <= |s| && s[i..i + |q|] == q
  }

  /** `q` occurs at some index of `s`: the reference meaning of substring search. */
  ghost predicate Occurs(s: string, q: string)
  {
    exists i :: OccursAt(s, q, i)
  }

  /** `s` begins with `q`. */
  predicate StartsWith(s: string, q: string)
  {
    |q| <= |s| && s[..|q|] == q
  }

  /** `String.prototype.includes`: `q` occurs somewhere in `s`; the empty string occurs in every string. */
  function Contains(s: string, q: string): (r: bool)
    ensures q == [] ==> r
    ensures |q| > |s| ==> !r
  {
    StartsWith(s, q) || (s != [] && Contains(s[1..], q))
  }

  /** Where `Contains` holds, `q` occurs at some index of `s`. */
  lemma {:induction false} ContainsHasOccurrence(s: string, q: string) returns (i: int)
    requires Contains(s, q)
    ensures OccursAt(s, q, i)
  {
    if StartsWith(s, q) {
      i := 0;
    } else {
      var j := ContainsHasOccurrence(s[1..], q);
      assert s[1..][j..j + |q|] == s[j + 1..j + 1 + |q|];
      i := j + 1;
    }
  }

  /** An occurrence of `q` at index `i` of `s` makes `Contains` hold. */
  lemma {:induction false} OccurrenceContained(s: string, q: string, i: int)
    requires OccursAt(s, q, i)
    ensures Contains(s, q)
    decreases i
  {
    if i > 0 {
      assert s[1..][i - 1..i - 1 + |q|] == s[i..i + |q|];
      OccurrenceContained(s[1..], q, i - 1);
    } else {
      assert StartsWith(s, q);
    }
  }

  /** `Contains` holds exactly when `q` occurs at some index of `s`. */
  lemma ContainsIffOccurs(s: string, q: string)
    ensures Contains(s, q) <==> Occurs(s, q)
  {
    if Contains(s, q) {
      var i := ContainsHasOccurrence(s, q);
    }
    if Occurs(s, q) {
      var i :| OccursAt(s, q, i);
      OccurrenceContained(s, q, i);
    }
  }

  /** `Contains` agrees with `Occurs` on every pair of strings. */
  lemma ContainsIsOccurs()
    ensures forall s: string, q: string :: Contains(s, q) <==> Occurs(s, q)
  {
    forall s: string, q: string
      ensures Contains(s, q) <==> Occurs(s, q)
    {
      ContainsIffOccurs(s, q);
    }
  }

  /** A string that lacks one of the characters of `q` does not contain `q`. */
  lemma {:induction false} MissingCharNotContained(s: string, q: string, c: char)
    requires c in q && c !in s
    ensures !Contains(s, q)
  {
    if s != [] {
      MissingCharNotContained(s[1..], q, c);
    }
  }

  /** A text in which a Cyrillic small letter occurs neither in small nor in capital form
   *  does not contain it once lowered. */
  lemma LowerOmits(text: string, small: char, capital: char)
    requires 'а' <= small <= 'я' && capital as int == small as int - 32
    requires small !in text && capital !in text
    ensures small !in Lower(text)
  {
    if small in Lower(text) {
      var i :| 0 <= i < |text| && Lower(text)[i] == small;
      ToLowerPreimage(text[i], small);
    }
  }

  /** A lowered text does not contain a query one of whose Cyrillic small letters it lacks in both cases. */
  lemma LoweredLacksLetter(text: string, query: string, small: char, capital: char)
    requires 'а' <= small <= 'я' && capital as int == small as int - 32 && small in query
    requires small !in text && capital !in text
    ensures !Contains(Lower(text), query)
  {
    LowerOmits(text, small, capital);
    MissingCharNotContained(Lower(text), query, small);
  }

  /** A text whose first |q| characters lower to the lowered `q` contains it once both are lowered. */
  lemma LoweredPrefixContained(text: string, q: string)
    requires |q| <= |text| && Lower(text[..|q|]) == Lower(q)
    ensures Contains(Lower(text), Lower(q))
  {
    assert Lower(text)[..|q|] == Lower(text[..|q|]);
  }
}
