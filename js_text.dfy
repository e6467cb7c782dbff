/**
 * The two JavaScript string operations the compliance screen relies on:
 * `toLowerCase` (restricted to ASCII letters) and `includes`.
 */
module JsText {

  predicate IsAsciiUpper(c: char) {
    'A' <= c <= 'Z'
  }

  /** One character of `toLowerCase`: ASCII capitals become small letters, all else is kept. */
  function LowerChar(c: char): (d: char)
    ensures !IsAsciiUpper(d)
    ensures IsAsciiUpper(c) ==> 'a' <= d <= 'z' && d as int - 'a' as int == c as int - 'A' as int
    ensures !IsAsciiUpper(c) ==> d == c
  {
    if IsAsciiUpper(c) then (c as int + 32) as char else c
  }

  /** `s.toLowerCase()` for ASCII capitals: the same length, lowered character by character. */
  function ToLower(s: string): (r: string)
    ensures |r| == |s|
    ensures forall i :: 0 <= i < |s| ==> r[i] == LowerChar(s[i])
  {
    if s == [] then [] else [LowerChar(s[0])] + ToLower(s[1..])
  }

  /** Lowering twice is lowering once. */
  lemma ToLowerIdempotent(s: string)
    ensures ToLower(ToLower(s)) == ToLower(s)
  {
    var once := ToLower(s);
    forall i | 0 <= i < |s|
      ensures ToLower(once)[i] == once[i]
    {
    }
  }

  /** `word` occurs in `text` starting at index `i`. */
  predicate OccursAt(text: string, word: string, i: int) {
    0 <= i && i + |word| <= |text| && text[i..i + |word|] == word
  }

  /** `text.includes(word)`: a left-to-right search for `word` in `text`. */
  function Includes(text: string, word: string): bool
    decreases |text|
  {
    if |text| < |word| then false
    else if text[..|word|] == word then true
    else Includes(text[1..], word)
  }

  /** The search succeeds exactly when `word` is a substring of `text`. */
  lemma {:induction false} IncludesIffOccurs(text: string, word: string)
    ensures Includes(text, word) <==> exists i :: OccursAt(text, word, i)
    decreases |text|
  {
    if |text| < |word| {
    } else if text[..|word|] == word {
      assert OccursAt(text, word, 0);
    } else {
      var rest := text[1..];
      IncludesIffOccurs(rest, word);
      if j :| OccursAt(rest, word, j) {
        assert text[j + 1..j + 1 + |word|] == rest[j..j + |word|];
        assert OccursAt(text, word, j + 1);
      }
      if i :| OccursAt(text, word, i) {
        assert i != 0;
        assert rest[i - 1..i - 1 + |word|] == text[i..i + |word|];
        assert OccursAt(rest, word, i - 1);
      }
    }
  }
}
