/** The two Python string operations the classifier relies on:
    `str.lower()` (restricted to ASCII) and the substring test `w in c`. */
module PyStr {

  predicate IsAsciiUpper(ch: char) {
    'A' <= ch <= 'Z'
  }

  /** Lower-casing of one character; only the ASCII letters A-Z change. */
  function LowerChar(ch: char): char {
    if IsAsciiUpper(ch) then (ch as int + ('a' as int - 'A' as int)) as char else ch
  }

  /** `s.lower()`: the string of the same length with every character lower-cased. */
  function Lower(s: string): (r: string)
    ensures |r| == |s|
    ensures forall i :: 0 <= i < |r| ==> !IsAsciiUpper(r[i])
    ensures forall i :: 0 <= i < |s| ==>
      r[i] == s[i] || (IsAsciiUpper(s[i]) && r[i] as int == s[i] as int + 32)
  {
    seq(|s|, i requires 0 <= i < |s| => LowerChar(s[i]))
  }

  /** Lower-casing a lower-cased string changes nothing. */
  lemma LowerIdempotent(s: string)
    ensures Lower(Lower(s)) == Lower(s)
  {
  }

  /** A string with no upper-case letter is its own lower-cased form. */
  lemma LowerOfLowercase(s: string)
    requires forall i :: 0 <= i < |s| ==> !IsAsciiUpper(s[i])
    ensures Lower(s) == s
  {
  }

  /** Lower-casing works character by character, so it distributes over concatenation. */
  lemma LowerAppend(a: string, b: string)
    ensures Lower(a + b) == Lower(a) + Lower(b)
  {
  }

  /** Specification of Python's `needle in hay` on strings: some position of `hay`
      starts a copy of `needle`. The empty string occurs in every string. */
  ghost predicate Occurs(needle: string, hay: string) {
    exists i :: 0 <= i <= |hay| - |needle| && needle <= hay[i..]
  }

  /** `needle in hay`, computed by trying every start position from the left. */
  function Contains(hay: string, needle: string): (r: bool)
    ensures r <==> Occurs(needle, hay)
  {
    if needle <= hay then
      assert needle <= hay[0..];
      true
    else if |hay| == 0 then
      false
    else
      var r := Contains(hay[1..], needle);
      assert forall i :: 1 <= i <= |hay| && needle <= hay[i..] ==> needle <= hay[1..][i - 1..];
      assert forall i :: 0 <= i < |hay| && needle <= hay[1..][i..] ==> needle <= hay[i + 1..];
      r
  }

  /** A string occurs in any string that embeds it between a prefix and a suffix. */
  lemma OccursInMiddle(pre: string, w: string, post: string)
    ensures Occurs(w, pre + w + post)
  {
    var hay := pre + w + post;
    assert w <= hay[|pre|..];
  }
}
