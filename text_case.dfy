/** Python's `str.lower()`, as the service applies it to token names and
    provider identifiers before every read and write of the price table.
    Only the ASCII letters are folded here. */
module TextCase {

  predicate IsUpperAscii(c: char) {
    'A' <= c <= 'Z'
  }

  /** The lower-case form of one character. */
  function LowerChar(c: char): (r: char)
    ensures !IsUpperAscii(r)
    ensures IsUpperAscii(c) ==> r as int == c as int + ('a' as int - 'A' as int)
    ensures !IsUpperAscii(c) ==> r == c
  {
    if IsUpperAscii(c) then (c as int - 'A' as int + 'a' as int) as char else c
  }

  /** A string that `lower()` leaves as it is. */
  predicate IsLower(s: string) {
    forall i :: 0 <= i < |s| ==> !IsUpperAscii(s[i])
  }

  function Lower(s: string): (r: string)
    ensures |r| == |s|
    ensures forall i :: 0 <= i < |s| ==> r[i] == LowerChar(s[i])
  {
    if s == [] then [] else [LowerChar(s[0])] + Lower(s[1..])
  }

  /** Lower-casing yields a lower-case string, and it changes nothing in
      exactly the strings that are already lower-case. */
  lemma LowerCharacterisation(s: string)
    ensures IsLower(Lower(s))
    ensures Lower(s) == s <==> IsLower(s)
  {
  }

  /** Lower-casing twice is lower-casing once. */
  lemma LowerIdempotent(s: string)
    ensures Lower(Lower(s)) == Lower(s)
  {
  }
}
