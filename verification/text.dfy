/** Case-insensitive name comparison, `a.toLowerCase() === b.toLowerCase()`,
    over the ASCII letters. */
module Text {

  predicate IsUpper(c: char) {
    'A' <= c <= 'Z'
  }

  /** The lower-case form of one character: upper-case ASCII letters move
      to the matching lower-case letter, every other character is kept. */
  function LowerChar(c: char): (r: char)
    ensures !IsUpper(r)
    ensures !IsUpper(c) ==> r == c
    ensures IsUpper(c) ==> 'a' <= r <= 'z' && r as int - 'a' as int == c as int - 'A' as int
  {
    if IsUpper(c) then (c as int - 'A' as int + 'a' as int) as char else c
  }

  /** The lower-case form of a string, character by character. */
  function Lower(s: string): (r: string)
    ensures |r| == |s|
    ensures forall i :: 0 <= i < |s| ==> r[i] == LowerChar(s[i])
  {
    if |s| == 0 then [] else [LowerChar(s[0])] + Lower(s[1..])
  }

  /** Lower-casing is idempotent, so a lower-cased key is its own key. */
  lemma LowerIdempotent(s: string)
    ensures Lower(Lower(s)) == Lower(s)
  {
  }

  /** Two names are the same ingredient when their lower-case forms agree:
      equal lengths, and equal characters position by position once each is
      lower-cased. */
  function SameName(a: string, b: string): (r: bool)
    ensures r <==> |a| == |b| && forall i :: 0 <= i < |a| ==> LowerChar(a[i]) == LowerChar(b[i])
  {
    Lower(a) == Lower(b)
  }

  /** Names that differ in some character position after lower-casing are
      different ingredients; used to tell the built-in names apart. */
  lemma DifferAt(a: string, b: string, i: nat)
    requires i < |a| && i < |b|
    requires LowerChar(a[i]) != LowerChar(b[i])
    ensures !SameName(a, b)
  {
    assert Lower(a)[i] != Lower(b)[i];
  }
}
