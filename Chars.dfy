/**
 * The character classes of the two patterns of the extractor, with the
 * definitions of Go's regexp package (RE2 syntax), and the maximal run of a
 * class, which is what a greedy `+` over one class reads.
 */
module Chars {

  /** The classes the patterns use. */
  datatype Class =
    | Word           // \w    = [0-9A-Za-z_]
    | Space          // \s    = [\t\n\f\r ] (no vertical tab)
    | NotCloseBrace  // [^}]  (newline included)
    | NotQuote       // [^"]  (newline included)

  predicate In(cls: Class, c: char) {
    match cls
    case Word => ('0' <= c <= '9') || ('A' <= c <= 'Z') || ('a' <= c <= 'z') || c == '_'
    case Space => c == '\t' || c == '\n' || c == '\U{000C}' || c == '\r' || c == ' '
    case NotCloseBrace => c != '}'
    case NotQuote => c != '"'
  }

  /** Every character of t[i..j] belongs to cls. */
  predicate AllIn(t: string, i: nat, j: nat, cls: Class)
    requires i <= j <= |t|
  {
    forall k :: i <= k < j ==> In(cls, t[k])
  }

  /** A non-empty string of word characters. */
  predicate IsWordString(s: string) {
    |s| > 0 && forall k :: 0 <= k < |s| ==> In(Word, s[k])
  }

  /** A non-empty string of white space. */
  predicate IsSpaces(s: string) {
    |s| > 0 && forall k :: 0 <= k < |s| ==> In(Space, s[k])
  }

  /** A string without a double quote. */
  predicate NoQuote(s: string) {
    forall k :: 0 <= k < |s| ==> s[k] != '"'
  }

  /**
   * The end of the maximal run of cls starting at i: everything in
   * t[i..r] is in cls, and t[r] is not (or r is the end of the text).
   */
  function RunEnd(t: string, i: nat, cls: Class): (r: nat)
    requires i <= |t|
    decreases |t| - i
    ensures i <= r <= |t|
    ensures AllIn(t, i, r, cls)
    ensures r == |t| || !In(cls, t[r])
  {
    if i == |t| || !In(cls, t[i]) then i else RunEnd(t, i + 1, cls)
  }

  /** No run of cls from i reaches past the maximal one. */
  lemma RunEndMaximal(t: string, i: nat, j: nat, cls: Class)
    requires i <= j <= |t| && AllIn(t, i, j, cls)
    ensures j <= RunEnd(t, i, cls)
  {
  }

  /** A run of cls that cannot be extended is the maximal one. */
  lemma RunEndExact(t: string, i: nat, j: nat, cls: Class)
    requires i <= j <= |t| && AllIn(t, i, j, cls)
    requires j == |t| || !In(cls, t[j])
    ensures RunEnd(t, i, cls) == j
  {
  }

  /** Word characters are never quotes, so a word string holds no quote. */
  lemma WordStringNoQuote(s: string)
    requires IsWordString(s)
    ensures NoQuote(s)
  {
  }
}
