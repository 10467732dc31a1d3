/**
 * The field pattern of the extractor, `(\w+):\s+"?([^"]+)"?,?`
 * (convert/convert.go, line 50), under Go's leftmost-first semantics.
 *
 * At a given start several readings of the pattern can exist (how much
 * white space `\s+` takes, whether the first `"?` takes a quote, ...).
 * Go reports the one a backtracking engine finds first: every quantifier
 * here is greedy, so among the readings the preferred one takes, choice by
 * choice from left to right, the longer run or the optional item. Prefers
 * states that order, and ParseAt is proved to return the reading preferred
 * over every other, which reproduces the engine's corner cases: after two or
 * more blanks a `""` leaves one blank as the value, and after exactly one
 * blank it leaves no match at all.
 */
module FieldPattern {

  import opened Wrappers
  import opened Chars
  import opened Regexp

  /**
   * One reading of the pattern from a start p: the key is t[p..keyEnd], the
   * colon is at keyEnd, the blanks are t[keyEnd + 1..spaceEnd], then an
   * optional quote, the value t[ValueStart()..valueEnd], an optional quote
   * and an optional comma.
   */
  datatype Parse = Parse(keyEnd: nat, spaceEnd: nat, openQuote: bool, valueEnd: nat, closeQuote: bool, comma: bool)
  {
    function ValueStart(): nat {
      spaceEnd + (if openQuote then 1 else 0)
    }

    function CloseEnd(): nat {
      valueEnd + (if closeQuote then 1 else 0)
    }

    function End(): nat {
      CloseEnd() + (if comma then 1 else 0)
    }
  }

  /** pt is a way for the pattern to match t from p, read off the pattern piece by piece. */
  predicate IsParse(t: string, p: nat, pt: Parse) {
    && p < pt.keyEnd < |t|
    && AllIn(t, p, pt.keyEnd, Word)                                  // (\w+)
    && t[pt.keyEnd] == ':'                                           // :
    && pt.keyEnd + 1 < pt.spaceEnd <= |t|
    && AllIn(t, pt.keyEnd + 1, pt.spaceEnd, Space)                   // \s+
    && (pt.openQuote ==> pt.spaceEnd < |t| && t[pt.spaceEnd] == '"')  // "?
    && pt.ValueStart() < pt.valueEnd <= |t|
    && AllIn(t, pt.ValueStart(), pt.valueEnd, NotQuote)              // ([^"]+)
    && (pt.closeQuote ==> pt.valueEnd < |t| && t[pt.valueEnd] == '"') // "?
    && (pt.comma ==> pt.CloseEnd() < |t| && t[pt.CloseEnd()] == ',')  // ,?
  }

  /**
   * The backtracking priority: the choices compared left to right, each
   * greedy run preferring more characters and each optional item preferring
   * to be present; the first difference decides.
   */
  predicate Prefers(a: Parse, b: Parse) {
    || a.keyEnd > b.keyEnd
    || (a.keyEnd == b.keyEnd && a.spaceEnd > b.spaceEnd)
    || (a.keyEnd == b.keyEnd && a.spaceEnd == b.spaceEnd
        && (|| (a.openQuote && !b.openQuote)
            || (a.openQuote == b.openQuote && a.valueEnd > b.valueEnd)
            || (a.openQuote == b.openQuote && a.valueEnd == b.valueEnd
                && (|| (a.closeQuote && !b.closeQuote)
                    || (a.closeQuote == b.closeQuote && a.comma && !b.comma)))))
  }

  /** The submatch a reading stands for: the whole match, the key, the value. */
  function ToSubmatch(t: string, p: nat, pt: Parse): Submatch
    requires IsParse(t, p, pt)
  {
    Submatch(p, pt.End(), [t[p..pt.End()], t[p..pt.keyEnd], t[pt.ValueStart()..pt.valueEnd]])
  }

  /**
   * The greedy tail once the key, the blanks and the opening quote are
   * chosen: the value runs to the next quote or the end of the text, that
   * quote is taken as the closing one, and a comma right after it is taken.
   */
  function Rest(t: string, p: nat, keyEnd: nat, spaceEnd: nat, openQuote: bool): (r: Parse)
    requires p < keyEnd < |t| && AllIn(t, p, keyEnd, Word) && t[keyEnd] == ':'
    requires keyEnd + 1 < spaceEnd <= |t| && AllIn(t, keyEnd + 1, spaceEnd, Space)
    requires openQuote ==> spaceEnd < |t| && t[spaceEnd] == '"'
    requires spaceEnd + (if openQuote then 1 else 0) < |t| && t[spaceEnd + (if openQuote then 1 else 0)] != '"'
    ensures IsParse(t, p, r)
    ensures r.End() == |t| || t[r.End() - 1] == '"' || t[r.End() - 1] == ','
  {
    var valueEnd := RunEnd(t, spaceEnd + (if openQuote then 1 else 0), NotQuote);
    var closeQuote := valueEnd < |t|;
    var closeEnd := valueEnd + (if closeQuote then 1 else 0);
    Parse(keyEnd, spaceEnd, openQuote, valueEnd, closeQuote, closeEnd < |t| && t[closeEnd] == ',')
  }

  /**
   * The matcher at one start: read the key and the blanks to their ends;
   * take a quote if a value character follows it; else, if a value
   * character follows the blanks, take no quote; else give back one blank
   * if the blanks are at least two, and let it be the value.
   */
  function ParseAt(t: string, p: nat): (r: Option<Parse>)
    ensures r.Some? ==> IsParse(t, p, r.value)
    ensures r.Some? ==> r.value.End() == |t| || t[r.value.End() - 1] == '"' || t[r.value.End() - 1] == ','
  {
    if p >= |t| then None
    else
      var keyEnd := RunEnd(t, p, Word);
      if keyEnd == p || keyEnd == |t| || t[keyEnd] != ':' then None
      else
        var spaceEnd := RunEnd(t, keyEnd + 1, Space);
        if spaceEnd == keyEnd + 1 then None
        else if spaceEnd + 1 < |t| && t[spaceEnd] == '"' && t[spaceEnd + 1] != '"' then
          Some(Rest(t, p, keyEnd, spaceEnd, true))
        else if spaceEnd < |t| && t[spaceEnd] != '"' then
          Some(Rest(t, p, keyEnd, spaceEnd, false))
        else if spaceEnd >= keyEnd + 3 then
          assert In(Space, t[spaceEnd - 1]);
          Some(Rest(t, p, keyEnd, spaceEnd - 1, false))
        else None
  }

  /** With the first choices fixed, the greedy tail is preferred over any other tail. */
  lemma RestPreferred(t: string, p: nat, b: Parse)
    requires IsParse(t, p, b)
    ensures var a := Rest(t, p, b.keyEnd, b.spaceEnd, b.openQuote); a == b || Prefers(a, b)
  {
  }

  /** No reading takes the blanks to their end when ParseAt had to give one back. */
  lemma NoReadingToBlankEnd(t: string, p: nat, b: Parse)
    requires IsParse(t, p, b)
    requires b.spaceEnd == RunEnd(t, b.keyEnd + 1, Space)
    ensures (b.spaceEnd + 1 < |t| && t[b.spaceEnd] == '"' && t[b.spaceEnd + 1] != '"')
         || (b.spaceEnd < |t| && t[b.spaceEnd] != '"')
  {
  }

  /** ParseAt finds a reading whenever one exists, and it is preferred over every other. */
  lemma ParseAtPreferred(t: string, p: nat, b: Parse)
    requires IsParse(t, p, b)
    ensures ParseAt(t, p).Some?
    ensures ParseAt(t, p).value == b || Prefers(ParseAt(t, p).value, b)
  {
    RunEndExact(t, p, b.keyEnd, Word);
    var spaceEnd := RunEnd(t, b.keyEnd + 1, Space);
    RunEndMaximal(t, b.keyEnd + 1, b.spaceEnd, Space);
    if b.spaceEnd == spaceEnd {
      PreferredAllBlanks(t, p, b);
    } else if b.spaceEnd == spaceEnd - 1 && !(spaceEnd < |t| && t[spaceEnd] != '"')
              && !(spaceEnd + 1 < |t| && t[spaceEnd] == '"' && t[spaceEnd + 1] != '"') {
      PreferredOneBlankBack(t, p, b);
    } else {
      PreferredMoreBlanks(t, p, b);
    }
  }

  /** A reading that takes every blank loses to (or is) the greedy tail ParseAt picks. */
  lemma PreferredAllBlanks(t: string, p: nat, b: Parse)
    requires IsParse(t, p, b) && RunEnd(t, p, Word) == b.keyEnd
    requires b.spaceEnd == RunEnd(t, b.keyEnd + 1, Space)
    ensures ParseAt(t, p).Some?
    ensures ParseAt(t, p).value == b || Prefers(ParseAt(t, p).value, b)
  {
  }

  /** A reading that gives back one blank, where ParseAt has to do the same. */
  lemma PreferredOneBlankBack(t: string, p: nat, b: Parse)
    requires IsParse(t, p, b) && RunEnd(t, p, Word) == b.keyEnd
    requires var spaceEnd := RunEnd(t, b.keyEnd + 1, Space);
      && b.spaceEnd == spaceEnd - 1 && !(spaceEnd < |t| && t[spaceEnd] != '"')
      && !(spaceEnd + 1 < |t| && t[spaceEnd] == '"' && t[spaceEnd + 1] != '"')
    ensures ParseAt(t, p).Some?
    ensures ParseAt(t, p).value == b || Prefers(ParseAt(t, p).value, b)
  {
  }

  /** Any other reading takes fewer blanks than the one ParseAt picks. */
  lemma PreferredMoreBlanks(t: string, p: nat, b: Parse)
    requires IsParse(t, p, b) && RunEnd(t, p, Word) == b.keyEnd
    requires var spaceEnd := RunEnd(t, b.keyEnd + 1, Space);
      && b.spaceEnd < spaceEnd
      && !(b.spaceEnd == spaceEnd - 1 && !(spaceEnd < |t| && t[spaceEnd] != '"')
           && !(spaceEnd + 1 < |t| && t[spaceEnd] == '"' && t[spaceEnd + 1] != '"'))
    ensures ParseAt(t, p).Some?
    ensures Prefers(ParseAt(t, p).value, b)
  {
  }

  /** The field matcher handed to FindAll. */
  function FieldAt(t: string, p: nat): (r: Option<Submatch>)
    ensures r.Some? ==> r.value.start == p && p < r.value.end <= |t|
    ensures r.Some? ==> |r.value.group| == 3 && r.value.group[0] == t[p..r.value.end]
    ensures r.Some? ==> IsWordString(r.value.group[1]) && r.value.group[2] != [] && NoQuote(r.value.group[2])
    ensures r.Some? ==> r.value.end == |t| || t[r.value.end - 1] == '"' || t[r.value.end - 1] == ','
  {
    match ParseAt(t, p)
    case None => None
    case Some(pt) => ToSubmatchGroups(t, p, pt); Some(ToSubmatch(t, p, pt))
  }

  /** The key read by a reading is a word, its value a non-empty text without quotes. */
  lemma ToSubmatchGroups(t: string, p: nat, pt: Parse)
    requires IsParse(t, p, pt)
    ensures IsWordString(t[p..pt.keyEnd])
    ensures t[pt.ValueStart()..pt.valueEnd] != [] && NoQuote(t[pt.ValueStart()..pt.valueEnd])
  {
  }

  /** The key of a match is the text from its start up to the colon. */
  lemma FieldAtKey(t: string, m: Submatch)
    requires FieldAt(t, m.start) == Some(m)
    ensures var key := m.group[1];
      m.start + |key| < |t| && t[m.start..m.start + |key| + 1] == key + ":"
  {
  }

  lemma FieldAtWellBehaved()
    ensures WellBehaved(FieldAt)
  {
  }

  /**
   * FieldAt is the leftmost-first match at p: there is a match exactly when
   * the pattern can be read from p, and then it is the reading preferred
   * over every other.
   */
  lemma FieldAtLeftmostFirst(t: string, p: nat)
    ensures FieldAt(t, p).Some? <==> exists b :: IsParse(t, p, b)
    ensures FieldAt(t, p).Some? ==>
      exists a :: IsParse(t, p, a) && FieldAt(t, p) == Some(ToSubmatch(t, p, a))
        && forall b :: IsParse(t, p, b) ==> b == a || Prefers(a, b)
  {
    forall b | IsParse(t, p, b)
      ensures ParseAt(t, p).Some? && (ParseAt(t, p).value == b || Prefers(ParseAt(t, p).value, b))
    {
      ParseAtPreferred(t, p, b);
    }
  }

  /** Prefers is a strict order, so the preferred reading is unique. */
  lemma PrefersStrict(a: Parse, b: Parse, c: Parse)
    ensures !Prefers(a, a)
    ensures Prefers(a, b) ==> !Prefers(b, a)
    ensures Prefers(a, b) && Prefers(b, c) ==> Prefers(a, c)
  {
  }

  /** A colon not followed by white space (as in `a:1`) gives no match. */
  lemma NoBlankNoMatch(t: string, p: nat, k: nat)
    requires p < k < |t| - 1 && AllIn(t, p, k, Word) && t[k] == ':' && !In(Space, t[k + 1])
    ensures FieldAt(t, p).None?
  {
  }

  /** `k: ""` with exactly one blank gives no match at the key. */
  lemma EmptyQuotesAfterOneBlank(t: string, p: nat, k: nat)
    requires p < k && k + 3 < |t| && AllIn(t, p, k, Word) && t[k] == ':'
    requires In(Space, t[k + 1]) && t[k + 2] == '"' && t[k + 3] == '"'
    ensures FieldAt(t, p).None?
  {
  }

  /**
   * `k:  ""` with two or more blanks: the engine gives one blank back, which
   * becomes the value, and the first quote is taken as the closing one.
   */
  lemma EmptyQuotesAfterBlanks(t: string, p: nat, k: nat, s: nat)
    requires p < k && k + 3 <= s && s + 1 < |t| && AllIn(t, p, k, Word) && t[k] == ':'
    requires AllIn(t, k + 1, s, Space) && t[s] == '"' && t[s + 1] == '"'
    ensures FieldAt(t, p) == Some(Submatch(p, s + 1, [t[p..s + 1], t[p..k], t[s - 1..s]]))
  {
  }

  /**
   * A quoted value: after the blanks, a quote and then the text up to the
   * next quote (or the end); the value is that text, with the quotes
   * stripped and nothing unescaped, and a closing quote is consumed.
   */
  lemma QuotedValue(t: string, p: nat, k: nat, s: nat, e: nat)
    requires p < k && k + 1 < s && s + 1 < e <= |t| && AllIn(t, p, k, Word) && t[k] == ':'
    requires AllIn(t, k + 1, s, Space) && t[s] == '"'
    requires AllIn(t, s + 1, e, NotQuote) && (e == |t| || t[e] == '"')
    ensures FieldAt(t, p).Some?
    ensures FieldAt(t, p).value.group[1] == t[p..k] && FieldAt(t, p).value.group[2] == t[s + 1..e]
    ensures e < |t| ==> FieldAt(t, p).value.end > e
  {
    RunEndExact(t, s + 1, e, NotQuote);
    var pt := Rest(t, p, k, s, true);
    assert pt.valueEnd == e && pt.ValueStart() == s + 1;
    ReadAt(t, p, k, s, true);
    assert FieldAt(t, p) == Some(ToSubmatch(t, p, pt));
  }

  /**
   * An unquoted value runs to the next quote or the end of the text, commas,
   * blanks and newlines included; that quote is then consumed as the
   * optional closing quote.
   */
  lemma UnquotedValue(t: string, p: nat, k: nat, s: nat, e: nat)
    requires p < k && k + 1 < s < e <= |t| && AllIn(t, p, k, Word) && t[k] == ':'
    requires AllIn(t, k + 1, s, Space) && !In(Space, t[s])
    requires AllIn(t, s, e, NotQuote) && (e == |t| || t[e] == '"')
    ensures FieldAt(t, p).Some?
    ensures FieldAt(t, p).value.group[1] == t[p..k] && FieldAt(t, p).value.group[2] == t[s..e]
    ensures e < |t| ==> FieldAt(t, p).value.end > e
  {
    RunEndExact(t, s, e, NotQuote);
    var pt := Rest(t, p, k, s, false);
    assert pt.valueEnd == e;
    ReadAt(t, p, k, s, false);
    assert FieldAt(t, p) == Some(ToSubmatch(t, p, pt));
  }

  /**
   * With the key run and the blank run both maximal, and a value character
   * after the blanks (behind a quote or not), the matcher takes the greedy
   * tail from there.
   */
  lemma ReadAt(t: string, p: nat, k: nat, s: nat, openQuote: bool)
    requires p < k && k + 1 < s < |t| && AllIn(t, p, k, Word) && t[k] == ':'
    requires AllIn(t, k + 1, s, Space) && !In(Space, t[s])
    requires openQuote <==> t[s] == '"'
    requires openQuote ==> s + 1 < |t| && t[s + 1] != '"'
    ensures ParseAt(t, p) == Some(Rest(t, p, k, s, openQuote))
  {
    RunEndExact(t, p, k, Word);
    RunEndExact(t, k + 1, s, Space);
  }

  /**
   * A match at p preceded by a word character would also be a match one
   * character earlier (the key would just be longer): so where the earlier
   * position does not match, the character before p is not a word character.
   */
  lemma FieldAtExtendsLeft(t: string, p: nat)
    requires 0 < p <= |t| && FieldAt(t, p).Some?
    ensures FieldAt(t, p - 1).None? ==> !In(Word, t[p - 1])
  {
  }

  /** A match that starts where another match ends is not preceded by a word character. */
  lemma FieldAtAfterMatch(t: string, prev: Submatch, m: Submatch)
    requires FieldAt(t, prev.start) == Some(prev) && FieldAt(t, m.start) == Some(m) && prev.end == m.start
    ensures 0 < m.start <= |t| && !In(Word, t[m.start - 1])
  {
  }
}
