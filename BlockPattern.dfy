/**
 * The model-block pattern of the extractor, `(?m)^model\s+(\w+)\s+\{([^}]+)\}`
 * (convert/convert.go, line 31). Neighbouring classes are disjoint, so at a
 * given position at most one way of matching exists: the matcher reads each
 * greedy run to its end and the match, if any, is unique.
 */
module BlockPattern {

  import opened Wrappers
  import opened Chars
  import opened Regexp

  const KEYWORD: string := "model"

  /** `^` under (?m): the start of the text, or just after a newline. */
  predicate LineStart(t: string, p: nat) {
    p == 0 || (p <= |t| && t[p - 1] == '\n')
  }

  /**
   * Where the pieces of one match fall: the name is t[nameStart..nameEnd],
   * the opening brace is at bodyStart - 1, the body is t[bodyStart..bodyEnd]
   * and the closing brace is at bodyEnd.
   */
  datatype Parse = Parse(nameStart: nat, nameEnd: nat, bodyStart: nat, bodyEnd: nat)

  /** pt is a way for the pattern to match t from p, read off the pattern piece by piece. */
  predicate IsParse(t: string, p: nat, pt: Parse) {
    && LineStart(t, p)
    && p + |KEYWORD| < pt.nameStart < pt.nameEnd
    && pt.nameEnd + 1 < pt.bodyStart < pt.bodyEnd < |t|
    && t[p..p + |KEYWORD|] == KEYWORD                       // model
    && AllIn(t, p + |KEYWORD|, pt.nameStart, Space)         // \s+
    && AllIn(t, pt.nameStart, pt.nameEnd, Word)             // (\w+)
    && AllIn(t, pt.nameEnd, pt.bodyStart - 1, Space)        // \s+
    && t[pt.bodyStart - 1] == '{'                           // \{
    && AllIn(t, pt.bodyStart, pt.bodyEnd, NotCloseBrace)    // ([^}]+)
    && t[pt.bodyEnd] == '}'                                 // \}
  }

  /** The submatch a parse stands for: the whole match, the name, the body. */
  function ToSubmatch(t: string, p: nat, pt: Parse): Submatch
    requires IsParse(t, p, pt)
  {
    Submatch(p, pt.bodyEnd + 1, [t[p..pt.bodyEnd + 1], t[pt.nameStart..pt.nameEnd], t[pt.bodyStart..pt.bodyEnd]])
  }

  /** The matcher: read each greedy run to its end, then check what must follow. */
  function ParseAt(t: string, p: nat): (r: Option<Parse>)
    ensures r.Some? ==> IsParse(t, p, r.value)
  {
    if !(LineStart(t, p) && p + |KEYWORD| <= |t| && t[p..p + |KEYWORD|] == KEYWORD) then None
    else
      var nameStart := RunEnd(t, p + |KEYWORD|, Space);
      var nameEnd := RunEnd(t, nameStart, Word);
      var brace := RunEnd(t, nameEnd, Space);
      if nameStart == p + |KEYWORD| || nameEnd == nameStart || brace == nameEnd || brace == |t| || t[brace] != '{' then None
      else
        var bodyEnd := RunEnd(t, brace + 1, NotCloseBrace);
        if bodyEnd == brace + 1 || bodyEnd == |t| then None
        else Some(Parse(nameStart, nameEnd, brace + 1, bodyEnd))
  }

  /** Every way of matching is the one ParseAt finds: the parse at p is unique. */
  lemma ParseAtComplete(t: string, p: nat, pt: Parse)
    requires IsParse(t, p, pt)
    ensures ParseAt(t, p) == Some(pt)
  {
    RunEndExact(t, p + |KEYWORD|, pt.nameStart, Space);
    RunEndExact(t, pt.nameStart, pt.nameEnd, Word);
    RunEndExact(t, pt.nameEnd, pt.bodyStart - 1, Space);
    RunEndExact(t, pt.bodyStart, pt.bodyEnd, NotCloseBrace);
    ParseAtRuns(t, p, pt.nameStart, pt.nameEnd, pt.bodyStart - 1, pt.bodyEnd);
  }

  /** The matcher's decisions once the ends of its four greedy runs are known. */
  lemma ParseAtRuns(t: string, p: nat, nameStart: nat, nameEnd: nat, brace: nat, bodyEnd: nat)
    requires LineStart(t, p) && p + |KEYWORD| < nameStart < nameEnd < brace && brace + 1 < bodyEnd < |t|
    requires t[p..p + |KEYWORD|] == KEYWORD && t[brace] == '{'
    requires RunEnd(t, p + |KEYWORD|, Space) == nameStart && RunEnd(t, nameStart, Word) == nameEnd
    requires RunEnd(t, nameEnd, Space) == brace && RunEnd(t, brace + 1, NotCloseBrace) == bodyEnd
    ensures ParseAt(t, p) == Some(Parse(nameStart, nameEnd, brace + 1, bodyEnd))
  {
  }

  /** The block matcher handed to FindAll. */
  function BlockAt(t: string, p: nat): (r: Option<Submatch>)
    ensures r.Some? ==> r.value.start == p && p < r.value.end <= |t|
    ensures r.Some? ==> |r.value.group| == 3 && r.value.group[0] == t[p..r.value.end]
  {
    match ParseAt(t, p)
    case None => None
    case Some(pt) => Some(ToSubmatch(t, p, pt))
  }

  lemma BlockAtWellBehaved()
    ensures WellBehaved(BlockAt)
  {
  }

  /** A block matches at p exactly when the pattern can be read there, and then it is that reading. */
  lemma BlockAtIffParse(t: string, p: nat)
    ensures BlockAt(t, p).Some? <==> exists pt :: IsParse(t, p, pt)
    ensures forall pt :: IsParse(t, p, pt) ==> BlockAt(t, p) == Some(ToSubmatch(t, p, pt))
  {
    forall pt | IsParse(t, p, pt)
      ensures BlockAt(t, p) == Some(ToSubmatch(t, p, pt))
    {
      ParseAtComplete(t, p, pt);
    }
  }

  /**
   * What a block match looks like: it starts at a line start and reads
   * `model`, white space, the name (a non-empty word), white space, `{`,
   * a non-empty body without `}`, and the `}` that closes it, which is
   * therefore the first `}` after the brace.
   */
  lemma BlockAtShape(t: string, p: nat)
    requires BlockAt(t, p).Some?
    ensures var m := BlockAt(t, p).value;
      && LineStart(t, p)
      && IsWordString(m.group[1])
      && m.group[2] != [] && (forall k :: 0 <= k < |m.group[2]| ==> m.group[2][k] != '}')
      && exists ws1, ws2 :: IsSpaces(ws1) && IsSpaces(ws2)
           && m.group[0] == KEYWORD + ws1 + m.group[1] + ws2 + "{" + m.group[2] + "}"
  {
    var pt := ParseAt(t, p).value;
    var m := BlockAt(t, p).value;
    assert m == ToSubmatch(t, p, pt);
    ParseShape(t, p, pt);
    ParseBlanks(t, p, pt);
    ParseGroups(t, p, pt);
    var ws1, ws2 := t[p + |KEYWORD|..pt.nameStart], t[pt.nameEnd..pt.bodyStart - 1];
    assert m.group[0] == KEYWORD + ws1 + m.group[1] + ws2 + "{" + m.group[2] + "}";
  }

  lemma ParseShape(t: string, p: nat, pt: Parse)
    requires IsParse(t, p, pt)
    ensures var k := p + |KEYWORD|;
      t[p..pt.bodyEnd + 1]
        == KEYWORD + t[k..pt.nameStart] + t[pt.nameStart..pt.nameEnd] + t[pt.nameEnd..pt.bodyStart - 1]
           + "{" + t[pt.bodyStart..pt.bodyEnd] + "}"
  {
  }

  /** The name a reading captures is a word, and its body is non-empty and holds no `}`. */
  lemma ParseGroups(t: string, p: nat, pt: Parse)
    requires IsParse(t, p, pt)
    ensures IsWordString(t[pt.nameStart..pt.nameEnd])
    ensures var body := t[pt.bodyStart..pt.bodyEnd];
      body != [] && forall k :: 0 <= k < |body| ==> body[k] != '}'
  {
  }

  /** The two runs of white space of a reading are non-empty. */
  lemma ParseBlanks(t: string, p: nat, pt: Parse)
    requires IsParse(t, p, pt)
    ensures IsSpaces(t[p + |KEYWORD|..pt.nameStart]) && IsSpaces(t[pt.nameEnd..pt.bodyStart - 1])
  {
  }

  /** A name run straight into `{` (as in `model User{`) makes no block. */
  lemma NoSpaceBeforeBrace(t: string, p: nat, nameStart: nat, nameEnd: nat)
    requires p + |KEYWORD| < nameStart < nameEnd < |t|
    requires AllIn(t, p + |KEYWORD|, nameStart, Space) && AllIn(t, nameStart, nameEnd, Word)
    requires t[nameEnd] == '{'
    ensures BlockAt(t, p).None?
  {
  }

  /** The keyword must be followed by white space, so `models X {` makes no block. */
  lemma KeywordNeedsSpace(t: string, p: nat)
    requires p + |KEYWORD| < |t| && !In(Space, t[p + |KEYWORD|])
    ensures BlockAt(t, p).None?
  {
  }

  /** An empty body (`model A {}`) makes no block. */
  lemma EmptyBodyNoBlock(t: string, p: nat, nameStart: nat, nameEnd: nat, brace: nat)
    requires p + |KEYWORD| < nameStart < nameEnd < brace < |t| - 1
    requires AllIn(t, p + |KEYWORD|, nameStart, Space) && AllIn(t, nameStart, nameEnd, Word)
    requires AllIn(t, nameEnd, brace, Space) && t[brace] == '{' && t[brace + 1] == '}'
    ensures BlockAt(t, p).None?
  {
  }

  /** Without a `}` after the brace there is no block at p. */
  lemma UnclosedNoBlock(t: string, p: nat)
    requires forall k :: p <= k < |t| ==> t[k] != '}'
    ensures BlockAt(t, p).None?
  {
  }
}
