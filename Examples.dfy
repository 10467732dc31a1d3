/**
 * Worked inputs for the extractor, each pinned down to the exact matches or
 * records the code produces. The lemmas evaluate the matchers on short
 * schema texts and close the FindAll results with FindAllOne, FindAllTwo and
 * FindAllNone, so every claim is the whole output, not one property of it.
 */
module Examples {

  import opened Wrappers
  import opened Chars
  import opened Regexp
  import BlockPattern
  import FieldPattern
  import opened Convert

  /** The document of a text with one block whose body has one field match. */
  lemma OneFieldDocument(content: string, b: Submatch, f: Submatch)
    requires ScanBlocks(content) == [b] && |b.group| == 3
    requires ExtractFields(b.group[2]) == [f] && |f.group| == 3
    ensures Document(content) == [map["model" := b.group[1], f.group[1] := f.group[2]]]
  {
    OneFieldRecord(b.group[1], b.group[2], f);
    assert Document(content)[0] == RecordOf(b);
  }

  /** The document of a text with two blocks whose bodies have one field match each. */
  lemma TwoFieldDocuments(content: string, b1: Submatch, f1: Submatch, b2: Submatch, f2: Submatch)
    requires ScanBlocks(content) == [b1, b2] && |b1.group| == 3 && |b2.group| == 3
    requires ExtractFields(b1.group[2]) == [f1] && |f1.group| == 3
    requires ExtractFields(b2.group[2]) == [f2] && |f2.group| == 3
    ensures Document(content)
         == [map["model" := b1.group[1], f1.group[1] := f1.group[2]], map["model" := b2.group[1], f2.group[1] := f2.group[2]]]
  {
    OneFieldRecord(b1.group[1], b1.group[2], f1);
    OneFieldRecord(b2.group[1], b2.group[2], f2);
    assert Document(content)[0] == RecordOf(b1) && Document(content)[1] == RecordOf(b2);
  }

  /** The document of a text with one block whose body has two field matches. */
  lemma TwoFieldDocument(content: string, b: Submatch, f1: Submatch, f2: Submatch)
    requires ScanBlocks(content) == [b] && |b.group| == 3
    requires ExtractFields(b.group[2]) == [f1, f2] && |f1.group| == 3 && |f2.group| == 3
    ensures Document(content) == [map["model" := b.group[1], f1.group[1] := f1.group[2], f2.group[1] := f2.group[2]]]
  {
    TwoFieldRecord(b, f1, f2);
    assert Document(content)[0] == RecordOf(b);
  }

  lemma TwoFieldRecord(b: Submatch, f1: Submatch, f2: Submatch)
    requires |b.group| == 3
    requires ExtractFields(b.group[2]) == [f1, f2] && |f1.group| == 3 && |f2.group| == 3
    ensures RecordOf(b) == map["model" := b.group[1], f1.group[1] := f1.group[2], f2.group[1] := f2.group[2]]
  {
    var base := map["model" := b.group[1]];
    var fs := FieldsOf([f1, f2]);
    assert fs == [Field(f1.group[1], f1.group[2]), Field(f2.group[1], f2.group[2])];
    assert fs[..1] == [Field(f1.group[1], f1.group[2])] && fs[..1][..0] == [];
    assert Overlay(base, fs[..1]) == base[f1.group[1] := f1.group[2]];
  }

  /** The record of a body with one field match. */
  lemma OneFieldRecord(name: string, body: string, f: Submatch)
    requires ExtractFields(body) == [f] && |f.group| == 3
    ensures Record(name, FieldsOf(ExtractFields(body))) == map["model" := name][f.group[1] := f.group[2]]
  {
    var fs := FieldsOf([f]);
    assert fs == [Field(f.group[1], f.group[2])] && fs[..|fs| - 1] == [];
    assert Overlay(map["model" := name], fs[..|fs| - 1]) == map["model" := name];
  }

  lemma OneBlockBlockRun1()
    ensures RunEnd("model A { x: 1 }", 5, Space) == 6
  {
  }

  lemma OneBlockBlockRun2()
    ensures RunEnd("model A { x: 1 }", 6, Word) == 7
  {
  }

  lemma OneBlockBlockRun3()
    ensures RunEnd("model A { x: 1 }", 7, Space) == 8
  {
  }

  lemma OneBlockBlockRun4()
    ensures RunEnd("model A { x: 1 }", 9, NotCloseBrace) == 15
  {
  }

  lemma OneBlockBlockParse()
    ensures BlockPattern.ParseAt("model A { x: 1 }", 0) == Some(BlockPattern.Parse(6, 7, 9, 15))
  {
    var t := "model A { x: 1 }";
    OneBlockBlockRun1(); OneBlockBlockRun2(); OneBlockBlockRun3(); OneBlockBlockRun4();
    assert t[0..5] == "model";
    assert BlockPattern.ParseAt(t, 0) == Some(BlockPattern.Parse(6, 7, 9, 15));
  }

  lemma OneBlockBlockSlices()
    ensures "model A { x: 1 }"[0..16] == "model A { x: 1 }"
    ensures "model A { x: 1 }"[6..7] == "A"
    ensures "model A { x: 1 }"[9..15] == " x: 1 "
  {
  }

  lemma OneBlockBlock()
    ensures BlockPattern.BlockAt("model A { x: 1 }", 0) == Some(Submatch(0, 16, ["model A { x: 1 }", "A", " x: 1 "]))
  {
    var t := "model A { x: 1 }";
    OneBlockBlockParse();
    OneBlockBlockSlices();
    assert BlockPattern.BlockAt(t, 0) == Some(Submatch(0, 16, [t[0..16], t[6..7], t[9..15]]));
  }

  lemma OneBlockScan()
    ensures ScanBlocks("model A { x: 1 }") == [Submatch(0, 16, ["model A { x: 1 }", "A", " x: 1 "])]
  {
    OneBlockBlock();
    BlockPattern.BlockAtWellBehaved();
    FindAllOne(BlockPattern.BlockAt, "model A { x: 1 }", Submatch(0, 16, ["model A { x: 1 }", "A", " x: 1 "]));
  }

  lemma OneBlockFieldRun1()
    ensures RunEnd(" x: 1 ", 1, Word) == 2
  {
  }

  lemma OneBlockFieldRun2()
    ensures RunEnd(" x: 1 ", 3, Space) == 4
  {
  }

  lemma OneBlockFieldRun3()
    ensures RunEnd(" x: 1 ", 4, NotQuote) == 6
  {
  }

  lemma OneBlockFieldParse()
    ensures FieldPattern.ParseAt(" x: 1 ", 1) == Some(FieldPattern.Parse(2, 4, false, 6, false, false))
  {
    var t := " x: 1 ";
    OneBlockFieldRun1(); OneBlockFieldRun2(); OneBlockFieldRun3();
    assert FieldPattern.Rest(t, 1, 2, 4, false) == FieldPattern.Parse(2, 4, false, 6, false, false);
    assert FieldPattern.ParseAt(t, 1) == Some(FieldPattern.Parse(2, 4, false, 6, false, false));
  }

  lemma OneBlockFieldSlices()
    ensures " x: 1 "[1..6] == "x: 1 "
    ensures " x: 1 "[1..2] == "x"
    ensures " x: 1 "[4..6] == "1 "
  {
  }

  lemma OneBlockField()
    ensures FieldPattern.FieldAt(" x: 1 ", 1) == Some(Submatch(1, 6, ["x: 1 ", "x", "1 "]))
  {
    var t := " x: 1 ";
    OneBlockFieldParse();
    OneBlockFieldSlices();
    assert FieldPattern.FieldAt(t, 1) == Some(Submatch(1, 6, [t[1..6], t[1..2], t[4..6]]));
  }

  lemma OneBlockFieldsGaps()
    ensures NoMatchIn(FieldPattern.FieldAt, " x: 1 ", 0, 1)
  {
  }

  lemma OneBlockFields()
    ensures ExtractFields(" x: 1 ") == [Submatch(1, 6, ["x: 1 ", "x", "1 "])]
  {
    OneBlockField();
    OneBlockFieldsGaps();
    FieldPattern.FieldAtWellBehaved();
    FindAllOne(FieldPattern.FieldAt, " x: 1 ", Submatch(1, 6, ["x: 1 ", "x", "1 "]));
  }

  /** One block with one unquoted field: the value keeps the blank before `}`. */
  lemma OneBlock()
    ensures Document("model A { x: 1 }") == [map["model" := "A", "x" := "1 "]]
  {
    OneBlockScan();
    OneBlockFields();
    OneFieldDocument("model A { x: 1 }", Submatch(0, 16, ["model A { x: 1 }", "A", " x: 1 "]), Submatch(1, 6, ["x: 1 ", "x", "1 "]));
  }

  lemma SwallowFirstRun1()
    ensures RunEnd(" a: \"s\", b: n, c: t ", 1, Word) == 2
  {
  }

  lemma SwallowFirstRun2()
    ensures RunEnd(" a: \"s\", b: n, c: t ", 3, Space) == 4
  {
  }

  lemma SwallowFirstRun3()
    ensures RunEnd(" a: \"s\", b: n, c: t ", 5, NotQuote) == 6
  {
  }

  lemma SwallowFirstParse()
    ensures FieldPattern.ParseAt(" a: \"s\", b: n, c: t ", 1) == Some(FieldPattern.Parse(2, 4, true, 6, true, true))
  {
    var t := " a: \"s\", b: n, c: t ";
    SwallowFirstRun1(); SwallowFirstRun2(); SwallowFirstRun3();
    assert FieldPattern.Rest(t, 1, 2, 4, true) == FieldPattern.Parse(2, 4, true, 6, true, true);
    assert FieldPattern.ParseAt(t, 1) == Some(FieldPattern.Parse(2, 4, true, 6, true, true));
  }

  lemma SwallowFirstSlices()
    ensures " a: \"s\", b: n, c: t "[1..8] == "a: \"s\","
    ensures " a: \"s\", b: n, c: t "[1..2] == "a"
    ensures " a: \"s\", b: n, c: t "[5..6] == "s"
  {
  }

  lemma SwallowFirst()
    ensures FieldPattern.FieldAt(" a: \"s\", b: n, c: t ", 1) == Some(Submatch(1, 8, ["a: \"s\",", "a", "s"]))
  {
    var t := " a: \"s\", b: n, c: t ";
    SwallowFirstParse();
    SwallowFirstSlices();
    assert FieldPattern.FieldAt(t, 1) == Some(Submatch(1, 8, [t[1..8], t[1..2], t[5..6]]));
  }

  lemma SwallowSecondRun1()
    ensures RunEnd(" a: \"s\", b: n, c: t ", 9, Word) == 10
  {
  }

  lemma SwallowSecondRun2()
    ensures RunEnd(" a: \"s\", b: n, c: t ", 11, Space) == 12
  {
  }

  lemma SwallowSecondRun3()
    ensures RunEnd(" a: \"s\", b: n, c: t ", 12, NotQuote) == 20
  {
  }

  lemma SwallowSecondParse()
    ensures FieldPattern.ParseAt(" a: \"s\", b: n, c: t ", 9) == Some(FieldPattern.Parse(10, 12, false, 20, false, false))
  {
    var t := " a: \"s\", b: n, c: t ";
    SwallowSecondRun1(); SwallowSecondRun2(); SwallowSecondRun3();
    assert FieldPattern.Rest(t, 9, 10, 12, false) == FieldPattern.Parse(10, 12, false, 20, false, false);
    assert FieldPattern.ParseAt(t, 9) == Some(FieldPattern.Parse(10, 12, false, 20, false, false));
  }

  lemma SwallowSecondSlices()
    ensures " a: \"s\", b: n, c: t "[9..20] == "b: n, c: t "
    ensures " a: \"s\", b: n, c: t "[9..10] == "b"
    ensures " a: \"s\", b: n, c: t "[12..20] == "n, c: t "
  {
  }

  lemma SwallowSecond()
    ensures FieldPattern.FieldAt(" a: \"s\", b: n, c: t ", 9) == Some(Submatch(9, 20, ["b: n, c: t ", "b", "n, c: t "]))
  {
    var t := " a: \"s\", b: n, c: t ";
    SwallowSecondParse();
    SwallowSecondSlices();
    assert FieldPattern.FieldAt(t, 9) == Some(Submatch(9, 20, [t[9..20], t[9..10], t[12..20]]));
  }

  lemma SwallowGaps()
    ensures NoMatchIn(FieldPattern.FieldAt, " a: \"s\", b: n, c: t ", 0, 1)
    ensures NoMatchIn(FieldPattern.FieldAt, " a: \"s\", b: n, c: t ", 8, 9)
  {
    assert RunEnd(" a: \"s\", b: n, c: t ", 0, Word) == 0;
    assert RunEnd(" a: \"s\", b: n, c: t ", 8, Word) == 8;
  }

  /** An unquoted value runs to the next quote or the end: after `a: "s",` the
   * value of b takes in `, c: t`, and c is never a key. */
  lemma Swallow()
    ensures ExtractFields(" a: \"s\", b: n, c: t ") == [Submatch(1, 8, ["a: \"s\",", "a", "s"]), Submatch(9, 20, ["b: n, c: t ", "b", "n, c: t "])]
  {
    SwallowFirst();
    SwallowSecond();
    SwallowGaps();
    FieldPattern.FieldAtWellBehaved();
    FindAllTwo(FieldPattern.FieldAt, " a: \"s\", b: n, c: t ",
      Submatch(1, 8, ["a: \"s\",", "a", "s"]), Submatch(9, 20, ["b: n, c: t ", "b", "n, c: t "]));
  }

  lemma TwoBlanksMatch()
    ensures FieldPattern.FieldAt(" k:  \"\" ", 1) == Some(Submatch(1, 6, ["k:  \"", "k", " "]))
  {
    var t := " k:  \"\" ";
    TwoBlanksReading();
    TwoBlanksSlices();
    assert FieldPattern.FieldAt(t, 1) == Some(Submatch(1, 6, [t[1..6], t[1..2], t[4..5]]));
  }

  lemma TwoBlanksReading()
    ensures FieldPattern.FieldAt(" k:  \"\" ", 1)
         == Some(Submatch(1, 6, [" k:  \"\" "[1..6], " k:  \"\" "[1..2], " k:  \"\" "[4..5]]))
  {
    FieldPattern.EmptyQuotesAfterBlanks(" k:  \"\" ", 1, 2, 5);
  }

  lemma TwoBlanksSlices()
    ensures " k:  \"\" "[1..6] == "k:  \""
    ensures " k:  \"\" "[1..2] == "k"
    ensures " k:  \"\" "[4..5] == " "
  {
  }

  lemma TwoBlanksGaps()
    ensures NoMatchIn(FieldPattern.FieldAt, " k:  \"\" ", 0, 1)
    ensures NoMatchIn(FieldPattern.FieldAt, " k:  \"\" ", 6, 8)
  {
  }

  /** `k:  ""` (two blanks): the value is the second blank and the first quote closes it. */
  lemma TwoBlanks()
    ensures ExtractFields(" k:  \"\" ") == [Submatch(1, 6, ["k:  \"", "k", " "])]
  {
    TwoBlanksMatch();
    TwoBlanksGaps();
    FieldPattern.FieldAtWellBehaved();
    FindAllOne(FieldPattern.FieldAt, " k:  \"\" ", Submatch(1, 6, ["k:  \"", "k", " "]));
  }

  lemma OneBlankGaps()
    ensures NoMatchIn(FieldPattern.FieldAt, " k: \"\" ", 0, 7)
  {
    assert RunEnd(" k: \"\" ", 0, Word) == 0;
    FieldPattern.EmptyQuotesAfterOneBlank(" k: \"\" ", 1, 2);
    assert RunEnd(" k: \"\" ", 2, Word) == 2;
    assert RunEnd(" k: \"\" ", 3, Word) == 3;
    assert RunEnd(" k: \"\" ", 4, Word) == 4;
    assert RunEnd(" k: \"\" ", 5, Word) == 5;
    assert RunEnd(" k: \"\" ", 6, Word) == 6;
  }

  /** `k: ""` (one blank): the pattern cannot be read at all, so the body has no field. */
  lemma OneBlank()
    ensures ExtractFields(" k: \"\" ") == []
  {
    OneBlankGaps();
    FieldPattern.FieldAtWellBehaved();
    FindAllNone(FieldPattern.FieldAt, " k: \"\" ");
  }

  lemma NestedBraceBlockRun1()
    ensures RunEnd("model C { m: {a:1} }", 5, Space) == 6
  {
  }

  lemma NestedBraceBlockRun2()
    ensures RunEnd("model C { m: {a:1} }", 6, Word) == 7
  {
  }

  lemma NestedBraceBlockRun3()
    ensures RunEnd("model C { m: {a:1} }", 7, Space) == 8
  {
  }

  lemma NestedBraceBlockRun4()
    ensures RunEnd("model C { m: {a:1} }", 9, NotCloseBrace) == 17
  {
  }

  lemma NestedBraceBlockParse()
    ensures BlockPattern.ParseAt("model C { m: {a:1} }", 0) == Some(BlockPattern.Parse(6, 7, 9, 17))
  {
    var t := "model C { m: {a:1} }";
    NestedBraceBlockRun1(); NestedBraceBlockRun2(); NestedBraceBlockRun3(); NestedBraceBlockRun4();
    assert t[0..5] == "model";
    assert BlockPattern.ParseAt(t, 0) == Some(BlockPattern.Parse(6, 7, 9, 17));
  }

  lemma NestedBraceBlockSlices()
    ensures "model C { m: {a:1} }"[0..18] == "model C { m: {a:1}"
    ensures "model C { m: {a:1} }"[6..7] == "C"
    ensures "model C { m: {a:1} }"[9..17] == " m: {a:1"
  {
  }

  lemma NestedBraceBlock()
    ensures BlockPattern.BlockAt("model C { m: {a:1} }", 0) == Some(Submatch(0, 18, ["model C { m: {a:1}", "C", " m: {a:1"]))
  {
    var t := "model C { m: {a:1} }";
    NestedBraceBlockParse();
    NestedBraceBlockSlices();
    assert BlockPattern.BlockAt(t, 0) == Some(Submatch(0, 18, [t[0..18], t[6..7], t[9..17]]));
  }

  lemma NestedBraceScanGaps()
    ensures NoMatchIn(BlockPattern.BlockAt, "model C { m: {a:1} }", 18, 20)
  {
  }

  lemma NestedBraceScan()
    ensures ScanBlocks("model C { m: {a:1} }") == [Submatch(0, 18, ["model C { m: {a:1}", "C", " m: {a:1"])]
  {
    NestedBraceBlock();
    NestedBraceScanGaps();
    BlockPattern.BlockAtWellBehaved();
    FindAllOne(BlockPattern.BlockAt, "model C { m: {a:1} }", Submatch(0, 18, ["model C { m: {a:1}", "C", " m: {a:1"]));
  }

  lemma NestedBraceFieldRun1()
    ensures RunEnd(" m: {a:1", 1, Word) == 2
  {
  }

  lemma NestedBraceFieldRun2()
    ensures RunEnd(" m: {a:1", 3, Space) == 4
  {
  }

  lemma NestedBraceFieldRun3()
    ensures RunEnd(" m: {a:1", 4, NotQuote) == 8
  {
  }

  lemma NestedBraceFieldParse()
    ensures FieldPattern.ParseAt(" m: {a:1", 1) == Some(FieldPattern.Parse(2, 4, false, 8, false, false))
  {
    var t := " m: {a:1";
    NestedBraceFieldRun1(); NestedBraceFieldRun2(); NestedBraceFieldRun3();
    assert FieldPattern.Rest(t, 1, 2, 4, false) == FieldPattern.Parse(2, 4, false, 8, false, false);
    assert FieldPattern.ParseAt(t, 1) == Some(FieldPattern.Parse(2, 4, false, 8, false, false));
  }

  lemma NestedBraceFieldSlices()
    ensures " m: {a:1"[1..8] == "m: {a:1"
    ensures " m: {a:1"[1..2] == "m"
    ensures " m: {a:1"[4..8] == "{a:1"
  {
  }

  lemma NestedBraceField()
    ensures FieldPattern.FieldAt(" m: {a:1", 1) == Some(Submatch(1, 8, ["m: {a:1", "m", "{a:1"]))
  {
    var t := " m: {a:1";
    NestedBraceFieldParse();
    NestedBraceFieldSlices();
    assert FieldPattern.FieldAt(t, 1) == Some(Submatch(1, 8, [t[1..8], t[1..2], t[4..8]]));
  }

  lemma NestedBraceFieldsGaps()
    ensures NoMatchIn(FieldPattern.FieldAt, " m: {a:1", 0, 1)
  {
  }

  lemma NestedBraceFields()
    ensures ExtractFields(" m: {a:1") == [Submatch(1, 8, ["m: {a:1", "m", "{a:1"])]
  {
    NestedBraceField();
    NestedBraceFieldsGaps();
    FieldPattern.FieldAtWellBehaved();
    FindAllOne(FieldPattern.FieldAt, " m: {a:1", Submatch(1, 8, ["m: {a:1", "m", "{a:1"]));
  }

  /** A nested brace ends the block at the first `}`: the rest of the block is not read. */
  lemma NestedBrace()
    ensures Document("model C { m: {a:1} }") == [map["model" := "C", "m" := "{a:1"]]
  {
    NestedBraceScan();
    NestedBraceFields();
    OneFieldDocument("model C { m: {a:1} }", Submatch(0, 18, ["model C { m: {a:1}", "C", " m: {a:1"]), Submatch(1, 8, ["m: {a:1", "m", "{a:1"]));
  }

  /** `model A {}` has an empty body, which `[^}]+` refuses: no record at all. */
  lemma EmptyBody()
    ensures Document("model A {}") == []
  {
  }

  lemma DupFirstRun1()
    ensures RunEnd(" k: \"1\", k: \"2\" ", 1, Word) == 2
  {
  }

  lemma DupFirstRun2()
    ensures RunEnd(" k: \"1\", k: \"2\" ", 3, Space) == 4
  {
  }

  lemma DupFirstRun3()
    ensures RunEnd(" k: \"1\", k: \"2\" ", 5, NotQuote) == 6
  {
  }

  lemma DupFirstParse()
    ensures FieldPattern.ParseAt(" k: \"1\", k: \"2\" ", 1) == Some(FieldPattern.Parse(2, 4, true, 6, true, true))
  {
    var t := " k: \"1\", k: \"2\" ";
    DupFirstRun1(); DupFirstRun2(); DupFirstRun3();
    assert FieldPattern.Rest(t, 1, 2, 4, true) == FieldPattern.Parse(2, 4, true, 6, true, true);
    assert FieldPattern.ParseAt(t, 1) == Some(FieldPattern.Parse(2, 4, true, 6, true, true));
  }

  lemma DupFirstSlices()
    ensures " k: \"1\", k: \"2\" "[1..8] == "k: \"1\","
    ensures " k: \"1\", k: \"2\" "[1..2] == "k"
    ensures " k: \"1\", k: \"2\" "[5..6] == "1"
  {
  }

  lemma DupFirst()
    ensures FieldPattern.FieldAt(" k: \"1\", k: \"2\" ", 1) == Some(Submatch(1, 8, ["k: \"1\",", "k", "1"]))
  {
    var t := " k: \"1\", k: \"2\" ";
    DupFirstParse();
    DupFirstSlices();
    assert FieldPattern.FieldAt(t, 1) == Some(Submatch(1, 8, [t[1..8], t[1..2], t[5..6]]));
  }

  lemma DupSecondRun1()
    ensures RunEnd(" k: \"1\", k: \"2\" ", 9, Word) == 10
  {
  }

  lemma DupSecondRun2()
    ensures RunEnd(" k: \"1\", k: \"2\" ", 11, Space) == 12
  {
  }

  lemma DupSecondRun3()
    ensures RunEnd(" k: \"1\", k: \"2\" ", 13, NotQuote) == 14
  {
  }

  lemma DupSecondParse()
    ensures FieldPattern.ParseAt(" k: \"1\", k: \"2\" ", 9) == Some(FieldPattern.Parse(10, 12, true, 14, true, false))
  {
    var t := " k: \"1\", k: \"2\" ";
    DupSecondRun1(); DupSecondRun2(); DupSecondRun3();
    assert FieldPattern.Rest(t, 9, 10, 12, true) == FieldPattern.Parse(10, 12, true, 14, true, false);
    assert FieldPattern.ParseAt(t, 9) == Some(FieldPattern.Parse(10, 12, true, 14, true, false));
  }

  lemma DupSecondSlices()
    ensures " k: \"1\", k: \"2\" "[9..15] == "k: \"2\""
    ensures " k: \"1\", k: \"2\" "[9..10] == "k"
    ensures " k: \"1\", k: \"2\" "[13..14] == "2"
  {
  }

  lemma DupSecond()
    ensures FieldPattern.FieldAt(" k: \"1\", k: \"2\" ", 9) == Some(Submatch(9, 15, ["k: \"2\"", "k", "2"]))
  {
    var t := " k: \"1\", k: \"2\" ";
    DupSecondParse();
    DupSecondSlices();
    assert FieldPattern.FieldAt(t, 9) == Some(Submatch(9, 15, [t[9..15], t[9..10], t[13..14]]));
  }

  lemma DupFieldsGaps()
    ensures NoMatchIn(FieldPattern.FieldAt, " k: \"1\", k: \"2\" ", 0, 1)
    ensures NoMatchIn(FieldPattern.FieldAt, " k: \"1\", k: \"2\" ", 8, 9)
    ensures NoMatchIn(FieldPattern.FieldAt, " k: \"1\", k: \"2\" ", 15, 16)
  {
    assert RunEnd(" k: \"1\", k: \"2\" ", 0, Word) == 0;
    assert RunEnd(" k: \"1\", k: \"2\" ", 8, Word) == 8;
    assert RunEnd(" k: \"1\", k: \"2\" ", 15, Word) == 15;
  }

  lemma DupFields()
    ensures ExtractFields(" k: \"1\", k: \"2\" ") == [Submatch(1, 8, ["k: \"1\",", "k", "1"]), Submatch(9, 15, ["k: \"2\"", "k", "2"])]
  {
    DupFirst();
    DupSecond();
    DupFieldsGaps();
    FieldPattern.FieldAtWellBehaved();
    FindAllTwo(FieldPattern.FieldAt, " k: \"1\", k: \"2\" ",
      Submatch(1, 8, ["k: \"1\",", "k", "1"]), Submatch(9, 15, ["k: \"2\"", "k", "2"]));
  }

  lemma DupOverlay()
    ensures Record("D", [Field("k", "1"), Field("k", "2")]) == map["model" := "D", "k" := "2"]
  {
    var fs := [Field("k", "1"), Field("k", "2")];
    assert fs[..1] == [Field("k", "1")] && fs[..1][..0] == [];
    assert Overlay(map["model" := "D"], fs[..1]) == map["model" := "D", "k" := "1"];
  }

  lemma DupPairs()
    ensures FieldsOf(ExtractFields(" k: \"1\", k: \"2\" ")) == [Field("k", "1"), Field("k", "2")]
  {
    DupFields();
  }

  /** A key declared twice keeps the value written last. */
  lemma DuplicateKey()
    ensures Record("D", FieldsOf(ExtractFields(" k: \"1\", k: \"2\" "))) == map["model" := "D", "k" := "2"]
  {
    DupPairs();
    DupOverlay();
  }

  lemma ModelFieldRun1()
    ensures RunEnd(" model: x", 1, Word) == 6
  {
  }

  lemma ModelFieldRun2()
    ensures RunEnd(" model: x", 7, Space) == 8
  {
  }

  lemma ModelFieldRun3()
    ensures RunEnd(" model: x", 8, NotQuote) == 9
  {
  }

  lemma ModelFieldParse()
    ensures FieldPattern.ParseAt(" model: x", 1) == Some(FieldPattern.Parse(6, 8, false, 9, false, false))
  {
    var t := " model: x";
    ModelFieldRun1(); ModelFieldRun2(); ModelFieldRun3();
    assert FieldPattern.Rest(t, 1, 6, 8, false) == FieldPattern.Parse(6, 8, false, 9, false, false);
    assert FieldPattern.ParseAt(t, 1) == Some(FieldPattern.Parse(6, 8, false, 9, false, false));
  }

  lemma ModelFieldSlices()
    ensures " model: x"[1..9] == "model: x"
    ensures " model: x"[1..6] == "model"
    ensures " model: x"[8..9] == "x"
  {
  }

  lemma ModelField()
    ensures FieldPattern.FieldAt(" model: x", 1) == Some(Submatch(1, 9, ["model: x", "model", "x"]))
  {
    var t := " model: x";
    ModelFieldParse();
    ModelFieldSlices();
    assert FieldPattern.FieldAt(t, 1) == Some(Submatch(1, 9, [t[1..9], t[1..6], t[8..9]]));
  }

  lemma ModelFieldsGaps()
    ensures NoMatchIn(FieldPattern.FieldAt, " model: x", 0, 1)
  {
  }

  lemma ModelFields()
    ensures ExtractFields(" model: x") == [Submatch(1, 9, ["model: x", "model", "x"])]
  {
    ModelField();
    ModelFieldsGaps();
    FieldPattern.FieldAtWellBehaved();
    FindAllOne(FieldPattern.FieldAt, " model: x", Submatch(1, 9, ["model: x", "model", "x"]));
  }

  /** A field named `model` overwrites the block's name in its record. */
  lemma ModelFieldOverwritesName()
    ensures Record("A", FieldsOf(ExtractFields(" model: x"))) == map["model" := "x"]
  {
    ModelFields();
    OverwrittenName("A", " model: x", Submatch(1, 9, ["model: x", "model", "x"]));
  }

  /** A body whose only field is named model: its value replaces the name. */
  lemma OverwrittenName(name: string, body: string, f: Submatch)
    requires ExtractFields(body) == [f] && |f.group| == 3 && f.group[1] == "model"
    ensures Record(name, FieldsOf(ExtractFields(body))) == map["model" := f.group[2]]
  {
    OneFieldRecord(name, body, f);
    assert map["model" := name]["model" := f.group[2]] == map["model" := f.group[2]];
  }

  lemma FirstBlockRun1()
    ensures RunEnd(("model A {a: 1}" + "\n" + "model B {b: 2}"), 5, Space) == 6
  {
  }

  lemma FirstBlockRun2()
    ensures RunEnd(("model A {a: 1}" + "\n" + "model B {b: 2}"), 6, Word) == 7
  {
  }

  lemma FirstBlockRun3()
    ensures RunEnd(("model A {a: 1}" + "\n" + "model B {b: 2}"), 7, Space) == 8
  {
  }

  lemma FirstBlockRun4()
    ensures RunEnd(("model A {a: 1}" + "\n" + "model B {b: 2}"), 9, NotCloseBrace) == 13
  {
    var t := ("model A {a: 1}" + "\n" + "model B {b: 2}");
    assert RunEnd(t, 13, NotCloseBrace) == 13;
    assert RunEnd(t, 12, NotCloseBrace) == 13;
    assert RunEnd(t, 11, NotCloseBrace) == 13;
    assert RunEnd(t, 10, NotCloseBrace) == 13;
    assert RunEnd(t, 9, NotCloseBrace) == 13;
  }

  lemma FirstBlockParse()
    ensures BlockPattern.ParseAt(("model A {a: 1}" + "\n" + "model B {b: 2}"), 0) == Some(BlockPattern.Parse(6, 7, 9, 13))
  {
    var t := ("model A {a: 1}" + "\n" + "model B {b: 2}");
    FirstBlockRun1(); FirstBlockRun2(); FirstBlockRun3(); FirstBlockRun4();
    assert t[0..5] == "model";
    assert BlockPattern.ParseAt(t, 0) == Some(BlockPattern.Parse(6, 7, 9, 13));
  }

  lemma FirstBlockSlices()
    ensures ("model A {a: 1}" + "\n" + "model B {b: 2}")[0..14] == "model A {a: 1}"
    ensures ("model A {a: 1}" + "\n" + "model B {b: 2}")[6..7] == "A"
    ensures ("model A {a: 1}" + "\n" + "model B {b: 2}")[9..13] == "a: 1"
  {
  }

  lemma FirstBlock()
    ensures BlockPattern.BlockAt(("model A {a: 1}" + "\n" + "model B {b: 2}"), 0) == Some(Submatch(0, 14, ["model A {a: 1}", "A", "a: 1"]))
  {
    var t := ("model A {a: 1}" + "\n" + "model B {b: 2}");
    FirstBlockParse();
    FirstBlockSlices();
    assert BlockPattern.BlockAt(t, 0) == Some(Submatch(0, 14, [t[0..14], t[6..7], t[9..13]]));
  }

  lemma SecondBlockRun1()
    ensures RunEnd(("model A {a: 1}" + "\n" + "model B {b: 2}"), 20, Space) == 21
  {
  }

  lemma SecondBlockRun2()
    ensures RunEnd(("model A {a: 1}" + "\n" + "model B {b: 2}"), 21, Word) == 22
  {
  }

  lemma SecondBlockRun3()
    ensures RunEnd(("model A {a: 1}" + "\n" + "model B {b: 2}"), 22, Space) == 23
  {
  }

  lemma SecondBlockRun4()
    ensures RunEnd(("model A {a: 1}" + "\n" + "model B {b: 2}"), 24, NotCloseBrace) == 28
  {
    var t := ("model A {a: 1}" + "\n" + "model B {b: 2}");
    assert RunEnd(t, 28, NotCloseBrace) == 28;
    assert RunEnd(t, 27, NotCloseBrace) == 28;
    assert RunEnd(t, 26, NotCloseBrace) == 28;
    assert RunEnd(t, 25, NotCloseBrace) == 28;
    assert RunEnd(t, 24, NotCloseBrace) == 28;
  }

  lemma SecondBlockParse()
    ensures BlockPattern.ParseAt(("model A {a: 1}" + "\n" + "model B {b: 2}"), 15) == Some(BlockPattern.Parse(21, 22, 24, 28))
  {
    var t := ("model A {a: 1}" + "\n" + "model B {b: 2}");
    SecondBlockRun1(); SecondBlockRun2(); SecondBlockRun3(); SecondBlockRun4();
    assert t[15..20] == "model";
    assert BlockPattern.ParseAt(t, 15) == Some(BlockPattern.Parse(21, 22, 24, 28));
  }

  lemma SecondBlockSlices()
    ensures ("model A {a: 1}" + "\n" + "model B {b: 2}")[15..29] == "model B {b: 2}"
    ensures ("model A {a: 1}" + "\n" + "model B {b: 2}")[21..22] == "B"
    ensures ("model A {a: 1}" + "\n" + "model B {b: 2}")[24..28] == "b: 2"
  {
  }

  lemma SecondBlock()
    ensures BlockPattern.BlockAt(("model A {a: 1}" + "\n" + "model B {b: 2}"), 15) == Some(Submatch(15, 29, ["model B {b: 2}", "B", "b: 2"]))
  {
    var t := ("model A {a: 1}" + "\n" + "model B {b: 2}");
    SecondBlockParse();
    SecondBlockSlices();
    assert BlockPattern.BlockAt(t, 15) == Some(Submatch(15, 29, [t[15..29], t[21..22], t[24..28]]));
  }

  lemma TwoBlocksScanGaps()
    ensures NoMatchIn(BlockPattern.BlockAt, ("model A {a: 1}" + "\n" + "model B {b: 2}"), 14, 15)
  {
  }

  lemma TwoBlocksScan()
    ensures ScanBlocks(("model A {a: 1}" + "\n" + "model B {b: 2}")) == [Submatch(0, 14, ["model A {a: 1}", "A", "a: 1"]), Submatch(15, 29, ["model B {b: 2}", "B", "b: 2"])]
  {
    FirstBlock();
    SecondBlock();
    TwoBlocksScanGaps();
    BlockPattern.BlockAtWellBehaved();
    FindAllTwo(BlockPattern.BlockAt, ("model A {a: 1}" + "\n" + "model B {b: 2}"),
      Submatch(0, 14, ["model A {a: 1}", "A", "a: 1"]), Submatch(15, 29, ["model B {b: 2}", "B", "b: 2"]));
  }

  lemma FirstFieldParse()
    ensures FieldPattern.ParseAt("a: 1", 0) == Some(FieldPattern.Parse(1, 3, false, 4, false, false))
  {
  }

  lemma FirstFieldSlices()
    ensures "a: 1"[0..4] == "a: 1"
    ensures "a: 1"[0..1] == "a"
    ensures "a: 1"[3..4] == "1"
  {
  }

  lemma FirstField()
    ensures FieldPattern.FieldAt("a: 1", 0) == Some(Submatch(0, 4, ["a: 1", "a", "1"]))
  {
    var t := "a: 1";
    FirstFieldParse();
    FirstFieldSlices();
    assert FieldPattern.FieldAt(t, 0) == Some(Submatch(0, 4, [t[0..4], t[0..1], t[3..4]]));
  }

  lemma FirstFields()
    ensures ExtractFields("a: 1") == [Submatch(0, 4, ["a: 1", "a", "1"])]
  {
    FirstField();
    FieldPattern.FieldAtWellBehaved();
    FindAllOne(FieldPattern.FieldAt, "a: 1", Submatch(0, 4, ["a: 1", "a", "1"]));
  }

  lemma SecondFieldParse()
    ensures FieldPattern.ParseAt("b: 2", 0) == Some(FieldPattern.Parse(1, 3, false, 4, false, false))
  {
  }

  lemma SecondFieldSlices()
    ensures "b: 2"[0..4] == "b: 2"
    ensures "b: 2"[0..1] == "b"
    ensures "b: 2"[3..4] == "2"
  {
  }

  lemma SecondField()
    ensures FieldPattern.FieldAt("b: 2", 0) == Some(Submatch(0, 4, ["b: 2", "b", "2"]))
  {
    var t := "b: 2";
    SecondFieldParse();
    SecondFieldSlices();
    assert FieldPattern.FieldAt(t, 0) == Some(Submatch(0, 4, [t[0..4], t[0..1], t[3..4]]));
  }

  lemma SecondFields()
    ensures ExtractFields("b: 2") == [Submatch(0, 4, ["b: 2", "b", "2"])]
  {
    SecondField();
    FieldPattern.FieldAtWellBehaved();
    FindAllOne(FieldPattern.FieldAt, "b: 2", Submatch(0, 4, ["b: 2", "b", "2"]));
  }

  /** Two blocks on successive lines give two records, in source order. */
  lemma TwoBlocks()
    ensures Document(("model A {a: 1}" + "\n" + "model B {b: 2}")) == [map["model" := "A", "a" := "1"], map["model" := "B", "b" := "2"]]
  {
    TwoBlocksScan();
    FirstFields();
    SecondFields();
    TwoFieldDocuments(("model A {a: 1}" + "\n" + "model B {b: 2}"), Submatch(0, 14, ["model A {a: 1}", "A", "a: 1"]), Submatch(0, 4, ["a: 1", "a", "1"]), Submatch(15, 29, ["model B {b: 2}", "B", "b: 2"]), Submatch(0, 4, ["b: 2", "b", "2"]));
  }

  lemma UserBlockRun1()
    ensures RunEnd(("model User {" + " email: \"string\"," + " age: number," + " active: true " + "}"), 5, Space) == 6
  {
  }

  lemma UserBlockRun2()
    ensures RunEnd(("model User {" + " email: \"string\"," + " age: number," + " active: true " + "}"), 6, Word) == 10
  {
    var t := ("model User {" + " email: \"string\"," + " age: number," + " active: true " + "}");
    assert RunEnd(t, 10, Word) == 10;
    assert RunEnd(t, 9, Word) == 10;
    assert RunEnd(t, 8, Word) == 10;
    assert RunEnd(t, 7, Word) == 10;
    assert RunEnd(t, 6, Word) == 10;
  }

  lemma UserBlockRun3()
    ensures RunEnd(("model User {" + " email: \"string\"," + " age: number," + " active: true " + "}"), 10, Space) == 11
  {
  }

  lemma UserBlockRun4From54()
    ensures RunEnd(("model User {" + " email: \"string\"," + " age: number," + " active: true " + "}"), 54, NotCloseBrace) == 56
  {
    var t := ("model User {" + " email: \"string\"," + " age: number," + " active: true " + "}");
    assert RunEnd(t, 56, NotCloseBrace) == 56;
    assert RunEnd(t, 55, NotCloseBrace) == 56;
    assert RunEnd(t, 54, NotCloseBrace) == 56;
  }

  lemma UserBlockRun4From48()
    ensures RunEnd(("model User {" + " email: \"string\"," + " age: number," + " active: true " + "}"), 48, NotCloseBrace) == 56
  {
    var t := ("model User {" + " email: \"string\"," + " age: number," + " active: true " + "}");
    UserBlockRun4From54();
    assert RunEnd(t, 53, NotCloseBrace) == 56;
    assert RunEnd(t, 52, NotCloseBrace) == 56;
    assert RunEnd(t, 51, NotCloseBrace) == 56;
    assert RunEnd(t, 50, NotCloseBrace) == 56;
    assert RunEnd(t, 49, NotCloseBrace) == 56;
    assert RunEnd(t, 48, NotCloseBrace) == 56;
  }

  lemma UserBlockRun4From42()
    ensures RunEnd(("model User {" + " email: \"string\"," + " age: number," + " active: true " + "}"), 42, NotCloseBrace) == 56
  {
    var t := ("model User {" + " email: \"string\"," + " age: number," + " active: true " + "}");
    UserBlockRun4From48();
    assert RunEnd(t, 47, NotCloseBrace) == 56;
    assert RunEnd(t, 46, NotCloseBrace) == 56;
    assert RunEnd(t, 45, NotCloseBrace) == 56;
    assert RunEnd(t, 44, NotCloseBrace) == 56;
    assert RunEnd(t, 43, NotCloseBrace) == 56;
    assert RunEnd(t, 42, NotCloseBrace) == 56;
  }

  lemma UserBlockRun4From36()
    ensures RunEnd(("model User {" + " email: \"string\"," + " age: number," + " active: true " + "}"), 36, NotCloseBrace) == 56
  {
    var t := ("model User {" + " email: \"string\"," + " age: number," + " active: true " + "}");
    UserBlockRun4From42();
    assert RunEnd(t, 41, NotCloseBrace) == 56;
    assert RunEnd(t, 40, NotCloseBrace) == 56;
    assert RunEnd(t, 39, NotCloseBrace) == 56;
    assert RunEnd(t, 38, NotCloseBrace) == 56;
    assert RunEnd(t, 37, NotCloseBrace) == 56;
    assert RunEnd(t, 36, NotCloseBrace) == 56;
  }

  lemma UserBlockRun4From30()
    ensures RunEnd(("model User {" + " email: \"string\"," + " age: number," + " active: true " + "}"), 30, NotCloseBrace) == 56
  {
    var t := ("model User {" + " email: \"string\"," + " age: number," + " active: true " + "}");
    UserBlockRun4From36();
    assert RunEnd(t, 35, NotCloseBrace) == 56;
    assert RunEnd(t, 34, NotCloseBrace) == 56;
    assert RunEnd(t, 33, NotCloseBrace) == 56;
    assert RunEnd(t, 32, NotCloseBrace) == 56;
    assert RunEnd(t, 31, NotCloseBrace) == 56;
    assert RunEnd(t, 30, NotCloseBrace) == 56;
  }

  lemma UserBlockRun4From24()
    ensures RunEnd(("model User {" + " email: \"string\"," + " age: number," + " active: true " + "}"), 24, NotCloseBrace) == 56
  {
    var t := ("model User {" + " email: \"string\"," + " age: number," + " active: true " + "}");
    UserBlockRun4From30();
    assert RunEnd(t, 29, NotCloseBrace) == 56;
    assert RunEnd(t, 28, NotCloseBrace) == 56;
    assert RunEnd(t, 27, NotCloseBrace) == 56;
    assert RunEnd(t, 26, NotCloseBrace) == 56;
    assert RunEnd(t, 25, NotCloseBrace) == 56;
    assert RunEnd(t, 24, NotCloseBrace) == 56;
  }

  lemma UserBlockRun4From18()
    ensures RunEnd(("model User {" + " email: \"string\"," + " age: number," + " active: true " + "}"), 18, NotCloseBrace) == 56
  {
    var t := ("model User {" + " email: \"string\"," + " age: number," + " active: true " + "}");
    UserBlockRun4From24();
    assert RunEnd(t, 23, NotCloseBrace) == 56;
    assert RunEnd(t, 22, NotCloseBrace) == 56;
    assert RunEnd(t, 21, NotCloseBrace) == 56;
    assert RunEnd(t, 20, NotCloseBrace) == 56;
    assert RunEnd(t, 19, NotCloseBrace) == 56;
    assert RunEnd(t, 18, NotCloseBrace) == 56;
  }

  lemma UserBlockRun4()
    ensures RunEnd(("model User {" + " email: \"string\"," + " age: number," + " active: true " + "}"), 12, NotCloseBrace) == 56
  {
    var t := ("model User {" + " email: \"string\"," + " age: number," + " active: true " + "}");
    UserBlockRun4From18();
    assert RunEnd(t, 17, NotCloseBrace) == 56;
    assert RunEnd(t, 16, NotCloseBrace) == 56;
    assert RunEnd(t, 15, NotCloseBrace) == 56;
    assert RunEnd(t, 14, NotCloseBrace) == 56;
    assert RunEnd(t, 13, NotCloseBrace) == 56;
    assert RunEnd(t, 12, NotCloseBrace) == 56;
  }

  lemma UserBlockParse()
    ensures BlockPattern.ParseAt(("model User {" + " email: \"string\"," + " age: number," + " active: true " + "}"), 0) == Some(BlockPattern.Parse(6, 10, 12, 56))
  {
    var t := ("model User {" + " email: \"string\"," + " age: number," + " active: true " + "}");
    UserBlockRun1(); UserBlockRun2(); UserBlockRun3(); UserBlockRun4();
    assert t[0..5] == "model";
    assert BlockPattern.ParseAt(t, 0) == Some(BlockPattern.Parse(6, 10, 12, 56));
  }

  lemma UserBlockSlices()
    ensures ("model User {" + " email: \"string\"," + " age: number," + " active: true " + "}")[0..57] == ("model User {" + " email: \"string\"," + " age: number," + " active: true " + "}")
    ensures ("model User {" + " email: \"string\"," + " age: number," + " active: true " + "}")[6..10] == "User"
    ensures ("model User {" + " email: \"string\"," + " age: number," + " active: true " + "}")[12..56] == (" email: \"string\"," + " age: number," + " active: true ")
  {
  }

  lemma UserBlock()
    ensures BlockPattern.BlockAt(("model User {" + " email: \"string\"," + " age: number," + " active: true " + "}"), 0) == Some(Submatch(0, 57, [("model User {" + " email: \"string\"," + " age: number," + " active: true " + "}"), "User", (" email: \"string\"," + " age: number," + " active: true ")]))
  {
    var t := ("model User {" + " email: \"string\"," + " age: number," + " active: true " + "}");
    UserBlockParse();
    UserBlockSlices();
    assert BlockPattern.BlockAt(t, 0) == Some(Submatch(0, 57, [t[0..57], t[6..10], t[12..56]]));
  }

  lemma UserScan()
    ensures ScanBlocks(("model User {" + " email: \"string\"," + " age: number," + " active: true " + "}")) == [Submatch(0, 57, [("model User {" + " email: \"string\"," + " age: number," + " active: true " + "}"), "User", (" email: \"string\"," + " age: number," + " active: true ")])]
  {
    UserBlock();
    BlockPattern.BlockAtWellBehaved();
    FindAllOne(BlockPattern.BlockAt, ("model User {" + " email: \"string\"," + " age: number," + " active: true " + "}"), Submatch(0, 57, [("model User {" + " email: \"string\"," + " age: number," + " active: true " + "}"), "User", (" email: \"string\"," + " age: number," + " active: true ")]));
  }

  lemma UserEmailRun1()
    ensures RunEnd((" email: \"string\"," + " age: number," + " active: true "), 1, Word) == 6
  {
    var t := (" email: \"string\"," + " age: number," + " active: true ");
    assert RunEnd(t, 6, Word) == 6;
    assert RunEnd(t, 5, Word) == 6;
    assert RunEnd(t, 4, Word) == 6;
    assert RunEnd(t, 3, Word) == 6;
    assert RunEnd(t, 2, Word) == 6;
    assert RunEnd(t, 1, Word) == 6;
  }

  lemma UserEmailRun2()
    ensures RunEnd((" email: \"string\"," + " age: number," + " active: true "), 7, Space) == 8
  {
  }

  lemma UserEmailRun3From15()
    ensures RunEnd((" email: \"string\"," + " age: number," + " active: true "), 15, NotQuote) == 15
  {
  }

  lemma UserEmailRun3()
    ensures RunEnd((" email: \"string\"," + " age: number," + " active: true "), 9, NotQuote) == 15
  {
    var t := (" email: \"string\"," + " age: number," + " active: true ");
    UserEmailRun3From15();
    assert RunEnd(t, 14, NotQuote) == 15;
    assert RunEnd(t, 13, NotQuote) == 15;
    assert RunEnd(t, 12, NotQuote) == 15;
    assert RunEnd(t, 11, NotQuote) == 15;
    assert RunEnd(t, 10, NotQuote) == 15;
    assert RunEnd(t, 9, NotQuote) == 15;
  }

  lemma UserEmailParse()
    ensures FieldPattern.ParseAt((" email: \"string\"," + " age: number," + " active: true "), 1) == Some(FieldPattern.Parse(6, 8, true, 15, true, true))
  {
    var t := (" email: \"string\"," + " age: number," + " active: true ");
    UserEmailRun1(); UserEmailRun2(); UserEmailRun3();
    assert FieldPattern.Rest(t, 1, 6, 8, true) == FieldPattern.Parse(6, 8, true, 15, true, true);
    assert FieldPattern.ParseAt(t, 1) == Some(FieldPattern.Parse(6, 8, true, 15, true, true));
  }

  lemma UserEmailSlices()
    ensures (" email: \"string\"," + " age: number," + " active: true ")[1..17] == "email: \"string\","
    ensures (" email: \"string\"," + " age: number," + " active: true ")[1..6] == "email"
    ensures (" email: \"string\"," + " age: number," + " active: true ")[9..15] == "string"
  {
  }

  lemma UserEmail()
    ensures FieldPattern.FieldAt((" email: \"string\"," + " age: number," + " active: true "), 1) == Some(Submatch(1, 17, ["email: \"string\",", "email", "string"]))
  {
    var t := (" email: \"string\"," + " age: number," + " active: true ");
    UserEmailParse();
    UserEmailSlices();
    assert FieldPattern.FieldAt(t, 1) == Some(Submatch(1, 17, [t[1..17], t[1..6], t[9..15]]));
  }

  lemma UserAgeRun1()
    ensures RunEnd((" email: \"string\"," + " age: number," + " active: true "), 18, Word) == 21
  {
    var t := (" email: \"string\"," + " age: number," + " active: true ");
    assert RunEnd(t, 21, Word) == 21;
    assert RunEnd(t, 20, Word) == 21;
    assert RunEnd(t, 19, Word) == 21;
    assert RunEnd(t, 18, Word) == 21;
  }

  lemma UserAgeRun2()
    ensures RunEnd((" email: \"string\"," + " age: number," + " active: true "), 22, Space) == 23
  {
  }

  lemma UserAgeRun3()
    ensures RunEnd((" email: \"string\"," + " age: number," + " active: true "), 23, NotQuote) == 44
  {
  }

  lemma UserAgeParse()
    ensures FieldPattern.ParseAt((" email: \"string\"," + " age: number," + " active: true "), 18) == Some(FieldPattern.Parse(21, 23, false, 44, false, false))
  {
    var t := (" email: \"string\"," + " age: number," + " active: true ");
    UserAgeRun1(); UserAgeRun2(); UserAgeRun3();
    assert FieldPattern.Rest(t, 18, 21, 23, false) == FieldPattern.Parse(21, 23, false, 44, false, false);
    assert FieldPattern.ParseAt(t, 18) == Some(FieldPattern.Parse(21, 23, false, 44, false, false));
  }

  lemma UserAgeSlice1()
    ensures (" email: \"string\"," + " age: number," + " active: true ")[18..44] == "age: number, active: true "
  {
  }

  lemma UserAgeSlice2()
    ensures (" email: \"string\"," + " age: number," + " active: true ")[23..44] == "number, active: true "
  {
  }

  lemma UserAgeSlices()
    ensures (" email: \"string\"," + " age: number," + " active: true ")[18..44] == "age: number, active: true "
    ensures (" email: \"string\"," + " age: number," + " active: true ")[18..21] == "age"
    ensures (" email: \"string\"," + " age: number," + " active: true ")[23..44] == "number, active: true "
  {
    UserAgeSlice1();
    UserAgeSlice2();
  }

  lemma UserAge()
    ensures FieldPattern.FieldAt((" email: \"string\"," + " age: number," + " active: true "), 18) == Some(Submatch(18, 44, ["age: number, active: true ", "age", "number, active: true "]))
  {
    var t := (" email: \"string\"," + " age: number," + " active: true ");
    UserAgeParse();
    UserAgeSlices();
    assert FieldPattern.FieldAt(t, 18) == Some(Submatch(18, 44, [t[18..44], t[18..21], t[23..44]]));
  }

  lemma UserFieldsGaps()
    ensures NoMatchIn(FieldPattern.FieldAt, (" email: \"string\"," + " age: number," + " active: true "), 0, 1)
    ensures NoMatchIn(FieldPattern.FieldAt, (" email: \"string\"," + " age: number," + " active: true "), 17, 18)
  {
    assert RunEnd((" email: \"string\"," + " age: number," + " active: true "), 0, Word) == 0;
    assert RunEnd((" email: \"string\"," + " age: number," + " active: true "), 17, Word) == 17;
  }

  lemma UserFields()
    ensures ExtractFields((" email: \"string\"," + " age: number," + " active: true ")) == [Submatch(1, 17, ["email: \"string\",", "email", "string"]), Submatch(18, 44, ["age: number, active: true ", "age", "number, active: true "])]
  {
    UserEmail();
    UserAge();
    UserFieldsGaps();
    FieldPattern.FieldAtWellBehaved();
    FindAllTwo(FieldPattern.FieldAt, (" email: \"string\"," + " age: number," + " active: true "),
      Submatch(1, 17, ["email: \"string\",", "email", "string"]), Submatch(18, 44, ["age: number, active: true ", "age", "number, active: true "]));
  }

  /**
   * The schema `model User { email: "string", age: number, active: true }`
   * gives one record with two fields, not three: the unquoted value of age
   * runs to the end of the body.
   */
  lemma UserModel()
    ensures Document(("model User {" + " email: \"string\"," + " age: number," + " active: true " + "}"))
         == [map["model" := "User", "email" := "string", "age" := "number, active: true "]]
  {
    UserScan();
    UserFields();
    TwoFieldDocument(("model User {" + " email: \"string\"," + " age: number," + " active: true " + "}"), Submatch(0, 57, [("model User {" + " email: \"string\"," + " age: number," + " active: true " + "}"), "User", (" email: \"string\"," + " age: number," + " active: true ")]), Submatch(1, 17, ["email: \"string\",", "email", "string"]), Submatch(18, 44, ["age: number, active: true ", "age", "number, active: true "]));
  }
}
