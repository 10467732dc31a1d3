/**
 * The extractor of convert/convert.go: find every model block of the
 * schema text, find every `key: value` declaration in each block body, and
 * build one record per block (a map holding "model" -> name and then each
 * extracted pair, later pairs overwriting earlier ones), in source order.
 */
module Convert {

  import opened Wrappers
  import opened Chars
  import opened Regexp
  import BlockPattern
  import FieldPattern

  /** One extracted declaration. */
  datatype Field = Field(key: string, value: string)

  /** The block matches of the text, as FindAllStringSubmatch(content, -1) reports them. */
  function ScanBlocks(content: string): (ms: seq<Submatch>)
    ensures forall i :: 0 <= i < |ms| ==> |ms[i].group| == 3 && ms[i].start < ms[i].end <= |content|
  {
    BlockPattern.BlockAtWellBehaved();
    FindAllSpec(BlockPattern.BlockAt, content, 0);
    FindAll(BlockPattern.BlockAt, content, 0)
  }

  /**
   * The block matches are exactly the successive leftmost matches: each is
   * the block match at its start, and no block match starts in a gap that
   * was searched and skipped (FindAllUnique: no other sequence is).
   */
  lemma ScanBlocksSpec(content: string)
    ensures IsFindAll(BlockPattern.BlockAt, content, 0, ScanBlocks(content))
  {
    BlockPattern.BlockAtWellBehaved();
    FindAllSpec(BlockPattern.BlockAt, content, 0);
  }

  /** Each block match is the block match at its own start, and its first group is the text it spans. */
  lemma ScanBlocksAt(content: string, i: nat)
    requires i < |ScanBlocks(content)|
    ensures var m := ScanBlocks(content)[i];
      BlockPattern.BlockAt(content, m.start) == Some(m) && m.group[0] == content[m.start..m.end]
  {
    ScanBlocksSpec(content);
    IsFindAllAt(BlockPattern.BlockAt, content, 0, ScanBlocks(content), i);
  }

  /** The field matches of one block body. */
  function ExtractFields(properties: string): (ms: seq<Submatch>)
    ensures forall i :: 0 <= i < |ms| ==> ms[i].start < ms[i].end <= |properties| && |ms[i].group| == 3
  {
    FieldPattern.FieldAtWellBehaved();
    FindAllSpec(FieldPattern.FieldAt, properties, 0);
    FindAll(FieldPattern.FieldAt, properties, 0)
  }

  /** Every field match has a word key and a non-empty value without quotes. */
  lemma ExtractFieldsGood(properties: string)
    ensures var ms := ExtractFields(properties);
      forall i :: 0 <= i < |ms| ==> IsWordString(ms[i].group[1]) && ms[i].group[2] != [] && NoQuote(ms[i].group[2])
  {
    FieldPattern.FieldAtWellBehaved();
    FindAllSpec(FieldPattern.FieldAt, properties, 0);
  }

  /** The field matches are exactly the successive leftmost-first matches of the body. */
  lemma ExtractFieldsSpec(properties: string)
    ensures IsFindAll(FieldPattern.FieldAt, properties, 0, ExtractFields(properties))
  {
    FieldPattern.FieldAtWellBehaved();
    FindAllSpec(FieldPattern.FieldAt, properties, 0);
  }

  /** The (key, value) pairs of field matches, in order. */
  function FieldsOf(ms: seq<Submatch>): seq<Field>
    requires forall i :: 0 <= i < |ms| ==> |ms[i].group| == 3
  {
    seq(|ms|, i requires 0 <= i < |ms| => Field(ms[i].group[1], ms[i].group[2]))
  }

  /** base with the pairs of fs written into it one after another. */
  function Overlay(base: map<string, string>, fs: seq<Field>): map<string, string>
    decreases |fs|
  {
    if fs == [] then base
    else Overlay(base, fs[..|fs| - 1])[fs[|fs| - 1].key := fs[|fs| - 1].value]
  }

  /** The record of one block: "model" -> name first, then the fields. */
  function Record(name: string, fs: seq<Field>): map<string, string> {
    Overlay(map["model" := name], fs)
  }

  function RecordOf(b: Submatch): map<string, string>
    requires |b.group| == 3
  {
    Record(b.group[1], FieldsOf(ExtractFields(b.group[2])))
  }

  /** The collection the extractor builds: one record per block match, in order. */
  function Document(content: string): (d: seq<map<string, string>>)
    ensures |d| == |ScanBlocks(content)|
  {
    var blocks := ScanBlocks(content);
    seq(|blocks|, i requires 0 <= i < |blocks| => RecordOf(blocks[i]))
  }

  /**
   * The loops of the extractor: for each block match, a fresh map gets
   * "model" -> name, then each field match's key and value; the map is
   * appended to the collection.
   */
  method Assemble(content: string) returns (models: seq<map<string, string>>)
    ensures models == Document(content)
  {
    var matches := ScanBlocks(content);
    models := [];
    var i := 0;
    while i < |matches|
      invariant 0 <= i <= |matches|
      invariant |models| == i
      invariant forall k :: 0 <= k < i ==> models[k] == RecordOf(matches[k])
    {
      var m := matches[i];
      var model := map["model" := m.group[1]];
      var properties := m.group[2];
      var propMatches := ExtractFields(properties);
      ghost var fs := FieldsOf(propMatches);
      var j := 0;
      while j < |propMatches|
        invariant 0 <= j <= |propMatches|
        invariant model == Record(m.group[1], fs[..j])
      {
        var key := propMatches[j].group[1];
        var value := propMatches[j].group[2];
        RecordStep(m.group[1], fs, j);
        model := model[key := value];
        j := j + 1;
      }
      assert fs[..|propMatches|] == fs;
      assert model == RecordOf(m);
      models := models + [model];
      i := i + 1;
    }
  }

  /** Writing one more field into a record. */
  lemma RecordStep(name: string, fs: seq<Field>, j: nat)
    requires j < |fs|
    ensures Record(name, fs[..j + 1]) == Record(name, fs[..j])[fs[j].key := fs[j].value]
  {
    assert fs[..j + 1][..j] == fs[..j];
  }

  /** The value of the last pair with key k. */
  predicate IsLastWith(fs: seq<Field>, k: string, i: int) {
    0 <= i < |fs| && fs[i].key == k && forall j :: i < j < |fs| ==> fs[j].key != k
  }

  /**
   * Last write wins: a key is present when the base or some pair has it; it
   * maps to the value of its last pair, or keeps the base's value if no
   * pair has it.
   */
  lemma OverlayLookup(base: map<string, string>, fs: seq<Field>, k: string)
    ensures k in Overlay(base, fs) <==> k in base || exists i :: 0 <= i < |fs| && fs[i].key == k
    ensures forall i :: IsLastWith(fs, k, i) ==> k in Overlay(base, fs) && Overlay(base, fs)[k] == fs[i].value
    ensures (forall i :: 0 <= i < |fs| ==> fs[i].key != k) && k in base ==> Overlay(base, fs)[k] == base[k]
  {
    OverlayKeys(base, fs, k);
    forall i | IsLastWith(fs, k, i)
      ensures k in Overlay(base, fs) && Overlay(base, fs)[k] == fs[i].value
    {
      OverlayLast(base, fs, k, i);
    }
    if (forall i :: 0 <= i < |fs| ==> fs[i].key != k) && k in base {
      OverlayUntouched(base, fs, k);
    }
  }

  /** The keys after overlaying: those of the base and those of the pairs. */
  lemma {:induction false} OverlayKeys(base: map<string, string>, fs: seq<Field>, k: string)
    ensures k in Overlay(base, fs) <==> k in base || exists i :: 0 <= i < |fs| && fs[i].key == k
    decreases |fs|
  {
    if fs != [] {
      var init := fs[..|fs| - 1];
      OverlayKeys(base, init, k);
      forall i | 0 <= i < |init| ensures init[i] == fs[i] { }
    }
  }

  /** The value of a key is that of its last pair. */
  lemma {:induction false} OverlayLast(base: map<string, string>, fs: seq<Field>, k: string, i: int)
    requires IsLastWith(fs, k, i)
    ensures k in Overlay(base, fs) && Overlay(base, fs)[k] == fs[i].value
    decreases |fs|
  {
    if i < |fs| - 1 {
      var init := fs[..|fs| - 1];
      assert IsLastWith(init, k, i);
      OverlayLast(base, init, k, i);
    }
  }

  /** A key no pair has keeps the base's value. */
  lemma {:induction false} OverlayUntouched(base: map<string, string>, fs: seq<Field>, k: string)
    requires k in base && forall i :: 0 <= i < |fs| ==> fs[i].key != k
    ensures k in Overlay(base, fs) && Overlay(base, fs)[k] == base[k]
    decreases |fs|
  {
    if fs != [] {
      var init := fs[..|fs| - 1];
      assert forall i :: 0 <= i < |init| ==> init[i] == fs[i];
      OverlayUntouched(base, init, k);
    }
  }

  /** Overlaying n pairs adds at most n keys. */
  lemma {:induction false} OverlaySize(base: map<string, string>, fs: seq<Field>)
    ensures |Overlay(base, fs)| <= |base| + |fs|
    decreases |fs|
  {
    if fs != [] {
      var init := fs[..|fs| - 1];
      OverlaySize(base, init);
      var m := Overlay(base, init);
      var last := fs[|fs| - 1];
      if last.key in m {
        assert m[last.key := last.value].Keys == m.Keys;
      } else {
        assert m[last.key := last.value].Keys == m.Keys + {last.key};
      }
    }
  }

  /** A key that is a word and a non-empty value without quotes. */
  predicate GoodEntry(k: string, v: string) {
    IsWordString(k) && v != [] && NoQuote(v)
  }

  /** Overlaying good pairs on a good map gives a good map. */
  lemma {:induction false} OverlayGood(base: map<string, string>, fs: seq<Field>)
    requires forall k :: k in base ==> GoodEntry(k, base[k])
    requires forall i :: 0 <= i < |fs| ==> GoodEntry(fs[i].key, fs[i].value)
    ensures forall k :: k in Overlay(base, fs) ==> GoodEntry(k, Overlay(base, fs)[k])
    decreases |fs|
  {
    if fs != [] {
      OverlayGood(base, fs[..|fs| - 1]);
    }
  }

  /** The records follow the block matches, which appear left to right without overlapping. */
  lemma DocumentInOrder(content: string, i: nat, j: nat)
    requires i < j < |Document(content)|
    ensures ScanBlocks(content)[i].end <= ScanBlocks(content)[j].start
  {
    BlockPattern.BlockAtWellBehaved();
    FindAllOrdered(BlockPattern.BlockAt, content, 0, i, j);
  }

  /** The i-th record is built from the i-th block match. */
  lemma DocumentRecord(content: string, i: nat)
    requires i < |Document(content)|
    ensures Document(content)[i] == RecordOf(ScanBlocks(content)[i])
  {
  }

  /** Text in which no block matches gives an empty collection, and only such text does. */
  lemma EmptyDocument(content: string)
    ensures Document(content) == [] <==> forall p: nat :: BlockPattern.BlockAt(content, p).None?
  {
  }

  /**
   * The entries of a record: "model" and the key of each field are present
   * and nothing else; a key maps to the value of its last field, and
   * "model" maps to the block's name unless a field named model overwrote it.
   */
  lemma RecordLookup(name: string, fs: seq<Field>, k: string)
    ensures "model" in Record(name, fs)
    ensures k in Record(name, fs) <==> k == "model" || exists i :: 0 <= i < |fs| && fs[i].key == k
    ensures forall i :: IsLastWith(fs, k, i) ==> Record(name, fs)[k] == fs[i].value
    ensures (forall i :: 0 <= i < |fs| ==> fs[i].key != "model") ==> Record(name, fs)["model"] == name
  {
    OverlayLookup(map["model" := name], fs, k);
    OverlayLookup(map["model" := name], fs, "model");
  }

  /** Every key of a record is a word and every value is non-empty and free of quotes. */
  lemma RecordEntriesGood(content: string, i: nat)
    requires i < |Document(content)|
    ensures forall k :: k in Document(content)[i] ==> GoodEntry(k, Document(content)[i][k])
  {
    var b := ScanBlocks(content)[i];
    ScanBlocksAt(content, i);
    BlockPattern.BlockAtShape(content, b.start);
    var fs := FieldsOf(ExtractFields(b.group[2]));
    ExtractFieldsGood(b.group[2]);
    RecordGood(b.group[1], fs);
  }

  /** A record built from a word name and good fields has only good entries. */
  lemma RecordGood(name: string, fs: seq<Field>)
    requires IsWordString(name)
    requires forall i :: 0 <= i < |fs| ==> GoodEntry(fs[i].key, fs[i].value)
    ensures forall k :: k in Record(name, fs) ==> GoodEntry(k, Record(name, fs)[k])
  {
    WordStringNoQuote(name);
    assert IsWordString("model");
    OverlayGood(map["model" := name], fs);
  }

  /** A record has at most one entry per field match, besides "model". */
  lemma RecordSize(b: Submatch)
    requires |b.group| == 3
    ensures |RecordOf(b)| <= 1 + |ExtractFields(b.group[2])|
  {
    OverlaySize(map["model" := b.group[1]], FieldsOf(ExtractFields(b.group[2])));
  }

  /**
   * A field key is the maximal run of word characters before its colon: the
   * colon follows it directly, and it is not preceded by a word character
   * (a match ends after a quote, a comma or at the end of the body, so a
   * match preceded by a word character would have started earlier).
   */
  lemma FieldKeysMaximal(properties: string, i: nat)
    requires i < |ExtractFields(properties)|
    ensures var m := ExtractFields(properties)[i]; var key := m.group[1];
      m.start + |key| < |properties| && properties[m.start..m.start + |key| + 1] == key + ":"
      && (m.start == 0 || !In(Word, properties[m.start - 1]))
  {
    FieldKeyBeforeColon(properties, i);
    FieldKeyNotAfterWord(properties, i);
  }

  lemma FieldKeyBeforeColon(properties: string, i: nat)
    requires i < |ExtractFields(properties)|
    ensures var m := ExtractFields(properties)[i]; var key := m.group[1];
      m.start + |key| < |properties| && properties[m.start..m.start + |key| + 1] == key + ":"
  {
    var ms := ExtractFields(properties);
    var m := ms[i];
    ExtractedFieldAt(properties, i);
    FieldPattern.FieldAtKey(properties, m);
  }

  /** Each field match is the leftmost-first match at its start. */
  lemma ExtractedFieldAt(properties: string, i: nat)
    requires i < |ExtractFields(properties)|
    ensures FieldPattern.FieldAt(properties, ExtractFields(properties)[i].start) == Some(ExtractFields(properties)[i])
  {
    ExtractFieldsSpec(properties);
    IsFindAllAt(FieldPattern.FieldAt, properties, 0, ExtractFields(properties), i);
  }

  lemma FieldKeyNotAfterWord(properties: string, i: nat)
    requires i < |ExtractFields(properties)|
    ensures var m := ExtractFields(properties)[i];
      m.start == 0 || !In(Word, properties[m.start - 1])
  {
    var ms := ExtractFields(properties);
    var m := ms[i];
    ExtractFieldsSpec(properties);
    IsFindAllAt(FieldPattern.FieldAt, properties, 0, ms, i);
    if m.start > 0 {
      IsFindAllBefore(FieldPattern.FieldAt, properties, 0, ms, i);
      if FieldPattern.FieldAt(properties, m.start - 1).None? {
        FieldPattern.FieldAtExtendsLeft(properties, m.start);
      } else {
        FieldPattern.FieldAtAfterMatch(properties, ms[i - 1], m);
      }
    }
  }
}
