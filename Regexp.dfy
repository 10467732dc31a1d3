/**
 * The part of Go's regexp package the extractor relies on:
 * FindAllStringSubmatch(s, -1) for a pattern that never matches the empty
 * string. A pattern is given as its anchored matcher: f(t, p) is the match
 * the engine picks among the matches that start exactly at p (the context
 * before p, needed by `^`, is visible to it). FindAll then repeatedly takes
 * the leftmost match and resumes the search where that match ended.
 */
module Regexp {

  import opened Wrappers

  /**
   * One match: the span [start, end) of the text it covers and its groups;
   * group[0] is the whole matched text, group[k] the k-th capture.
   */
  datatype Submatch = Submatch(start: nat, end: nat, group: seq<string>)

  type Matcher = (string, nat) -> Option<Submatch>

  /** A match starts where it was asked for, is non-empty and stays in the text. */
  ghost predicate WellBehaved(f: Matcher) {
    forall t: string, p: nat ::
      f(t, p).Some? ==> f(t, p).value.start == p && p < f(t, p).value.end <= |t|
  }

  /** No match starts anywhere in [lo, hi). */
  ghost predicate NoMatchIn(f: Matcher, t: string, lo: nat, hi: nat) {
    forall q: nat :: lo <= q < hi ==> f(t, q).None?
  }

  lemma NoMatchAt(f: Matcher, t: string, lo: nat, hi: nat, q: nat)
    requires NoMatchIn(f, t, lo, hi) && lo <= q < hi
    ensures f(t, q).None?
  {
  }

  /** The leftmost match starting at or after `from`. */
  function Leftmost(f: Matcher, t: string, from: nat): (r: Option<Submatch>)
    requires WellBehaved(f) && from <= |t|
    decreases |t| - from
    ensures r.None? ==> NoMatchIn(f, t, from, |t|)
    ensures r.Some? ==>
      from <= r.value.start < r.value.end <= |t| && f(t, r.value.start) == r
      && NoMatchIn(f, t, from, r.value.start)
  {
    if from == |t| then None
    else if f(t, from).Some? then f(t, from)
    else Leftmost(f, t, from + 1)
  }

  /** All successive non-overlapping leftmost matches from `from` on. */
  function FindAll(f: Matcher, t: string, from: nat): (ms: seq<Submatch>)
    requires WellBehaved(f) && from <= |t|
    decreases |t| - from
  {
    match Leftmost(f, t, from)
    case None => []
    case Some(m) => [m] + FindAll(f, t, m.end)
  }

  /** Where the search for the i-th match of ms begins. */
  function GapStart(from: nat, ms: seq<Submatch>, i: nat): nat
    requires i <= |ms|
  {
    if i == 0 then from else ms[i - 1].end
  }

  /**
   * The declarative meaning of FindAll: every element is a match at its
   * start, each begins at or after the end of the previous one (or `from`),
   * and no match starts in a gap that was searched and skipped, including
   * the gap after the last element.
   */
  ghost predicate IsFindAll(f: Matcher, t: string, from: nat, ms: seq<Submatch>) {
    && (forall i :: 0 <= i < |ms| ==> f(t, ms[i].start) == Some(ms[i]))
    && (forall i :: 0 <= i < |ms| ==>
          GapStart(from, ms, i) <= ms[i].start && NoMatchIn(f, t, GapStart(from, ms, i), ms[i].start))
    && NoMatchIn(f, t, GapStart(from, ms, |ms|), |t|)
  }

  /** The facts IsFindAll gives about its i-th match. */
  lemma IsFindAllAt(f: Matcher, t: string, from: nat, ms: seq<Submatch>, i: nat)
    requires IsFindAll(f, t, from, ms) && i < |ms|
    ensures f(t, ms[i].start) == Some(ms[i])
    ensures i > 0 ==> f(t, ms[i - 1].start) == Some(ms[i - 1])
    ensures GapStart(from, ms, i) <= ms[i].start && NoMatchIn(f, t, GapStart(from, ms, i), ms[i].start)
  {
  }

  /**
   * Just before a match that does not start at `from`, either a searched
   * position without a match, or the end of the previous match.
   */
  lemma IsFindAllBefore(f: Matcher, t: string, from: nat, ms: seq<Submatch>, i: nat)
    requires IsFindAll(f, t, from, ms) && i < |ms| && from < ms[i].start
    ensures f(t, ms[i].start - 1).None? || (i > 0 && ms[i - 1].end == ms[i].start)
  {
    IsFindAllAt(f, t, from, ms, i);
    if GapStart(from, ms, i) < ms[i].start {
      NoMatchAt(f, t, GapStart(from, ms, i), ms[i].start, ms[i].start - 1);
    }
  }

  /** FindAll has the meaning IsFindAll gives it. */
  lemma {:induction false} FindAllSpec(f: Matcher, t: string, from: nat)
    requires WellBehaved(f) && from <= |t|
    ensures IsFindAll(f, t, from, FindAll(f, t, from))
    decreases |t| - from
  {
    match Leftmost(f, t, from)
    case None =>
    case Some(m) =>
      var rest := FindAll(f, t, m.end);
      FindAllSpec(f, t, m.end);
      var ms := [m] + rest;
      assert ms == FindAll(f, t, from);
      forall i | 1 <= i <= |ms|
        ensures GapStart(from, ms, i) == GapStart(m.end, rest, i - 1)
      {
      }
      forall i | 0 <= i < |ms|
        ensures f(t, ms[i].start) == Some(ms[i])
        ensures GapStart(from, ms, i) <= ms[i].start && NoMatchIn(f, t, GapStart(from, ms, i), ms[i].start)
      {
        if i > 0 {
          assert ms[i] == rest[i - 1];
        }
      }
  }

  /** The leftmost match is determined by the first position that matches. */
  lemma LeftmostAt(f: Matcher, t: string, from: nat, q: nat)
    requires WellBehaved(f) && from <= q < |t|
    requires f(t, q).Some? && NoMatchIn(f, t, from, q)
    ensures Leftmost(f, t, from) == f(t, q)
  {
  }

  /** What IsFindAll says of a non-empty sequence holds of its tail, from where its head ends. */
  lemma IsFindAllTail(f: Matcher, t: string, from: nat, ms: seq<Submatch>)
    requires ms != [] && IsFindAll(f, t, from, ms)
    ensures IsFindAll(f, t, ms[0].end, ms[1..])
  {
  }

  /** IsFindAll determines the sequence: FindAll is its only solution. */
  lemma {:induction false} FindAllUnique(f: Matcher, t: string, from: nat, ms: seq<Submatch>)
    requires WellBehaved(f) && from <= |t|
    requires IsFindAll(f, t, from, ms)
    ensures ms == FindAll(f, t, from)
    decreases |ms|
  {
    if ms != [] {
      var m := ms[0];
      assert f(t, m.start) == Some(m) && GapStart(from, ms, 0) == from;
      LeftmostAt(f, t, from, m.start);
      IsFindAllTail(f, t, from, ms);
      FindAllUnique(f, t, m.end, ms[1..]);
      assert ms == [m] + ms[1..];
    }
  }

  /** Each match lies inside the searched text. */
  lemma {:induction false} FindAllInText(f: Matcher, t: string, from: nat, i: nat)
    requires WellBehaved(f) && from <= |t|
    requires i < |FindAll(f, t, from)|
    ensures from <= FindAll(f, t, from)[i].start < FindAll(f, t, from)[i].end <= |t|
    decreases |t| - from
  {
    var m := Leftmost(f, t, from).value;
    assert FindAll(f, t, from) == [m] + FindAll(f, t, m.end);
    if i > 0 {
      FindAllInText(f, t, m.end, i - 1);
    }
  }

  /** The matches are in source order and never overlap: each ends no later than any later one starts. */
  lemma {:induction false} FindAllOrdered(f: Matcher, t: string, from: nat, i: nat, j: nat)
    requires WellBehaved(f) && from <= |t|
    requires i < j < |FindAll(f, t, from)|
    ensures FindAll(f, t, from)[i].end <= FindAll(f, t, from)[j].start
    decreases |t| - from
  {
    var m := Leftmost(f, t, from).value;
    assert FindAll(f, t, from) == [m] + FindAll(f, t, m.end);
    if i == 0 {
      FindAllInText(f, t, m.end, j - 1);
    } else {
      FindAllOrdered(f, t, m.end, i - 1, j - 1);
    }
  }

  /** FindAll of a text without a match anywhere. */
  lemma FindAllNone(f: Matcher, t: string)
    requires WellBehaved(f) && NoMatchIn(f, t, 0, |t|)
    ensures FindAll(f, t, 0) == []
  {
  }

  /** FindAll of a text with one match, given where it and the gaps around it are. */
  lemma FindAllOne(f: Matcher, t: string, m: Submatch)
    requires WellBehaved(f) && f(t, m.start) == Some(m)
    requires NoMatchIn(f, t, 0, m.start) && NoMatchIn(f, t, m.end, |t|)
    ensures FindAll(f, t, 0) == [m]
  {
  }

  /** FindAll of a text with two matches, given where they and the gaps around them are. */
  lemma FindAllTwo(f: Matcher, t: string, m1: Submatch, m2: Submatch)
    requires WellBehaved(f) && f(t, m1.start) == Some(m1) && f(t, m2.start) == Some(m2)
    requires m1.end <= m2.start
    requires NoMatchIn(f, t, 0, m1.start) && NoMatchIn(f, t, m1.end, m2.start) && NoMatchIn(f, t, m2.end, |t|)
    ensures FindAll(f, t, 0) == [m1, m2]
  {
    var ms := [m1, m2];
    assert GapStart(0, ms, 1) == m1.end && GapStart(0, ms, 2) == m2.end;
    assert IsFindAll(f, t, 0, ms);
    FindAllUnique(f, t, 0, ms);
  }
}
