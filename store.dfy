/**
 * The synonym knowledge store shared by both paraphraser variants: a map from
 * a word to its ordered list of synonyms, the built-in defaults merged in at
 * start-up, the one-directional "append if absent" update, and the parsing
 * of batch-learning records into (word, synonym) pairs.
 */
module Store {
  import opened Text

  /** The in-memory knowledge: word -> ordered synonym list. */
  type SynonymMap = map<string, seq<string>>

  /** `synonyms.get(k, [])`. */
  function Get(m: SynonymMap, k: string): seq<string> {
    if k in m then m[k] else []
  }

  predicate NoDup(s: seq<string>) {
    forall i, j :: 0 <= i < j < |s| ==> s[i] != s[j]
  }

  /** Every list of the map is free of duplicates. */
  predicate AllNoDup(m: SynonymMap) {
    forall k :: k in m ==> NoDup(m[k])
  }

  predicate IsLowerCase(s: string) {
    forall i :: 0 <= i < |s| ==> !('A' <= s[i] <= 'Z')
  }

  // ---------------------------------------------------------------------
  // Built-in defaults and the start-up merge

  /** The built-in dictionary literal, in its declaration order. */
  const BaseSynonyms: seq<(string, seq<string>)> := [
    ("make", ["create", "construct", "build", "generate"]),
    ("say", ["state", "mention", "declare", "express"]),
    ("go", ["travel", "move", "proceed", "advance"]),
    ("get", ["obtain", "receive", "acquire", "secure"]),
    ("take", ["grab", "seize", "collect", "retrieve"])
  ]

  /** A dictionary literal never repeats a key. */
  predicate DistinctKeys(es: seq<(string, seq<string>)>) {
    forall i, j :: 0 <= i < j < |es| ==> es[i].0 != es[j].0
  }

  lemma BaseSynonymsDistinct()
    ensures DistinctKeys(BaseSynonyms)
  {
  }

  lemma DistinctKeysPrefix(es: seq<(string, seq<string>)>, n: nat)
    requires DistinctKeys(es) && n <= |es|
    ensures DistinctKeys(es[..n])
  {
    assert forall i :: 0 <= i < n ==> es[..n][i] == es[i];
  }

  /** The keys of a dictionary literal. */
  function EntryKeys(es: seq<(string, seq<string>)>): (ks: set<string>)
    ensures forall i :: 0 <= i < |es| ==> es[i].0 in ks
    ensures forall k :: k in ks ==> exists i :: 0 <= i < |es| && es[i].0 == k
  {
    if es == [] then {}
    else
      var init := es[..|es| - 1];
      assert forall i :: 0 <= i < |init| ==> init[i] == es[i];
      EntryKeys(init) + {es[|es| - 1].0}
  }

  /** `for key, value in defaults.items(): if key not in m: m[key] = value`. */
  function MergeDefaults(m: SynonymMap, es: seq<(string, seq<string>)>): SynonymMap
    requires DistinctKeys(es)
  {
    if es == [] then m
    else
      DistinctKeysPrefix(es, |es| - 1);
      var r := MergeDefaults(m, es[..|es| - 1]);
      var last := es[|es| - 1];
      if last.0 in r then r else r[last.0 := last.1]
  }

  /**
   * The merge adds exactly the default keys: every key already in `m` keeps
   * its list, and every default key absent from `m` gets its default list.
   */
  lemma {:induction false} MergeDefaultsSpec(m: SynonymMap, es: seq<(string, seq<string>)>)
    requires DistinctKeys(es)
    ensures MergeDefaults(m, es).Keys == m.Keys + EntryKeys(es)
    ensures forall k :: k in m ==> MergeDefaults(m, es)[k] == m[k]
    ensures forall i :: 0 <= i < |es| && es[i].0 !in m ==> MergeDefaults(m, es)[es[i].0] == es[i].1
  {
    if es != [] {
      var init := es[..|es| - 1];
      var last := es[|es| - 1];
      DistinctKeysPrefix(es, |es| - 1);
      MergeDefaultsSpec(m, init);
      var r := MergeDefaults(m, init);
      var out := MergeDefaults(m, es);
      assert out == if last.0 in r then r else r[last.0 := last.1];
      assert last.0 !in EntryKeys(init) by {
        assert forall i :: 0 <= i < |init| ==> init[i] == es[i] && init[i].0 != last.0;
      }
      assert EntryKeys(es) == EntryKeys(init) + {last.0};
      assert out.Keys == r.Keys + {last.0};
      forall k | k in m ensures out[k] == m[k] {
        assert k in r;
      }
      forall i | 0 <= i < |es| && es[i].0 !in m ensures out[es[i].0] == es[i].1 {
        if i < |init| {
          assert init[i] == es[i] && es[i].0 != last.0;
        }
      }
    }
  }

  /** One more entry of the literal: its key is added with its list unless already present. */
  lemma MergeDefaultsStep(m: SynonymMap, es: seq<(string, seq<string>)>, i: nat)
    requires DistinctKeys(es) && i < |es|
    ensures DistinctKeys(es[..i]) && DistinctKeys(es[..i + 1])
    ensures var r := MergeDefaults(m, es[..i]);
            MergeDefaults(m, es[..i + 1]) == if es[i].0 in r then r else r[es[i].0 := es[i].1]
  {
    DistinctKeysPrefix(es, i);
    DistinctKeysPrefix(es, i + 1);
    assert es[..i + 1][..i] == es[..i];
  }

  /** The start-up loop over the defaults' items, proved to compute the merge. */
  method MergeInto(loaded: SynonymMap, es: seq<(string, seq<string>)>) returns (m: SynonymMap)
    requires DistinctKeys(es)
    ensures m == MergeDefaults(loaded, es)
  {
    m := loaded;
    for i := 0 to |es|
      invariant DistinctKeys(es[..i])
      invariant m == MergeDefaults(loaded, es[..i])
    {
      MergeDefaultsStep(loaded, es, i);
      var (key, value) := es[i];
      if key !in m {
        m := m[key := value];
      }
    }
    assert es[..|es|] == es;
  }

  /**
   * A map that already holds every default key is left as it is by the
   * merge, so a start-up that reads back any saved map holding the defaults
   * changes nothing.
   */
  lemma MergeDefaultsPresent(m: SynonymMap, es: seq<(string, seq<string>)>)
    requires DistinctKeys(es) && EntryKeys(es) <= m.Keys
    ensures MergeDefaults(m, es) == m
  {
    MergeDefaultsSpec(m, es);
  }

  /** Merging the defaults twice is merging them once. */
  lemma MergeDefaultsIdempotent(m: SynonymMap, es: seq<(string, seq<string>)>)
    requires DistinctKeys(es)
    ensures MergeDefaults(MergeDefaults(m, es), es) == MergeDefaults(m, es)
  {
    MergeDefaultsSpec(m, es);
    MergeDefaultsPresent(MergeDefaults(m, es), es);
  }

  // ---------------------------------------------------------------------
  // One direction of `_add_synonym`

  /** `if k not in m: m[k] = []` then `if v not in m[k]: m[k].append(v)`. */
  function AddOneWay(m: SynonymMap, k: string, v: string): (r: SynonymMap)
    ensures k in r && v in r[k]
  {
    if k in m && v in m[k] then m else m[k := Get(m, k) + [v]]
  }

  /**
   * Afterwards `k` is a key and `v` is in its list; the old list is a prefix
   * of the new one, at most `v` was appended, no other key changed, and
   * nothing changed at all when `v` was already there.
   */
  lemma AddOneWaySpec(m: SynonymMap, k: string, v: string)
    ensures var r := AddOneWay(m, k, v);
            && k in r && v in r[k]
            && Get(m, k) <= r[k] && |r[k]| <= |Get(m, k)| + 1
            && r.Keys == m.Keys + {k}
            && (v in Get(m, k) ==> r == m)
    ensures forall x :: x != k ==> Get(AddOneWay(m, k, v), x) == Get(m, x)
  {
  }

  /** A list that had no duplicate still has none. */
  lemma AddOneWayNoDup(m: SynonymMap, k: string, v: string)
    requires AllNoDup(m)
    ensures AllNoDup(AddOneWay(m, k, v))
  {
    var r := AddOneWay(m, k, v);
    AddOneWaySpec(m, k, v);
    forall x | x in r ensures NoDup(r[x]) {
      if x == k && r != m {
        assert r[k] == Get(m, k) + [v];
      }
    }
  }

  /** A second identical call leaves the map as the first left it. */
  lemma AddOneWayIdempotent(m: SynonymMap, k: string, v: string)
    ensures AddOneWay(AddOneWay(m, k, v), k, v) == AddOneWay(m, k, v)
  {
  }

  // ---------------------------------------------------------------------
  // Batch-learning records

  /** The first `failAt` records are read before the reader raises; `None` reads them all. */
  function Delivered<T>(records: seq<T>, failAt: Option<nat>): (r: seq<T>)
    ensures r <= records
    ensures failAt.None? ==> r == records
  {
    match failAt
    case None => records
    case Some(k) => if k < |records| then records[..k] else records
  }

  /** A CSV row (already split into fields) yields its first two fields, lower-cased, when it has two. */
  function RowRecord(row: seq<string>): (r: Option<(string, string)>)
    ensures r.Some? <==> |row| >= 2
    ensures r.Some? ==> IsLowerCase(r.value.0) && IsLowerCase(r.value.1)
  {
    if |row| >= 2 then Some((Lower(row[0]), Lower(row[1]))) else None
  }

  /** A text line is stripped and split on `,` or tab; two pieces or more yield the first two, lower-cased. */
  function LineRecord(line: string): (r: Option<(string, string)>)
    ensures r.Some? ==> IsLowerCase(r.value.0) && IsLowerCase(r.value.1)
  {
    var parts := SplitDelims(Strip(line));
    if |parts| >= 2 then Some((Lower(parts[0]), Lower(parts[1]))) else None
  }

  /** A text line yields a pair exactly when its stripped text holds a `,` or a tab. */
  lemma LineRecordQualifies(line: string)
    ensures LineRecord(line).Some? <==> HasDelim(Strip(line))
  {
    SplitHasTwoParts(Strip(line));
  }

  function OptionToSeq<T>(o: Option<T>): seq<T> {
    match o
    case None => []
    case Some(x) => [x]
  }

  /** The pairs learned from CSV rows, in file order: one per row with at least two fields. */
  function RowPairs(rows: seq<seq<string>>): (ps: seq<(string, string)>)
    ensures |ps| <= |rows|
    ensures forall j :: 0 <= j < |ps| ==> IsLowerCase(ps[j].0) && IsLowerCase(ps[j].1)
  {
    if rows == [] then []
    else
      var init := RowPairs(rows[..|rows| - 1]);
      var last := OptionToSeq(RowRecord(rows[|rows| - 1]));
      assert forall j :: 0 <= j < |last| ==> IsLowerCase(last[j].0) && IsLowerCase(last[j].1);
      init + last
  }

  /** The pairs learned from text lines, in file order: one per line holding a delimiter after stripping. */
  function LinePairs(lines: seq<string>): (ps: seq<(string, string)>)
    ensures |ps| <= |lines|
    ensures forall j :: 0 <= j < |ps| ==> IsLowerCase(ps[j].0) && IsLowerCase(ps[j].1)
  {
    if lines == [] then []
    else
      var init := LinePairs(lines[..|lines| - 1]);
      var last := OptionToSeq(LineRecord(lines[|lines| - 1]));
      assert forall j :: 0 <= j < |last| ==> IsLowerCase(last[j].0) && IsLowerCase(last[j].1);
      init + last
  }

  /** The values of the present records, in order. */
  function Somes<T>(os: seq<Option<T>>): seq<T> {
    if os == [] then [] else Somes(os[..|os| - 1]) + OptionToSeq(os[|os| - 1])
  }

  /** One value per present record. */
  lemma {:induction false} SomesCount<T>(os: seq<Option<T>>)
    ensures |Somes(os)| == |set i: nat | i < |os| && os[i].Some?|
  {
    if os != [] {
      var n := |os| - 1;
      var init := os[..n];
      SomesCount(init);
      var before := set i: nat | i < |init| && init[i].Some?;
      var after := set i: nat | i < |os| && os[i].Some?;
      var last := if os[n].Some? then {n} else {};
      forall i: nat | i in after
        ensures i in before + last
      {
        if i < n {
          assert init[i] == os[i];
        }
      }
      forall i: nat | i in before + last
        ensures i in after
      {
        if i < n {
          assert init[i] == os[i];
        }
      }
      assert after == before + last;
      assert n !in before;
    }
  }

  /** Every present record's value is kept, and every kept value is some present record's value. */
  lemma {:induction false} SomesMembers<T>(os: seq<Option<T>>)
    ensures forall i :: 0 <= i < |os| && os[i].Some? ==> os[i].value in Somes(os)
    ensures forall q :: q in Somes(os) ==> exists i :: 0 <= i < |os| && os[i] == Some(q)
  {
    if os != [] {
      var n := |os| - 1;
      var init := os[..n];
      SomesMembers(init);
      assert forall i :: 0 <= i < n ==> init[i] == os[i];
    }
  }

  function RowRecords(rows: seq<seq<string>>): (rs: seq<Option<(string, string)>>)
    ensures |rs| == |rows| && forall i :: 0 <= i < |rows| ==> rs[i] == RowRecord(rows[i])
  {
    seq(|rows|, i requires 0 <= i < |rows| => RowRecord(rows[i]))
  }

  function LineRecords(lines: seq<string>): (rs: seq<Option<(string, string)>>)
    ensures |rs| == |lines| && forall i :: 0 <= i < |lines| ==> rs[i] == LineRecord(lines[i])
  {
    seq(|lines|, i requires 0 <= i < |lines| => LineRecord(lines[i]))
  }

  lemma {:induction false} RowPairsSomes(rows: seq<seq<string>>)
    ensures RowPairs(rows) == Somes(RowRecords(rows))
  {
    if rows != [] {
      var n := |rows| - 1;
      RowPairsSomes(rows[..n]);
      assert RowRecords(rows)[..n] == RowRecords(rows[..n]);
    }
  }

  lemma {:induction false} LinePairsSomes(lines: seq<string>)
    ensures LinePairs(lines) == Somes(LineRecords(lines))
  {
    if lines != [] {
      var n := |lines| - 1;
      LinePairsSomes(lines[..n]);
      LineRecordsPrefix(lines, n);
    }
  }

  lemma LineRecordsPrefix(lines: seq<string>, n: nat)
    requires n <= |lines|
    ensures LineRecords(lines)[..n] == LineRecords(lines[..n])
  {
    var rs := LineRecords(lines);
    var rs0 := LineRecords(lines[..n]);
    forall i | 0 <= i < n
      ensures rs[..n][i] == rs0[i]
    {
      assert lines[..n][i] == lines[i];
    }
  }

  /** A file yields exactly one pair per row with at least two fields. */
  lemma RowPairsCount(rows: seq<seq<string>>)
    ensures |RowPairs(rows)| == |set i: nat | i < |rows| && |rows[i]| >= 2|
  {
    var rs := RowRecords(rows);
    RowPairsSomes(rows);
    SomesCount(rs);
    assert (set i: nat | i < |rs| && rs[i].Some?) == set i: nat | i < |rows| && |rows[i]| >= 2;
  }

  /** A file yields exactly one pair per line whose stripped text holds a `,` or a tab. */
  lemma LinePairsCount(lines: seq<string>)
    ensures |LinePairs(lines)| == |set i: nat | i < |lines| && HasDelim(Strip(lines[i]))|
  {
    var rs := LineRecords(lines);
    LinePairsSomes(lines);
    SomesCount(rs);
    forall i | 0 <= i < |lines|
      ensures rs[i].Some? <==> HasDelim(Strip(lines[i]))
    {
      LineRecordQualifies(lines[i]);
    }
    assert (set i: nat | i < |rs| && rs[i].Some?) == set i: nat | i < |lines| && HasDelim(Strip(lines[i]));
  }

  /** Every qualifying row's pair is learned, and every learned pair is some qualifying row's pair. */
  lemma RowPairsMembers(rows: seq<seq<string>>)
    ensures forall i :: 0 <= i < |rows| && |rows[i]| >= 2 ==> (Lower(rows[i][0]), Lower(rows[i][1])) in RowPairs(rows)
    ensures forall q :: q in RowPairs(rows) ==>
              exists i :: 0 <= i < |rows| && |rows[i]| >= 2 && q == (Lower(rows[i][0]), Lower(rows[i][1]))
  {
    var rs := RowRecords(rows);
    RowPairsSomes(rows);
    SomesMembers(rs);
    forall q | q in RowPairs(rows)
      ensures exists i :: 0 <= i < |rows| && |rows[i]| >= 2 && q == (Lower(rows[i][0]), Lower(rows[i][1]))
    {
      var i :| 0 <= i < |rs| && rs[i] == Some(q);
    }
  }

  /** Every qualifying line's pair is learned. */
  lemma LinePairsHasQualifying(lines: seq<string>)
    ensures forall i :: 0 <= i < |lines| && LineRecord(lines[i]).Some? ==> LineRecord(lines[i]).value in LinePairs(lines)
  {
    forall i | 0 <= i < |lines| && LineRecord(lines[i]).Some?
      ensures LineRecord(lines[i]).value in LinePairs(lines)
    {
      var rs := LineRecords(lines);
      LinePairsSomes(lines);
      SomesMembers(rs);
      assert rs[i] == LineRecord(lines[i]);
    }
  }

  /** Every learned pair is some qualifying line's pair. */
  lemma LinePairsFromQualifying(lines: seq<string>)
    ensures forall q :: q in LinePairs(lines) ==> exists i :: 0 <= i < |lines| && LineRecord(lines[i]) == Some(q)
  {
    forall q | q in LinePairs(lines)
      ensures exists i :: 0 <= i < |lines| && LineRecord(lines[i]) == Some(q)
    {
      var rs := LineRecords(lines);
      LinePairsSomes(lines);
      SomesMembers(rs);
      var i :| 0 <= i < |rs| && rs[i] == Some(q);
      assert LineRecord(lines[i]) == Some(q);
    }
  }

  lemma RowPairsSnoc(rows: seq<seq<string>>, i: nat)
    requires i < |rows|
    ensures RowPairs(rows[..i + 1]) == RowPairs(rows[..i]) + OptionToSeq(RowRecord(rows[i]))
  {
    assert rows[..i + 1][..i] == rows[..i];
  }

  lemma LinePairsSnoc(lines: seq<string>, i: nat)
    requires i < |lines|
    ensures LinePairs(lines[..i + 1]) == LinePairs(lines[..i]) + OptionToSeq(LineRecord(lines[i]))
  {
    assert lines[..i + 1][..i] == lines[..i];
  }

  /**
   * A line contributes exactly when its stripped text holds a `,` or tab;
   * the word is the lower-cased text before the first delimiter and the
   * synonym the lower-cased text up to the next one (or to the end).
   */
  lemma LineRecordFields(line: string, a: string, d: char, b: string)
    requires Strip(line) == a + [d] + b
    requires forall i :: 0 <= i < |a| ==> !IsDelim(a[i])
    requires IsDelim(d)
    ensures LineRecord(line) == Some((Lower(a), Lower(SplitDelims(b)[0])))
  {
    SplitAtFirstDelim(a, d, b);
  }

  lemma ExampleRowRecords(rows: seq<seq<string>>)
    requires rows == [["Happy", "joyful"], ["big"], ["big", "LARGE", "x"], [], ["go", "travel"]]
    ensures OptionToSeq(RowRecord(rows[0])) == [("happy", "joyful")]
    ensures OptionToSeq(RowRecord(rows[1])) == [] && OptionToSeq(RowRecord(rows[3])) == []
    ensures OptionToSeq(RowRecord(rows[2])) == [("big", "large")]
    ensures OptionToSeq(RowRecord(rows[4])) == [("go", "travel")]
  {
    assert Lower("Happy") == "happy" && Lower("joyful") == "joyful";
    assert Lower("big") == "big" && Lower("LARGE") == "large";
    assert Lower("go") == "go" && Lower("travel") == "travel";
  }

  /** Five CSV rows of which two are short yield exactly the three pairs of the well-formed rows. */
  lemma RowPairsExample(rows: seq<seq<string>>)
    requires rows == [["Happy", "joyful"], ["big"], ["big", "LARGE", "x"], [], ["go", "travel"]]
    ensures RowPairs(rows) == [("happy", "joyful"), ("big", "large"), ("go", "travel")]
  {
    ExampleRowRecords(rows);
    assert RowPairs(rows[..0]) == [];
    RowPairsSnoc(rows, 0);
    RowPairsSnoc(rows, 1);
    RowPairsSnoc(rows, 2);
    RowPairsSnoc(rows, 3);
    RowPairsSnoc(rows, 4);
    assert rows[..5] == rows;
  }
}
