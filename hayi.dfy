/**
 * The desktop variant of the batch-learning paraphraser (`hayi.py`).
 *
 * Learning is symmetric: `_add_synonym(w, s)` records `s` as a synonym of
 * `w` and `w` as a synonym of `s`, and logs every append in the per-run delta
 * `newly_added_synonyms`. Paraphrasing substitutes every token that has a
 * candidate, where the candidates are the learned synonyms other than the
 * word itself followed by the lexicon's (WordNet's) filtered lemmas, and
 * each substitution produces a change record.
 *
 * The random choice is an oracle `pick(v, i)` (variation `v`, token `i`)
 * whose value is reduced modulo the number of candidates, so every choice
 * `random.choice` can make is covered.
 */
module Hayi {
  import opened Text
  import opened Store

  // ---------------------------------------------------------------------
  // Knowledge store with the per-run delta

  /** The two maps `_add_synonym` updates: the knowledge and the delta of the current batch run. */
  datatype Knowledge = Knowledge(synonyms: SynonymMap, added: SynonymMap)

  /**
   * One half of `_add_synonym`: when `v` is not yet in `k`'s list, append it
   * there and append it to `k`'s list in the delta as well.
   */
  function Append(st: Knowledge, k: string, v: string): (r: Knowledge)
    ensures v in Get(r.synonyms, k)
  {
    if v in Get(st.synonyms, k) then st
    else Knowledge(AddOneWay(st.synonyms, k, v), st.added[k := Get(st.added, k) + [v]])
  }

  /** `_add_synonym(word, synonym)`: both directions, word to synonym first. */
  function AddPair(st: Knowledge, word: string, synonym: string): Knowledge {
    Append(Append(st, word, synonym), synonym, word)
  }

  /** After `_add_synonym(w, s)`, `s` is a synonym of `w` and `w` is a synonym of `s`. */
  lemma AddPairSymmetric(st: Knowledge, w: string, s: string)
    ensures var r := AddPair(st, w, s);
            w in r.synonyms && s in r.synonyms[w] && s in r.synonyms && w in r.synonyms[s]
  {
    var r1 := Append(st, w, s);
    assert s in Get(r1.synonyms, w);
  }

  /**
   * What `_add_synonym(w, s)` appends: `s` to `w`'s list unless already
   * there, then `w` to `s`'s list unless already there, each append
   * repeated in the delta; when `w == s` the second half finds `w` present.
   */
  lemma AddPairAppends(st: Knowledge, w: string, s: string)
    ensures var r := AddPair(st, w, s);
            var add := if s in Get(st.synonyms, w) then [] else [s];
            Get(r.synonyms, w) == Get(st.synonyms, w) + add && Get(r.added, w) == Get(st.added, w) + add
    ensures var r := AddPair(st, w, s);
            var add := if w in Get(st.synonyms, s) then [] else [w];
            w != s ==> Get(r.synonyms, s) == Get(st.synonyms, s) + add && Get(r.added, s) == Get(st.added, s) + add
  {
  }

  /** A second identical call changes neither the knowledge nor the delta. */
  lemma AddPairIdempotent(st: Knowledge, w: string, s: string)
    ensures AddPair(AddPair(st, w, s), w, s) == AddPair(st, w, s)
  {
    AddPairSymmetric(st, w, s);
    AddPairPresent(AddPair(st, w, s), w, s);
  }

  /** When both directions are already known, `_add_synonym` is a no-op. */
  lemma AddPairPresent(st: Knowledge, w: string, s: string)
    requires s in Get(st.synonyms, w) && w in Get(st.synonyms, s)
    ensures AddPair(st, w, s) == st
  {
  }

  /** Key `k` is present in both maps or in neither, with the same list. */
  predicate SameAt(a: SynonymMap, b: SynonymMap, k: string) {
    (k in a <==> k in b) && Get(a, k) == Get(b, k)
  }

  /** `after` is `before` with at most one value appended. */
  predicate AppendsAtMostOne(before: seq<string>, after: seq<string>) {
    before <= after && |after| <= |before| + 1
  }

  /**
   * `_add_synonym(w, s)` touches only the keys `w` and `s`, and only by
   * appending: every old list is a prefix of the new one, at most one value
   * is appended per key, and every other key of both maps is unchanged.
   */
  lemma AddPairFrame(st: Knowledge, w: string, s: string)
    ensures AddPair(st, w, s).synonyms.Keys == st.synonyms.Keys + {w, s}
    ensures forall k :: k != w && k != s ==>
              SameAt(st.synonyms, AddPair(st, w, s).synonyms, k) && SameAt(st.added, AddPair(st, w, s).added, k)
    ensures forall k :: AppendsAtMostOne(Get(st.synonyms, k), Get(AddPair(st, w, s).synonyms, k))
  {
    var r1 := Append(st, w, s);
    var r := Append(r1, s, w);
    forall k ensures AppendsAtMostOne(Get(st.synonyms, k), Get(r.synonyms, k)) {
      if w == s {
        assert r == r1;
      }
    }
  }

  /** No list of the knowledge ever gains a duplicate. */
  lemma AddPairNoDup(st: Knowledge, w: string, s: string)
    requires AllNoDup(st.synonyms)
    ensures AllNoDup(AddPair(st, w, s).synonyms)
  {
    AddOneWayNoDup(st.synonyms, w, s);
    AddOneWayNoDup(Append(st, w, s).synonyms, s, w);
  }

  /**
   * The delta of a run started on `base` is exactly what the run appended:
   * every list of the knowledge is its `base` list followed by its delta list,
   * and the delta holds no key the knowledge lacks.
   */
  predicate Tracks(base: SynonymMap, st: Knowledge) {
    && base.Keys <= st.synonyms.Keys
    && st.added.Keys <= st.synonyms.Keys
    && forall k :: k in st.synonyms ==> st.synonyms[k] == Get(base, k) + Get(st.added, k)
  }

  /** A delta that tracks a duplicate-free knowledge is itself duplicate-free. */
  lemma TracksNoDup(base: SynonymMap, st: Knowledge)
    requires Tracks(base, st) && AllNoDup(st.synonyms)
    ensures AllNoDup(st.added)
  {
    forall k | k in st.added ensures NoDup(st.added[k]) {
      var pre := Get(base, k);
      assert st.synonyms[k] == pre + st.added[k];
      forall i, j | 0 <= i < j < |st.added[k]| ensures st.added[k][i] != st.added[k][j] {
        assert st.synonyms[k][|pre| + i] == st.added[k][i];
        assert st.synonyms[k][|pre| + j] == st.added[k][j];
      }
    }
  }

  lemma AppendTracks(base: SynonymMap, st: Knowledge, k: string, v: string)
    requires Tracks(base, st)
    ensures Tracks(base, Append(st, k, v))
  {
    if v !in Get(st.synonyms, k) {
      var syn := st.synonyms[k := Get(st.synonyms, k) + [v]];
      var added := st.added[k := Get(st.added, k) + [v]];
      assert Append(st, k, v) == Knowledge(syn, added);
      assert Get(st.synonyms, k) == Get(base, k) + Get(st.added, k);
      forall x | x in syn ensures syn[x] == Get(base, x) + Get(added, x) {
        if x == k {
          assert Get(added, x) == Get(st.added, k) + [v];
        } else {
          assert syn[x] == st.synonyms[x] && Get(added, x) == Get(st.added, x);
        }
      }
    }
  }

  /** `_add_synonym` keeps the delta in step with the knowledge. */
  lemma AddPairTracks(base: SynonymMap, st: Knowledge, w: string, s: string)
    requires Tracks(base, st)
    ensures Tracks(base, AddPair(st, w, s))
  {
    AppendTracks(base, st, w, s);
    AppendTracks(base, Append(st, w, s), s, w);
  }

  // ---------------------------------------------------------------------
  // Batch learning

  /** `_add_synonym` applied to the pairs in order. */
  function LearnAll(st: Knowledge, ps: seq<(string, string)>): Knowledge {
    if ps == [] then st
    else AddPair(LearnAll(st, ps[..|ps| - 1]), ps[|ps| - 1].0, ps[|ps| - 1].1)
  }

  lemma LearnAllSnoc(st: Knowledge, ps: seq<(string, string)>, w: string, s: string)
    ensures LearnAll(st, ps + [(w, s)]) == AddPair(LearnAll(st, ps), w, s)
  {
    assert (ps + [(w, s)])[..|ps|] == ps;
  }

  /** Learning a batch and then at most one more pair is learning the longer batch. */
  lemma LearnAllStep(st: Knowledge, ps: seq<(string, string)>, qs: seq<(string, string)>)
    requires |qs| <= 1
    ensures LearnAll(st, ps + qs) == LearnAll(LearnAll(st, ps), qs)
  {
    if qs == [] {
      assert ps + qs == ps;
    } else {
      var (w, s) := qs[0];
      assert qs == [(w, s)];
      LearnAllSnoc(st, ps, w, s);
      LearnAllSnoc(LearnAll(st, ps), [], w, s);
      assert [] + qs == qs;
    }
  }

  /** The pairs a file yields: CSV rows for a `.csv` extension, text lines for every other extension. */
  function FilePairs(path: string, rows: seq<seq<string>>, lines: seq<string>, failAt: Option<nat>): seq<(string, string)> {
    if Lower(Extension(path)) == ".csv" then RowPairs(Delivered(rows, failAt))
    else LinePairs(Delivered(lines, failAt))
  }

  /**
   * After a run started with an empty delta, the delta records exactly the
   * appends of the run, in order, key by key.
   */
  lemma {:induction false} LearnAllTracks(base: SynonymMap, st: Knowledge, ps: seq<(string, string)>)
    requires Tracks(base, st)
    ensures Tracks(base, LearnAll(st, ps))
  {
    if ps != [] {
      LearnAllTracks(base, st, ps[..|ps| - 1]);
      AddPairTracks(base, LearnAll(st, ps[..|ps| - 1]), ps[|ps| - 1].0, ps[|ps| - 1].1);
    }
  }

  /** A batch never removes a key. */
  lemma {:induction false} LearnAllKeys(st: Knowledge, ps: seq<(string, string)>)
    ensures st.synonyms.Keys <= LearnAll(st, ps).synonyms.Keys
  {
    if ps != [] {
      LearnAllKeys(st, ps[..|ps| - 1]);
      AddPairFrame(LearnAll(st, ps[..|ps| - 1]), ps[|ps| - 1].0, ps[|ps| - 1].1);
    }
  }

  /**
   * The map saved after a batch, read back at the next start-up, is not
   * changed by the merge of the defaults `es`, as long as it held them before
   * the batch (as every map does once `__init__` has merged them).
   */
  lemma ReloadAfterLearn(st: Knowledge, ps: seq<(string, string)>, es: seq<(string, seq<string>)>)
    requires DistinctKeys(es) && EntryKeys(es) <= st.synonyms.Keys
    ensures MergeDefaults(LearnAll(st, ps).synonyms, es) == LearnAll(st, ps).synonyms
  {
    LearnAllKeys(st, ps);
    MergeDefaultsPresent(LearnAll(st, ps).synonyms, es);
  }

  /** Start-up, a batch, and start-up again: the second start-up changes nothing. */
  lemma RestartAfterLearn(loaded: SynonymMap, ps: seq<(string, string)>)
    ensures DistinctKeys(BaseSynonyms)
    ensures var st := LearnAll(Knowledge(MergeDefaults(loaded, BaseSynonyms), map[]), ps);
            MergeDefaults(st.synonyms, BaseSynonyms) == st.synonyms
  {
    BaseSynonymsDistinct();
    MergeDefaultsSpec(loaded, BaseSynonyms);
    ReloadAfterLearn(Knowledge(MergeDefaults(loaded, BaseSynonyms), map[]), ps, BaseSynonyms);
  }

  /** Learning only appends: every list of the knowledge before is a prefix of the list after. */
  lemma {:induction false} LearnAllGrows(st: Knowledge, ps: seq<(string, string)>)
    ensures forall k :: Get(st.synonyms, k) <= Get(LearnAll(st, ps).synonyms, k)
  {
    if ps != [] {
      var prev := LearnAll(st, ps[..|ps| - 1]);
      LearnAllGrows(st, ps[..|ps| - 1]);
      AddPairFrame(prev, ps[|ps| - 1].0, ps[|ps| - 1].1);
    }
  }

  /** After a batch every learned pair is known in both directions. */
  lemma {:induction false} LearnAllSymmetric(st: Knowledge, ps: seq<(string, string)>)
    ensures forall j :: 0 <= j < |ps| ==>
              ps[j].1 in Get(LearnAll(st, ps).synonyms, ps[j].0)
              && ps[j].0 in Get(LearnAll(st, ps).synonyms, ps[j].1)
  {
    if ps != [] {
      var init := ps[..|ps| - 1];
      var last := ps[|ps| - 1];
      var prev := LearnAll(st, init);
      var r := LearnAll(st, ps);
      LearnAllSymmetric(st, init);
      AddPairSymmetric(prev, last.0, last.1);
      AddPairFrame(prev, last.0, last.1);
      forall j | 0 <= j < |ps|
        ensures ps[j].1 in Get(r.synonyms, ps[j].0) && ps[j].0 in Get(r.synonyms, ps[j].1)
      {
        if j < |init| {
          assert ps[j] == init[j];
          assert Get(prev.synonyms, ps[j].0) <= Get(r.synonyms, ps[j].0);
          assert Get(prev.synonyms, ps[j].1) <= Get(r.synonyms, ps[j].1);
        }
      }
    }
  }

  /** Learning pairs that are all known in both directions changes nothing. */
  lemma {:induction false} LearnAllKnown(st: Knowledge, ps: seq<(string, string)>)
    requires forall j :: 0 <= j < |ps| ==>
               ps[j].1 in Get(st.synonyms, ps[j].0) && ps[j].0 in Get(st.synonyms, ps[j].1)
    ensures LearnAll(st, ps) == st
  {
    if ps != [] {
      LearnAllKnown(st, ps[..|ps| - 1]);
      AddPairPresent(st, ps[|ps| - 1].0, ps[|ps| - 1].1);
    }
  }

  /**
   * Learning the same file twice: the second run leaves the knowledge as the
   * first left it and reports an empty delta.
   */
  lemma RelearnChangesNothing(m: SynonymMap, ps: seq<(string, string)>)
    ensures var once := LearnAll(Knowledge(m, map[]), ps).synonyms;
            LearnAll(Knowledge(once, map[]), ps) == Knowledge(once, map[])
  {
    var st := LearnAll(Knowledge(m, map[]), ps);
    LearnAllSymmetric(Knowledge(m, map[]), ps);
    LearnAllKnown(Knowledge(st.synonyms, map[]), ps);
  }

  // ---------------------------------------------------------------------
  // The lexical expander (WordNet)

  /** WordNet as seen by the paraphraser: the lemma names for a query word, and the similarity test `ratio() >= self.synonym_confidence`. */
  datatype Lexicon = Lexicon(lemmas: string -> seq<string>, similar: (string, string) -> bool)

  /** `lemma.name().replace("_", " ").lower()`. */
  function Normalize(name: string): (r: string)
    ensures |r| == |name|
    ensures forall i :: 0 <= i < |name| ==> r[i] == LowerChar(if name[i] == '_' then ' ' else name[i])
    ensures IsLowerCase(r)
  {
    Lower(seq(|name|, i requires 0 <= i < |name| => if name[i] == '_' then ' ' else name[i]))
  }

  /** The filter of `_get_nltk_synonyms`: not the word itself, alphabetic only, similar enough. */
  predicate Keep(word: string, c: string, similar: (string, string) -> bool) {
    c != word && IsAlpha(c) && similar(word, c)
  }

  /**
   * The set `_get_nltk_synonyms` collects, listed in order of first
   * occurrence: no duplicates, only kept lower-case candidates, and every
   * kept candidate is present. `LexiconFilterExact` adds that nothing
   * else is.
   */
  function LexiconFilter(word: string, names: seq<string>, similar: (string, string) -> bool): (r: seq<string>)
    ensures NoDup(r)
    ensures forall x :: x in r ==> Keep(word, x, similar) && IsLowerCase(x)
    ensures forall i :: 0 <= i < |names| && Keep(word, Normalize(names[i]), similar) ==> Normalize(names[i]) in r
  {
    if names == [] then []
    else
      var init := names[..|names| - 1];
      assert forall i :: 0 <= i < |init| ==> init[i] == names[i];
      var r := LexiconFilter(word, init, similar);
      var c := Normalize(names[|names| - 1]);
      if Keep(word, c, similar) && c !in r then r + [c] else r
  }

  /**
   * The filter's membership is exact: a word is kept exactly when it is the
   * normalized form of one of the lemma names and passes `Keep`.
   */
  lemma {:induction false} LexiconFilterExact(word: string, names: seq<string>, similar: (string, string) -> bool)
    ensures forall x :: x in LexiconFilter(word, names, similar) <==>
              exists i :: 0 <= i < |names| && x == Normalize(names[i]) && Keep(word, x, similar)
  {
    LexiconFilterFromNames(word, names, similar);
  }

  /** Every candidate the filter keeps is the normalized form of one of the lemma names. */
  lemma {:induction false} LexiconFilterFromNames(word: string, names: seq<string>, similar: (string, string) -> bool)
    ensures forall x :: x in LexiconFilter(word, names, similar) ==>
              exists i :: 0 <= i < |names| && x == Normalize(names[i])
  {
    if names != [] {
      var init := names[..|names| - 1];
      LexiconFilterFromNames(word, init, similar);
      forall x | x in LexiconFilter(word, names, similar)
        ensures exists i :: 0 <= i < |names| && x == Normalize(names[i])
      {
        if x in LexiconFilter(word, init, similar) {
          var i :| 0 <= i < |init| && x == Normalize(init[i]);
          assert init[i] == names[i];
        } else {
          assert x == Normalize(names[|names| - 1]);
        }
      }
    }
  }

  function NltkCandidates(lex: Lexicon, cw: string): seq<string> {
    LexiconFilter(cw, lex.lemmas(cw), lex.similar)
  }

  // ---------------------------------------------------------------------
  // Candidate lists

  /** `[syn for syn in synonyms.get(cw, []) if syn != cw]`. */
  function LearnedCandidates(list: seq<string>, cw: string): (r: seq<string>)
    ensures forall x :: x in r <==> x in list && x != cw
  {
    if list == [] then []
    else LearnedCandidates(list[..|list| - 1], cw)
         + (if list[|list| - 1] != cw then [list[|list| - 1]] else [])
  }

  /** `cands.extend(s for s in extra if s not in cands)`: appends each new value once, keeping `cands` as prefix. */
  function ExtendNew(cands: seq<string>, extra: seq<string>): (r: seq<string>)
    ensures cands <= r
    ensures forall x :: x in r <==> x in cands || x in extra
  {
    if extra == [] then cands
    else
      var r := ExtendNew(cands, extra[..|extra| - 1]);
      assert forall x :: x in extra <==> x in extra[..|extra| - 1] || x == extra[|extra| - 1];
      if extra[|extra| - 1] in r then r else r + [extra[|extra| - 1]]
  }

  /** The configuration a paraphrase call reads: the knowledge, the lexicon toggle and the lexicon. */
  datatype Engine = Engine(synonyms: SynonymMap, useNltk: bool, lexicon: Lexicon)

  /**
   * The candidates for the lower-cased token `cw`: never `cw` itself; exactly
   * the learned synonyms other than `cw` and, when the lexicon is on, the
   * lexicon candidates.
   */
  function Candidates(e: Engine, cw: string): seq<string> {
    var learned := LearnedCandidates(Get(e.synonyms, cw), cw);
    if e.useNltk then ExtendNew(learned, NltkCandidates(e.lexicon, cw)) else learned
  }

  lemma CandidatesMembers(e: Engine, cw: string)
    ensures forall x :: x in Candidates(e, cw) <==>
              (x in Get(e.synonyms, cw) && x != cw) || (e.useNltk && x in NltkCandidates(e.lexicon, cw))
    ensures forall x :: x in Candidates(e, cw) ==> x != cw
  {
  }

  // ---------------------------------------------------------------------
  // Paraphrase

  datatype Source = Learned | Nltk

  /** `{'original', 'new', 'position', 'source'}`. */
  datatype ChangeRecord = ChangeRecord(original: string, newWord: string, position: nat, source: Source)

  /** One returned variation: the joined text and its change records. */
  datatype Variation = Variation(text: string, changes: seq<ChangeRecord>)

  /** The decision for one token: `None` keeps it, `Some((w, tag))` substitutes `w`. */
  function Decide(e: Engine, word: string, p: nat): Option<(string, Source)> {
    var cw := Lower(word);
    var cands := Candidates(e, cw);
    if |cands| == 0 then None
    else
      var w := cands[p % |cands|];
      Some((w, if e.useNltk && w in NltkCandidates(e.lexicon, cw) then Nltk else Learned))
  }

  function OutWord(e: Engine, word: string, p: nat): string {
    match Decide(e, word, p)
    case None => word
    case Some(d) => d.0
  }

  /** The tokens of variation `v`. */
  function VariationWords(e: Engine, words: seq<string>, pick: (nat, nat) -> nat, v: nat): (out: seq<string>)
    ensures |out| == |words|
  {
    seq(|words|, i requires 0 <= i < |words| => OutWord(e, words[i], pick(v, i)))
  }

  /** The change record of token `i`: one exactly when the token has candidates, at position `i`. */
  function ChangeAt(e: Engine, words: seq<string>, pick: (nat, nat) -> nat, v: nat, i: nat): (r: seq<ChangeRecord>)
    requires i < |words|
    ensures |r| <= 1 && (|r| == 1 <==> |Candidates(e, Lower(words[i]))| > 0)
    ensures forall c :: c in r ==> c.position == i && c.original == words[i]
  {
    match Decide(e, words[i], pick(v, i))
    case None => []
    case Some(d) => [ChangeRecord(words[i], d.0, i, d.1)]
  }

  /** The change records of variation `v` for the first `n` tokens. */
  function VariationChanges(e: Engine, words: seq<string>, pick: (nat, nat) -> nat, v: nat, n: nat): seq<ChangeRecord>
    requires n <= |words|
  {
    if n == 0 then [] else VariationChanges(e, words, pick, v, n - 1) + ChangeAt(e, words, pick, v, n - 1)
  }

  /** Extending a prefix by one element. */
  lemma PrefixSnoc<T>(s: seq<T>, i: nat)
    requires i < |s|
    ensures s[..i + 1] == s[..i] + [s[i]]
  {
  }

  /** One more token of a variation, in terms of the choice made for it. */
  lemma ChangesSnoc(e: Engine, words: seq<string>, pick: (nat, nat) -> nat, v: nat, i: nat, d: Option<(string, Source)>)
    requires i < |words| && d == Decide(e, words[i], pick(v, i))
    ensures d.None? ==> VariationChanges(e, words, pick, v, i + 1) == VariationChanges(e, words, pick, v, i)
    ensures d.Some? ==> VariationChanges(e, words, pick, v, i + 1) ==
                        VariationChanges(e, words, pick, v, i) + [ChangeRecord(words[i], d.value.0, i, d.value.1)]
  {
    assert VariationChanges(e, words, pick, v, i + 1) ==
           VariationChanges(e, words, pick, v, i) + ChangeAt(e, words, pick, v, i);
  }

  /**
   * The change record a variation emits at token `i` when it has
   * candidates, and none when it has not.
   */
  lemma ChangeAtShape(e: Engine, words: seq<string>, pick: (nat, nat) -> nat, v: nat, i: nat)
    requires i < |words|
    ensures var cands := Candidates(e, Lower(words[i]));
            && (|cands| == 0 ==> ChangeAt(e, words, pick, v, i) == [])
            && (|cands| > 0 ==>
                  var w := cands[pick(v, i) % |cands|];
                  && w in cands
                  && VariationWords(e, words, pick, v)[i] == w
                  && ChangeAt(e, words, pick, v, i)
                     == [ChangeRecord(words[i], w, i, if e.useNltk && w in NltkCandidates(e.lexicon, Lower(words[i])) then Nltk else Learned)])
  {
  }

  /**
   * A change record agrees with the variation's tokens `out`: it names the
   * original token at its position and the token now there, which is a
   * candidate other than the lower-cased original; its tag is `Nltk` exactly
   * when the lexicon is on and the new word is a lexicon candidate.
   */
  predicate Agrees(e: Engine, words: seq<string>, out: seq<string>, c: ChangeRecord) {
    && c.position < |words| && |out| == |words|
    && c.original == words[c.position]
    && c.newWord == out[c.position]
    && c.newWord != Lower(c.original)
    && c.newWord in Candidates(e, Lower(c.original))
    && (c.source == Nltk <==> e.useNltk && c.newWord in NltkCandidates(e.lexicon, Lower(c.original)))
  }

  /** Every change record of a variation agrees with the variation's tokens. */
  lemma {:induction false} ChangesAgree(e: Engine, words: seq<string>, pick: (nat, nat) -> nat, v: nat, n: nat)
    requires n <= |words|
    ensures forall c :: c in VariationChanges(e, words, pick, v, n) ==> Agrees(e, words, VariationWords(e, words, pick, v), c)
  {
    if n > 0 {
      ChangesAgree(e, words, pick, v, n - 1);
      ChangeAtShape(e, words, pick, v, n - 1);
      CandidatesMembers(e, Lower(words[n - 1]));
    }
  }

  predicate PositionsBelow(cs: seq<ChangeRecord>, n: nat) {
    forall j :: 0 <= j < |cs| ==> cs[j].position < n
  }

  predicate PositionsIncrease(cs: seq<ChangeRecord>) {
    forall j, k :: 0 <= j < k < |cs| ==> cs[j].position < cs[k].position
  }

  /** Some change record is at position `p`. */
  predicate HasRecordAt(cs: seq<ChangeRecord>, p: nat) {
    exists j :: 0 <= j < |cs| && cs[j].position == p
  }

  /** The positions of a variation's change records stay below `n` and strictly increase. */
  lemma {:induction false} ChangesIncreasing(e: Engine, words: seq<string>, pick: (nat, nat) -> nat, v: nat, n: nat)
    requires n <= |words|
    ensures PositionsBelow(VariationChanges(e, words, pick, v, n), n)
    ensures PositionsIncrease(VariationChanges(e, words, pick, v, n))
  {
    if n > 0 {
      ChangesIncreasing(e, words, pick, v, n - 1);
      var prev := VariationChanges(e, words, pick, v, n - 1);
      var cs := VariationChanges(e, words, pick, v, n);
      var extra := ChangeAt(e, words, pick, v, n - 1);
      assert cs == prev + extra;
      forall j | 0 <= j < |cs| ensures cs[j].position < n {
        if j < |prev| {
          assert cs[j] == prev[j];
          assert prev[j].position < n - 1;
        } else {
          assert cs[j] == extra[j - |prev|];
          assert cs[j] in extra;
          assert cs[j].position == n - 1;
        }
      }
      forall j, k | 0 <= j < k < |cs| ensures cs[j].position < cs[k].position {
        assert cs[j] == prev[j];
        if k < |prev| { assert cs[k] == prev[k]; } else { assert cs[k] in extra; }
      }
    }
  }

  /** A position below `n` has a change record exactly when its candidate list is non-empty. */
  lemma {:induction false} ChangesWhereCandidates(e: Engine, words: seq<string>, pick: (nat, nat) -> nat, v: nat, n: nat)
    requires n <= |words|
    ensures forall p :: 0 <= p < n ==>
              (HasRecordAt(VariationChanges(e, words, pick, v, n), p) <==> |Candidates(e, Lower(words[p]))| > 0)
  {
    if n > 0 {
      ChangesWhereCandidates(e, words, pick, v, n - 1);
      ChangesIncreasing(e, words, pick, v, n - 1);
      var prev := VariationChanges(e, words, pick, v, n - 1);
      var extra := ChangeAt(e, words, pick, v, n - 1);
      var cs := VariationChanges(e, words, pick, v, n);
      assert cs == prev + extra;
      RecordsAppend(prev, extra, n - 1, |Candidates(e, Lower(words[n - 1]))| > 0);
      forall p | 0 <= p < n
        ensures HasRecordAt(cs, p) <==> |Candidates(e, Lower(words[p]))| > 0
      {
        if p < n - 1 {
          assert HasRecordAt(cs, p) <==> HasRecordAt(prev, p);
        }
      }
    }
  }

  /**
   * One step of `ChangesWhereCandidates`: appending the records of position
   * `i` to records that all lie below `i`.
   */
  lemma RecordsAppend(prev: seq<ChangeRecord>, extra: seq<ChangeRecord>, i: nat, has: bool)
    requires PositionsBelow(prev, i)
    requires |extra| <= 1 && (|extra| == 1 <==> has)
    requires forall c :: c in extra ==> c.position == i
    ensures !HasRecordAt(prev, i)
    ensures forall p: nat :: p < i ==> (HasRecordAt(prev + extra, p) <==> HasRecordAt(prev, p))
    ensures HasRecordAt(prev + extra, i) <==> has
  {
    var cs := prev + extra;
    assert forall k :: |prev| <= k < |cs| ==> cs[k] in extra;
    forall p: nat | p < i && HasRecordAt(cs, p) ensures HasRecordAt(prev, p) {
      var j :| 0 <= j < |cs| && cs[j].position == p;
      assert prev[j].position == p;
    }
    forall p: nat | HasRecordAt(prev, p) ensures HasRecordAt(cs, p) {
      var j :| 0 <= j < |prev| && prev[j].position == p;
      assert cs[j].position == p;
    }
    if has {
      assert cs[|prev|] in extra;
    } else {
      assert cs == prev;
    }
  }

  /** A token without candidates is kept verbatim, case and all. */
  lemma KeptVerbatim(e: Engine, words: seq<string>, pick: (nat, nat) -> nat, v: nat, p: nat)
    requires p < |words| && |Candidates(e, Lower(words[p]))| == 0
    ensures VariationWords(e, words, pick, v)[p] == words[p]
  {
    assert Decide(e, words[p], pick(v, p)) == None;
  }

  lemma {:induction false} NoCandidatesNoChanges(e: Engine, words: seq<string>, pick: (nat, nat) -> nat, v: nat, n: nat)
    requires n <= |words|
    requires forall p :: 0 <= p < n ==> |Candidates(e, Lower(words[p]))| == 0
    ensures VariationChanges(e, words, pick, v, n) == []
  {
    ChangesWhereCandidates(e, words, pick, v, n);
    ChangesIncreasing(e, words, pick, v, n);
    NoRecordsEmpty(VariationChanges(e, words, pick, v, n), n);
  }

  /** Records that all lie below `n`, with none at any position below `n`, are no records at all. */
  lemma NoRecordsEmpty(cs: seq<ChangeRecord>, n: nat)
    requires PositionsBelow(cs, n)
    requires forall p: nat :: p < n ==> !HasRecordAt(cs, p)
    ensures cs == []
  {
    var p := if |cs| > 0 then cs[0].position else 0;
    ghost var here := HasRecordAt(cs, p);
  }

  /** With nothing to substitute anywhere, a variation is the input's tokens joined by single spaces and re-tokenizes to them. */
  lemma NoCandidatesPassThrough(e: Engine, text: string, pick: (nat, nat) -> nat, v: nat)
    requires forall p :: 0 <= p < |Tokenize(text)| ==> |Candidates(e, Lower(Tokenize(text)[p]))| == 0
    ensures VariationWords(e, Tokenize(text), pick, v) == Tokenize(text)
    ensures VariationChanges(e, Tokenize(text), pick, v, |Tokenize(text)|) == []
    ensures Tokenize(JoinSpaces(VariationWords(e, Tokenize(text), pick, v))) == Tokenize(text)
  {
    var words := Tokenize(text);
    var out := VariationWords(e, words, pick, v);
    forall p | 0 <= p < |words| ensures out[p] == words[p] {
      KeptVerbatim(e, words, pick, v, p);
    }
    NoCandidatesNoChanges(e, words, pick, v, |words|);
    TokenizeJoin(words);
  }

  lemma TokenizeExample()
    ensures Tokenize("I will make it") == ["I", "will", "make", "it"]
  {
    var words := ["I", "will", "make", "it"];
    assert JoinSpaces(["it"]) == "it";
    assert JoinSpaces(["make", "it"]) == "make it";
    assert JoinSpaces(["will", "make", "it"]) == "will make it";
    assert JoinSpaces(words) == "I will make it";
    TokenizeJoin(words);
  }

  lemma JoinExample()
    ensures JoinSpaces(["I", "will", "create", "it"]) == "I will create it"
  {
    assert JoinSpaces(["it"]) == "it";
    assert JoinSpaces(["create", "it"]) == "create it";
    assert JoinSpaces(["will", "create", "it"]) == "will create it";
  }

  lemma DecideExample(lex: Lexicon, p: nat)
    ensures Decide(Engine(map["make" := ["create"]], false, lex), "I", p) == None
    ensures Decide(Engine(map["make" := ["create"]], false, lex), "will", p) == None
    ensures Decide(Engine(map["make" := ["create"]], false, lex), "make", p) == Some(("create", Learned))
    ensures Decide(Engine(map["make" := ["create"]], false, lex), "it", p) == None
  {
    CandidatesExample(lex);
    assert Lower("I") == "i" && Lower("will") == "will" && Lower("make") == "make" && Lower("it") == "it";
  }

  lemma CandidatesExample(lex: Lexicon)
    ensures Candidates(Engine(map["make" := ["create"]], false, lex), "make") == ["create"]
    ensures Candidates(Engine(map["make" := ["create"]], false, lex), "i") == []
    ensures Candidates(Engine(map["make" := ["create"]], false, lex), "will") == []
    ensures Candidates(Engine(map["make" := ["create"]], false, lex), "it") == []
  {
    assert ["create"][..0] == [];
  }

  /**
   * With the store `{"make": ["create"]}` and the lexicon off, the tokens
   * "I", "will", "make", "it" become "I", "will", "create", "it" whatever
   * the random choice.
   */
  lemma MakeCreateWords(lex: Lexicon, pick: (nat, nat) -> nat)
    ensures VariationWords(Engine(map["make" := ["create"]], false, lex), ["I", "will", "make", "it"], pick, 0)
            == ["I", "will", "create", "it"]
  {
    var e := Engine(map["make" := ["create"]], false, lex);
    var out := VariationWords(e, ["I", "will", "make", "it"], pick, 0);
    DecideExample(lex, pick(0, 0));
    DecideExample(lex, pick(0, 1));
    DecideExample(lex, pick(0, 2));
    DecideExample(lex, pick(0, 3));
    assert out[0] == "I" && out[1] == "will" && out[2] == "create" && out[3] == "it";
  }

  lemma MakeCreateChanges(lex: Lexicon, pick: (nat, nat) -> nat)
    ensures VariationChanges(Engine(map["make" := ["create"]], false, lex), ["I", "will", "make", "it"], pick, 0, 4)
            == [ChangeRecord("make", "create", 2, Learned)]
  {
    var e := Engine(map["make" := ["create"]], false, lex);
    var words := ["I", "will", "make", "it"];
    DecideExample(lex, pick(0, 0));
    DecideExample(lex, pick(0, 1));
    DecideExample(lex, pick(0, 2));
    DecideExample(lex, pick(0, 3));
    assert ChangeAt(e, words, pick, 0, 0) == [] && ChangeAt(e, words, pick, 0, 1) == [];
    assert ChangeAt(e, words, pick, 0, 2) == [ChangeRecord("make", "create", 2, Learned)];
    assert ChangeAt(e, words, pick, 0, 3) == [];
    assert VariationChanges(e, words, pick, 0, 1) == [];
    assert VariationChanges(e, words, pick, 0, 2) == [];
    assert VariationChanges(e, words, pick, 0, 3) == [ChangeRecord("make", "create", 2, Learned)];
  }

  /**
   * With the store `{"make": ["create"]}` and the lexicon off, "I will make
   * it" becomes "I will create it" whatever the random choice, with one
   * change record at position 2 tagged `Learned`.
   */
  lemma MakeCreateExample(text: string, lex: Lexicon, pick: (nat, nat) -> nat)
    requires text == "I will make it"
    ensures JoinSpaces(VariationWords(Engine(map["make" := ["create"]], false, lex), Tokenize(text), pick, 0))
            == "I will create it"
    ensures VariationChanges(Engine(map["make" := ["create"]], false, lex), Tokenize(text), pick, 0, |Tokenize(text)|)
            == [ChangeRecord("make", "create", 2, Learned)]
  {
    TokenizeExample();
    JoinExample();
    MakeCreateWords(lex, pick);
    MakeCreateChanges(lex, pick);
  }

  // ---------------------------------------------------------------------
  // The paraphraser object

  class Paraphraser {
    var useNltk: bool
    var synonyms: SynonymMap
    var newlyAdded: SynonymMap
    /** Every map `_save_knowledge` tried to write, oldest first (a failed write is still listed). */
    ghost var saved: seq<SynonymMap>

    function State(): Knowledge
      reads this
    {
      Knowledge(synonyms, newlyAdded)
    }

    function Config(lex: Lexicon): Engine
      reads this
    {
      Engine(synonyms, useNltk, lex)
    }

    /** `__init__` given the map `_load_knowledge` returned: the lexicon is on, the delta empty, the defaults merged in. */
    constructor (loaded: SynonymMap)
      ensures useNltk && newlyAdded == map[] && saved == []
      ensures synonyms == MergeDefaults(loaded, BaseSynonyms)
    {
      useNltk := true;
      newlyAdded := map[];
      saved := [];
      var base := BaseSynonyms;
      BaseSynonymsDistinct();
      var merged := MergeInto(loaded, base);
      synonyms := merged;
    }

    /** `_save_knowledge`: appends the map it tries to write to `saved`. */
    method SaveKnowledge()
      modifies this
      ensures saved == old(saved) + [synonyms]
      ensures State() == old(State()) && useNltk == old(useNltk)
    {
      saved := saved + [synonyms];
    }

    /** One half of `_add_synonym`: append `v` to `k`'s list, and to the delta, when it is missing. */
    method AppendOne(k: string, v: string)
      modifies this
      ensures State() == Append(old(State()), k, v)
      ensures useNltk == old(useNltk) && saved == old(saved)
    {
      ghost var before := State();
      if k !in synonyms {
        synonyms := synonyms[k := []];
      }
      assert synonyms[k] == Get(before.synonyms, k);
      if v !in synonyms[k] {
        synonyms := synonyms[k := synonyms[k] + [v]];
        assert synonyms == before.synonyms[k := Get(before.synonyms, k) + [v]];
        if k !in newlyAdded {
          newlyAdded := newlyAdded[k := []];
        }
        newlyAdded := newlyAdded[k := newlyAdded[k] + [v]];
      } else {
        assert synonyms == before.synonyms;
      }
    }

    /** `_add_synonym(word, synonym)`. */
    method AddSynonym(word: string, synonym: string)
      modifies this
      ensures State() == AddPair(old(State()), word, synonym)
      ensures useNltk == old(useNltk) && saved == old(saved)
    {
      AppendOne(word, synonym);
      AppendOne(synonym, word);
    }

    /** The body of both reading loops: learn the record's pair, if the record yields one. */
    method LearnRecord(record: Option<(string, string)>) returns (learned: nat)
      modifies this
      ensures learned == |OptionToSeq(record)|
      ensures State() == LearnAll(old(State()), OptionToSeq(record))
      ensures useNltk == old(useNltk) && saved == old(saved)
    {
      match record
      case None =>
        learned := 0;
      case Some((word, synonym)) =>
        LearnAllSnoc(State(), [], word, synonym);
        assert [] + [(word, synonym)] == [(word, synonym)];
        AddSynonym(word, synonym);
        learned := 1;
    }

    /** The CSV branch of `batch_learn_synonyms`: learn every row with two fields, counting them. */
    method LearnRows(records: seq<seq<string>>) returns (count: nat)
      modifies this
      ensures count == |RowPairs(records)|
      ensures State() == LearnAll(old(State()), RowPairs(records))
      ensures useNltk == old(useNltk) && saved == old(saved)
    {
      count := 0;
      ghost var start := State();
      for i := 0 to |records|
        invariant count == |RowPairs(records[..i])|
        invariant State() == LearnAll(start, RowPairs(records[..i]))
        invariant useNltk == old(useNltk) && saved == old(saved)
      {
        RowPairsSnoc(records, i);
        var record := RowRecord(records[i]);
        LearnAllStep(start, RowPairs(records[..i]), OptionToSeq(record));
        var learned := LearnRecord(record);
        count := count + learned;
      }
      assert records[..|records|] == records;
    }

    /** The text branch of `batch_learn_synonyms`: learn every line holding a delimiter, counting them. */
    method LearnLines(records: seq<string>) returns (count: nat)
      modifies this
      ensures count == |LinePairs(records)|
      ensures State() == LearnAll(old(State()), LinePairs(records))
      ensures useNltk == old(useNltk) && saved == old(saved)
    {
      count := 0;
      ghost var start := State();
      for i := 0 to |records|
        invariant count == |LinePairs(records[..i])|
        invariant State() == LearnAll(start, LinePairs(records[..i]))
        invariant useNltk == old(useNltk) && saved == old(saved)
      {
        LinePairsSnoc(records, i);
        var record := LineRecord(records[i]);
        LearnAllStep(start, LinePairs(records[..i]), OptionToSeq(record));
        var learned := LearnRecord(record);
        count := count + learned;
      }
      assert records[..|records|] == records;
    }

    /**
     * `batch_learn_synonyms(path)`. The file is given as the rows `csv.reader`
     * yields and as its lines; `failAt == Some(k)` means reading raises after
     * `k` records (0: the file cannot be opened), which skips the save. Both
     * counters are incremented together, so the two counts are always equal.
     */
    method BatchLearn(path: string, rows: seq<seq<string>>, lines: seq<string>, failAt: Option<nat>)
      returns (totalWords: nat, newWords: nat)
      modifies this
      ensures totalWords == |FilePairs(path, rows, lines, failAt)| && newWords == totalWords
      ensures State() == LearnAll(Knowledge(old(synonyms), map[]), FilePairs(path, rows, lines, failAt))
      ensures saved == if failAt.None? then old(saved) + [synonyms] else old(saved)
      ensures useNltk == old(useNltk)
    {
      newlyAdded := map[];
      if Lower(Extension(path)) == ".csv" {
        totalWords := LearnRows(Delivered(rows, failAt));
      } else {
        totalWords := LearnLines(Delivered(lines, failAt));
      }
      newWords := totalWords;
      if failAt.None? {
        SaveKnowledge();
      }
    }

    /** `_get_nltk_synonyms(word)`: the lemma names of the lexicon, normalized and filtered, each kept once. */
    method NltkSynonyms(word: string, lex: Lexicon) returns (found: seq<string>)
      ensures found == NltkCandidates(lex, word)
    {
      var names := lex.lemmas(word);
      found := [];
      for i := 0 to |names|
        invariant found == LexiconFilter(word, names[..i], lex.similar)
      {
        assert names[..i + 1][..i] == names[..i];
        var synonym := Normalize(names[i]);
        if synonym != word && IsAlpha(synonym) {
          if lex.similar(word, synonym) && synonym !in found {
            found := found + [synonym];
          }
        }
      }
      assert names[..|names|] == names;
    }

    /**
     * The candidate list `paraphrase` builds for the lower-cased token `cw`:
     * the learned synonyms other than `cw`, extended by the new lexicon
     * candidates when the lexicon is on; also returns the lexicon list used
     * for the tag.
     */
    method TokenCandidates(cw: string, lex: Lexicon) returns (cands: seq<string>, nltk: seq<string>)
      ensures cands == Candidates(Config(lex), cw)
      ensures nltk == if useNltk then NltkCandidates(lex, cw) else []
    {
      var learned := Get(synonyms, cw);
      cands := [];
      for j := 0 to |learned|
        invariant cands == LearnedCandidates(learned[..j], cw)
      {
        assert learned[..j + 1][..j] == learned[..j];
        if learned[j] != cw {
          cands := cands + [learned[j]];
        }
      }
      assert learned[..|learned|] == learned;
      nltk := [];
      if useNltk {
        nltk := NltkSynonyms(cw, lex);
        ghost var base := cands;
        for j := 0 to |nltk|
          invariant cands == ExtendNew(base, nltk[..j])
        {
          assert nltk[..j + 1][..j] == nltk[..j];
          if nltk[j] !in cands {
            cands := cands + [nltk[j]];
          }
        }
        assert nltk[..|nltk|] == nltk;
      }
    }

    /**
     * The body of the inner loop of `paraphrase` for one token: no candidate
     * keeps it; otherwise the candidate the random choice `p` selects replaces
     * it, tagged `Nltk` when it is among the lexicon candidates.
     */
    method DecideToken(word: string, p: nat, lex: Lexicon) returns (d: Option<(string, Source)>)
      ensures d == Decide(Config(lex), word, p)
    {
      var currentWord := Lower(word);
      var cands, nltk := TokenCandidates(currentWord, lex);
      if |cands| > 0 {
        var newWord := cands[p % |cands|];
        d := Some((newWord, if useNltk && newWord in nltk then Nltk else Learned));
      } else {
        d := None;
      }
    }

    /** One pass of the outer loop of `paraphrase`: the variation numbered `v`. */
    method Variate(words: seq<string>, v: nat, lex: Lexicon, pick: (nat, nat) -> nat) returns (variation: Variation)
      ensures variation == Variation(JoinSpaces(VariationWords(Config(lex), words, pick, v)),
                                     VariationChanges(Config(lex), words, pick, v, |words|))
    {
      ghost var e := Config(lex);
      ghost var all := VariationWords(e, words, pick, v);
      var modifiedWords: seq<string> := [];
      var changedWords: seq<ChangeRecord> := [];
      for i := 0 to |words|
        invariant modifiedWords == all[..i]
        invariant changedWords == VariationChanges(e, words, pick, v, i)
      {
        var word := words[i];
        var d := DecideToken(word, pick(v, i), lex);
        ChangesSnoc(e, words, pick, v, i, d);
        assert all[i] == OutWord(e, word, pick(v, i));
        PrefixSnoc(all, i);
        match d {
          case None =>
            modifiedWords := modifiedWords + [word];
          case Some(choice) =>
            modifiedWords := modifiedWords + [choice.0];
            changedWords := changedWords + [ChangeRecord(word, choice.0, |modifiedWords| - 1, choice.1)];
        }
      }
      assert all[..|words|] == all;
      variation := Variation(JoinSpaces(modifiedWords), changedWords);
    }

    /**
     * `paraphrase(text, num_variations)`: one variation per pass (none for a
     * negative count), each the tokens of `text` with every token that has a
     * candidate substituted.
     */
    method Paraphrase(text: string, numVariations: int, lex: Lexicon, pick: (nat, nat) -> nat)
      returns (variations: seq<Variation>)
      ensures |variations| == if numVariations < 0 then 0 else numVariations
      ensures forall v :: 0 <= v < |variations| ==>
                variations[v] == Variation(JoinSpaces(VariationWords(Config(lex), Tokenize(text), pick, v)),
                                           VariationChanges(Config(lex), Tokenize(text), pick, v, |Tokenize(text)|))
    {
      var words := Tokenize(text);
      var n := if numVariations < 0 then 0 else numVariations;
      variations := [];
      for v := 0 to n
        invariant |variations| == v
        invariant forall u :: 0 <= u < v ==>
                    variations[u] == Variation(JoinSpaces(VariationWords(Config(lex), words, pick, u)),
                                               VariationChanges(Config(lex), words, pick, u, |words|))
      {
        var variation := Variate(words, v, lex, pick);
        variations := variations + [variation];
      }
    }
  }
}
