/**
 * The web variant of the batch-learning paraphraser (`para.py`).
 *
 * Learning is one-directional: `_add_synonym(w, s)` appends `s` to `w`'s
 * list only, and no delta is kept. Only `.csv`, `.txt` and `.tsv` files are
 * read; any other extension learns nothing but still saves.
 *
 * Paraphrasing copies the tokens and, token by token, tosses a coin that
 * lands heads three times in ten (`random.random() < 0.3`); on heads the token
 * is replaced by a random entry of its lower-cased form's list, and a token
 * whose lower-cased form is not a key is replaced by that lower-cased form.
 * The coin is the oracle `gate(v, i)` and the choice the oracle `pick(v, i)`
 * reduced modulo the list's length (variation `v`, token `i`).
 */
module Para {
  import opened Text
  import opened Store

  // ---------------------------------------------------------------------
  // One-directional learning

  /** `_add_synonym` applied to every pair in turn. */
  function LearnOneWay(m: SynonymMap, ps: seq<(string, string)>): SynonymMap {
    if ps == [] then m
    else AddOneWay(LearnOneWay(m, ps[..|ps| - 1]), ps[|ps| - 1].0, ps[|ps| - 1].1)
  }

  lemma LearnOneWaySnoc(m: SynonymMap, ps: seq<(string, string)>, w: string, s: string)
    ensures LearnOneWay(m, ps + [(w, s)]) == AddOneWay(LearnOneWay(m, ps), w, s)
  {
    assert (ps + [(w, s)])[..|ps|] == ps;
  }

  /** Learning a batch and then at most one more pair is learning the longer batch. */
  lemma LearnOneWayStep(m: SynonymMap, ps: seq<(string, string)>, qs: seq<(string, string)>)
    requires |qs| <= 1
    ensures LearnOneWay(m, ps + qs) == LearnOneWay(LearnOneWay(m, ps), qs)
  {
    if qs == [] {
      assert ps + qs == ps;
    } else {
      var (w, s) := qs[0];
      assert qs == [(w, s)];
      LearnOneWaySnoc(m, ps, w, s);
      LearnOneWaySnoc(LearnOneWay(m, ps), [], w, s);
      assert [] + qs == qs;
    }
  }

  /** The extensions `batch_learn_synonyms` reads as text. */
  predicate IsTextExtension(ext: string) {
    ext == ".txt" || ext == ".tsv"
  }

  /** The pairs a file yields: CSV rows for `.csv`, lines for `.txt` and `.tsv`, none for anything else. */
  function FilePairs(path: string, rows: seq<seq<string>>, lines: seq<string>, failAt: Option<nat>): seq<(string, string)> {
    var ext := Lower(Extension(path));
    if ext == ".csv" then RowPairs(Delivered(rows, failAt))
    else if IsTextExtension(ext) then LinePairs(Delivered(lines, failAt))
    else []
  }

  /** The knowledge is saved unless reading a file raised; a file of another extension is never opened. */
  predicate Saves(path: string, failAt: Option<nat>) {
    var ext := Lower(Extension(path));
    failAt.None? || !(ext == ".csv" || IsTextExtension(ext))
  }

  /**
   * Start-up, a batch, and start-up again: the merge of the defaults changes
   * nothing the second time, since learning never removes a key.
   */
  lemma RestartAfterLearnOneWay(loaded: SynonymMap, ps: seq<(string, string)>)
    ensures DistinctKeys(BaseSynonyms)
    ensures var m := LearnOneWay(MergeDefaults(loaded, BaseSynonyms), ps);
            MergeDefaults(m, BaseSynonyms) == m
  {
    BaseSynonymsDistinct();
    MergeDefaultsSpec(loaded, BaseSynonyms);
    LearnOneWayFrame(MergeDefaults(loaded, BaseSynonyms), ps);
    MergeDefaultsPresent(LearnOneWay(MergeDefaults(loaded, BaseSynonyms), ps), BaseSynonyms);
  }

  /** After a batch, every pair's synonym is in its word's list. */
  lemma {:induction false} LearnOneWayHas(m: SynonymMap, ps: seq<(string, string)>)
    ensures forall j :: 0 <= j < |ps| ==> ps[j].1 in Get(LearnOneWay(m, ps), ps[j].0)
  {
    if ps != [] {
      var init := ps[..|ps| - 1];
      var prev := LearnOneWay(m, init);
      var r := LearnOneWay(m, ps);
      LearnOneWayHas(m, init);
      forall j | 0 <= j < |ps| ensures ps[j].1 in Get(r, ps[j].0) {
        if j < |init| {
          assert ps[j] == init[j];
          assert Get(prev, ps[j].0) <= Get(r, ps[j].0);
        }
      }
    }
  }

  /** The words of a batch, in file order. */
  function Heads(ps: seq<(string, string)>): (ks: set<string>)
    ensures forall j :: 0 <= j < |ps| ==> ps[j].0 in ks
    ensures forall k :: k in ks ==> exists j :: 0 <= j < |ps| && ps[j].0 == k
  {
    if ps == [] then {}
    else
      var init := ps[..|ps| - 1];
      assert forall j :: 0 <= j < |init| ==> init[j] == ps[j];
      Heads(init) + {ps[|ps| - 1].0}
  }

  /**
   * Learning is one-directional and append-only: the new keys are exactly the
   * pairs' words, every old list is a prefix of its new list, and a key that
   * is no pair's word keeps its list.
   */
  lemma {:induction false} LearnOneWayFrame(m: SynonymMap, ps: seq<(string, string)>)
    ensures LearnOneWay(m, ps).Keys == m.Keys + Heads(ps)
    ensures forall k :: Get(m, k) <= Get(LearnOneWay(m, ps), k)
    ensures forall k :: k !in Heads(ps) ==> Get(LearnOneWay(m, ps), k) == Get(m, k)
  {
    if ps != [] {
      LearnOneWayFrame(m, ps[..|ps| - 1]);
    }
  }

  /**
   * Unlike the desktop variant, learning `(w, s)` does not teach `w` as a
   * synonym of `s`: from an empty store, `happy,joyful` leaves `joyful`
   * without an entry.
   */
  lemma OneWayNotSymmetric()
    ensures "joyful" !in LearnOneWay(map[], [("happy", "joyful")])
    ensures LearnOneWay(map[], [("happy", "joyful")]) == map["happy" := ["joyful"]]
  {
    assert [("happy", "joyful")][..0] == [];
    assert Get(map[], "happy") + ["joyful"] == ["joyful"];
  }

  /** No list of the knowledge ever gains a duplicate. */
  lemma {:induction false} LearnOneWayNoDup(m: SynonymMap, ps: seq<(string, string)>)
    requires AllNoDup(m)
    ensures AllNoDup(LearnOneWay(m, ps))
  {
    if ps != [] {
      LearnOneWayNoDup(m, ps[..|ps| - 1]);
      AddOneWayNoDup(LearnOneWay(m, ps[..|ps| - 1]), ps[|ps| - 1].0, ps[|ps| - 1].1);
    }
  }

  /** Learning pairs whose synonyms are all known already changes nothing. */
  lemma {:induction false} LearnOneWayKnown(m: SynonymMap, ps: seq<(string, string)>)
    requires forall j :: 0 <= j < |ps| ==> ps[j].1 in Get(m, ps[j].0)
    ensures LearnOneWay(m, ps) == m
  {
    if ps != [] {
      LearnOneWayKnown(m, ps[..|ps| - 1]);
    }
  }

  /** Learning the same file a second time leaves the knowledge as the first run left it. */
  lemma RelearnOneWay(m: SynonymMap, ps: seq<(string, string)>)
    ensures LearnOneWay(LearnOneWay(m, ps), ps) == LearnOneWay(m, ps)
  {
    LearnOneWayHas(m, ps);
    LearnOneWayKnown(LearnOneWay(m, ps), ps);
  }

  /**
   * A path without an extension, such as the fixed name the web front end
   * stores uploads under, learns nothing from its content yet still saves.
   */
  lemma BareNameLearnsNothing(path: string, rows: seq<seq<string>>, lines: seq<string>, failAt: Option<nat>)
    requires path == "temp_synonym_file"
    ensures FilePairs(path, rows, lines, failAt) == []
    ensures Saves(path, failAt)
  {
    ExtensionOfBareName(path);
  }

  // ---------------------------------------------------------------------
  // Paraphrase

  /**
   * The list the token's lower-cased form `cw` draws from:
   * `synonyms.get(cw, [cw])`.
   */
  function Choices(m: SynonymMap, cw: string): seq<string> {
    if cw in m then m[cw] else [cw]
  }

  /**
   * One token after its coin toss `g` and choice `p`: every output token is
   * the input token, its lower-cased form (for a word that is not a key), or
   * an entry of its lower-cased form's list.
   */
  function GatedWord(m: SynonymMap, word: string, g: bool, p: nat): (r: string)
    ensures r == word || r == Lower(word) || r in Get(m, Lower(word))
  {
    var syns := Choices(m, Lower(word));
    if g && |syns| > 0 then syns[p % |syns|] else word
  }

  /** The tokens of variation `v`. */
  function GatedWords(m: SynonymMap, words: seq<string>, gate: (nat, nat) -> bool, pick: (nat, nat) -> nat, v: nat)
    : (out: seq<string>)
    ensures |out| == |words|
  {
    seq(|words|, i requires 0 <= i < |words| => GatedWord(m, words[i], gate(v, i), pick(v, i)))
  }

  /**
   * The four cases of one token: tails or an empty list keep it verbatim; on
   * heads a known word takes an entry of its list and an unknown word
   * becomes its lower-cased form.
   */
  lemma GatedWordCases(m: SynonymMap, word: string, g: bool, p: nat)
    ensures !g ==> GatedWord(m, word, g, p) == word
    ensures Lower(word) in m && m[Lower(word)] == [] ==> GatedWord(m, word, g, p) == word
    ensures g && Lower(word) in m && m[Lower(word)] != [] ==> GatedWord(m, word, g, p) in m[Lower(word)]
    ensures g && Lower(word) !in m ==> GatedWord(m, word, g, p) == Lower(word)
  {
  }

  /**
   * A substitution never changes a token apart from case unless the token's
   * lower-cased form has learned synonyms: without them the output token is
   * the input token up to case.
   */
  lemma GatedWordKeepsUnknown(m: SynonymMap, word: string, g: bool, p: nat)
    requires Get(m, Lower(word)) == []
    ensures Lower(GatedWord(m, word, g, p)) == Lower(word)
  {
    LowerIdempotent(word);
  }

  /** When every coin lands tails a variation is the input's tokens joined by single spaces, and re-tokenizes to them. */
  lemma AllTailsPassThrough(m: SynonymMap, text: string, gate: (nat, nat) -> bool, pick: (nat, nat) -> nat, v: nat)
    requires forall i :: 0 <= i < |Tokenize(text)| ==> !gate(v, i)
    ensures GatedWords(m, Tokenize(text), gate, pick, v) == Tokenize(text)
    ensures Tokenize(JoinSpaces(GatedWords(m, Tokenize(text), gate, pick, v))) == Tokenize(text)
  {
    var words := Tokenize(text);
    var out := GatedWords(m, words, gate, pick, v);
    forall i | 0 <= i < |words| ensures out[i] == words[i] {
      GatedWordCases(m, words[i], gate(v, i), pick(v, i));
    }
    TokenizeJoin(words);
  }

  /**
   * With the store `{"make": ["create"]}` and heads on the third token only,
   * "I will make it" becomes "I will create it".
   */
  lemma MakeCreateExample(words: seq<string>, gate: (nat, nat) -> bool, pick: (nat, nat) -> nat)
    requires words == ["I", "will", "make", "it"]
    requires !gate(0, 0) && !gate(0, 1) && gate(0, 2) && !gate(0, 3)
    ensures GatedWords(map["make" := ["create"]], words, gate, pick, 0) == ["I", "will", "create", "it"]
  {
    var m := map["make" := ["create"]];
    var out := GatedWords(m, words, gate, pick, 0);
    assert Lower("make") == "make";
    assert out[2] == "create";
  }

  // ---------------------------------------------------------------------
  // The paraphraser object

  class Paraphraser {
    var synonyms: SynonymMap
    /** Every map `_save_knowledge` tried to write, oldest first (a failed write is still listed). */
    ghost var saved: seq<SynonymMap>

    /** `__init__` given the map `_load_knowledge` returned: the defaults are merged in. */
    constructor (loaded: SynonymMap)
      ensures saved == []
      ensures synonyms == MergeDefaults(loaded, BaseSynonyms)
    {
      saved := [];
      var base := BaseSynonyms;
      BaseSynonymsDistinct();
      var merged := MergeInto(loaded, base);
      synonyms := merged;
    }

    /** `_save_knowledge`: appends the map it tries to write to `saved`. */
    method SaveKnowledge()
      modifies this
      ensures saved == old(saved) + [synonyms]
      ensures synonyms == old(synonyms)
    {
      saved := saved + [synonyms];
    }

    /** `_add_synonym(word, synonym)`: one direction only. */
    method AddSynonym(word: string, synonym: string)
      modifies this
      ensures synonyms == AddOneWay(old(synonyms), word, synonym)
      ensures saved == old(saved)
    {
      if word !in synonyms {
        synonyms := synonyms[word := []];
      }
      if synonym !in synonyms[word] {
        synonyms := synonyms[word := synonyms[word] + [synonym]];
      }
    }

    /** The body of both reading loops: learn the record's pair, if the record yields one. */
    method LearnRecord(record: Option<(string, string)>) returns (learned: nat)
      modifies this
      ensures learned == |OptionToSeq(record)|
      ensures synonyms == LearnOneWay(old(synonyms), OptionToSeq(record))
      ensures saved == old(saved)
    {
      match record
      case None =>
        learned := 0;
      case Some((word, synonym)) =>
        LearnOneWaySnoc(synonyms, [], word, synonym);
        assert [] + [(word, synonym)] == [(word, synonym)];
        AddSynonym(word, synonym);
        learned := 1;
    }

    /** The CSV branch of `batch_learn_synonyms`: learn every row with two fields, counting them. */
    method LearnRows(records: seq<seq<string>>) returns (count: nat)
      modifies this
      ensures count == |RowPairs(records)|
      ensures synonyms == LearnOneWay(old(synonyms), RowPairs(records))
      ensures saved == old(saved)
    {
      count := 0;
      ghost var start := synonyms;
      for i := 0 to |records|
        invariant count == |RowPairs(records[..i])|
        invariant synonyms == LearnOneWay(start, RowPairs(records[..i]))
        invariant saved == old(saved)
      {
        RowPairsSnoc(records, i);
        var record := RowRecord(records[i]);
        LearnOneWayStep(start, RowPairs(records[..i]), OptionToSeq(record));
        var learned := LearnRecord(record);
        count := count + learned;
      }
      assert records[..|records|] == records;
    }

    /** The text branch of `batch_learn_synonyms`: learn every line holding a delimiter, counting them. */
    method LearnLines(records: seq<string>) returns (count: nat)
      modifies this
      ensures count == |LinePairs(records)|
      ensures synonyms == LearnOneWay(old(synonyms), LinePairs(records))
      ensures saved == old(saved)
    {
      count := 0;
      ghost var start := synonyms;
      for i := 0 to |records|
        invariant count == |LinePairs(records[..i])|
        invariant synonyms == LearnOneWay(start, LinePairs(records[..i]))
        invariant saved == old(saved)
      {
        LinePairsSnoc(records, i);
        var record := LineRecord(records[i]);
        LearnOneWayStep(start, LinePairs(records[..i]), OptionToSeq(record));
        var learned := LearnRecord(record);
        count := count + learned;
      }
      assert records[..|records|] == records;
    }

    /**
     * `batch_learn_synonyms(path)`. The file is given as the rows `csv.reader`
     * yields and as its lines; `failAt == Some(k)` means reading raises after
     * `k` records (0: the file cannot be opened), which skips the save. Both
     * counters are incremented together, so the two counts are always equal.
     */
    method BatchLearn(path: string, rows: seq<seq<string>>, lines: seq<string>, failAt: Option<nat>)
      returns (totalWords: nat, newWords: nat)
      modifies this
      ensures totalWords == |FilePairs(path, rows, lines, failAt)| && newWords == totalWords
      ensures synonyms == LearnOneWay(old(synonyms), FilePairs(path, rows, lines, failAt))
      ensures saved == if Saves(path, failAt) then old(saved) + [synonyms] else old(saved)
    {
      var ext := Lower(Extension(path));
      if ext == ".csv" {
        totalWords := LearnRows(Delivered(rows, failAt));
      } else if ext == ".txt" || ext == ".tsv" {
        totalWords := LearnLines(Delivered(lines, failAt));
      } else {
        totalWords := 0;
      }
      newWords := totalWords;
      if Saves(path, failAt) {
        SaveKnowledge();
      }
    }

    /**
     * One pass of the outer loop of `paraphrase`: the tokens are copied and
     * overwritten in place, then joined by single spaces.
     */
    method Variate(words: seq<string>, v: nat, gate: (nat, nat) -> bool, pick: (nat, nat) -> nat)
      returns (paraphrased: string)
      ensures paraphrased == JoinSpaces(GatedWords(synonyms, words, gate, pick, v))
    {
      ghost var out := GatedWords(synonyms, words, gate, pick, v);
      var modified := new string[|words|](i requires 0 <= i < |words| => words[i]);
      for i := 0 to modified.Length
        invariant modified[..] == out[..i] + words[i..]
      {
        if gate(v, i) {
          var currentWord := Lower(modified[i]);
          var syns := if currentWord in synonyms then synonyms[currentWord] else [currentWord];
          if |syns| > 0 {
            modified[i] := syns[pick(v, i) % |syns|];
          }
        }
        assert modified[..] == out[..i + 1] + words[i + 1..];
      }
      assert modified[..] == out;
      paraphrased := JoinSpaces(modified[..]);
    }

    /**
     * `paraphrase(text, num_variations)`: one variation per pass (none for a
     * negative count), each the tokens of `text` after their coin tosses.
     */
    method Paraphrase(text: string, numVariations: int, gate: (nat, nat) -> bool, pick: (nat, nat) -> nat)
      returns (variations: seq<string>)
      ensures |variations| == if numVariations < 0 then 0 else numVariations
      ensures forall v :: 0 <= v < |variations| ==>
                variations[v] == JoinSpaces(GatedWords(synonyms, Tokenize(text), gate, pick, v))
    {
      var words := Tokenize(text);
      var n := if numVariations < 0 then 0 else numVariations;
      variations := [];
      for v := 0 to n
        invariant |variations| == v
        invariant forall u :: 0 <= u < v ==>
                    variations[u] == JoinSpaces(GatedWords(synonyms, words, gate, pick, u))
      {
        var paraphrased := Variate(words, v, gate, pick);
        variations := variations + [paraphrased];
      }
    }
  }
}
