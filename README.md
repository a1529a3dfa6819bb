# Batch-learning paraphraser, modelled in Dafny

The repository ships two variants of one class, `BatchLearningParaphraser`.
`hayi.py` is a desktop front end and `para.py` a web front end. Each variant
keeps a synonym dictionary (word -> ordered list of synonyms) that is loaded
from a JSON file and has five built-in entries merged in. Each learns
(word, synonym) pairs in batches from a CSV or text file, saves the dictionary
after every batch that reads without error, and paraphrases text by substituting tokens with synonyms.
The two variants differ as follows:

- `hayi.py` learns symmetrically: `_add_synonym(w, s)` adds `s` to `w` and `w`
  to `s`. It logs what a batch appended in `newly_added_synonyms`. It
  substitutes every token that has a candidate, where the candidates are the
  learned synonyms plus WordNet lemmas that pass a similarity filter. Each
  substitution produces a change record tagged `NLTK` or `Learned`.
- `para.py` learns one way only. It reads only `.csv`, `.txt` and `.tsv`
  files. A token is substituted with probability 0.3, drawn from
  `synonyms.get(current_word, [current_word])`, where `current_word` is the
  lower-cased token.

The project has four modules:

- `text.dfy` (`Text`) holds the string primitives both variants rely on:
  - the tokenizer `re.findall(r'\b\w+\b', ...)`;
  - `str.lower`, `str.strip`, `str.isalpha`;
  - `re.split(r'[,\t]', ...)`, `os.path.splitext` and `' '.join`.
- `store.dfy` (`Store`) holds the dictionary shared by both variants:
  - the built-in entries and the start-up merge;
  - the one-directional "append if absent" update;
  - the parsing of CSV rows and text lines into pairs.
- `hayi.dfy` (`Hayi`) models `hayi.py`.
- `para.dfy` (`Para`) models `para.py`.

Each variant is a class `Paraphraser` whose fields are the ones the Python
object updates in place: `synonyms`, and in `Hayi` also `newlyAdded` and
`useNltk`. The methods follow the source's loops. Each method is proved
against a specification function: `LearnAll` / `LearnOneWay` for a batch,
`VariationWords` / `VariationChanges` / `GatedWords` for a paraphrase. The
properties that function promises are then proved as lemmas.

Randomness and outside services are parameters:

- `random.choice(xs)` is `xs[pick(v, i) % |xs|]` for an arbitrary oracle
  `pick` (variation `v`, token `i`), which covers every choice the call can
  make.
- `random.random() < 0.3` in `para.py` is an arbitrary oracle `gate(v, i)`.
- WordNet is a `Lexicon`: a function from a word to its raw lemma names,
  plus a predicate `similar` standing for
  `SequenceMatcher(None, w, c).ratio() >= self.synonym_confidence`. The
  threshold defaults to 0.8, and the desktop UI's slider can change it between
  calls (`hayi.py:315`); `similar` is a parameter of each call, so every
  threshold is covered.
- The JSON file that `_load_knowledge` reads is the constructor's argument.
  Each `_save_knowledge` call appends the map it tries to write to a ghost
  log `saved`; a write that fails is still listed, since the source catches
  the error.
- A batch file is given in two forms: the rows `csv.reader` yields and the
  lines that iterating the file yields. An optional `failAt = Some(k)` makes
  reading raise after `k` records; `Some(0)` means the file cannot be
  opened. A raise skips the save, and the counts so far are returned.

Points where the code does something other than its own names, comments and
messages suggest; the model follows the code:

- Both variants return `new_words == total_words`. The docstring promises
  `(total_words_learned, new_words_learned)` (`para.py:66-67`), and both
  front ends report "... {new_words} new synonyms out of {total_words} total
  words" (`para.py:242`, `hayi.py:600`). But every qualifying record
  increments both counters (`hayi.py:86-87`, `hayi.py:96-97`,
  `para.py:83-84`, `para.py:93-94`), including records that add nothing.
- In `hayi.py` the tag is `NLTK` whenever the chosen word is among the
  WordNet candidates, even when it is also a learned synonym
  (`hayi.py:155`).
- The comment on the text branch of `hayi.py` says `# for .txt and .tsv`,
  but the branch is a plain `else`, so every extension other than `.csv` is
  read as text (`hayi.py:88`). `para.py` reads only `.txt` and `.tsv` as
  text. For any other extension it learns nothing, but it still saves and
  reports `(0, 0)` (`para.py:86-98`).
- `para.py` learns one way only, and so does the model (`para.py:106-120`).
  A token whose lower-cased form is not a key is replaced by that
  lower-cased form when its coin lands heads (`para.py:147`).

A defect of the web front end as written: it saves every upload as
`temp_synonym_file` and learns from that path (`para.py:232-236`). The name
has no extension, so `batch_learn_synonyms` reads nothing from an uploaded
file, yet it saves and reports `(0, 0)` (`para.py:74-98`).
`Para.BareNameLearnsNothing` proves this for every file content.

## Model

| member | source | states |
|---|---|---|
| Text.Lower | hayi.py:83 | lower-casing keeps the length, maps each character independently and leaves no upper-case letter |
| Text.LowerIdempotent | para.py:144 | lower-casing an already lower-cased word changes nothing |
| Text.Strip | hayi.py:91 | the stripped line is a slice of the line; only white space was cut from either end, and the result neither starts nor ends with white space |
| Text.SplitDelims | hayi.py:91 | splitting on `[,\t]` gives one more piece than there are delimiters, and no piece contains a delimiter |
| Text.SplitHasTwoParts | hayi.py:91-92 | the split has at least two pieces exactly when the line contains a comma or a tab |
| Text.SplitNoDelim | hayi.py:91-92 | a line without delimiters is a single piece |
| Text.SplitAtFirstDelim | hayi.py:91-94 | the first piece is the text before the first delimiter, and the remaining pieces are the split of the text after it |
| Text.Extension | hayi.py:76 | the extension is empty or a dotted suffix of the path that contains no further dot or separator |
| Text.ExtensionSpec | hayi.py:76 | the extension is non-empty exactly when some dot is followed by no dot or `/` and the file name has a non-dot character before it; the extension is then everything from that dot on |
| Text.ExtensionOfCsvName | hayi.py:76 | `synonyms.csv` has extension `.csv` |
| Text.ExtensionAfterSeparator | hayi.py:76 | a dot in a directory name is not an extension, and the extension keeps its case before `.lower()` |
| Text.ExtensionOfHiddenName | para.py:74 | the leading dot of a hidden file name starts no extension |
| Text.ExtensionOfBareName | para.py:74 | a name without a dot has an empty extension |
| Text.Tokenize | hayi.py:128 | every token is a non-empty run of word characters |
| Text.TokenizeKeepsWordChars | hayi.py:128 | the tokens, concatenated, are exactly the word characters of the text, in order (no word character is lost or invented) |
| Text.TokenizeWord | para.py:134 | a single word is one token |
| Text.TokenizeSplit | hayi.py:128 | a non-word character separates tokens: the tokens of `a + [c] + b` are the tokens of `a` followed by those of `b`, so tokens are maximal runs |
| Text.TokenizeJoin | hayi.py:128-160 | joining tokens with single spaces and tokenizing again gives back the same tokens |
| Text.JoinSpaces | hayi.py:160 | `' '.join(words)`; a specification function, whose round trip with the tokenizer is `Text.TokenizeJoin` |
| Store.BaseSynonymsDistinct | hayi.py:27-33 | the built-in dictionary literal has five distinct keys |
| Store.MergeDefaults | hayi.py:36-38 | the start-up merge over the default entries in order; a specification function whose properties are `Store.MergeDefaultsSpec` |
| Store.MergeDefaultsSpec | hayi.py:35-38 | after the merge the keys are the loaded keys plus the default keys; every loaded entry keeps its list; every default key that was absent gets its default list |
| Store.MergeInto | para.py:28-31 | the merge loop computes the merged map |
| Store.MergeDefaultsPresent | para.py:28-31 | a map that already holds every default key is left unchanged by the merge |
| Store.MergeDefaultsIdempotent | para.py:28-31 | merging the defaults twice is merging them once |
| Store.AddOneWay | para.py:115-120 | afterwards the word is a key and the synonym is in its list |
| Store.AddOneWaySpec | para.py:106-120 | afterwards the word is a key whose list holds the synonym; the old list is a prefix of the new one, with at most one element appended; no other key changes; nothing changes when the synonym was already listed |
| Store.AddOneWayNoDup | para.py:118-120 | a list without duplicates keeps none |
| Store.AddOneWayIdempotent | para.py:106-120 | a second identical call changes nothing |
| Store.Delivered | hayi.py:102-104 | a reader that raises has delivered a prefix of the records; one that does not has delivered all of them |
| Store.RowRecord | hayi.py:82-84 | a CSV row yields a pair exactly when it has at least two fields, and the pair is lower-case on both sides |
| Store.LineRecord | hayi.py:91-94 | a learned text pair is lower-case on both sides |
| Store.LineRecordQualifies | hayi.py:91-92 | a text line yields a pair exactly when its stripped text holds a comma or a tab |
| Store.RowPairs | hayi.py:81-87 | a file never yields more pairs than it has rows, and every pair is lower-case |
| Store.LinePairs | hayi.py:90-97 | a file never yields more pairs than it has lines, and every pair is lower-case |
| Store.RowPairsCount | hayi.py:81-87 | a CSV file yields exactly as many pairs as it has rows with at least two fields |
| Store.LinePairsCount | hayi.py:90-97 | a text file yields exactly as many pairs as it has lines whose stripped text holds a comma or a tab |
| Store.RowPairsMembers | hayi.py:81-85 | every row with two fields contributes its lower-cased first two fields, and every learned pair comes from such a row |
| Store.LinePairsHasQualifying | hayi.py:90-95 | every qualifying line's pair is learned |
| Store.LinePairsFromQualifying | hayi.py:90-95 | every learned pair is the pair of some qualifying line |
| Store.SomesCount | hayi.py:81-87 | one pair per record that yields one (the counting step shared by both loops) |
| Store.SomesMembers | hayi.py:81-87 | a record's pair is kept exactly when it yields one (the membership step shared by both loops) |
| Store.RowPairsExample | hayi.py:81-85 | rows with fewer than two fields are skipped, extra fields are ignored, and fields are lower-cased |
| Store.LineRecordFields | hayi.py:91-95 | a stripped line with a delimiter yields (lower-cased text before the first delimiter, lower-cased text up to the next one) |
| Hayi.Append | hayi.py:107-115 | one half of `_add_synonym`: afterwards the synonym is in the word's list |
| Hayi.AddPair | hayi.py:106-125 | `_add_synonym`: `Append` in both directions, word to synonym first; a specification function whose properties are the `AddPair` lemmas below |
| Hayi.AddPairSymmetric | hayi.py:106-125 | after `_add_synonym(w, s)`, `s` is listed under `w` and `w` under `s` (the delta is covered by `Hayi.AddPairTracks`) |
| Hayi.AddPairAppends | hayi.py:106-125 | `s` is appended to `w`'s list exactly when it was absent, and (for `w != s`) `w` to `s`'s list exactly when it was absent; nothing else is appended to either list, and the delta receives the same appends |
| Hayi.AddPairIdempotent | hayi.py:106-125 | a second identical call changes neither the knowledge nor the delta |
| Hayi.AddPairPresent | hayi.py:110-121 | a pair already known in both directions changes nothing |
| Hayi.AddPairFrame | hayi.py:106-125 | the keys grow by exactly `w` and `s`; other keys are unchanged; every list only has elements appended, at most one per list |
| Hayi.AddPairNoDup | hayi.py:110-121 | lists without duplicates keep none |
| Hayi.TracksNoDup | hayi.py:113-115 | when the knowledge has no duplicates, neither has the delta |
| Hayi.AppendTracks | hayi.py:110-115 | one append keeps "every list is its start-of-batch list followed by its delta list" |
| Hayi.AddPairTracks | hayi.py:106-125 | `_add_synonym` keeps that invariant |
| Hayi.LearnAll | hayi.py:81-97 | `_add_synonym` applied to a batch's pairs in order; a specification function whose properties are the `LearnAll` lemmas below |
| Hayi.FilePairs | hayi.py:76-97 | the pairs a file yields: its CSV rows for a `.csv` extension and its text lines for any other; specification function, counted by `Store.RowPairsCount` / `Store.LinePairsCount` |
| Hayi.LearnAllTracks | hayi.py:70-97 | a whole batch keeps that invariant, so the delta is exactly what the batch appended |
| Hayi.LearnAllKeys | hayi.py:106-125 | a batch never removes a key |
| Hayi.ReloadAfterLearn | hayi.py:35-38 | a map saved after a batch (hayi.py:99), read back at the next start-up, is left unchanged by the merge of the defaults whenever it held them before the batch |
| Hayi.RestartAfterLearn | hayi.py:13-38 | start-up, a batch, and start-up again: the second merge of the defaults changes nothing |
| Hayi.LearnAllGrows | hayi.py:106-125 | learning never removes or reorders a synonym |
| Hayi.LearnAllSymmetric | hayi.py:78-97 | after a batch every learned pair is known in both directions |
| Hayi.LearnAllKnown | hayi.py:78-97 | learning pairs that are already known in both directions changes nothing |
| Hayi.RelearnChangesNothing | hayi.py:70-104 | learning the same file a second time leaves the knowledge unchanged and the delta empty |
| Hayi.Normalize | hayi.py:45 | a normalized lemma name has the name's length; each character is the name's character with `_` replaced by a space, then lower-cased; the result is lower-case |
| Hayi.LexiconFilter | hayi.py:40-51 | the WordNet candidates have no duplicates; each one differs from the word, is alphabetic, passes the similarity test and is lower-case; every normalized lemma that passes the filter is included |
| Hayi.LexiconFilterFromNames | hayi.py:43-46 | every WordNet candidate is the normalized form of one of the word's lemma names |
| Hayi.LexiconFilterExact | hayi.py:40-51 | a word is a WordNet candidate exactly when it is the normalized form of a lemma name and passes the filter |
| Hayi.LearnedCandidates | hayi.py:139-142 | the learned candidates are exactly the listed synonyms other than the word itself |
| Hayi.ExtendNew | hayi.py:146 | extending keeps the learned candidates as a prefix and adds exactly the WordNet candidates not already present |
| Hayi.Candidates | hayi.py:139-146 | the candidate list of a token; a specification function whose membership is `Hayi.CandidatesMembers` and which `Hayi.Paraphraser.TokenCandidates` computes |
| Hayi.CandidatesMembers | hayi.py:136-146 | a word is a candidate exactly when it is a learned synonym other than the token, or (with WordNet on) a WordNet candidate; the token itself is never a candidate |
| Hayi.VariationWords | hayi.py:135-158 | a variation has as many words as the text has tokens |
| Hayi.Decide | hayi.py:148-155 | the choice for one token; specification function, characterized by `Hayi.ChangeAt` / `Hayi.ChangeAtShape` |
| Hayi.VariationChanges | hayi.py:151-156 | the change records of a pass; specification function, characterized by `Hayi.ChangesAgree`, `Hayi.ChangesIncreasing` and `Hayi.ChangesWhereCandidates` |
| Hayi.ChangeAt | hayi.py:148-156 | a token produces one change record exactly when it has candidates; the record names the token and its position |
| Hayi.ChangeAtShape | hayi.py:148-158 | a token with candidates is replaced by the candidate that the random choice selects, and its record gives that word and its tag; a token without candidates produces no record |
| Hayi.ChangesAgree | hayi.py:148-156 | every change record names the original token at its position and the output word there, which is a candidate other than the token; the tag is `NLTK` exactly when WordNet is on and the word is a WordNet candidate |
| Hayi.ChangesIncreasing | hayi.py:150-154 | record positions lie within the text and strictly increase |
| Hayi.ChangesWhereCandidates | hayi.py:148-158 | a position has a change record exactly when its token has candidates |
| Hayi.KeptVerbatim | hayi.py:157-158 | a token without candidates is kept as typed, case included |
| Hayi.NoCandidatesNoChanges | hayi.py:148-158 | when no token has a candidate, there are no change records |
| Hayi.NoCandidatesPassThrough | hayi.py:127-163 | when no token has a candidate, the variation is the tokens joined by single spaces, it re-tokenizes to the same tokens, and it has no change records |
| Hayi.TokenizeExample | hayi.py:128 | "I will make it" has four tokens |
| Hayi.JoinExample | hayi.py:160 | joining four words puts single spaces between them |
| Hayi.DecideExample | hayi.py:148-158 | with `{"make": ["create"]}` and WordNet off, only "make" is replaced, by "create", tagged learned |
| Hayi.CandidatesExample | hayi.py:139-146 | the candidates of "make" are ["create"]; other words have none |
| Hayi.MakeCreateWords | hayi.py:135-158 | the tokens of that example become "I will create it" |
| Hayi.MakeCreateChanges | hayi.py:148-156 | the example has one change record: "make" -> "create" at position 2, tagged learned |
| Hayi.MakeCreateExample | hayi.py:127-163 | "I will make it" paraphrases to "I will create it" with that single record |
| Hayi.Paraphraser.constructor | hayi.py:13-38 | WordNet is on, the delta is empty, nothing is saved yet, and the dictionary is the loaded map with the defaults merged in |
| Hayi.Paraphraser.SaveKnowledge | hayi.py:63-68 | the current map is appended to the saved log; nothing else changes |
| Hayi.Paraphraser.AppendOne | hayi.py:107-115 | one half of `_add_synonym` updates the knowledge and the delta as `Append` specifies |
| Hayi.Paraphraser.AddSynonym | hayi.py:106-125 | the new state is `AddPair` of the old state; the save log and the WordNet switch are unchanged |
| Hayi.Paraphraser.LearnRecord | hayi.py:82-87 | a qualifying record is learned and counted once; any other record changes nothing |
| Hayi.Paraphraser.LearnRows | hayi.py:78-87 | the CSV loop learns every qualifying row in order and counts them |
| Hayi.Paraphraser.LearnLines | hayi.py:88-97 | the text loop learns every qualifying line in order and counts them |
| Hayi.Paraphraser.BatchLearn | hayi.py:70-104 | the delta is reset; the pairs the file delivers are learned in order; both counts equal their number; the map is saved exactly when no read raised |
| Hayi.Paraphraser.NltkSynonyms | hayi.py:40-51 | the WordNet lookup loop computes the filtered candidates |
| Hayi.Paraphraser.TokenCandidates | hayi.py:136-146 | the two loops compute the candidate list, plus the WordNet list used for the tag |
| Hayi.Paraphraser.DecideToken | hayi.py:148-158 | a token's replacement and tag, or none |
| Hayi.Paraphraser.Variate | hayi.py:132-161 | one pass builds the variation's text and its change records |
| Hayi.Paraphraser.Paraphrase | hayi.py:127-163 | exactly `num_variations` variations (none when it is negative), the v-th being pass v |
| Para.LearnOneWay | para.py:80-95 | `_add_synonym` applied to a batch's pairs in order; a specification function whose properties are the `LearnOneWay` lemmas below |
| Para.FilePairs | para.py:74-95 | the pairs a file yields: CSV rows for `.csv`, text lines for `.txt`/`.tsv`, none otherwise; specification function used by `Para.Paraphraser.BatchLearn` |
| Para.Saves | para.py:74-98 | the map is saved unless reading an opened `.csv`/`.txt`/`.tsv` file raised; predicate used by `Para.Paraphraser.BatchLearn` |
| Para.LearnOneWayHas | para.py:80-95 | after a batch every pair's synonym is listed under its word |
| Para.LearnOneWayFrame | para.py:106-120 | the keys grow by exactly the words of the pairs; lists only have elements appended; other keys keep their lists |
| Para.OneWayNotSymmetric | para.py:114-120 | learning ("happy", "joyful") does not make "joyful" a key |
| Para.LearnOneWayNoDup | para.py:118-120 | lists without duplicates keep none |
| Para.LearnOneWayKnown | para.py:118-120 | pairs already listed change nothing |
| Para.RestartAfterLearnOneWay | para.py:9-31 | start-up, a batch (saved at para.py:98), and start-up again: the second merge of the defaults changes nothing |
| Para.RelearnOneWay | para.py:59-104 | learning the same pairs twice equals learning them once |
| Para.BareNameLearnsNothing | para.py:74-98 | the extensionless `temp_synonym_file` yields no pair, yet the map is still saved |
| Para.Choices | para.py:147 | `synonyms.get(current_word, [current_word])`; specification function, its cases stated by `Para.GatedWordCases` |
| Para.GatedWord | para.py:143-151 | an output token is the input token, its lower-cased form, or a listed synonym of that form |
| Para.GatedWords | para.py:137-151 | a variation has as many words as the text has tokens |
| Para.GatedWordCases | para.py:143-151 | tails or an empty list keeps the token; heads picks from its list when the lower-cased word is a key, and otherwise gives the lower-cased word |
| Para.GatedWordKeepsUnknown | para.py:147 | a token without learned synonyms changes at most in case |
| Para.AllTailsPassThrough | para.py:134-154 | when no coin lands heads, the variation is the tokens joined by single spaces, and it re-tokenizes to them |
| Para.MakeCreateExample | para.py:137-155 | with `{"make": ["create"]}` and heads only on "make", the tokens become "I will create it" |
| Para.Paraphraser.constructor | para.py:9-31 | nothing is saved yet, and the dictionary is the loaded map with the defaults merged in |
| Para.Paraphraser.SaveKnowledge | para.py:49-57 | the current map is appended to the saved log |
| Para.Paraphraser.AddSynonym | para.py:106-120 | the new map is `AddOneWay` of the old map |
| Para.Paraphraser.LearnRecord | para.py:81-84 | a qualifying record is learned one way and counted once |
| Para.Paraphraser.LearnRows | para.py:76-84 | the CSV loop learns every qualifying row in order and counts them |
| Para.Paraphraser.LearnLines | para.py:86-95 | the text loop learns every qualifying line in order and counts them |
| Para.Paraphraser.BatchLearn | para.py:59-104 | the pairs a `.csv`/`.txt`/`.tsv` file delivers are learned in order, and both counts equal their number; the map is saved unless reading raised |
| Para.Paraphraser.Variate | para.py:137-155 | the in-place overwrite of the copied tokens yields the gated tokens, joined by single spaces |
| Para.Paraphraser.Paraphrase | para.py:122-157 | exactly `num_variations` variations (none when it is negative), the v-th being pass v |

## Left out

- JSON parsing and file I/O: the loaded map is a constructor argument, and a save is an entry in a ghost log. A failure inside `_save_knowledge` is caught there, so it only shows as a message. Every JSON value is taken to be a list of strings.
- Error messages (`messagebox.showerror`, `st.error`) are not modelled: they are presentation only.
- The CSV dialect (quoting, embedded newlines) is not modelled: the rows `csv.reader` yields are an input.
- Text encodings and newline translation are not modelled: the file's lines are an input, and a UTF-8 decoding error is one more way for `failAt` to raise.
- Characters are ASCII only: `\w`, `str.isalpha`, `str.lower` and the white space `str.strip` removes are modelled on ASCII characters. Unicode letters, digits and spaces are not.
- `os.path.splitext` is modelled with POSIX separators (`/`); the Windows `\` separator is not modelled.
- WordNet (`wordnet.synsets`, `lemma.name`) and `nltk.download` are outside code: the lexicon is a parameter.
- `SequenceMatcher.ratio()` and its floating-point comparison against `self.synonym_confidence` (0.8 by default, changed at run time by the desktop UI's slider) are the predicate parameter `similar`, passed to each call.
- `random.choice` and `random.random` are the oracles `pick` and `gate`: the model covers every outcome but says nothing about probabilities.
- Hayi.LexiconFilter: `_get_nltk_synonyms` returns `list(set(...))`, whose order depends on string hashing; the model keeps first occurrences in lemma order. Candidate membership is exact (`Hayi.LexiconFilterExact`), but which candidate a given `pick` selects may differ from CPython's order.
- The default lists are inserted into the dictionary by reference (`self.synonyms[key] = value`), so a later append also grows `base_synonyms`. `base_synonyms` is never read after the merge, so the aliasing is not modelled.
- `knowledge_file` and the `base_synonyms` attribute are constants of the model, not fields. `synonym_confidence` is not a field either: the threshold in force at a call is folded into that call's `similar` predicate.
- The user interfaces (`ParaphraserApp`, the Streamlit `main`), the knowledge export and the temporary-file handling are outside the paraphraser class.
