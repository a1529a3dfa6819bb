/**
 * String helpers shared by both paraphraser variants: the regular-expression
 * tokenizer `\b\w+\b`, `str.lower()`, `str.strip()`, `re.split('[,\t]', ...)`,
 * `os.path.splitext` and `' '.join(...)`.
 *
 * Characters are modelled with an ASCII character class: a word character is
 * a letter, a digit or `_`; lower-casing maps `A`..`Z` to `a`..`z` and leaves
 * every other character alone.
 */
module Text {

  datatype Option<T> = None | Some(value: T)

  // ---------------------------------------------------------------------
  // Character classes

  /** `\w`: letters, digits and the underscore. */
  predicate IsWordChar(c: char) {
    ('a' <= c <= 'z') || ('A' <= c <= 'Z') || ('0' <= c <= '9') || c == '_'
  }

  /** `str.isalpha()` on one character. */
  predicate IsLetter(c: char) {
    ('a' <= c <= 'z') || ('A' <= c <= 'Z')
  }

  /** The characters `str.strip()` removes when called without arguments. */
  predicate IsSpace(c: char) {
    c == ' ' || c == '\t' || c == '\n' || c == '\r' || c == '\U{B}' || c == '\U{C}'
    || c == '\U{1C}' || c == '\U{1D}' || c == '\U{1E}' || c == '\U{1F}'
  }

  /** The delimiter class `[,\t]` of the batch-file splitter. */
  predicate IsDelim(c: char) {
    c == ',' || c == '\t'
  }

  /** A token produced by `\b\w+\b`: a non-empty run of word characters. */
  predicate IsWord(w: string) {
    |w| > 0 && forall i :: 0 <= i < |w| ==> IsWordChar(w[i])
  }

  /** `str.isalpha()`: non-empty and made of letters only. */
  predicate IsAlpha(w: string) {
    |w| > 0 && forall i :: 0 <= i < |w| ==> IsLetter(w[i])
  }

  // ---------------------------------------------------------------------
  // Lower-casing

  function LowerChar(c: char): (d: char)
    ensures 'A' <= c <= 'Z' ==> 'a' <= d <= 'z' && d as int == c as int + 32
    ensures !('A' <= c <= 'Z') ==> d == c
  {
    if 'A' <= c <= 'Z' then (c as int + 32) as char else c
  }

  /** `str.lower()`: same length, every character lower-cased, no upper-case letter left. */
  function Lower(s: string): (r: string)
    ensures |r| == |s|
    ensures forall i :: 0 <= i < |s| ==> r[i] == LowerChar(s[i])
    ensures forall i :: 0 <= i < |r| ==> !('A' <= r[i] <= 'Z')
  {
    seq(|s|, i requires 0 <= i < |s| => LowerChar(s[i]))
  }

  /** Lower-casing twice is lower-casing once. */
  lemma LowerIdempotent(s: string)
    ensures Lower(Lower(s)) == Lower(s)
  {
  }

  // ---------------------------------------------------------------------
  // str.strip()

  function TrimLeft(s: string): (r: string)
    ensures |r| <= |s| && r == s[|s| - |r|..]
    ensures forall i :: 0 <= i < |s| - |r| ==> IsSpace(s[i])
    ensures r == [] || !IsSpace(r[0])
  {
    if s == [] || !IsSpace(s[0]) then s else TrimLeft(s[1..])
  }

  function TrimRight(s: string): (r: string)
    ensures |r| <= |s| && r == s[..|r|]
    ensures forall i :: |r| <= i < |s| ==> IsSpace(s[i])
    ensures r == [] || !IsSpace(r[|r| - 1])
  {
    if s == [] || !IsSpace(s[|s| - 1]) then s else TrimRight(s[..|s| - 1])
  }

  /**
   * `str.strip()`: the result is a slice `s[lo..hi]` of the input, everything
   * cut off on either side is white space, and the result neither starts nor
   * ends with white space.
   */
  function Strip(s: string): (r: string)
    ensures exists lo, hi :: 0 <= lo <= hi <= |s| && r == s[lo..hi]
                             && (forall i :: 0 <= i < lo ==> IsSpace(s[i]))
                             && (forall i :: hi <= i < |s| ==> IsSpace(s[i]))
    ensures r == [] || (!IsSpace(r[0]) && !IsSpace(r[|r| - 1]))
  {
    var t := TrimLeft(s);
    var r := TrimRight(t);
    var lo := |s| - |t|;
    assert r == s[lo..lo + |r|];
    r
  }

  // ---------------------------------------------------------------------
  // re.split('[,\t]', s)

  /** Number of delimiter characters in `s`. */
  function DelimCount(s: string): nat {
    if s == [] then 0 else (if IsDelim(s[0]) then 1 else 0) + DelimCount(s[1..])
  }

  /**
   * `re.split('[,\t]', s)`: the pieces between delimiters, one more piece
   * than there are delimiters, and no piece contains a delimiter.
   */
  function SplitDelims(s: string): (parts: seq<string>)
    ensures |parts| == DelimCount(s) + 1
    ensures forall k, i :: 0 <= k < |parts| && 0 <= i < |parts[k]| ==> !IsDelim(parts[k][i])
  {
    if s == [] then [""]
    else if IsDelim(s[0]) then [""] + SplitDelims(s[1..])
    else
      var rest := SplitDelims(s[1..]);
      [[s[0]] + rest[0]] + rest[1..]
  }

  /** A string with no delimiter is one piece. */
  lemma {:induction false} SplitNoDelim(a: string)
    requires forall i :: 0 <= i < |a| ==> !IsDelim(a[i])
    ensures SplitDelims(a) == [a]
  {
    if a != [] {
      SplitNoDelim(a[1..]);
      assert [a[0]] + a[1..] == a;
    }
  }

  /**
   * The first piece is everything before the first delimiter, and the other
   * pieces are the split of everything after it.
   */
  lemma {:induction false} SplitAtFirstDelim(a: string, d: char, b: string)
    requires forall i :: 0 <= i < |a| ==> !IsDelim(a[i])
    requires IsDelim(d)
    ensures SplitDelims(a + [d] + b) == [a] + SplitDelims(b)
  {
    if a == [] {
      assert a + [d] + b == [d] + b;
      assert ([d] + b)[1..] == b;
    } else {
      SplitAtFirstDelim(a[1..], d, b);
      assert (a + [d] + b)[1..] == a[1..] + [d] + b;
      assert [a[0]] + a[1..] == a;
    }
  }

  /** `s` holds a `,` or a tab. */
  predicate HasDelim(s: string) {
    exists i :: 0 <= i < |s| && IsDelim(s[i])
  }

  /** A line yields at least two pieces exactly when it holds a delimiter. */
  lemma SplitHasTwoParts(s: string)
    ensures |SplitDelims(s)| >= 2 <==> HasDelim(s)
  {
    DelimCountPositive(s);
  }

  lemma {:induction false} DelimCountPositive(s: string)
    ensures DelimCount(s) > 0 <==> exists i :: 0 <= i < |s| && IsDelim(s[i])
  {
    if s != [] {
      DelimCountPositive(s[1..]);
      if IsDelim(s[0]) {
      } else if DelimCount(s[1..]) > 0 {
        var i :| 0 <= i < |s[1..]| && IsDelim(s[1..][i]);
        assert IsDelim(s[i + 1]);
      } else {
        forall i | 0 <= i < |s| ensures !IsDelim(s[i]) {
          if i > 0 { assert s[i] == s[1..][i - 1]; }
        }
      }
    }
  }

  // ---------------------------------------------------------------------
  // os.path.splitext

  /** The last index holding `c`, or -1 when there is none (`str.rfind`). */
  function LastIndexOf(s: string, c: char): (r: int)
    ensures -1 <= r < |s|
    ensures r >= 0 ==> s[r] == c
    ensures forall k :: r < k < |s| ==> s[k] != c
  {
    if s == [] then -1
    else if s[|s| - 1] == c then |s| - 1
    else LastIndexOf(s[..|s| - 1], c)
  }

  /**
   * The extension part of `os.path.splitext(p)` (POSIX rules): it starts at
   * the last `.` provided that dot lies after the last `/` and is not part of
   * the leading dots of the file name; otherwise it is empty.
   */
  function Extension(p: string): (ext: string)
    ensures ext == [] || (ext[0] == '.' && |ext| <= |p| && ext == p[|p| - |ext|..])
    ensures forall i :: 0 < i < |ext| ==> ext[i] != '.' && ext[i] != '/'
  {
    var dot := LastIndexOf(p, '.');
    var sep := LastIndexOf(p, '/');
    if dot > sep && exists k :: sep + 1 <= k < dot && p[k] != '.' then p[dot..] else ""
  }

  /**
   * `p[d]` is a dot that starts the extension: no dot or separator follows
   * it, and the file name holds a character other than a dot before it.
   */
  predicate ExtensionAt(p: string, d: int) {
    && 0 <= d < |p| && p[d] == '.'
    && (forall k :: d < k < |p| ==> p[k] != '.' && p[k] != '/')
    && exists k :: 0 <= k < d && p[k] != '.' && p[k] != '/' && forall j :: k < j < d ==> p[j] != '/'
  }

  /**
   * The extension is non-empty exactly when some dot starts one, and it is
   * then everything from that dot on.
   */
  lemma ExtensionSpec(p: string)
    ensures Extension(p) != [] <==> exists d :: ExtensionAt(p, d)
    ensures forall d :: ExtensionAt(p, d) ==> Extension(p) == p[d..]
  {
    var dot := LastIndexOf(p, '.');
    var sep := LastIndexOf(p, '/');
    forall d | ExtensionAt(p, d)
      ensures Extension(p) == p[d..]
    {
      assert dot == d;
      var k :| 0 <= k < d && p[k] != '.' && p[k] != '/' && forall j :: k < j < d ==> p[j] != '/';
      assert sep < k;
    }
    if Extension(p) != [] {
      var k :| sep + 1 <= k < dot && p[k] != '.';
      assert ExtensionAt(p, dot);
    }
  }

  /** The extension of a plain file name is its last dot onwards. */
  lemma ExtensionOfCsvName(p: string)
    requires p == "synonyms.csv"
    ensures Extension(p) == ".csv"
  {
    assert p[8] == '.' && p[9] != '.' && p[10] != '.' && p[11] != '.';
    assert LastIndexOf(p, '.') == 8;
    assert forall k :: 0 <= k < |p| ==> p[k] != '/';
    assert LastIndexOf(p, '/') == -1;
    assert p[0] != '.';
  }

  /** A dot in a directory name does not count, and the extension keeps its case. */
  lemma ExtensionAfterSeparator(p: string)
    requires p == "dir.d/list.TSV"
    ensures Extension(p) == ".TSV"
  {
    assert p[10] == '.' && p[11] != '.' && p[12] != '.' && p[13] != '.';
    assert LastIndexOf(p, '.') == 10;
    assert p[5] == '/' && forall k :: 5 < k < |p| ==> p[k] != '/';
    assert LastIndexOf(p, '/') == 5;
    assert p[6] != '.';
  }

  /** A leading dot starts a hidden file's name, not an extension. */
  lemma ExtensionOfHiddenName(p: string)
    requires p == ".csv"
    ensures Extension(p) == ""
  {
    assert p[0] == '.' && p[1] != '.' && p[2] != '.' && p[3] != '.';
    assert LastIndexOf(p, '.') == 0;
  }

  /** A name without a dot has no extension. */
  lemma ExtensionOfBareName(p: string)
    requires p == "temp_synonym_file"
    ensures Extension(p) == ""
  {
    assert forall k :: 0 <= k < |p| ==> p[k] != '.';
    assert LastIndexOf(p, '.') == -1;
  }

  // ---------------------------------------------------------------------
  // ' '.join(words)

  function JoinSpaces(ws: seq<string>): string {
    if |ws| == 0 then ""
    else if |ws| == 1 then ws[0]
    else ws[0] + " " + JoinSpaces(ws[1..])
  }

  // ---------------------------------------------------------------------
  // re.findall(r'\b\w+\b', text)

  /** Length of the run of word characters at the start of `s`. */
  function RunLength(s: string): (n: nat)
    ensures n <= |s|
    ensures forall i :: 0 <= i < n ==> IsWordChar(s[i])
    ensures n < |s| ==> !IsWordChar(s[n])
  {
    if s == [] || !IsWordChar(s[0]) then 0 else 1 + RunLength(s[1..])
  }

  /**
   * The maximal runs of word characters of `s`, left to right. Every token is
   * a non-empty run of word characters.
   */
  function Tokenize(s: string): (tokens: seq<string>)
    ensures forall k :: 0 <= k < |tokens| ==> IsWord(tokens[k])
    decreases |s|
  {
    if s == [] then []
    else if !IsWordChar(s[0]) then Tokenize(s[1..])
    else
      var n := RunLength(s);
      [s[..n]] + Tokenize(s[n..])
  }

  /** The characters of `s` that are word characters, in order. */
  function WordChars(s: string): string {
    if s == [] then [] else (if IsWordChar(s[0]) then [s[0]] else []) + WordChars(s[1..])
  }

  function Concat(ws: seq<string>): string {
    if ws == [] then [] else ws[0] + Concat(ws[1..])
  }

  lemma {:induction false} ConcatAppend(a: seq<string>, b: seq<string>)
    ensures Concat(a + b) == Concat(a) + Concat(b)
  {
    if a != [] {
      ConcatAppend(a[1..], b);
      assert (a + b)[0] == a[0] && (a + b)[1..] == a[1..] + b;
      assert Concat(a + b) == a[0] + Concat(a[1..] + b);
    } else {
      assert a + b == b;
    }
  }

  lemma {:induction false} WordCharsAppend(a: string, b: string)
    ensures WordChars(a + b) == WordChars(a) + WordChars(b)
  {
    if a != [] {
      WordCharsAppend(a[1..], b);
      assert (a + b)[0] == a[0] && (a + b)[1..] == a[1..] + b;
      assert WordChars(a + b) == (if IsWordChar(a[0]) then [a[0]] else []) + WordChars(a[1..] + b);
    } else {
      assert a + b == b;
    }
  }

  lemma {:induction false} WordCharsOfWord(w: string)
    requires forall i :: 0 <= i < |w| ==> IsWordChar(w[i])
    ensures WordChars(w) == w
  {
    if w != [] {
      WordCharsOfWord(w[1..]);
      assert [w[0]] + w[1..] == w;
    }
  }

  /**
   * Tokenizing loses nothing but the non-word characters and keeps the input
   * order: the tokens laid end to end are the word characters of the text.
   */
  lemma {:induction false} TokenizeKeepsWordChars(s: string)
    ensures Concat(Tokenize(s)) == WordChars(s)
    decreases |s|
  {
    if s == [] {
    } else if !IsWordChar(s[0]) {
      TokenizeKeepsWordChars(s[1..]);
    } else {
      var n := RunLength(s);
      TokenizeKeepsWordChars(s[n..]);
      assert s == s[..n] + s[n..];
      WordCharsAppend(s[..n], s[n..]);
      WordCharsOfWord(s[..n]);
      ConcatAppend([s[..n]], Tokenize(s[n..]));
    }
  }

  lemma {:induction false} RunLengthStops(a: string, c: char, b: string)
    requires !IsWordChar(c)
    ensures RunLength(a + [c] + b) == RunLength(a)
  {
    if a == [] {
    } else if IsWordChar(a[0]) {
      RunLengthStops(a[1..], c, b);
      assert (a + [c] + b)[1..] == a[1..] + [c] + b;
    }
  }

  /** A non-word character separates tokens: the text splits there. */
  lemma {:induction false} TokenizeSplit(a: string, c: char, b: string)
    requires !IsWordChar(c)
    ensures Tokenize(a + [c] + b) == Tokenize(a) + Tokenize(b)
    decreases |a|
  {
    var s := a + [c] + b;
    if a == [] {
      assert s == [c] + b;
      assert s[1..] == b;
    } else if !IsWordChar(a[0]) {
      assert s[1..] == a[1..] + [c] + b;
      TokenizeSplit(a[1..], c, b);
    } else {
      RunLengthStops(a, c, b);
      var n := RunLength(a);
      assert s[..n] == a[..n];
      assert s[n..] == a[n..] + [c] + b;
      TokenizeSplit(a[n..], c, b);
    }
  }

  lemma {:induction false} RunLengthOfWord(w: string)
    requires forall i :: 0 <= i < |w| ==> IsWordChar(w[i])
    ensures RunLength(w) == |w|
  {
    if w != [] {
      RunLengthOfWord(w[1..]);
    }
  }

  /** A single run of word characters is one token. */
  lemma TokenizeWord(w: string)
    requires IsWord(w)
    ensures Tokenize(w) == [w]
  {
    RunLengthOfWord(w);
    assert w[..|w|] == w;
    assert w[|w|..] == [];
  }

  /**
   * Joining tokens with single spaces and tokenizing again gives the tokens
   * back: a variation in which nothing was substituted re-tokenizes to the
   * input's own tokens.
   */
  lemma {:induction false} TokenizeJoin(ws: seq<string>)
    requires forall k :: 0 <= k < |ws| ==> IsWord(ws[k])
    ensures Tokenize(JoinSpaces(ws)) == ws
  {
    if |ws| == 0 {
    } else if |ws| == 1 {
      TokenizeWord(ws[0]);
    } else {
      TokenizeJoin(ws[1..]);
      TokenizeWord(ws[0]);
      assert ws[0] + " " + JoinSpaces(ws[1..]) == ws[0] + [' '] + JoinSpaces(ws[1..]);
      TokenizeSplit(ws[0], ' ', JoinSpaces(ws[1..]));
      assert [ws[0]] + ws[1..] == ws;
    }
  }
}
