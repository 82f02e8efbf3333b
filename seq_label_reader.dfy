/**
 * `TSVSeqLabelReader`: one label and one text per line (label first, then the
 * words, separated by whitespace); the vocabulary of the texts and the
 * zero-padded index vectors used by the sentence classifier.
 */
module SeqLabelReader {
  import opened Wrappers
  import opened Text
  import opened Counters

  // ---------------------------------------------------------------------------
  // splits
  // ---------------------------------------------------------------------------

  /** `splits(text)`: the pieces of `re.split("\s+", text)` that are not empty. */
  function Splits(text: string): (r: seq<string>)
    ensures forall i :: 0 <= i < |r| ==> r[i] != [] && Avoids(r[i], WHITESPACE)
  {
    var runs := SplitRuns(text);
    SplitRunsAvoids(text);
    NonEmptyElements(runs);
    NonEmpty(runs)
  }

  /** The tokens are non-empty, hold no whitespace, and are together the non-whitespace characters of the text. */
  lemma SplitsTokens(text: string)
    ensures forall i :: 0 <= i < |Splits(text)| ==> Splits(text)[i] != [] && Avoids(Splits(text)[i], WHITESPACE)
    ensures Concat(Splits(text)) == Remove(text, WHITESPACE)
  {
    var runs := SplitRuns(text);
    NonEmptyElements(runs);
    SplitRunsAvoids(text);
    NonEmptyConcat(runs);
    SplitRunsConcat(text);
    forall i | 0 <= i < |Splits(text)|
      ensures Avoids(Splits(text)[i], WHITESPACE)
    {
      var j :| 0 <= j < |runs| && runs[j] == Splits(text)[i];
    }
  }

  /** A word without whitespace sticks to the first run of what follows it. */
  lemma {:induction false} SplitRunsWord(w: string, t: string)
    requires Avoids(w, WHITESPACE)
    ensures SplitRuns(w + t) == [w + SplitRuns(t)[0]] + SplitRuns(t)[1..]
  {
    if w == [] {
      var runs := SplitRuns(t);
      assert w + t == t && w + runs[0] == runs[0];
      assert [runs[0]] + runs[1..] == runs;
    } else {
      assert (w + t)[0] == w[0] && (w + t)[1..] == w[1..] + t;
      SplitRunsWord(w[1..], t);
      assert [w[0]] + (w[1..] + SplitRuns(t)[0]) == w + SplitRuns(t)[0];
    }
  }

  /** Tokens joined with single spaces split back into the same tokens. */
  lemma {:induction false} SplitsJoin(toks: seq<string>)
    requires forall i :: 0 <= i < |toks| ==> toks[i] != [] && Avoids(toks[i], WHITESPACE)
    ensures Splits(JoinWith(toks, " ")) == toks
  {
    if |toks| == 1 {
      SplitRunsWord(toks[0], []);
      assert toks[0] + [] == toks[0];
    } else if |toks| > 1 {
      var rest := JoinWith(toks[1..], " ");
      SplitsJoin(toks[1..]);
      assert rest[0] == toks[1][0];
      assert (" " + rest)[1..] == rest;
      assert SplitRuns(" " + rest) == [[]] + SplitRuns(rest);
      assert toks[0] + " " + rest == toks[0] + (" " + rest);
      SplitRunsWord(toks[0], " " + rest);
      assert toks[0] + [] == toks[0];
      var runs := SplitRuns(JoinWith(toks, " "));
      assert runs == [toks[0]] + SplitRuns(rest);
      assert runs[1..] == SplitRuns(rest);
    }
  }

  // ---------------------------------------------------------------------------
  // do_clean
  // ---------------------------------------------------------------------------

  /** The characters `do_clean` keeps: `[A-Za-z0-9(),!?'`]`. */
  const ALLOWED: set<char> :=
    (set c: char | 'A' <= c <= 'Z') + (set c: char | 'a' <= c <= 'z') + (set c: char | '0' <= c <= '9')
    + {'(', ')', ',', '!', '?', '\'', '`'}

  /** What a cleaned string is made of: allowed characters and spaces. */
  const CLEAN: set<char> := ALLOWED + {' '}

  /** `REPLACE`, in the dictionary's insertion order: each contraction and punctuation mark set off by spaces. */
  const REPLACE: seq<(string, string)> := [
    ("'s", " 's "), ("'ve", " 've "), ("n't", " n't "), ("'re", " 're "),
    ("'d", " 'd "), ("'ll", " 'll "), (",", " , "), ("!", " ! ")]

  /** `re.sub(r"[^A-Za-z0-9(),!?\'\`]", " ", l)` */
  function Sanitize(l: string): string
  {
    seq(|l|, i requires 0 <= i < |l| => if l[i] in ALLOWED then l[i] else ' ')
  }

  /** `for k, v in REPLACE.items(): l = l.replace(k, v)` */
  function ReplaceAll(s: string, reps: seq<(string, string)>): string
    requires forall i :: 0 <= i < |reps| ==> reps[i].0 != []
    decreases |reps|
  {
    if reps == [] then s else ReplaceAll(Replace(s, reps[0].0, reps[0].1), reps[1..])
  }

  /** `do_clean(l)` */
  function DoClean(l: string): string
  {
    Strip(ReplaceAll(Sanitize(l), REPLACE))
  }

  /** The allowed characters of `s`, in order. */
  function Keep(s: string): string
  {
    if s == [] then [] else (if s[0] in ALLOWED then [s[0]] else []) + Keep(s[1..])
  }

  lemma {:induction false} KeepAppend(a: string, b: string)
    ensures Keep(a + b) == Keep(a) + Keep(b)
  {
    if a == [] {
      assert a + b == b;
    } else {
      assert (a + b)[0] == a[0] && (a + b)[1..] == a[1..] + b;
      KeepAppend(a[1..], b);
    }
  }

  /** Sanitizing turns exactly the characters that are not allowed into spaces. */
  lemma {:induction false} SanitizeKeeps(l: string)
    ensures Within(Sanitize(l), CLEAN)
    ensures Remove(Sanitize(l), {' '}) == Keep(l)
  {
    if l != [] {
      assert Sanitize(l)[1..] == Sanitize(l[1..]);
      SanitizeKeeps(l[1..]);
    }
  }

  /** Each replacement only adds spaces around an allowed text. */
  lemma ReplacementsSpaceOnly()
    ensures forall i :: 0 <= i < |REPLACE| ==> REPLACE[i].0 != []
    ensures forall i :: 0 <= i < |REPLACE| ==> Within(REPLACE[i].1, CLEAN)
    ensures forall i :: 0 <= i < |REPLACE| ==> Remove(REPLACE[i].0, {' '}) == Remove(REPLACE[i].1, {' '})
  {
    forall i | 0 <= i < |REPLACE|
      ensures Within(REPLACE[i].1, CLEAN) && Remove(REPLACE[i].0, {' '}) == Remove(REPLACE[i].1, {' '})
    {
      var pat := REPLACE[i].0;
      assert REPLACE[i].1 == " " + pat + " ";
      assert Within(pat, ALLOWED);
      Spaced(pat);
    }
  }

  lemma Spaced(pat: string)
    requires Within(pat, ALLOWED)
    ensures Within(" " + pat + " ", CLEAN)
    ensures Remove(" " + pat + " ", {' '}) == Remove(pat, {' '})
  {
    RemoveAppend(" " + pat, " ", {' '});
    RemoveAppend(" ", pat, {' '});
  }

  /** Replacements of that kind keep the allowed characters and add only spaces. */
  lemma {:induction false} ReplaceAllKeeps(s: string, reps: seq<(string, string)>)
    requires forall i :: 0 <= i < |reps| ==> reps[i].0 != []
    requires forall i :: 0 <= i < |reps| ==> Within(reps[i].1, CLEAN)
    requires forall i :: 0 <= i < |reps| ==> Remove(reps[i].0, {' '}) == Remove(reps[i].1, {' '})
    requires Within(s, CLEAN)
    ensures Within(ReplaceAll(s, reps), CLEAN)
    ensures Remove(ReplaceAll(s, reps), {' '}) == Remove(s, {' '})
    decreases |reps|
  {
    if reps != [] {
      ReplaceWithin(s, reps[0].0, reps[0].1, CLEAN);
      ReplaceRemove(s, reps[0].0, reps[0].1, {' '});
      ReplaceAllKeeps(Replace(s, reps[0].0, reps[0].1), reps[1..]);
    }
  }

  /** The only whitespace a clean string holds is the space. */
  lemma {:induction false} CleanWhitespace(s: string)
    requires Within(s, CLEAN)
    ensures Remove(s, WHITESPACE) == Remove(s, {' '})
  {
    if s != [] {
      CleanWhitespace(s[1..]);
      if IsSpace(s[0]) {
        CleanSpace(s[0]);
      }
    }
  }

  /** The only whitespace character a clean string can hold is the space. */
  lemma CleanSpace(c: char)
    requires c in CLEAN && IsSpace(c)
    ensures c == ' '
  {
  }

  /** On a clean string `strip()` removes spaces only. */
  lemma StripClean(s: string)
    requires Within(s, CLEAN)
    ensures Within(Strip(s), CLEAN)
    ensures Remove(Strip(s), {' '}) == Remove(s, {' '})
  {
    forall c | c in CLEAN && IsSpace(c)
      ensures c == ' '
    {
      CleanSpace(c);
    }
    StripSpaces(s, CLEAN);
  }

  /** Applying space-only replacements to a clean string and stripping it keeps it clean and changes only spacing. */
  lemma CleanPipeline(s: string, reps: seq<(string, string)>)
    requires forall i :: 0 <= i < |reps| ==> reps[i].0 != []
    requires forall i :: 0 <= i < |reps| ==> Within(reps[i].1, CLEAN)
    requires forall i :: 0 <= i < |reps| ==> Remove(reps[i].0, {' '}) == Remove(reps[i].1, {' '})
    requires Within(s, CLEAN)
    ensures var r := Strip(ReplaceAll(s, reps));
            && Within(r, CLEAN) && Remove(r, {' '}) == Remove(s, {' '})
            && (r == [] || (!IsSpace(r[0]) && !IsSpace(r[|r| - 1])))
  {
    var spaced := ReplaceAll(s, reps);
    ReplaceAllKeeps(s, reps);
    StripClean(spaced);
    StripEnds(spaced);
  }

  /**
   * `do_clean(l)` keeps exactly the allowed characters of `l`, in order, and
   * changes nothing but spacing; the result holds only allowed characters and
   * spaces, and neither begins nor ends with whitespace.
   */
  lemma DoCleanMeaning(l: string)
    ensures Within(DoClean(l), CLEAN)
    ensures Remove(DoClean(l), {' '}) == Keep(l)
    ensures DoClean(l) == [] || (!IsSpace(DoClean(l)[0]) && !IsSpace(DoClean(l)[|DoClean(l)| - 1]))
  {
    var san := Sanitize(l);
    SanitizeKeeps(l);
    ReplacementsSpaceOnly();
    CleanPipeline(san, REPLACE);
    assert DoClean(l) == Strip(ReplaceAll(san, REPLACE));
  }

  // ---------------------------------------------------------------------------
  // label_and_sentence
  // ---------------------------------------------------------------------------

  /**
   * The words `label_and_sentence` goes on to join: the pieces after the label
   * or, with `chars`, the characters of `' '.join(''.join(pieces))` (the
   * separating spaces included, since that string is iterated character by
   * character).
   */
  function Words(rest: seq<string>, chars: bool): seq<string>
  {
    if chars then Chars(JoinWith(Chars(Concat(rest)), " ")) else rest
  }

  /** `[do_clean(w.lower()) for w in text]` */
  function CleanWords(ws: seq<string>): seq<string>
  {
    seq(|ws|, i requires 0 <= i < |ws| => DoClean(Lower(ws[i])))
  }

  /** `label_and_sentence(line, clean, chars)`: the first `[\t\s]+`-piece and the text after it. */
  function LabelAndSentence(line: string, clean: bool, chars: bool): (string, string)
  {
    (Label(line), Sentence(line, clean, chars))
  }

  /** The label half of `label_and_sentence`: the first piece of the line. */
  function Label(line: string): (r: string)
    ensures Avoids(r, WHITESPACE)
  {
    SplitRunsAvoids(line);
    SplitRuns(line)[0]
  }

  /** The text half of `label_and_sentence`: the other pieces as words, joined by single spaces. */
  function Sentence(line: string, clean: bool, chars: bool): string
  {
    var words := Words(SplitRuns(line)[1..], chars);
    var text := if clean then JoinWith(CleanWords(words), " ") else JoinWith(words, " ");
    Replace(text, "  ", " ")
  }

  /** The characters of the line after the label, whitespace removed. */
  function Body(line: string): string
  {
    Concat(SplitRuns(line)[1..])
  }

  lemma LabelBody(line: string)
    ensures Avoids(SplitRuns(line)[0], WHITESPACE) && Avoids(Body(line), WHITESPACE)
    ensures SplitRuns(line)[0] + Body(line) == Remove(line, WHITESPACE)
  {
    var parts := SplitRuns(line);
    SplitRunsAvoids(line);
    SplitRunsConcat(line);
    RemoveAvoids(line, WHITESPACE);
    assert Concat(parts) == parts[0] + Body(line);
    var all := Remove(line, WHITESPACE);
    assert forall i :: 0 <= i < |Body(line)| ==> Body(line)[i] == all[|parts[0]| + i];
  }

  /** Whatever `chars` says, the words carry the characters of the body. */
  lemma WordsContent(rest: seq<string>, chars: bool)
    requires Avoids(Concat(rest), WHITESPACE)
    ensures Remove(Concat(Words(rest, chars)), WHITESPACE) == Concat(rest)
  {
    var body := Concat(rest);
    RemoveAvoiding(body, WHITESPACE);
    if chars {
      var spaced := JoinWith(Chars(body), " ");
      ConcatChars(spaced);
      JoinRemove(Chars(body), " ", WHITESPACE);
      ConcatChars(body);
    }
  }

  /** `' '.join(words).replace('  ', ' ')` keeps every non-whitespace character. */
  lemma JoinedText(words: seq<string>)
    ensures Remove(Replace(JoinWith(words, " "), "  ", " "), WHITESPACE) == Remove(Concat(words), WHITESPACE)
  {
    assert Remove("  ", WHITESPACE) == [] == Remove(" ", WHITESPACE);
    ReplaceRemove(JoinWith(words, " "), "  ", " ", WHITESPACE);
    JoinRemove(words, " ", WHITESPACE);
  }

  /**
   * Words that each keep, whitespace aside, the allowed characters of the
   * lower-cased word they replace keep them together too.
   */
  lemma {:induction false} ConcatKept(ws: seq<string>, cs: seq<string>)
    requires |cs| == |ws|
    requires forall i :: 0 <= i < |ws| ==> Remove(cs[i], WHITESPACE) == Keep(Lower(ws[i]))
    ensures Remove(Concat(cs), WHITESPACE) == Keep(Lower(Concat(ws)))
  {
    if ws != [] {
      ConcatKept(ws[1..], cs[1..]);
      RemoveAppend(cs[0], Concat(cs[1..]), WHITESPACE);
      LowerAppend(ws[0], Concat(ws[1..]));
      KeepAppend(Lower(ws[0]), Lower(Concat(ws[1..])));
    }
  }

  /** The cleaned words carry the allowed characters of the lower-cased words. */
  lemma CleanWordsContent(ws: seq<string>)
    ensures Remove(Concat(CleanWords(ws)), WHITESPACE) == Keep(Lower(Concat(ws)))
  {
    var cs := CleanWords(ws);
    forall i | 0 <= i < |ws|
      ensures Remove(cs[i], WHITESPACE) == Keep(Lower(ws[i]))
    {
      DoCleanMeaning(Lower(ws[i]));
      CleanWhitespace(cs[i]);
    }
    ConcatKept(ws, cs);
  }

  /** A whitespace character is left alone by lower-casing and dropped by `Keep`. */
  lemma SpaceNotKept(c: char)
    requires c in WHITESPACE
    ensures Keep(Lower([c])) == []
  {
    assert Lower([c]) == [c] && c !in ALLOWED;
  }

  /** Whitespace, lower-cased, is still not an allowed character. */
  lemma {:induction false} KeepLowerRemove(s: string)
    ensures Keep(Lower(s)) == Keep(Lower(Remove(s, WHITESPACE)))
  {
    if s != [] {
      KeepLowerRemove(s[1..]);
      assert s == [s[0]] + s[1..];
      LowerAppend([s[0]], s[1..]);
      KeepAppend(Lower([s[0]]), Lower(s[1..]));
      var rest := Remove(s[1..], WHITESPACE);
      if s[0] in WHITESPACE {
        assert Remove(s, WHITESPACE) == rest;
        SpaceNotKept(s[0]);
      } else {
        assert Remove(s, WHITESPACE) == [s[0]] + rest;
        LowerAppend([s[0]], rest);
        KeepAppend(Lower([s[0]]), Lower(rest));
      }
    }
  }

  /**
   * The label is the first whitespace-free piece of the line, and label and
   * body are all its non-whitespace characters. The text holds the body's
   * characters, whitespace aside: all of them, or with `clean` exactly its
   * allowed characters after lower-casing.
   */
  lemma LabelAndSentenceText(line: string, clean: bool, chars: bool)
    ensures var r := LabelAndSentence(line, clean, chars);
            && Avoids(r.0, WHITESPACE) && r.0 + Body(line) == Remove(line, WHITESPACE)
            && Remove(r.1, WHITESPACE) == if clean then Keep(Lower(Body(line))) else Body(line)
  {
    LabelBody(line);
    var rest := SplitRuns(line)[1..];
    var words := Words(rest, chars);
    WordsContent(rest, chars);
    if clean {
      JoinedText(CleanWords(words));
      CleanWordsContent(words);
      KeepLowerRemove(Concat(words));
    } else {
      JoinedText(words);
    }
  }

  // ---------------------------------------------------------------------------
  // build_vocab
  // ---------------------------------------------------------------------------

  /** The tokens of the text of one line. */
  function LineTokens(line: string, clean: bool, chars: bool): seq<string>
  {
    Splits(Sentence(line, clean, chars))
  }

  /** The tokens of all lines of one file, in order. */
  function FileTokens(lines: seq<string>, clean: bool, chars: bool): seq<string>
  {
    if lines == [] then []
    else FileTokens(lines[..|lines| - 1], clean, chars) + LineTokens(lines[|lines| - 1], clean, chars)
  }

  /** The tokens of all files, skipping the `None` entries. */
  function FilesTokens(files: seq<Option<seq<string>>>, clean: bool, chars: bool): seq<string>
  {
    if files == [] then []
    else
      var done := FilesTokens(files[..|files| - 1], clean, chars);
      match files[|files| - 1]
      case None => done
      case Some(lines) => done + FileTokens(lines, clean, chars)
  }

  /** `build_vocab`'s loop over the lines of one file. */
  method CountFile(vocab: Counter<string>, lines: seq<string>, clean: bool, chars: bool) returns (counts: Counter<string>)
    ensures counts == CountAll(vocab, FileTokens(lines, clean, chars))
  {
    counts := vocab;
    for l := 0 to |lines|
      invariant counts == CountAll(vocab, FileTokens(lines[..l], clean, chars))
    {
      assert lines[..l + 1][..l] == lines[..l];
      var text := Sentence(lines[l], clean, chars);
      CountAllAppend(vocab, FileTokens(lines[..l], clean, chars), Splits(text));
      counts := CountEach(counts, Splits(text));
    }
    assert lines[..|lines|] == lines;
  }

  /** `build_vocab(files, clean, chars)`: every token of every line of every file, counted. */
  method BuildVocab(files: seq<Option<seq<string>>>, clean: bool, chars: bool) returns (vocab: Counter<string>)
    ensures vocab == CountAll(map[], FilesTokens(files, clean, chars))
  {
    vocab := map[];
    for i := 0 to |files|
      invariant vocab == CountAll(map[], FilesTokens(files[..i], clean, chars))
    {
      assert files[..i + 1][..i] == files[..i];
      if files[i].Some? {
        CountAllAppend(map[], FilesTokens(files[..i], clean, chars), FileTokens(files[i].value, clean, chars));
        vocab := CountFile(vocab, files[i].value, clean, chars);
      }
    }
    assert files[..|files|] == files;
  }

  lemma {:induction false} FileTokensClean(lines: seq<string>, clean: bool, chars: bool)
    ensures forall w :: w in FileTokens(lines, clean, chars) ==> w != [] && Avoids(w, WHITESPACE)
  {
    if lines != [] {
      FileTokensClean(lines[..|lines| - 1], clean, chars);
      SplitsTokens(Sentence(lines[|lines| - 1], clean, chars));
    }
  }

  lemma {:induction false} FilesTokensClean(files: seq<Option<seq<string>>>, clean: bool, chars: bool)
    ensures forall w :: w in FilesTokens(files, clean, chars) ==> w != [] && Avoids(w, WHITESPACE)
  {
    if files != [] {
      FilesTokensClean(files[..|files| - 1], clean, chars);
      if files[|files| - 1].Some? {
        FileTokensClean(files[|files| - 1].value, clean, chars);
      }
    }
  }

  /** Each word is counted once per occurrence, and no key is empty or holds whitespace. */
  lemma BuildVocabCounts(files: seq<Option<seq<string>>>, clean: bool, chars: bool, w: string)
    ensures var toks := FilesTokens(files, clean, chars);
            Get(CountAll(map[], toks), w) == multiset(toks)[w]
    ensures w in CountAll(map[], FilesTokens(files, clean, chars)) ==> w != [] && Avoids(w, WHITESPACE)
  {
    var toks := FilesTokens(files, clean, chars);
    CountAllOccurrences(map[], toks, w);
    CountAllKeys(map[], toks);
    FilesTokensClean(files, clean, chars);
  }

  // ---------------------------------------------------------------------------
  // load
  // ---------------------------------------------------------------------------

  /** One example: the index vector `x` and the label id `y`. */
  datatype LabelExample = LabelExample(x: seq<int>, y: int)

  /** `if label not in f2i: f2i[label] = label_idx; label_idx += 1`, where `label_idx` is `len(f2i)`. */
  function AddLabel(f2i: map<string, int>, lab: string): map<string, int>
  {
    if lab in f2i then f2i else f2i[lab := |f2i|]
  }

  /** `f2i` after the labels, in order. */
  function AddLabels(f2i: map<string, int>, labels: seq<string>): map<string, int>
  {
    if labels == [] then f2i else AddLabel(AddLabels(f2i, labels[..|labels| - 1]), labels[|labels| - 1])
  }

  /** The labels of the lines, in order. */
  function LineLabels(lines: seq<string>, clean: bool, chars: bool): (r: seq<string>)
    ensures |r| == |lines| && forall i :: 0 <= i < |lines| ==> r[i] == Label(lines[i])
  {
    seq(|lines|, i requires 0 <= i < |lines| => Label(lines[i]))
  }

  /** `toks[:min(len(toks), nozplen)]`; a negative `nozplen` drops tokens from the end. */
  function Kept(toks: seq<string>, nozplen: int): seq<string>
  {
    PySliceTo(toks, Min(|toks|, nozplen))
  }

  /** Whether `x[j + halffiltsz] = ...` stays inside the `mxlen` cells for every kept token. */
  predicate Fits(n: nat, half: nat, mxlen: nat)
  {
    n == 0 || half + n <= mxlen
  }

  /** The index vector: `half` zeros, the token indices (PAD for an unknown token), zeros up to `mxlen`. */
  function Vector(toks: seq<string>, index: map<string, int>, pad: int, half: nat, mxlen: nat): (r: seq<int>)
    ensures |r| == mxlen
  {
    seq(mxlen, k requires 0 <= k < mxlen => if half <= k < half + |toks| then GetOr(index, toks[k - half], pad) else 0)
  }

  /** A text whose kept tokens `load` writes in range. */
  ghost predicate TextFits(text: string, mxlen: nat, mxfiltsz: nat)
  {
    var half := mxfiltsz / 2;
    Fits(|Kept(Splits(text), mxlen - 2 * half)|, half, mxlen)
  }

  /** The index vector `load` makes of a text. */
  ghost function TextVector(text: string, index: map<string, int>, mxlen: nat, mxfiltsz: nat): seq<int>
    requires "<PADDING>" in index
  {
    var half := mxfiltsz / 2;
    Vector(Kept(Splits(text), mxlen - 2 * half), index, index["<PADDING>"], half, mxlen)
  }

  /** One line of `load` whose writes stay in range. */
  ghost predicate LineFits(line: string, clean: bool, chars: bool, mxlen: nat, mxfiltsz: nat)
  {
    TextFits(Sentence(line, clean, chars), mxlen, mxfiltsz)
  }

  /** The index vector `load` makes of one line. */
  ghost function LineVector(line: string, index: map<string, int>, clean: bool, chars: bool, mxlen: nat, mxfiltsz: nat): seq<int>
    requires "<PADDING>" in index
  {
    TextVector(Sentence(line, clean, chars), index, mxlen, mxfiltsz)
  }

  /** The example `load` makes of one line, given the final label map. */
  ghost function LineExample(line: string, index: map<string, int>, f2i: map<string, int>, clean: bool, chars: bool,
                             mxlen: nat, mxfiltsz: nat): LabelExample
    requires "<PADDING>" in index
  {
    LabelExample(LineVector(line, index, clean, chars, mxlen, mxfiltsz), GetOr(f2i, Label(line), 0))
  }

  /** `x = zeros(mxlen)` and the token loop; IndexError where a write passes the end. */
  method EncodeTokens(toks: seq<string>, index: map<string, int>, pad: int, half: nat, mxlen: nat) returns (r: Result<seq<int>>)
    ensures r.Success? <==> Fits(|toks|, half, mxlen)
    ensures r.Success? ==> r.value == Vector(toks, index, pad, half, mxlen)
    ensures r.Failure? ==> r.error == IndexError
  {
    var x := new int[mxlen](_ => 0);
    assert x[..] == Vector(toks[..0], index, pad, half, mxlen);
    for j := 0 to |toks|
      invariant j == 0 || half + j <= mxlen
      invariant x[..] == Vector(toks[..j], index, pad, half, mxlen)
    {
      if j + half >= mxlen {
        return Failure(IndexError);
      }
      x[j + half] := GetOr(index, toks[j], pad);
      assert x[..] == Vector(toks[..j + 1], index, pad, half, mxlen);
    }
    assert toks[..|toks|] == toks;
    r := Success(x[..]);
  }

  /** The first `n` lines fit. */
  ghost predicate AllFit(lines: seq<string>, n: nat, clean: bool, chars: bool, mxlen: nat, mxfiltsz: nat)
    requires n <= |lines|
  {
    forall k :: 0 <= k < n ==> LineFits(lines[k], clean, chars, mxlen, mxfiltsz)
  }

  /** The examples of the first `n` lines, in order. */
  ghost function Examples(lines: seq<string>, n: nat, index: map<string, int>, f2i: map<string, int>, clean: bool, chars: bool,
                          mxlen: nat, mxfiltsz: nat): seq<LabelExample>
    requires n <= |lines| && "<PADDING>" in index
  {
    seq(n, k requires 0 <= k < n => LineExample(lines[k], index, f2i, clean, chars, mxlen, mxfiltsz))
  }

  /** The first half of `load`'s line loop: register the line's label if it is new and look up its id. */
  method RegisterLabel(lab: string, f2i: map<string, int>, labelIdx: nat) returns (labels: map<string, int>, nextIdx: nat, y: int)
    requires labelIdx == |f2i|
    ensures labels == AddLabel(f2i, lab) && nextIdx == |labels|
    ensures lab in labels && y == labels[lab]
  {
    labels, nextIdx := f2i, labelIdx;
    if lab !in labels {
      labels := labels[lab := nextIdx];
      nextIdx := nextIdx + 1;
    }
    y := labels[lab];
  }

  /** The second half of `load`'s line loop: the index vector of the first tokens of the line's text. */
  method EncodeText(text: string, index: map<string, int>, pad: int, half: nat, nozplen: int, mxlen: nat, ghost mxfiltsz: nat)
    returns (x: Result<seq<int>>)
    requires "<PADDING>" in index && pad == index["<PADDING>"]
    requires half == mxfiltsz / 2 && nozplen == mxlen - 2 * half
    ensures x.Success? <==> TextFits(text, mxlen, mxfiltsz)
    ensures x.Success? ==> x.value == TextVector(text, index, mxlen, mxfiltsz)
    ensures x.Failure? ==> x.error == IndexError
  {
    var toks := Splits(text);
    var mx := Min(|toks|, nozplen);
    toks := PySliceTo(toks, mx);
    x := EncodeTokens(toks, index, pad, half, mxlen);
  }

  /**
   * `load(lines, index, f2i, clean, chars, mxlen, mxfiltsz)`: one example per
   * line and the label map with the new labels added; KeyError without a
   * PAD index, IndexError when the tokens of a line overrun `mxlen`.
   */
  method Load(lines: seq<string>, index: map<string, int>, f2i: map<string, int>, clean: bool, chars: bool,
              mxlen: nat, mxfiltsz: nat)
    returns (r: Result<(seq<LabelExample>, map<string, int>)>)
    ensures "<PADDING>" !in index ==> r == Failure(KeyError)
    ensures r.Success? <==> "<PADDING>" in index && forall i :: 0 <= i < |lines| ==> LineFits(lines[i], clean, chars, mxlen, mxfiltsz)
    ensures "<PADDING>" in index && r.Failure? ==> r.error == IndexError
    ensures r.Success? ==> r.value.1 == AddLabels(f2i, LineLabels(lines, clean, chars))
    ensures r.Success? ==> |r.value.0| == |lines|
    ensures r.Success? ==> forall i :: 0 <= i < |lines| ==>
              r.value.0[i] == LineExample(lines[i], index, r.value.1, clean, chars, mxlen, mxfiltsz)
  {
    if "<PADDING>" !in index {
      return Failure(KeyError);
    }
    var pad := index["<PADDING>"];
    var half := mxfiltsz / 2;
    var nozplen := mxlen - 2 * half;
    r := LoadLines(lines, index, pad, half, nozplen, mxlen, clean, chars, f2i, mxfiltsz);
  }

  /** `load`'s loop over the lines, once the padding id is known. */
  method LoadLines(lines: seq<string>, index: map<string, int>, pad: int, half: nat, nozplen: int, mxlen: nat,
                   clean: bool, chars: bool, f2i: map<string, int>, ghost mxfiltsz: nat)
    returns (r: Result<(seq<LabelExample>, map<string, int>)>)
    requires "<PADDING>" in index && pad == index["<PADDING>"]
    requires half == mxfiltsz / 2 && nozplen == mxlen - 2 * half
    ensures r.Success? <==> forall i :: 0 <= i < |lines| ==> LineFits(lines[i], clean, chars, mxlen, mxfiltsz)
    ensures r.Failure? ==> r.error == IndexError
    ensures r.Success? ==> r.value.1 == AddLabels(f2i, LineLabels(lines, clean, chars))
    ensures r.Success? ==> r.value.0 == Examples(lines, |lines|, index, r.value.1, clean, chars, mxlen, mxfiltsz)
  {
    var labels := f2i;
    var labelIdx := |f2i|;
    var examples: seq<LabelExample> := [];
    ghost var all := LineLabels(lines, clean, chars);
    ghost var final := AddLabels(f2i, all);
    for i := 0 to |lines|
      invariant labelIdx == |labels|
      invariant labels == AddLabels(f2i, all[..i])
      invariant AllFit(lines, i, clean, chars, mxlen, mxfiltsz)
      invariant examples == Examples(lines, i, index, final, clean, chars, mxlen, mxfiltsz)
    {
      var ok;
      ok, labels, labelIdx, examples := LoadNext(lines, i, index, pad, half, nozplen, mxlen, clean, chars, f2i,
                                                 labels, labelIdx, examples, mxfiltsz);
      if !ok {
        return Failure(IndexError);
      }
    }
    assert all[..|lines|] == all;
    r := Success((examples, labels));
  }

  /** One pass of `load`'s line loop, stated in terms of the loop's invariants. */
  method LoadNext(lines: seq<string>, i: nat, index: map<string, int>, pad: int, half: nat, nozplen: int, mxlen: nat,
                  clean: bool, chars: bool, f2i: map<string, int>,
                  labels: map<string, int>, labelIdx: nat, examples: seq<LabelExample>, ghost mxfiltsz: nat)
    returns (ok: bool, labels': map<string, int>, labelIdx': nat, examples': seq<LabelExample>)
    requires "<PADDING>" in index && pad == index["<PADDING>"]
    requires half == mxfiltsz / 2 && nozplen == mxlen - 2 * half && i < |lines|
    requires labelIdx == |labels| && labels == AddLabels(f2i, LineLabels(lines, clean, chars)[..i])
    requires AllFit(lines, i, clean, chars, mxlen, mxfiltsz)
    requires examples == Examples(lines, i, index, AddLabels(f2i, LineLabels(lines, clean, chars)), clean, chars, mxlen, mxfiltsz)
    ensures ok <==> LineFits(lines[i], clean, chars, mxlen, mxfiltsz)
    ensures ok ==> labelIdx' == |labels'| && labels' == AddLabels(f2i, LineLabels(lines, clean, chars)[..i + 1])
    ensures ok ==> AllFit(lines, i + 1, clean, chars, mxlen, mxfiltsz)
    ensures ok ==> examples' == Examples(lines, i + 1, index, AddLabels(f2i, LineLabels(lines, clean, chars)), clean, chars, mxlen, mxfiltsz)
  {
    var x, y;
    labels', labelIdx', y := RegisterLabel(Label(lines[i]), labels, labelIdx);
    x := EncodeText(Sentence(lines[i], clean, chars), index, pad, half, nozplen, mxlen, mxfiltsz);
    ok := x.Success?;
    examples' := examples;
    if ok {
      ExamplesStep(lines, i, index, f2i, clean, chars, mxlen, mxfiltsz, labels', x.value, y, examples);
      examples' := examples + [LabelExample(x.value, y)];
    }
  }

  /** One more line of `load`'s loop keeps its invariants. */
  lemma ExamplesStep(lines: seq<string>, i: nat, index: map<string, int>, f2i: map<string, int>, clean: bool, chars: bool,
                     mxlen: nat, mxfiltsz: nat, labels: map<string, int>, x: seq<int>, y: int, examples: seq<LabelExample>)
    requires "<PADDING>" in index && i < |lines|
    requires AllFit(lines, i, clean, chars, mxlen, mxfiltsz) && LineFits(lines[i], clean, chars, mxlen, mxfiltsz)
    requires labels == AddLabel(AddLabels(f2i, LineLabels(lines, clean, chars)[..i]), Label(lines[i]))
    requires Label(lines[i]) in labels && y == labels[Label(lines[i])]
    requires x == LineVector(lines[i], index, clean, chars, mxlen, mxfiltsz)
    requires examples == Examples(lines, i, index, AddLabels(f2i, LineLabels(lines, clean, chars)), clean, chars, mxlen, mxfiltsz)
    ensures labels == AddLabels(f2i, LineLabels(lines, clean, chars)[..i + 1])
    ensures AllFit(lines, i + 1, clean, chars, mxlen, mxfiltsz)
    ensures examples + [LabelExample(x, y)]
            == Examples(lines, i + 1, index, AddLabels(f2i, LineLabels(lines, clean, chars)), clean, chars, mxlen, mxfiltsz)
  {
    var all := LineLabels(lines, clean, chars);
    var lab := Label(lines[i]);
    assert all[i] == lab;
    LoadStep(f2i, all, i, labels);
    var final := AddLabels(f2i, all);
    assert GetOr(final, lab, 0) == y;
    var ex := LabelExample(x, y);
    assert LineExample(lines[i], index, final, clean, chars, mxlen, mxfiltsz) == ex;
    var exs := Examples(lines, i + 1, index, final, clean, chars, mxlen, mxfiltsz);
    assert exs[i] == ex;
    assert forall k :: 0 <= k < i ==> exs[k] == examples[k];
    Snoc(examples, ex, exs);
  }

  /** A sequence that agrees with `a` and then ends in `x` is `a + [x]`. */
  lemma Snoc<T>(a: seq<T>, x: T, b: seq<T>)
    requires |b| == |a| + 1 && b[|a|] == x
    requires forall k :: 0 <= k < |a| ==> b[k] == a[k]
    ensures a + [x] == b
  {
  }

  /** The label map after line `i` holds that line's label, with the id it keeps to the end. */
  lemma LoadStep(f2i: map<string, int>, all: seq<string>, i: nat, labels: map<string, int>)
    requires i < |all| && labels == AddLabel(AddLabels(f2i, all[..i]), all[i])
    ensures labels == AddLabels(f2i, all[..i + 1])
    ensures all[i] in labels && all[i] in AddLabels(f2i, all)
    ensures AddLabels(f2i, all)[all[i]] == labels[all[i]]
  {
    assert all[..i + 1][..i] == all[..i];
    AddLabelsAppend(f2i, all[..i + 1], all[i + 1..]);
    assert all == all[..i + 1] + all[i + 1..];
    AddLabelsKeeps(labels, all[i + 1..]);
  }

  // ---------------------------------------------------------------------------
  // What `load` promises
  // ---------------------------------------------------------------------------

  lemma {:induction false} AddLabelsAppend(f2i: map<string, int>, a: seq<string>, b: seq<string>)
    ensures AddLabels(f2i, a + b) == AddLabels(AddLabels(f2i, a), b)
    decreases |b|
  {
    if b == [] {
      assert a + b == a;
    } else {
      assert (a + b)[..|a + b| - 1] == a + b[..|b| - 1];
      AddLabelsAppend(f2i, a, b[..|b| - 1]);
    }
  }

  /** A label already in the map keeps its id. */
  lemma {:induction false} AddLabelsKeeps(f2i: map<string, int>, labels: seq<string>)
    ensures forall k :: k in f2i ==> k in AddLabels(f2i, labels) && AddLabels(f2i, labels)[k] == f2i[k]
  {
    if labels != [] {
      AddLabelsKeeps(f2i, labels[..|labels| - 1]);
    }
  }

  /** The keys afterwards are the old keys and the labels read. */
  lemma {:induction false} AddLabelsKeys(f2i: map<string, int>, labels: seq<string>)
    ensures forall k :: k in AddLabels(f2i, labels) <==> k in f2i || k in labels
  {
    if labels != [] {
      AddLabelsKeys(f2i, labels[..|labels| - 1]);
      assert labels == labels[..|labels| - 1] + [labels[|labels| - 1]];
    }
  }

  /** Ids `0 .. len(f2i) - 1`, each used once. */
  predicate Dense(f2i: map<string, int>)
  {
    && (forall k :: k in f2i ==> 0 <= f2i[k] < |f2i|)
    && (forall a, b :: a in f2i && b in f2i && a != b ==> f2i[a] != f2i[b])
  }

  /** Starting from dense ids, every label gets its own id and the ids stay dense. */
  lemma {:induction false} AddLabelsDense(f2i: map<string, int>, labels: seq<string>)
    requires Dense(f2i)
    ensures Dense(AddLabels(f2i, labels))
  {
    if labels != [] {
      var m := AddLabels(f2i, labels[..|labels| - 1]);
      AddLabelsDense(f2i, labels[..|labels| - 1]);
      var lab := labels[|labels| - 1];
      if lab !in m {
        assert |m[lab := |m|]| == |m| + 1;
      }
    }
  }

  /** A label not seen before gets the number of labels known at that point as its id. */
  lemma NewLabelId(f2i: map<string, int>, labels: seq<string>, i: nat)
    requires i < |labels| && labels[i] !in AddLabels(f2i, labels[..i])
    ensures labels[i] in AddLabels(f2i, labels)
    ensures AddLabels(f2i, labels)[labels[i]] == |AddLabels(f2i, labels[..i])|
  {
    var before := AddLabels(f2i, labels[..i]);
    assert labels[..i + 1][..i] == labels[..i];
    AddLabelsAppend(f2i, labels[..i + 1], labels[i + 1..]);
    assert labels == labels[..i + 1] + labels[i + 1..];
    AddLabelsKeeps(before[labels[i] := |before|], labels[i + 1..]);
  }

  /**
   * With `2 * (mxfiltsz // 2) <= mxlen` every line fits: the first
   * `mxfiltsz // 2` cells and the cells past the kept tokens are zero, and at
   * most `mxlen - 2 * (mxfiltsz // 2)` tokens are kept, so the margin at the
   * end is at least as wide as the one at the start.
   */
  lemma ZeroMargins(toks: seq<string>, index: map<string, int>, pad: int, mxlen: nat, mxfiltsz: nat)
    requires 2 * (mxfiltsz / 2) <= mxlen
    ensures var half := mxfiltsz / 2;
            var kept := Kept(toks, mxlen - 2 * half);
            var x := Vector(kept, index, pad, half, mxlen);
            && |kept| == Min(|toks|, mxlen - 2 * half) && kept == toks[..|kept|]
            && Fits(|kept|, half, mxlen)
            && (forall k :: 0 <= k < half ==> x[k] == 0)
            && (forall k :: mxlen - half <= k < mxlen ==> x[k] == 0)
            && (forall j :: 0 <= j < |kept| ==> x[half + j] == GetOr(index, toks[j], pad))
  {
  }

  /**
   * With `2 * (mxfiltsz // 2) > mxlen`, `nozplen` is negative and the slice
   * drops that many tokens from the end instead of keeping none.
   */
  lemma NegativeLengthDropsFromEnd(toks: seq<string>, mxlen: nat, mxfiltsz: nat)
    requires 2 * (mxfiltsz / 2) > mxlen
    ensures var nozplen := mxlen - 2 * (mxfiltsz / 2);
            Kept(toks, nozplen) == toks[..Max(0, |toks| + nozplen)]
  {
  }
}
