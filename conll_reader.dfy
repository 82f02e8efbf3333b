/**
 * `CONLLSeqReader`: sentences of a CoNLL file (one token per line, word in
 * the first column, tag in the last, a blank line after each sentence) turned
 * into word, character and tag index arrays for sequence tagging.
 */
module ConllReader {
  import opened Wrappers
  import opened Text
  import opened Counters

  // ---------------------------------------------------------------------------
  // web_cleanup
  // ---------------------------------------------------------------------------

  /** The emoticons `web_cleanup` folds into `;)`. */
  const UNREP_EMOTICONS: seq<string> := [":)", ":(((", ":D", "=)", ":-)", "=(", "(=", "=[["]

  /** What `web_cleanup` can rewrite a word into. */
  const CLEANED: set<string> := {"URL", "@@@@", "####", ",", ";)", "&lt;3"}

  /**
   * `web_cleanup(word)`: the first matching rule wins (a link, a mention, a
   * hashtag, a double quote, an emoticon, `<3`); any other word is kept.
   */
  function WebCleanup(word: string): (r: string)
    ensures r == word || r in CLEANED
    ensures r != word ==> "http" <= word || "@" <= word || "#" <= word || word == "\"" || word in UNREP_EMOTICONS || word == "<3"
  {
    if "http" <= word then "URL"
    else if "@" <= word then "@@@@"
    else if "#" <= word then "####"
    else if word == "\"" then ","
    else if word in UNREP_EMOTICONS then ";)"
    else if word == "<3" then "&lt;3"
    else word
  }

  /** Each rewritten form is left alone by a second pass. */
  lemma CleanedFixed(w: string)
    requires w in CLEANED
    ensures WebCleanup(w) == w
  {
    FirstCharDiffers("http", w);
    FirstCharDiffers("@", w);
    FirstCharDiffers("#", w);
  }

  lemma FirstCharDiffers(p: string, w: string)
    ensures p != [] && w != [] && p[0] != w[0] ==> !(p <= w)
  {
  }

  /** `web_cleanup` is idempotent. */
  lemma WebCleanupIdempotent(word: string)
    ensures WebCleanup(WebCleanup(word)) == WebCleanup(word)
  {
    if WebCleanup(word) != word {
      CleanedFixed(WebCleanup(word));
    }
  }

  /** `word_trans_fn`, or the identity when it is None. */
  function Clean(cleanup: Option<string -> string>, w: string): string
  {
    match cleanup
    case None => w
    case Some(f) => f(w)
  }

  function CleanAll(cleanup: Option<string -> string>, ws: seq<string>): (r: seq<string>)
    ensures |r| == |ws| && forall i :: 0 <= i < |ws| ==> r[i] == Clean(cleanup, ws[i])
  {
    seq(|ws|, i requires 0 <= i < |ws| => Clean(cleanup, ws[i]))
  }

  // ---------------------------------------------------------------------------
  // build_vocab
  // ---------------------------------------------------------------------------

  /** A line that is empty once stripped ends a sentence. */
  predicate IsBlank(line: string)
  {
    Strip(line) == []
  }

  /** The `\s`-pieces of a stripped line. */
  function States(line: string): (r: seq<string>)
    ensures |r| >= 1
  {
    SplitOn(Strip(line), WHITESPACE)
  }

  /** The raw word of a token line: its first `\s`-piece. */
  function FirstField(line: string): string
  {
    States(line)[0]
  }

  /** The raw words of the non-blank lines, in order. */
  function Words(lines: seq<string>): seq<string>
  {
    if lines == [] then []
    else
      var init := lines[..|lines| - 1];
      var line := lines[|lines| - 1];
      if IsBlank(line) then Words(init) else Words(init) + [FirstField(line)]
  }

  /** `sl` after the lines: the number of non-blank lines since the last blank one. */
  function OpenSentence(lines: seq<string>): nat
  {
    if lines == [] then 0
    else if IsBlank(lines[|lines| - 1]) then 0
    else OpenSentence(lines[..|lines| - 1]) + 1
  }

  /** `maxs` over one file: the longest sentence that a blank line closed. */
  function LongestClosed(lines: seq<string>): nat
  {
    if lines == [] then 0
    else
      var init := lines[..|lines| - 1];
      if IsBlank(lines[|lines| - 1]) then Max(LongestClosed(init), OpenSentence(init)) else LongestClosed(init)
  }

  /** The longest string of `ws`, 0 when there is none. */
  function MaxLen(ws: seq<string>): nat
  {
    if ws == [] then 0 else Max(MaxLen(ws[..|ws| - 1]), |ws[|ws| - 1]|)
  }

  /** The raw words of all files, skipping the None entries. */
  function FilesWords(files: seq<Option<seq<string>>>): seq<string>
  {
    if files == [] then []
    else
      var init := files[..|files| - 1];
      match files[|files| - 1]
      case None => FilesWords(init)
      case Some(lines) => FilesWords(init) + Words(lines)
  }

  /** `maxs` over all files (`sl` restarts at 0 in every file). */
  function FilesLongest(files: seq<Option<seq<string>>>): nat
  {
    if files == [] then 0
    else
      var init := files[..|files| - 1];
      match files[|files| - 1]
      case None => FilesLongest(init)
      case Some(lines) => Max(FilesLongest(init), LongestClosed(lines))
  }

  /** The four results of `build_vocab`. */
  datatype ConllVocab = ConllVocab(maxs: nat, maxw: nat, vocabCh: Counter<char>, vocabWord: Counter<string>)

  /** `build_vocab`'s inner loop `for k in w: vocab_ch[k] += 1`. */
  method CountChars(vocab: Counter<char>, w: string) returns (counts: Counter<char>)
    ensures counts == CountAll(vocab, w)
  {
    counts := vocab;
    for k := 0 to |w|
      invariant counts == CountAll(vocab, w[..k])
    {
      assert w[..k + 1][..k] == w[..k];
      counts := Inc(counts, w[k]);
    }
    assert w[..|w|] == w;
  }

  /** What one line does to the totals and to `sl`. */
  function ScanLine(st: ConllVocab, sl: nat, line: string, cleanup: Option<string -> string>): (ConllVocab, nat)
  {
    if IsBlank(line) then (st.(maxs := Max(st.maxs, sl)), 0)
    else
      var w := FirstField(line);
      (ConllVocab(st.maxs, Max(st.maxw, |w|), CountAll(st.vocabCh, w), Inc(st.vocabWord, Clean(cleanup, w))), sl + 1)
  }

  /** The totals and `sl` after the lines of one file, `sl` starting at 0. */
  function Scan(acc: ConllVocab, lines: seq<string>, cleanup: Option<string -> string>): (ConllVocab, nat)
  {
    if lines == [] then (acc, 0)
    else
      var (st, sl) := Scan(acc, lines[..|lines| - 1], cleanup);
      ScanLine(st, sl, lines[|lines| - 1], cleanup)
  }

  /** The totals after one more file, in closed form. */
  function FileTotals(acc: ConllVocab, lines: seq<string>, cleanup: Option<string -> string>): ConllVocab
  {
    ConllVocab(Max(acc.maxs, LongestClosed(lines)), Max(acc.maxw, MaxLen(Words(lines))),
               CountAll(acc.vocabCh, Concat(Words(lines))),
               CountAll(acc.vocabWord, CleanAll(cleanup, Words(lines))))
  }

  lemma {:induction false} ScanSentences(acc: ConllVocab, lines: seq<string>, cleanup: Option<string -> string>)
    ensures Scan(acc, lines, cleanup).1 == OpenSentence(lines)
    ensures Scan(acc, lines, cleanup).0.maxs == Max(acc.maxs, LongestClosed(lines))
  {
    if lines != [] {
      var l := |lines| - 1;
      ScanSentences(acc, lines[..l], cleanup);
    }
  }

  lemma {:induction false} ScanLongestWord(acc: ConllVocab, lines: seq<string>, cleanup: Option<string -> string>)
    ensures Scan(acc, lines, cleanup).0.maxw == Max(acc.maxw, MaxLen(Words(lines)))
  {
    if lines != [] {
      var l := |lines| - 1;
      ScanLongestWord(acc, lines[..l], cleanup);
      if !IsBlank(lines[l]) {
        var ws := Words(lines[..l]);
        assert (ws + [FirstField(lines[l])])[..|ws|] == ws;
      }
    }
  }

  lemma {:induction false} ScanChars(acc: ConllVocab, lines: seq<string>, cleanup: Option<string -> string>)
    ensures Scan(acc, lines, cleanup).0.vocabCh == CountAll(acc.vocabCh, Concat(Words(lines)))
  {
    if lines != [] {
      var l := |lines| - 1;
      ScanChars(acc, lines[..l], cleanup);
      if !IsBlank(lines[l]) {
        var ws, w := Words(lines[..l]), FirstField(lines[l]);
        ConcatAppend(ws, [w]);
        assert Concat([w]) == w;
        CountAllAppend(acc.vocabCh, Concat(ws), w);
      }
    }
  }

  lemma {:induction false} ScanWords(acc: ConllVocab, lines: seq<string>, cleanup: Option<string -> string>)
    ensures Scan(acc, lines, cleanup).0.vocabWord == CountAll(acc.vocabWord, CleanAll(cleanup, Words(lines)))
  {
    if lines != [] {
      var l := |lines| - 1;
      ScanWords(acc, lines[..l], cleanup);
      if !IsBlank(lines[l]) {
        var cs, w := CleanAll(cleanup, Words(lines[..l])), FirstField(lines[l]);
        assert CleanAll(cleanup, Words(lines)) == cs + [Clean(cleanup, w)];
        assert (cs + [Clean(cleanup, w)])[..|cs|] == cs;
      }
    }
  }

  /** The closed form of one file's scan. */
  lemma ScanClosedForm(acc: ConllVocab, lines: seq<string>, cleanup: Option<string -> string>)
    ensures Scan(acc, lines, cleanup).0 == FileTotals(acc, lines, cleanup)
  {
    ScanSentences(acc, lines, cleanup);
    ScanLongestWord(acc, lines, cleanup);
    ScanChars(acc, lines, cleanup);
    ScanWords(acc, lines, cleanup);
  }

  /** `build_vocab`'s loop over the lines of one file, carrying the totals of the earlier files. */
  method ScanFile(acc: ConllVocab, lines: seq<string>, cleanup: Option<string -> string>) returns (r: ConllVocab)
    ensures r == FileTotals(acc, lines, cleanup)
  {
    var maxs: nat, maxw: nat, vocabCh, vocabWord := acc.maxs, acc.maxw, acc.vocabCh, acc.vocabWord;
    var sl: nat := 0;
    for l := 0 to |lines|
      invariant (ConllVocab(maxs, maxw, vocabCh, vocabWord), sl) == Scan(acc, lines[..l], cleanup)
    {
      assert lines[..l + 1][..l] == lines[..l];
      var line := Strip(lines[l]);
      if line == [] {
        maxs := Max(maxs, sl);
        sl := 0;
      } else {
        var states := SplitOn(line, WHITESPACE);
        sl := sl + 1;
        var w := states[0];
        vocabWord := Inc(vocabWord, Clean(cleanup, w));
        maxw := Max(maxw, |w|);
        vocabCh := CountChars(vocabCh, w);
      }
    }
    assert lines[..|lines|] == lines;
    ScanClosedForm(acc, lines, cleanup);
    r := ConllVocab(maxs, maxw, vocabCh, vocabWord);
  }

  /** What `build_vocab` returns for `files`, in closed form. */
  function Totals(files: seq<Option<seq<string>>>, cleanup: Option<string -> string>): ConllVocab
  {
    ConllVocab(FilesLongest(files), MaxLen(FilesWords(files)),
               CountAll(map[], Concat(FilesWords(files))),
               CountAll(map[], CleanAll(cleanup, FilesWords(files))))
  }

  lemma FilesStep(files: seq<Option<seq<string>>>, i: nat)
    requires i < |files|
    ensures files[i].None? ==> FilesWords(files[..i + 1]) == FilesWords(files[..i]) && FilesLongest(files[..i + 1]) == FilesLongest(files[..i])
    ensures files[i].Some? ==> FilesWords(files[..i + 1]) == FilesWords(files[..i]) + Words(files[i].value)
    ensures files[i].Some? ==> FilesLongest(files[..i + 1]) == Max(FilesLongest(files[..i]), LongestClosed(files[i].value))
  {
    assert files[..i + 1][..i] == files[..i];
  }

  /** Counting the words of one more file on top of the earlier ones. */
  lemma AppendWords(before: seq<string>, ws: seq<string>, cleanup: Option<string -> string>)
    ensures MaxLen(before + ws) == Max(MaxLen(before), MaxLen(ws))
    ensures CountAll(map[], Concat(before + ws)) == CountAll(CountAll(map[], Concat(before)), Concat(ws))
    ensures CountAll(map[], CleanAll(cleanup, before + ws)) == CountAll(CountAll(map[], CleanAll(cleanup, before)), CleanAll(cleanup, ws))
  {
    MaxLenAppend(before, ws);
    ConcatAppend(before, ws);
    CountAllAppend(map[], Concat(before), Concat(ws));
    CleanAllAppend(cleanup, before, ws);
    CountAllAppend(map[], CleanAll(cleanup, before), CleanAll(cleanup, ws));
  }

  lemma CleanAllAppend(cleanup: Option<string -> string>, a: seq<string>, b: seq<string>)
    ensures CleanAll(cleanup, a + b) == CleanAll(cleanup, a) + CleanAll(cleanup, b)
  {
    var l, r := CleanAll(cleanup, a + b), CleanAll(cleanup, a) + CleanAll(cleanup, b);
    forall i | 0 <= i < |l|
      ensures l[i] == r[i]
    {
      if i < |a| {
        assert (a + b)[i] == a[i];
      } else {
        assert (a + b)[i] == b[i - |a|];
      }
    }
  }

  /** The totals after one more file are that file's scan started from the totals before it. */
  lemma TotalsStep(files: seq<Option<seq<string>>>, i: nat, cleanup: Option<string -> string>)
    requires i < |files|
    ensures files[i].None? ==> Totals(files[..i + 1], cleanup) == Totals(files[..i], cleanup)
    ensures files[i].Some? ==> Totals(files[..i + 1], cleanup) == FileTotals(Totals(files[..i], cleanup), files[i].value, cleanup)
  {
    FilesStep(files, i);
    if files[i].Some? {
      AppendWords(FilesWords(files[..i]), Words(files[i].value), cleanup);
    }
  }

  /**
   * `build_vocab(files, word_trans_fn)`: `(maxs, maxw, vocab_ch, vocab_word)`
   * over the non-blank lines of every file that is not None.
   */
  method BuildVocab(files: seq<Option<seq<string>>>, cleanup: Option<string -> string>) returns (r: ConllVocab)
    ensures r.maxs == FilesLongest(files)
    ensures r.maxw == MaxLen(FilesWords(files))
    ensures r.vocabCh == CountAll(map[], Concat(FilesWords(files)))
    ensures r.vocabWord == CountAll(map[], CleanAll(cleanup, FilesWords(files)))
  {
    var acc := ConllVocab(0, 0, map[], map[]);
    for i := 0 to |files|
      invariant acc == Totals(files[..i], cleanup)
    {
      TotalsStep(files, i, cleanup);
      if files[i].Some? {
        acc := ScanFile(acc, files[i].value, cleanup);
      }
    }
    assert files[..|files|] == files;
    r := acc;
  }

  lemma {:induction false} MaxLenAppend(a: seq<string>, b: seq<string>)
    ensures MaxLen(a + b) == Max(MaxLen(a), MaxLen(b))
    decreases |b|
  {
    if b == [] {
      assert a + b == a;
    } else {
      assert (a + b)[..|a + b| - 1] == a + b[..|b| - 1];
      MaxLenAppend(a, b[..|b| - 1]);
    }
  }

  /** `maxw` is the length of the longest raw word: no word is longer, and one reaches it. */
  lemma {:induction false} MaxLenIsMaximum(ws: seq<string>)
    ensures forall w :: w in ws ==> |w| <= MaxLen(ws)
    ensures ws != [] ==> exists w :: w in ws && |w| == MaxLen(ws)
  {
    if ws != [] {
      var init, last := ws[..|ws| - 1], ws[|ws| - 1];
      MaxLenIsMaximum(init);
      assert ws == init + [last];
      if init != [] && MaxLen(init) >= |last| {
        var w :| w in init && |w| == MaxLen(init);
        assert w in ws;
      } else {
        assert last in ws && |last| == MaxLen(ws);
      }
    }
  }

  /**
   * `vocab_ch` counts every character of every raw word: each character's
   * count is its number of occurrences, so the counts add up to the total
   * length of the words.
   */
  lemma CharCounts(ws: seq<string>, c: char)
    ensures Get(CountAll(map[], Concat(ws)), c) == multiset(Concat(ws))[c]
    ensures |multiset(Concat(ws))| == TotalLen(ws)
  {
    CountAllOccurrences(map[], Concat(ws), c);
    ConcatLength(ws);
  }

  /** The summed length of the strings of `ws`. */
  function TotalLen(ws: seq<string>): nat
  {
    if ws == [] then 0 else |ws[0]| + TotalLen(ws[1..])
  }

  lemma {:induction false} ConcatLength(ws: seq<string>)
    ensures |Concat(ws)| == TotalLen(ws)
  {
    if ws != [] {
      ConcatLength(ws[1..]);
    }
  }

  /** Lines after the last blank line never reach `maxs`: the open sentence is dropped. */
  lemma {:induction false} OpenSentenceIgnored(lines: seq<string>, tail: seq<string>)
    requires forall i :: 0 <= i < |tail| ==> !IsBlank(tail[i])
    ensures LongestClosed(lines + tail) == LongestClosed(lines)
    decreases |tail|
  {
    if tail == [] {
      assert lines + tail == lines;
    } else {
      assert (lines + tail)[..|lines + tail| - 1] == lines + tail[..|tail| - 1];
      OpenSentenceIgnored(lines, tail[..|tail| - 1]);
    }
  }

  /** Every sentence closed by a blank line at index `b` is at most `maxs` long. */
  lemma {:induction false} LongestBoundsClosed(lines: seq<string>, b: nat)
    requires b < |lines| && IsBlank(lines[b])
    ensures OpenSentence(lines[..b]) <= LongestClosed(lines)
  {
    var init := lines[..|lines| - 1];
    if b < |lines| - 1 {
      assert init[..b] == lines[..b];
      LongestBoundsClosed(init, b);
      LongestMonotone(init, lines[|lines| - 1]);
    } else {
      assert init == lines[..b];
    }
  }

  lemma LongestMonotone(lines: seq<string>, line: string)
    ensures LongestClosed(lines) <= LongestClosed(lines + [line])
  {
    assert (lines + [line])[..|lines|] == lines;
  }

  /** `maxs` of all files is at least `maxs` of each file. */
  lemma {:induction false} FilesLongestBounds(files: seq<Option<seq<string>>>, i: nat)
    requires i < |files| && files[i].Some?
    ensures LongestClosed(files[i].value) <= FilesLongest(files)
  {
    var init := files[..|files| - 1];
    if i < |files| - 1 {
      assert init[i] == files[i];
      FilesLongestBounds(init, i);
    }
  }

  // ---------------------------------------------------------------------------
  // read_lines
  // ---------------------------------------------------------------------------

  /** A line with more than one `\s`-piece is a token; any other line ends the current sentence. */
  predicate IsToken(line: string)
  {
    |States(line)| > 1
  }

  /** `read_lines`' state: the finished sentences and tag sequences, and the open ones. */
  datatype Reading = Reading(txts: seq<seq<string>>, lbls: seq<seq<string>>, txt: seq<string>, lbl: seq<string>)

  /** `read_lines`' state after the lines. */
  function Read(lines: seq<string>): (r: Reading)
    ensures |r.txts| == |r.lbls| && |r.txt| == |r.lbl|
    ensures forall i :: 0 <= i < |r.txts| ==> |r.txts[i]| == |r.lbls[i]|
  {
    if lines == [] then Reading([], [], [], [])
    else
      var r := Read(lines[..|lines| - 1]);
      var states := States(lines[|lines| - 1]);
      if |states| > 1 then r.(txt := r.txt + [states[0]], lbl := r.lbl + [states[|states| - 1]])
      else Reading(r.txts + [r.txt], r.lbls + [r.lbl], [], [])
  }

  /** `read_lines(tsfile)`: `(txts, lbls)`; the sentence still open at the end is not returned. */
  method ReadLines(lines: seq<string>) returns (txts: seq<seq<string>>, lbls: seq<seq<string>>)
    ensures txts == Read(lines).txts && lbls == Read(lines).lbls
  {
    txts, lbls := [], [];
    var txt: seq<string>, lbl: seq<string> := [], [];
    for l := 0 to |lines|
      invariant Reading(txts, lbls, txt, lbl) == Read(lines[..l])
    {
      assert lines[..l + 1][..l] == lines[..l];
      var states := SplitOn(Strip(lines[l]), WHITESPACE);
      if |states| > 1 {
        txt := txt + [states[0]];
        lbl := lbl + [states[|states| - 1]];
      } else {
        txts := txts + [txt];
        lbls := lbls + [lbl];
        txt := [];
        lbl := [];
      }
    }
    assert lines[..|lines|] == lines;
  }

  /** The number of lines that end a sentence. */
  function Flushes(lines: seq<string>): nat
  {
    if lines == [] then 0
    else Flushes(lines[..|lines| - 1]) + if IsToken(lines[|lines| - 1]) then 0 else 1
  }

  /** The first and the last field of every token line, in order. */
  function Tokens(lines: seq<string>): seq<string>
  {
    if lines == [] then []
    else
      var init, line := lines[..|lines| - 1], lines[|lines| - 1];
      if IsToken(line) then Tokens(init) + [States(line)[0]] else Tokens(init)
  }

  function Tags(lines: seq<string>): seq<string>
  {
    if lines == [] then []
    else
      var init, line := lines[..|lines| - 1], lines[|lines| - 1];
      if IsToken(line) then Tags(init) + [States(line)[|States(line)| - 1]] else Tags(init)
  }

  function Flatten<T>(ss: seq<seq<T>>): seq<T>
  {
    if ss == [] then [] else Flatten(ss[..|ss| - 1]) + ss[|ss| - 1]
  }

  /** One sentence per line that ends one. */
  lemma {:induction false} ReadCount(lines: seq<string>)
    ensures |Read(lines).txts| == Flushes(lines)
  {
    if lines != [] {
      ReadCount(lines[..|lines| - 1]);
    }
  }

  /**
   * Nothing is reordered or lost before the last sentence end: the sentences
   * followed by the open one are exactly the first fields of the token lines,
   * and likewise for the last fields.
   */
  lemma {:induction false} ReadTokens(lines: seq<string>)
    ensures Flatten(Read(lines).txts) + Read(lines).txt == Tokens(lines)
    ensures Flatten(Read(lines).lbls) + Read(lines).lbl == Tags(lines)
  {
    if lines != [] {
      var init := lines[..|lines| - 1];
      ReadTokens(init);
      var r := Read(init);
      if !IsToken(lines[|lines| - 1]) {
        assert (r.txts + [r.txt])[..|r.txts|] == r.txts;
        assert (r.lbls + [r.lbl])[..|r.lbls|] == r.lbls;
      }
    }
  }

  /** Token lines after the last sentence end are dropped. */
  lemma {:induction false} ReadDropsOpenSentence(lines: seq<string>, tail: seq<string>)
    requires forall i :: 0 <= i < |tail| ==> IsToken(tail[i])
    ensures Read(lines + tail).txts == Read(lines).txts
    ensures Read(lines + tail).lbls == Read(lines).lbls
    decreases |tail|
  {
    if tail == [] {
      assert lines + tail == lines;
    } else {
      assert (lines + tail)[..|lines + tail| - 1] == lines + tail[..|tail| - 1];
      ReadDropsOpenSentence(lines, tail[..|tail| - 1]);
    }
  }

  /** A blank line ends the sentence; two sentence ends in a row produce an empty sentence. */
  lemma EmptySentence(lines: seq<string>, a: string, b: string)
    requires !IsToken(a) && !IsToken(b)
    ensures Read(lines + [a, b]).txts == Read(lines).txts + [Read(lines).txt, []]
    ensures Read(lines + [a, b]).lbls == Read(lines).lbls + [Read(lines).lbl, []]
  {
    assert (lines + [a, b])[..|lines| + 1] == lines + [a];
    assert (lines + [a])[..|lines|] == lines;
  }

  lemma BlankEndsSentence(line: string)
    requires IsBlank(line)
    ensures !IsToken(line)
  {
  }

  // ---------------------------------------------------------------------------
  // load
  // ---------------------------------------------------------------------------

  /** One tagged sentence: `(xs, xs_ch, ys, length, i)`. */
  datatype TagExample = TagExample(words: seq<int>, chars: seq<seq<int>>, tags: seq<int>, length: nat, index: nat)

  /** The label map `f2i` and `load`'s local counter `idx`. */
  datatype Labels = Labels(f2i: map<string, int>, idx: nat)

  /** `if not label in f2i: idx += 1; f2i[label] = idx`, for each label in turn. */
  function Register(start: Labels, labels: seq<string>): Labels
  {
    if labels == [] then start
    else
      var m := Register(start, labels[..|labels| - 1]);
      var lab := labels[|labels| - 1];
      if lab in m.f2i then m else Labels(m.f2i[lab := m.idx + 1], m.idx + 1)
  }

  lemma RegisterStep(start: Labels, lv: seq<string>, j: nat, before: Labels, after: Labels)
    requires j < |lv| && before == Register(start, lv[..j])
    requires after == if lv[j] in before.f2i then before else Labels(before.f2i[lv[j] := before.idx + 1], before.idx + 1)
    ensures after == Register(start, lv[..j + 1])
  {
    assert lv[..j + 1][..j] == lv[..j];
  }

  /** The labels not in `f2i`, each once, in order of first appearance. */
  function NewLabels(f2i: map<string, int>, labels: seq<string>): seq<string>
  {
    if labels == [] then []
    else
      var nl := NewLabels(f2i, labels[..|labels| - 1]);
      var lab := labels[|labels| - 1];
      if lab in f2i || lab in nl then nl else nl + [lab]
  }

  lemma {:induction false} NewLabelsMembers(f2i: map<string, int>, labels: seq<string>)
    ensures forall x :: x in NewLabels(f2i, labels) <==> x in labels && x !in f2i
  {
    if labels != [] {
      NewLabelsMembers(f2i, labels[..|labels| - 1]);
      assert labels == labels[..|labels| - 1] + [labels[|labels| - 1]];
    }
  }

  /** A label already in `f2i` keeps its id. */
  lemma {:induction false} RegisterKeepsExisting(start: Labels, labels: seq<string>)
    ensures forall k :: k in start.f2i ==> k in Register(start, labels).f2i && Register(start, labels).f2i[k] == start.f2i[k]
  {
    if labels != [] {
      RegisterKeepsExisting(start, labels[..|labels| - 1]);
    }
  }

  /** After registration `f2i` holds exactly its old labels and the labels read. */
  lemma {:induction false} RegisterKeys(start: Labels, labels: seq<string>)
    ensures forall k :: k in Register(start, labels).f2i <==> k in start.f2i || k in labels
  {
    if labels != [] {
      RegisterKeys(start, labels[..|labels| - 1]);
      assert labels == labels[..|labels| - 1] + [labels[|labels| - 1]];
    }
  }

  /**
   * The new labels get `idx + 1`, `idx + 2`, ... in order of first
   * appearance, whatever ids `f2i` already uses.
   */
  lemma {:induction false} RegisterNumbering(start: Labels, labels: seq<string>)
    ensures var r, nl := Register(start, labels), NewLabels(start.f2i, labels);
            && r.idx == start.idx + |nl|
            && forall p :: 0 <= p < |nl| ==> nl[p] in r.f2i && r.f2i[nl[p]] == start.idx + p + 1
  {
    if labels != [] {
      var init, lab := labels[..|labels| - 1], labels[|labels| - 1];
      RegisterNumbering(start, init);
      RegisterKeys(start, init);
      NewLabelsMembers(start.f2i, init);
      var m, nl := Register(start, init), NewLabels(start.f2i, init);
      if lab !in m.f2i {
        assert lab !in nl;
        forall p | 0 <= p < |nl|
          ensures nl[p] != lab
        {
          assert nl[p] in nl;
        }
      }
    }
  }

  /**
   * The numbering ignores the ids already in `f2i`: with `O` already at 1, the
   * first new label also gets 1.
   */
  lemma LabelIdCollision()
    ensures var r := Register(Labels(map["O" := 1], 0), ["B-PER"]);
            "O" in r.f2i && "B-PER" in r.f2i && r.f2i["O"] == r.f2i["B-PER"] == 1
  {
    assert ["B-PER"][..0] == [];
    assert "B-PER" != "O";
  }

  lemma {:induction false} RegisterAppend(start: Labels, a: seq<string>, b: seq<string>)
    ensures Register(start, a + b) == Register(Register(start, a), b)
    decreases |b|
  {
    if b == [] {
      assert a + b == a;
    } else {
      assert (a + b)[..|a + b| - 1] == a + b[..|b| - 1];
      RegisterAppend(start, a, b[..|b| - 1]);
    }
  }

  /** The words `load` writes for a sentence: at most `mxlen`. */
  function Shown(n: nat, mxlen: nat): nat
  {
    if n < mxlen then n else mxlen
  }

  /** The labels `load` registers: those of the first `mxlen` words of each sentence. */
  function ReadLabels(lbls: seq<seq<string>>, mxlen: nat): seq<string>
  {
    if lbls == [] then []
    else
      var lv := lbls[|lbls| - 1];
      ReadLabels(lbls[..|lbls| - 1], mxlen) + lv[..Shown(|lv|, mxlen)]
  }

  /** Every word `load` writes has an index (`words_vocab.get` gives None otherwise). */
  ghost predicate SentenceEncodable(v: seq<string>, mxlen: nat, wordsVocab: map<string, int>, cleanup: Option<string -> string>)
  {
    forall j :: 0 <= j < Shown(|v|, mxlen) ==> Clean(cleanup, v[j]) in wordsVocab
  }

  /**
   * The word and character arrays of one sentence, cell by cell: the first
   * `length = min(len(v), mxlen)` words and the first `min(len(w), maxw)`
   * characters of each; every other cell is 0.
   */
  ghost predicate EncodesWords(v: seq<string>, i: nat, wordsVocab: map<string, int>, charsVocab: map<char, int>,
                               mxlen: nat, maxw: nat, cleanup: Option<string -> string>, ex: TagExample)
  {
    var n := Shown(|v|, mxlen);
    && ex.length == n && ex.index == i
    && |ex.words| == mxlen && |ex.chars| == mxlen
    && (forall j :: 0 <= j < mxlen ==> |ex.chars[j]| == maxw)
    && (forall j :: 0 <= j < mxlen ==>
          if j < n then Clean(cleanup, v[j]) in wordsVocab && ex.words[j] == wordsVocab[Clean(cleanup, v[j])]
          else ex.words[j] == 0)
    && (forall j, k :: 0 <= j < mxlen && 0 <= k < maxw ==>
          ex.chars[j][k] == if j < n && k < |v[j]| then GetOr(charsVocab, v[j][k], 0) else 0)
  }

  /** The tag array: the ids in `f2i` of the first `n` tags, then 0. */
  ghost predicate TagsFrom(lv: seq<string>, n: nat, mxlen: nat, f2i: map<string, int>, tags: seq<int>)
  {
    && n <= |lv| && |tags| == mxlen
    && forall j :: 0 <= j < mxlen ==> if j < n then lv[j] in f2i && tags[j] == f2i[lv[j]] else tags[j] == 0
  }

  /** One encoded sentence, its tags read from `f2i`. */
  ghost predicate EncodesSentence(v: seq<string>, lv: seq<string>, i: nat, wordsVocab: map<string, int>, charsVocab: map<char, int>,
                                  mxlen: nat, maxw: nat, cleanup: Option<string -> string>, f2i: map<string, int>, ex: TagExample)
  {
    && EncodesWords(v, i, wordsVocab, charsVocab, mxlen, maxw, cleanup, ex)
    && TagsFrom(lv, Shown(|v|, mxlen), mxlen, f2i, ex.tags)
  }

  /** Adding labels to `f2i` later does not change the tags of an encoded sentence. */
  lemma TagsExtend(lv: seq<string>, n: nat, mxlen: nat, f: map<string, int>, g: map<string, int>, tags: seq<int>)
    requires TagsFrom(lv, n, mxlen, f, tags)
    requires forall k :: k in f ==> k in g && g[k] == f[k]
    ensures TagsFrom(lv, n, mxlen, g, tags)
  {
    forall j | 0 <= j < mxlen
      ensures if j < n then lv[j] in g && tags[j] == g[lv[j]] else tags[j] == 0
    {
    }
  }

  lemma {:induction false} ReadLabelsAppend(a: seq<seq<string>>, b: seq<seq<string>>, mxlen: nat)
    ensures ReadLabels(a + b, mxlen) == ReadLabels(a, mxlen) + ReadLabels(b, mxlen)
    decreases |b|
  {
    if b == [] {
      assert a + b == a;
    } else {
      assert (a + b)[..|a + b| - 1] == a + b[..|b| - 1];
      ReadLabelsAppend(a, b[..|b| - 1], mxlen);
    }
  }

  /** `load`'s labels after one more sentence, and their ids are final. */
  lemma LabelsStep(start: Labels, lbls: seq<seq<string>>, i: nat, mxlen: nat, labels: Labels, next: Labels)
    requires i < |lbls|
    requires labels == Register(start, ReadLabels(lbls[..i], mxlen))
    requires next == Register(labels, lbls[i][..Shown(|lbls[i]|, mxlen)])
    ensures next == Register(start, ReadLabels(lbls[..i + 1], mxlen))
    ensures var all := Register(start, ReadLabels(lbls, mxlen));
            forall k :: k in next.f2i ==> k in all.f2i && all.f2i[k] == next.f2i[k]
  {
    assert lbls[..i + 1][..i] == lbls[..i];
    RegisterAppend(start, ReadLabels(lbls[..i], mxlen), lbls[i][..Shown(|lbls[i]|, mxlen)]);
    RegisterPrefix(start, lbls, i + 1, mxlen);
  }

  /** The ids registered for the first `i` sentences are the final ids of those labels. */
  lemma RegisterPrefix(start: Labels, lbls: seq<seq<string>>, i: nat, mxlen: nat)
    requires i <= |lbls|
    ensures var part, all := Register(start, ReadLabels(lbls[..i], mxlen)), Register(start, ReadLabels(lbls, mxlen));
            forall k :: k in part.f2i ==> k in all.f2i && all.f2i[k] == part.f2i[k]
  {
    var head, rest := ReadLabels(lbls[..i], mxlen), ReadLabels(lbls[i..], mxlen);
    assert lbls == lbls[..i] + lbls[i..];
    ReadLabelsAppend(lbls[..i], lbls[i..], mxlen);
    RegisterAppend(start, head, rest);
    RegisterKeepsExisting(Register(start, head), rest);
  }

  /** The rows of `xs_ch`. */
  function Rows(m: array2<int>): (r: seq<seq<int>>)
    reads m
    ensures |r| == m.Length0
    ensures forall j :: 0 <= j < m.Length0 ==> |r[j]| == m.Length1 && forall k :: 0 <= k < m.Length1 ==> r[j][k] == m[j, k]
  {
    seq(m.Length0, j requires 0 <= j < m.Length0 reads m => seq(m.Length1, k requires 0 <= k < m.Length1 reads m => m[j, k]))
  }

  /** The word ids of the first `n` words, then zeros. */
  function WordIds(v: seq<string>, n: nat, mxlen: nat, wordsVocab: map<string, int>, cleanup: Option<string -> string>): (r: seq<int>)
    ensures |r| == mxlen
  {
    seq(mxlen, a requires 0 <= a < mxlen => if a < n && a < |v| then GetOr(wordsVocab, Clean(cleanup, v[a]), 0) else 0)
  }

  /** The tag ids of the first `n` tags, then zeros. */
  function TagIds(lv: seq<string>, n: nat, mxlen: nat, f2i: map<string, int>): (r: seq<int>)
    ensures |r| == mxlen
  {
    seq(mxlen, a requires 0 <= a < mxlen => if a < n && a < |lv| then GetOr(f2i, lv[a], 0) else 0)
  }

  /** One row of `xs_ch`: the ids of the first `maxw` characters of `w`, then zeros. */
  function CharIds(w: string, maxw: nat, charsVocab: map<char, int>): (r: seq<int>)
    ensures |r| == maxw
  {
    seq(maxw, b requires 0 <= b < maxw => if b < |w| then GetOr(charsVocab, w[b], 0) else 0)
  }

  /** `xs_ch` once the first `n` words are written. */
  function CharMatrix(v: seq<string>, n: nat, mxlen: nat, maxw: nat, charsVocab: map<char, int>): (r: seq<seq<int>>)
    ensures |r| == mxlen
  {
    seq(mxlen, a requires 0 <= a < mxlen => if a < n && a < |v| then CharIds(v[a], maxw, charsVocab) else CharIds([], maxw, charsVocab))
  }

  lemma WordIdsStep(v: seq<string>, j: nat, mxlen: nat, wordsVocab: map<string, int>, cleanup: Option<string -> string>)
    requires j < mxlen && j < |v|
    ensures WordIds(v, j + 1, mxlen, wordsVocab, cleanup) == WordIds(v, j, mxlen, wordsVocab, cleanup)[j := GetOr(wordsVocab, Clean(cleanup, v[j]), 0)]
  {
  }

  lemma TagIdsStep(lv: seq<string>, j: nat, mxlen: nat, f: map<string, int>, g: map<string, int>)
    requires j < mxlen && j < |lv| && lv[j] in g
    requires forall a :: 0 <= a < j ==> lv[a] in f && lv[a] in g && g[lv[a]] == f[lv[a]]
    ensures TagIds(lv, j + 1, mxlen, g) == TagIds(lv, j, mxlen, f)[j := g[lv[j]]]
  {
  }

  lemma CharMatrixStep(v: seq<string>, j: nat, mxlen: nat, maxw: nat, charsVocab: map<char, int>)
    requires j < mxlen && j < |v|
    ensures CharMatrix(v, j + 1, mxlen, maxw, charsVocab) == CharMatrix(v, j, mxlen, maxw, charsVocab)[j := CharIds(v[j], maxw, charsVocab)]
  {
  }

  /** The closed forms are the arrays `EncodesSentence` describes. */
  lemma ClosedFormEncodes(v: seq<string>, lv: seq<string>, i: nat, wordsVocab: map<string, int>, charsVocab: map<char, int>,
                          mxlen: nat, maxw: nat, cleanup: Option<string -> string>, f2i: map<string, int>)
    requires |lv| == |v|
    requires forall a :: 0 <= a < Shown(|v|, mxlen) ==> Clean(cleanup, v[a]) in wordsVocab && lv[a] in f2i
    ensures var n := Shown(|v|, mxlen);
            EncodesSentence(v, lv, i, wordsVocab, charsVocab, mxlen, maxw, cleanup, f2i,
                            TagExample(WordIds(v, n, mxlen, wordsVocab, cleanup), CharMatrix(v, n, mxlen, maxw, charsVocab),
                                       TagIds(lv, n, mxlen, f2i), n, i))
  {
  }

  /** `for k in range(nch): xs_ch[j, k] = chars_vocab.get(w[k], 0)`, on a row still all zeros. */
  method FillRow(xsCh: array2<int>, j: nat, w: string, charsVocab: map<char, int>)
    requires j < xsCh.Length0
    requires Rows(xsCh)[j] == CharIds([], xsCh.Length1, charsVocab)
    modifies xsCh
    ensures Rows(xsCh) == old(Rows(xsCh))[j := CharIds(w, xsCh.Length1, charsVocab)]
  {
    var nch := Min(|w|, xsCh.Length1);
    ghost var before := Rows(xsCh);
    for k := 0 to nch
      invariant forall a, b :: 0 <= a < xsCh.Length0 && 0 <= b < xsCh.Length1 ==>
                  xsCh[a, b] == if a == j && b < k then GetOr(charsVocab, w[b], 0) else before[a][b]
    {
      xsCh[j, k] := GetOr(charsVocab, w[k], 0);
    }
    ghost var after := Rows(xsCh);
    forall a | 0 <= a < xsCh.Length0
      ensures after[a] == before[j := CharIds(w, xsCh.Length1, charsVocab)][a]
    {
    }
  }

  /** `ys[j] = f2i[label]; xs[j] = words_vocab.get(key)` and the characters of the word into row `j` of `xs_ch`. */
  method WriteWord(xs: array<int>, ys: array<int>, xsCh: array2<int>, j: nat, wordId: int, tagId: int, w: string, charsVocab: map<char, int>)
    requires xs != ys && j < xs.Length && j < ys.Length && j < xsCh.Length0
    requires Rows(xsCh)[j] == CharIds([], xsCh.Length1, charsVocab)
    modifies xs, ys, xsCh
    ensures xs[..] == old(xs[..])[j := wordId]
    ensures ys[..] == old(ys[..])[j := tagId]
    ensures Rows(xsCh) == old(Rows(xsCh))[j := CharIds(w, xsCh.Length1, charsVocab)]
  {
    ys[j] := tagId;
    xs[j] := wordId;
    FillRow(xsCh, j, w, charsVocab);
  }

  /**
   * `load`'s word loop over zeroed arrays: words up to `mxlen`, unseen labels
   * registered as they are met; false where a word has no index (the source
   * raises TypeError there).
   */
  method WriteWords(v: seq<string>, lv: seq<string>, wordsVocab: map<string, int>, charsVocab: map<char, int>,
                    cleanup: Option<string -> string>, start: Labels, xs: array<int>, ys: array<int>, xsCh: array2<int>)
    returns (ok: bool, labels: Labels, length: nat)
    requires |lv| == |v| && xs != ys
    requires xs.Length == ys.Length == xsCh.Length0
    requires xs[..] == WordIds(v, 0, xs.Length, wordsVocab, cleanup)
    requires ys[..] == TagIds(lv, 0, xs.Length, start.f2i)
    requires Rows(xsCh) == CharMatrix(v, 0, xs.Length, xsCh.Length1, charsVocab)
    modifies xs, ys, xsCh
    ensures ok <==> SentenceEncodable(v, xs.Length, wordsVocab, cleanup)
    ensures ok ==> length == Shown(|v|, xs.Length) && labels == Register(start, lv[..length])
    ensures ok ==> forall a :: 0 <= a < length ==> Clean(cleanup, v[a]) in wordsVocab && lv[a] in labels.f2i
    ensures ok ==> xs[..] == WordIds(v, length, xs.Length, wordsVocab, cleanup)
    ensures ok ==> ys[..] == TagIds(lv, length, xs.Length, labels.f2i)
    ensures ok ==> Rows(xsCh) == CharMatrix(v, length, xs.Length, xsCh.Length1, charsVocab)
  {
    var mxlen, maxw := xs.Length, xsCh.Length1;
    labels, length := start, mxlen;
    for j := 0 to mxlen
      invariant j <= |v|
      invariant labels == Register(start, lv[..j])
      invariant forall a :: 0 <= a < j ==> Clean(cleanup, v[a]) in wordsVocab
      invariant forall a :: 0 <= a < j ==> lv[a] in labels.f2i
      invariant xs[..] == WordIds(v, j, mxlen, wordsVocab, cleanup)
      invariant ys[..] == TagIds(lv, j, mxlen, labels.f2i)
      invariant Rows(xsCh) == CharMatrix(v, j, mxlen, maxw, charsVocab)
    {
      if j == |v| {
        length := j;
        break;
      }
      var w := v[j];
      var lab := lv[j];
      ghost var before := labels;
      if lab !in labels.f2i {
        labels := Labels(labels.f2i[lab := labels.idx + 1], labels.idx + 1);
      }
      RegisterStep(start, lv, j, before, labels);
      var key := Clean(cleanup, w);
      if key !in wordsVocab {
        return false, labels, length;
      }
      TagIdsStep(lv, j, mxlen, before.f2i, labels.f2i);
      WordIdsStep(v, j, mxlen, wordsVocab, cleanup);
      CharMatrixStep(v, j, mxlen, maxw, charsVocab);
      WriteWord(xs, ys, xsCh, j, wordsVocab[key], labels.f2i[lab], w, charsVocab);
    }
    ok := true;
  }

  /**
   * One iteration of `load`'s sentence loop: fresh zero arrays, filled by
   * `WriteWords`; TypeError for a word with no index.
   */
  method EncodeSentence(v: seq<string>, lv: seq<string>, i: nat, wordsVocab: map<string, int>, charsVocab: map<char, int>,
                        mxlen: nat, maxw: nat, cleanup: Option<string -> string>, start: Labels)
    returns (r: Result<TagExample>, labels: Labels)
    requires |lv| == |v|
    ensures r.Success? <==> SentenceEncodable(v, mxlen, wordsVocab, cleanup)
    ensures r.Failure? ==> r.error == TypeError
    ensures r.Success? ==> labels == Register(start, lv[..Shown(|lv|, mxlen)])
    ensures r.Success? ==> EncodesSentence(v, lv, i, wordsVocab, charsVocab, mxlen, maxw, cleanup, labels.f2i, r.value)
  {
    var xsCh := new int[mxlen, maxw]((_, _) => 0);
    var xs := new int[mxlen](_ => 0);
    var ys := new int[mxlen](_ => 0);
    forall a | 0 <= a < mxlen
      ensures Rows(xsCh)[a] == CharMatrix(v, 0, mxlen, maxw, charsVocab)[a]
    {
      var zero := CharIds([], maxw, charsVocab);
      assert CharMatrix(v, 0, mxlen, maxw, charsVocab)[a] == zero;
      assert forall b :: 0 <= b < maxw ==> Rows(xsCh)[a][b] == xsCh[a, b] == 0 == zero[b];
    }
    var ok, length;
    ok, labels, length := WriteWords(v, lv, wordsVocab, charsVocab, cleanup, start, xs, ys, xsCh);
    if !ok {
      return Failure(TypeError), labels;
    }
    ClosedFormEncodes(v, lv, i, wordsVocab, charsVocab, mxlen, maxw, cleanup, labels.f2i);
    r := Success(TagExample(xs[..], Rows(xsCh), ys[..], length, i));
  }

  /** One more encoded sentence keeps `EncodeAll`'s loop invariant. */
  lemma EncodeAllStep(txts: seq<seq<string>>, lbls: seq<seq<string>>, wordsVocab: map<string, int>, charsVocab: map<char, int>,
                      mxlen: nat, maxw: nat, f2i: map<string, int>, cleanup: Option<string -> string>,
                      i: nat, labels: Labels, next: Labels, ts: seq<TagExample>, ex: TagExample)
    requires |txts| == |lbls| && i < |txts| && |ts| == i
    requires labels == Register(Labels(f2i, 0), ReadLabels(lbls[..i], mxlen))
    requires forall k :: 0 <= k < i ==> SentenceEncodable(txts[k], mxlen, wordsVocab, cleanup)
    requires forall k :: 0 <= k < i ==>
               EncodesSentence(txts[k], lbls[k], k, wordsVocab, charsVocab, mxlen, maxw, cleanup,
                               Register(Labels(f2i, 0), ReadLabels(lbls, mxlen)).f2i, ts[k])
    requires SentenceEncodable(txts[i], mxlen, wordsVocab, cleanup)
    requires next == Register(labels, lbls[i][..Shown(|lbls[i]|, mxlen)])
    requires EncodesSentence(txts[i], lbls[i], i, wordsVocab, charsVocab, mxlen, maxw, cleanup, next.f2i, ex)
    ensures next == Register(Labels(f2i, 0), ReadLabels(lbls[..i + 1], mxlen))
    ensures forall k :: 0 <= k < i + 1 ==> SentenceEncodable(txts[k], mxlen, wordsVocab, cleanup)
    ensures forall k :: 0 <= k < i + 1 ==>
              EncodesSentence(txts[k], lbls[k], k, wordsVocab, charsVocab, mxlen, maxw, cleanup,
                              Register(Labels(f2i, 0), ReadLabels(lbls, mxlen)).f2i, (ts + [ex])[k])
  {
    var final := Register(Labels(f2i, 0), ReadLabels(lbls, mxlen));
    LabelsStep(Labels(f2i, 0), lbls, i, mxlen, labels, next);
    TagsExtend(lbls[i], Shown(|txts[i]|, mxlen), mxlen, next.f2i, final.f2i, ex.tags);
    forall k | 0 <= k < i + 1
      ensures EncodesSentence(txts[k], lbls[k], k, wordsVocab, charsVocab, mxlen, maxw, cleanup, final.f2i, (ts + [ex])[k])
    {
      if k < i {
        assert (ts + [ex])[k] == ts[k];
      }
    }
  }

  /** `load`'s loop over the sentences and tag sequences of `read_lines`. */
  method EncodeAll(txts: seq<seq<string>>, lbls: seq<seq<string>>, wordsVocab: map<string, int>, charsVocab: map<char, int>,
                   mxlen: nat, maxw: nat, f2i: map<string, int>, cleanup: Option<string -> string>)
    returns (r: Result<(seq<TagExample>, map<string, int>)>)
    requires |txts| == |lbls| && forall i :: 0 <= i < |txts| ==> |txts[i]| == |lbls[i]|
    ensures r.Success? <==> forall i :: 0 <= i < |txts| ==> SentenceEncodable(txts[i], mxlen, wordsVocab, cleanup)
    ensures r.Failure? ==> r.error == TypeError
    ensures r.Success? ==> r.value.1 == Register(Labels(f2i, 0), ReadLabels(lbls, mxlen)).f2i
    ensures r.Success? ==> |r.value.0| == |txts|
    ensures r.Success? ==> forall i :: 0 <= i < |txts| ==>
              EncodesSentence(txts[i], lbls[i], i, wordsVocab, charsVocab, mxlen, maxw, cleanup, r.value.1, r.value.0[i])
  {
    var labels := Labels(f2i, 0);
    ghost var final := Register(Labels(f2i, 0), ReadLabels(lbls, mxlen));
    var ts: seq<TagExample> := [];
    for i := 0 to |txts|
      invariant |ts| == i
      invariant labels == Register(Labels(f2i, 0), ReadLabels(lbls[..i], mxlen))
      invariant forall k :: 0 <= k < i ==> SentenceEncodable(txts[k], mxlen, wordsVocab, cleanup)
      invariant forall k :: 0 <= k < i ==>
                  EncodesSentence(txts[k], lbls[k], k, wordsVocab, charsVocab, mxlen, maxw, cleanup, final.f2i, ts[k])
    {
      var ex, next := EncodeSentence(txts[i], lbls[i], i, wordsVocab, charsVocab, mxlen, maxw, cleanup, labels);
      if ex.Failure? {
        return Failure(ex.error);
      }
      EncodeAllStep(txts, lbls, wordsVocab, charsVocab, mxlen, maxw, f2i, cleanup, i, labels, next, ts, ex.value);
      labels := next;
      ts := ts + [ex.value];
    }
    assert lbls[..|lbls|] == lbls;
    r := Success((ts, labels.f2i));
  }

  /**
   * `load(filename, words_vocab, chars_vocab, mxlen, maxw, f2i, word_trans_fn)`:
   * one example per sentence of `read_lines`, the extended `f2i` and the
   * sentences; TypeError for the first written word without an index.
   */
  method Load(lines: seq<string>, wordsVocab: map<string, int>, charsVocab: map<char, int>, mxlen: nat, maxw: nat,
              f2i: map<string, int>, cleanup: Option<string -> string>)
    returns (r: Result<(seq<TagExample>, map<string, int>, seq<seq<string>>)>)
    ensures r.Success? <==> forall i :: 0 <= i < |Read(lines).txts| ==> SentenceEncodable(Read(lines).txts[i], mxlen, wordsVocab, cleanup)
    ensures r.Failure? ==> r.error == TypeError
    ensures r.Success? ==> r.value.2 == Read(lines).txts
    ensures r.Success? ==> r.value.1 == Register(Labels(f2i, 0), ReadLabels(Read(lines).lbls, mxlen)).f2i
    ensures r.Success? ==> |r.value.0| == |Read(lines).txts|
    ensures r.Success? ==> forall i :: 0 <= i < |Read(lines).txts| ==>
              EncodesSentence(Read(lines).txts[i], Read(lines).lbls[i], i, wordsVocab, charsVocab, mxlen, maxw, cleanup, r.value.1, r.value.0[i])
  {
    var txts, lbls := ReadLines(lines);
    var encoded := EncodeAll(txts, lbls, wordsVocab, charsVocab, mxlen, maxw, f2i, cleanup);
    if encoded.Failure? {
      return Failure(encoded.error);
    }
    r := Success((encoded.value.0, encoded.value.1, txts));
  }
}
