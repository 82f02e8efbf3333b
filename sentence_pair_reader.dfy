/**
 * `TSVSentencePairReader`: the vocabulary and the padded index vectors of a
 * tab-separated file of source/target sentence pairs (sequence-to-sequence data).
 */
module SentencePairReader {
  import opened Wrappers
  import opened Text
  import opened Counters

  // ---------------------------------------------------------------------------
  // build_vocab
  // ---------------------------------------------------------------------------

  /** The counter `build_vocab` starts from: the three special tokens, each seen once. */
  const SEED: Counter<string> := map["<PAD>" := 1, "<GO>" := 1, "<EOS>" := 1]

  /** `[w.strip() for w in ps]` */
  function StripAll(ps: seq<string>): (r: seq<string>)
    ensures |r| == |ps| && forall i :: 0 <= i < |ps| ==> r[i] == Strip(ps[i])
  {
    seq(|ps|, i requires 0 <= i < |ps| => Strip(ps[i]))
  }

  /**
   * The words one line adds to the vocabulary: for each column id in turn,
   * the `\s`-pieces of that tab column, stripped. None when a column id is
   * out of range (Python raises IndexError).
   */
  function LineWords(line: string, colids: seq<int>): Option<seq<string>>
  {
    if colids == [] then Some([])
    else
      match LineWords(line, colids[..|colids| - 1])
      case None => None
      case Some(ws) =>
        match PyIndex(SplitOn(line, TAB), colids[|colids| - 1])
        case None => None
        case Some(text) => Some(ws + StripAll(SplitOn(text, WHITESPACE)))
  }

  /** The words of all lines of one file, in order. */
  function FileWords(lines: seq<string>, colids: seq<int>): Option<seq<string>>
  {
    if lines == [] then Some([])
    else
      match FileWords(lines[..|lines| - 1], colids)
      case None => None
      case Some(ws) =>
        match LineWords(lines[|lines| - 1], colids)
        case None => None
        case Some(lw) => Some(ws + lw)
  }

  /** The words of all files, skipping the `None` entries. */
  function FilesWords(files: seq<Option<seq<string>>>, colids: seq<int>): Option<seq<string>>
  {
    if files == [] then Some([])
    else
      match FilesWords(files[..|files| - 1], colids)
      case None => None
      case Some(ws) =>
        match files[|files| - 1]
        case None => Some(ws)
        case Some(lines) =>
          match FileWords(lines, colids)
          case None => None
          case Some(fw) => Some(ws + fw)
  }

  lemma {:induction false} LineWordsPrefixNone(line: string, colids: seq<int>, k: nat)
    requires k <= |colids| && LineWords(line, colids[..k]).None?
    ensures LineWords(line, colids).None?
  {
    if k < |colids| {
      var init := colids[..|colids| - 1];
      assert init[..k] == colids[..k];
      LineWordsPrefixNone(line, init, k);
    } else {
      assert colids[..k] == colids;
    }
  }

  lemma {:induction false} FileWordsPrefixNone(lines: seq<string>, colids: seq<int>, k: nat)
    requires k <= |lines| && FileWords(lines[..k], colids).None?
    ensures FileWords(lines, colids).None?
  {
    if k < |lines| {
      var init := lines[..|lines| - 1];
      assert init[..k] == lines[..k];
      FileWordsPrefixNone(init, colids, k);
    } else {
      assert lines[..k] == lines;
    }
  }

  lemma {:induction false} FilesWordsPrefixNone(files: seq<Option<seq<string>>>, colids: seq<int>, k: nat)
    requires k <= |files| && FilesWords(files[..k], colids).None?
    ensures FilesWords(files, colids).None?
  {
    if k < |files| {
      var init := files[..|files| - 1];
      assert init[..k] == files[..k];
      FilesWordsPrefixNone(init, colids, k);
    } else {
      assert files[..k] == files;
    }
  }

  /** The innermost loop of `build_vocab`: count every stripped piece of one column. */
  method CountColumn(vocab: Counter<string>, pieces: seq<string>) returns (counts: Counter<string>)
    ensures counts == CountAll(vocab, StripAll(pieces))
  {
    counts := vocab;
    ghost var words := StripAll(pieces);
    for k := 0 to |pieces|
      invariant counts == CountAll(vocab, words[..k])
    {
      assert words[..k + 1][..k] == words[..k];
      counts := Inc(counts, Strip(pieces[k]));
    }
    assert words[..|words|] == words;
  }

  /**
   * The body of `build_vocab`'s loop over the lines of a file: split the line
   * at tabs and count the stripped `\s`-pieces of each selected column.
   */
  method CountLine(vocab: Counter<string>, line: string, colids: seq<int>) returns (r: Result<Counter<string>>)
    ensures LineWords(line, colids).None? ==> r == Failure(IndexError)
    ensures LineWords(line, colids).Some? ==> r == Success(CountAll(vocab, LineWords(line, colids).value))
  {
    var counts := vocab;
    var cols := SplitOn(line, TAB);
    ghost var done: seq<string> := [];
    for c := 0 to |colids|
      invariant LineWords(line, colids[..c]) == Some(done)
      invariant counts == CountAll(vocab, done)
    {
      assert colids[..c + 1][..c] == colids[..c];
      var col := PyIndex(cols, colids[c]);
      if col.None? {
        LineWordsPrefixNone(line, colids, c + 1);
        return Failure(IndexError);
      }
      var text := SplitOn(col.value, WHITESPACE);
      counts := CountColumn(counts, text);
      CountAllAppend(vocab, done, StripAll(text));
      done := done + StripAll(text);
    }
    assert colids[..|colids|] == colids;
    r := Success(counts);
  }

  /** `build_vocab`'s loop over the lines of one file. */
  method CountFile(vocab: Counter<string>, lines: seq<string>, colids: seq<int>) returns (r: Result<Counter<string>>)
    ensures FileWords(lines, colids).None? ==> r == Failure(IndexError)
    ensures FileWords(lines, colids).Some? ==> r == Success(CountAll(vocab, FileWords(lines, colids).value))
  {
    var counts := vocab;
    ghost var done: seq<string> := [];
    for l := 0 to |lines|
      invariant FileWords(lines[..l], colids) == Some(done)
      invariant counts == CountAll(vocab, done)
    {
      assert lines[..l + 1][..l] == lines[..l];
      var counted := CountLine(counts, lines[l], colids);
      if counted.Failure? {
        FileWordsPrefixNone(lines, colids, l + 1);
        return Failure(IndexError);
      }
      ghost var lw := LineWords(lines[l], colids).value;
      CountAllAppend(vocab, done, lw);
      counts := counted.value;
      done := done + lw;
    }
    assert lines[..|lines|] == lines;
    r := Success(counts);
  }

  /**
   * `build_vocab(colids, files)`: the seeded counter incremented once for
   * every word of every selected column of every line; IndexError when a
   * column id is out of range on some line.
   */
  method BuildVocab(colids: seq<int>, files: seq<Option<seq<string>>>) returns (r: Result<Counter<string>>)
    ensures FilesWords(files, colids).None? ==> r == Failure(IndexError)
    ensures FilesWords(files, colids).Some? ==> r == Success(CountAll(SEED, FilesWords(files, colids).value))
  {
    var vocab := SEED;
    ghost var done: seq<string> := [];
    for i := 0 to |files|
      invariant FilesWords(files[..i], colids) == Some(done)
      invariant vocab == CountAll(SEED, done)
    {
      assert files[..i + 1][..i] == files[..i];
      if files[i].Some? {
        var counted := CountFile(vocab, files[i].value, colids);
        if counted.Failure? {
          FilesWordsPrefixNone(files, colids, i + 1);
          return Failure(IndexError);
        }
        ghost var fw := FileWords(files[i].value, colids).value;
        CountAllAppend(SEED, done, fw);
        vocab := counted.value;
        done := done + fw;
      }
    }
    assert files[..|files|] == files;
    r := Success(vocab);
  }

  /** The special tokens keep a count of at least 1, and every count is the seed plus the occurrences. */
  lemma BuildVocabCounts(colids: seq<int>, files: seq<Option<seq<string>>>, w: string)
    requires FilesWords(files, colids).Some?
    ensures var ws := FilesWords(files, colids).value;
            Get(CountAll(SEED, ws), w) == Get(SEED, w) + multiset(ws)[w]
    ensures w in SEED ==> Get(CountAll(SEED, FilesWords(files, colids).value), w) >= 1
  {
    CountAllOccurrences(SEED, FilesWords(files, colids).value, w);
  }

  /** `strip()` does nothing to a piece of `re.split("\s", ...)`: the pieces hold no whitespace. */
  lemma StripPieces(text: string)
    ensures StripAll(SplitOn(text, WHITESPACE)) == SplitOn(text, WHITESPACE)
  {
    var ps := SplitOn(text, WHITESPACE);
    SplitOnAvoids(text, WHITESPACE);
    forall i | 0 <= i < |ps|
      ensures Strip(ps[i]) == ps[i]
    {
      StripAvoiding(ps[i]);
    }
  }

  /**
   * A selected column that ends in whitespace (as the last column does when
   * the line keeps its newline) puts an empty word into the vocabulary.
   */
  lemma EmptyWordCounted(line: string, colids: seq<int>, c: nat)
    requires c < |colids| && LineWords(line, colids).Some?
    requires var col := PyIndex(SplitOn(line, TAB), colids[c]);
             col.Some? && col.value != [] && IsSpace(col.value[|col.value| - 1])
    ensures [] in LineWords(line, colids).value
  {
    LineWordsContains(line, colids, c);
    var text := PyIndex(SplitOn(line, TAB), colids[c]).value;
    SplitOnLastEmpty(text, WHITESPACE);
    StripPieces(text);
    var ps := SplitOn(text, WHITESPACE);
    assert StripAll(ps)[|ps| - 1] == [];
  }

  /** The words of each selected column are part of the line's words. */
  lemma {:induction false} LineWordsContains(line: string, colids: seq<int>, c: nat)
    requires c < |colids| && LineWords(line, colids).Some?
    ensures var col := PyIndex(SplitOn(line, TAB), colids[c]);
            col.Some? && forall w :: w in StripAll(SplitOn(col.value, WHITESPACE)) ==> w in LineWords(line, colids).value
  {
    var init := colids[..|colids| - 1];
    if LineWords(line, init).None? {
      assert false;
    }
    if c < |colids| - 1 {
      assert init[c] == colids[c];
      LineWordsContains(line, init, c);
    }
  }

  // ---------------------------------------------------------------------------
  // load
  // ---------------------------------------------------------------------------

  /** One encoded pair: `(srcl, tgtl, src_len, tgt_len)`. */
  datatype PairExample = PairExample(src: seq<int>, tgt: seq<int>, srcLen: int, tgtLen: int)

  /**
   * The source and target tokens of a line: `line.strip()` split at tabs,
   * the first two columns split at whitespace runs. None when the line has
   * no second column (Python raises IndexError).
   */
  function Fields(line: string): (r: Option<(seq<string>, seq<string>)>)
    ensures r.Some? ==> |r.value.0| >= 1 && |r.value.1| >= 1
  {
    var splits := SplitOn(Strip(line), TAB);
    if |splits| < 2 then None else Some((SplitRuns(splits[0]), SplitRuns(splits[1])))
  }

  /** `end2 = min(len(dst) + 2, mxlen) - 2`: how many target tokens the copy loop writes. */
  function TargetEnd(dstCount: nat, mxlen: nat): int
  {
    Min(dstCount + 2, mxlen) - 2
  }

  /**
   * When `load` gets through a pair: the source is shorter than `mxlen`
   * (otherwise the write `tgtl[j + 1]` reaches index `mxlen`), and every
   * source token and every copied target token has an index.
   */
  ghost predicate Encodable(src: seq<string>, dst: seq<string>, vocab1: map<string, int>, vocab2: map<string, int>, mxlen: nat)
  {
    && 0 < |src| < mxlen
    && (forall j :: 0 <= j < |src| ==> src[j] in vocab1)
    && (forall j :: 0 <= j < TargetEnd(|dst|, mxlen) ==> dst[j] in vocab2)
  }

  /** Every token the copy loop reads has an index: the first `end1` source tokens and the first `end2` target tokens. */
  ghost predicate TokensKnown(src: seq<string>, dst: seq<string>, vocab1: map<string, int>, vocab2: map<string, int>, mxlen: nat)
  {
    && (forall j :: 0 <= j < Min(|src|, mxlen) ==> src[j] in vocab1)
    && (forall j :: 0 <= j < TargetEnd(|dst|, mxlen) ==> dst[j] in vocab2)
  }

  /**
   * The exception of a pair `load` cannot encode: with no cells at all the
   * write of GO fails (IndexError); otherwise a token without an index
   * (KeyError) is met before the copy loop writes past the end (IndexError).
   */
  ghost function PairError(src: seq<string>, dst: seq<string>, vocab1: map<string, int>, vocab2: map<string, int>, mxlen: nat): Error
  {
    if 0 < mxlen && !TokensKnown(src, dst, vocab1, vocab2, mxlen) then KeyError else IndexError
  }

  /** The exception of a line `load` cannot encode: IndexError without a tab, else that of its pair. */
  ghost function LineError(line: string, vocab1: map<string, int>, vocab2: map<string, int>, mxlen: nat): Error
  {
    match Fields(line)
    case None => IndexError
    case Some((src, dst)) => PairError(src, dst, vocab1, vocab2, mxlen)
  }

  /**
   * The arrays `load` produces for one pair, cell by cell. The source is
   * copied and padded with PAD up to `last = max(len(src), end2)`; the target
   * is GO, then `end2` target tokens, PAD up to index `last`, and EOS is
   * written last at index `end2`, over the last copied token (or over GO
   * when `end2 == 0`). Everything else stays 0.
   */
  ghost predicate Encodes(src: seq<string>, dst: seq<string>, vocab1: map<string, int>, vocab2: map<string, int>,
                          pad: int, go: int, eos: int, mxlen: nat, ex: PairExample)
    requires Encodable(src, dst, vocab1, vocab2, mxlen)
  {
    var end2 := TargetEnd(|dst|, mxlen);
    var last := Max(|src|, end2);
    && |ex.src| == mxlen && |ex.tgt| == mxlen
    && ex.srcLen == |src| && ex.tgtLen == end2 + 2
    && (forall j :: 0 <= j < mxlen ==>
          ex.src[j] == if j < |src| then vocab1[src[j]] else if j < last then pad else 0)
    && ex.tgt[end2] == eos
    && (forall j :: 0 <= j < mxlen && j != end2 ==>
          ex.tgt[j] == if j == 0 then go else if j <= end2 then vocab2[dst[j - 1]] else if j <= last then pad else 0)
  }

  /** One line of `load`, given the PAD, GO and EOS indices looked up beforehand. */
  method EncodeLine(line: string, vocab1: map<string, int>, vocab2: map<string, int>,
                    pad: int, go: int, eos: int, mxlen: nat) returns (r: Result<PairExample>)
    ensures r.Success? <==> Fields(line).Some? && Encodable(Fields(line).value.0, Fields(line).value.1, vocab1, vocab2, mxlen)
    ensures r.Failure? ==> r.error == LineError(line, vocab1, vocab2, mxlen)
    ensures r.Success? ==> Encodes(Fields(line).value.0, Fields(line).value.1, vocab1, vocab2, pad, go, eos, mxlen, r.value)
  {
    var splits := SplitOn(Strip(line), TAB);
    if |splits| < 2 {
      return Failure(IndexError);
    }
    var src := SplitRuns(splits[0]);
    var dst := SplitRuns(splits[1]);
    assert Fields(line) == Some((src, dst));
    r := EncodePair(src, dst, vocab1, vocab2, pad, go, eos, mxlen);
  }

  /** `srcl` once the copy loop has run `j` times. */
  function SourceIds(src: seq<string>, vocab1: map<string, int>, pad: int, end1: int, j: int, mxlen: nat): (r: seq<int>)
    ensures |r| == mxlen
  {
    seq(mxlen, k requires 0 <= k < mxlen => if k < j then (if k < end1 && k < |src| then GetOr(vocab1, src[k], 0) else pad) else 0)
  }

  /** `tgtl` once GO is written and the copy loop has run `j` times. */
  function TargetIds(dst: seq<string>, vocab2: map<string, int>, pad: int, go: int, end2: int, j: int, mxlen: nat): (r: seq<int>)
    ensures |r| == mxlen
  {
    seq(mxlen, k requires 0 <= k < mxlen =>
      if k == 0 then go else if k <= j then (if k - 1 < end2 && k - 1 < |dst| then GetOr(vocab2, dst[k - 1], 0) else pad) else 0)
  }

  /**
   * `load`'s copy loop `for j in range(last)`: the exception it raises, if any (a token
   * with no index, KeyError, or the write `tgtl[j + 1]` at index `mxlen`,
   * IndexError).
   */
  method CopyPair(src: seq<string>, dst: seq<string>, vocab1: map<string, int>, vocab2: map<string, int>, pad: int, go: int,
                  end1: int, end2: int, last: int, srcl: array<int>, tgtl: array<int>)
    returns (err: Option<Error>)
    requires srcl != tgtl && srcl.Length == tgtl.Length
    requires 0 <= end1 <= |src| && end2 <= |dst| && last == Max(end1, end2)
    requires end1 <= srcl.Length && end2 + 2 <= srcl.Length
    requires srcl[..] == SourceIds(src, vocab1, pad, end1, 0, srcl.Length)
    requires tgtl[..] == TargetIds(dst, vocab2, pad, go, end2, 0, srcl.Length)
    modifies srcl, tgtl
    ensures err == if !((forall k :: 0 <= k < end1 ==> src[k] in vocab1) && (forall k :: 0 <= k < end2 ==> dst[k] in vocab2))
                   then Some(KeyError)
                   else if last < srcl.Length then None else Some(IndexError)
    ensures err.None? ==> srcl[..] == SourceIds(src, vocab1, pad, end1, last, srcl.Length)
    ensures err.None? ==> tgtl[..] == TargetIds(dst, vocab2, pad, go, end2, last, srcl.Length)
  {
    var mxlen := srcl.Length;
    for j := 0 to last
      invariant j < mxlen || j == 0
      invariant forall k :: 0 <= k < j && k < end1 ==> src[k] in vocab1
      invariant forall k :: 0 <= k < j && k < end2 ==> dst[k] in vocab2
      invariant srcl[..] == SourceIds(src, vocab1, pad, end1, j, mxlen)
      invariant tgtl[..] == TargetIds(dst, vocab2, pad, go, end2, j, mxlen)
    {
      var idx1, idx2;
      if j < end1 {
        if src[j] !in vocab1 {
          return Some(KeyError);
        }
        idx1 := vocab1[src[j]];
      } else {
        idx1 := pad;
      }
      if j < end2 {
        if dst[j] !in vocab2 {
          return Some(KeyError);
        }
        idx2 := vocab2[dst[j]];
      } else {
        idx2 := pad;
      }
      if j >= mxlen {
        return Some(IndexError);
      }
      srcl[j] := idx1;
      assert srcl[..] == SourceIds(src, vocab1, pad, end1, j + 1, mxlen);
      if j + 1 >= mxlen {
        return Some(IndexError);
      }
      tgtl[j + 1] := idx2;
      assert tgtl[..] == TargetIds(dst, vocab2, pad, go, end2, j + 1, mxlen);
    }
    err := if last < mxlen then None else Some(IndexError);
  }

  /** The closed forms, with EOS written at `end2`, are the arrays `Encodes` describes. */
  lemma ClosedFormEncodes(src: seq<string>, dst: seq<string>, vocab1: map<string, int>, vocab2: map<string, int>,
                          pad: int, go: int, eos: int, mxlen: nat)
    requires Encodable(src, dst, vocab1, vocab2, mxlen)
    ensures var end1, end2 := Min(|src|, mxlen), TargetEnd(|dst|, mxlen);
            var last := Max(end1, end2);
            Encodes(src, dst, vocab1, vocab2, pad, go, eos, mxlen,
                    PairExample(SourceIds(src, vocab1, pad, end1, last, mxlen),
                                TargetIds(dst, vocab2, pad, go, end2, last, mxlen)[end2 := eos], end1, end2 + 2))
  {
  }

  /** The arrays of one pair: the body of `load`'s line loop after the split. */
  method EncodePair(src: seq<string>, dst: seq<string>, vocab1: map<string, int>, vocab2: map<string, int>,
                    pad: int, go: int, eos: int, mxlen: nat) returns (r: Result<PairExample>)
    requires |src| >= 1 && |dst| >= 1
    ensures r.Success? <==> Encodable(src, dst, vocab1, vocab2, mxlen)
    ensures r.Failure? ==> r.error == PairError(src, dst, vocab1, vocab2, mxlen)
    ensures r.Success? ==> Encodes(src, dst, vocab1, vocab2, pad, go, eos, mxlen, r.value)
  {
    var srcl := new int[mxlen](_ => 0);
    var tgtl := new int[mxlen](_ => 0);
    var srcLen := |src|;
    var tgtLen := |dst| + 2;
    var end1 := Min(srcLen, mxlen);
    var end2 := Min(tgtLen, mxlen) - 2;
    var last := Max(end1, end2);
    if tgtl.Length == 0 {
      return Failure(IndexError);
    }
    tgtl[0] := go;
    srcLen := end1;
    tgtLen := end2 + 2;
    assert srcl[..] == SourceIds(src, vocab1, pad, end1, 0, mxlen);
    assert tgtl[..] == TargetIds(dst, vocab2, pad, go, end2, 0, mxlen);
    var err := CopyPair(src, dst, vocab1, vocab2, pad, go, end1, end2, last, srcl, tgtl);
    if err.Some? {
      return Failure(err.value);
    }
    tgtl[end2] := eos;
    ClosedFormEncodes(src, dst, vocab1, vocab2, pad, go, eos, mxlen);
    r := Success(PairExample(srcl[..], tgtl[..], srcLen, tgtLen));
  }

  /** The special tokens `load` looks up before reading any line. */
  ghost predicate HasSpecials(vocab1: map<string, int>, vocab2: map<string, int>)
  {
    "<PADDING>" in vocab1 && "<GO>" in vocab2 && "<EOS>" in vocab2
  }

  ghost predicate LineEncodable(line: string, vocab1: map<string, int>, vocab2: map<string, int>, mxlen: nat)
  {
    Fields(line).Some? && Encodable(Fields(line).value.0, Fields(line).value.1, vocab1, vocab2, mxlen)
  }

  ghost predicate LineEncodes(line: string, vocab1: map<string, int>, vocab2: map<string, int>, mxlen: nat, ex: PairExample)
    requires HasSpecials(vocab1, vocab2) && LineEncodable(line, vocab1, vocab2, mxlen)
  {
    Encodes(Fields(line).value.0, Fields(line).value.1, vocab1, vocab2,
            vocab1["<PADDING>"], vocab2["<GO>"], vocab2["<EOS>"], mxlen, ex)
  }

  /**
   * `load(tsfile, vocab1, vocab2, mxlen)`: one example per line, or the
   * exception of the first line that cannot be encoded. Note that PAD comes
   * from `vocab1` and pads the target as well.
   */
  method Load(lines: seq<string>, vocab1: map<string, int>, vocab2: map<string, int>, mxlen: nat)
    returns (r: Result<seq<PairExample>>)
    ensures r.Success? <==> HasSpecials(vocab1, vocab2) && forall i :: 0 <= i < |lines| ==> LineEncodable(lines[i], vocab1, vocab2, mxlen)
    ensures !HasSpecials(vocab1, vocab2) ==> r == Failure(KeyError)
    ensures r.Failure? && HasSpecials(vocab1, vocab2) ==>
              exists i :: 0 <= i < |lines| && !LineEncodable(lines[i], vocab1, vocab2, mxlen)
                          && (forall k :: 0 <= k < i ==> LineEncodable(lines[k], vocab1, vocab2, mxlen))
                          && r.error == LineError(lines[i], vocab1, vocab2, mxlen)
    ensures r.Success? ==> |r.value| == |lines|
    ensures r.Success? ==> forall i :: 0 <= i < |lines| ==> LineEncodes(lines[i], vocab1, vocab2, mxlen, r.value[i])
  {
    if "<PADDING>" !in vocab1 || "<GO>" !in vocab2 || "<EOS>" !in vocab2 {
      return Failure(KeyError);
    }
    var pad, go, eos := vocab1["<PADDING>"], vocab2["<GO>"], vocab2["<EOS>"];
    var ts: seq<PairExample> := [];
    for i := 0 to |lines|
      invariant |ts| == i
      invariant forall k :: 0 <= k < i ==> LineEncodable(lines[k], vocab1, vocab2, mxlen)
      invariant forall k :: 0 <= k < i ==> LineEncodes(lines[k], vocab1, vocab2, mxlen, ts[k])
    {
      var ex := EncodeLine(lines[i], vocab1, vocab2, pad, go, eos, mxlen);
      if ex.Failure? {
        assert !LineEncodable(lines[i], vocab1, vocab2, mxlen);
        return Failure(ex.error);
      }
      ts := ts + [ex.value];
    }
    r := Success(ts);
  }

  // ---------------------------------------------------------------------------
  // What the encoding means
  // ---------------------------------------------------------------------------

  /**
   * `src_len == min(len(src), mxlen)` and `tgt_len == min(len(dst) + 2, mxlen)`,
   * and a source of `mxlen` or more tokens is never encodable.
   */
  lemma Lengths(src: seq<string>, dst: seq<string>, vocab1: map<string, int>, vocab2: map<string, int>,
                pad: int, go: int, eos: int, mxlen: nat, ex: PairExample)
    requires Encodable(src, dst, vocab1, vocab2, mxlen)
    requires Encodes(src, dst, vocab1, vocab2, pad, go, eos, mxlen, ex)
    ensures ex.srcLen == Min(|src|, mxlen) && ex.tgtLen == Min(|dst| + 2, mxlen)
    ensures 2 <= ex.tgtLen <= mxlen
  {
  }

  /**
   * The framing of the target: EOS sits at `tgt_len - 2`, not at the last
   * counted slot `tgt_len - 1`; it replaces GO when only two slots are
   * counted, and otherwise replaces the last target token the loop copied,
   * so only `tgt_len - 3` target tokens survive.
   */
  lemma TargetFraming(src: seq<string>, dst: seq<string>, vocab1: map<string, int>, vocab2: map<string, int>,
                      pad: int, go: int, eos: int, mxlen: nat, ex: PairExample)
    requires Encodable(src, dst, vocab1, vocab2, mxlen)
    requires Encodes(src, dst, vocab1, vocab2, pad, go, eos, mxlen, ex)
    ensures ex.tgt[ex.tgtLen - 2] == eos
    ensures ex.tgt[0] == if ex.tgtLen == 2 then eos else go
    ensures forall j :: 1 <= j < ex.tgtLen - 2 ==> ex.tgt[j] == vocab2[dst[j - 1]]
    ensures ex.tgtLen < mxlen ==> ex.tgt[ex.tgtLen - 1] == (if ex.tgtLen - 1 <= |src| then pad else 0)
  {
  }

  /** The cell-by-cell description leaves no freedom: one pair has one encoding. */
  lemma EncodingUnique(src: seq<string>, dst: seq<string>, vocab1: map<string, int>, vocab2: map<string, int>,
                       pad: int, go: int, eos: int, mxlen: nat, ex1: PairExample, ex2: PairExample)
    requires Encodable(src, dst, vocab1, vocab2, mxlen)
    requires Encodes(src, dst, vocab1, vocab2, pad, go, eos, mxlen, ex1)
    requires Encodes(src, dst, vocab1, vocab2, pad, go, eos, mxlen, ex2)
    ensures ex1 == ex2
  {
    assert ex1.src == ex2.src;
    var end2 := TargetEnd(|dst|, mxlen);
    forall j | 0 <= j < mxlen
      ensures ex1.tgt[j] == ex2.tgt[j]
    {
      if j == end2 {
      } else {
      }
    }
    assert ex1.tgt == ex2.tgt;
  }
}
