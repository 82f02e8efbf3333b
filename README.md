# Baseline text readers and early-stopping trainers, in Dafny

This project models two sequential parts of the `baseline` deep-learning
toolkit and proves properties of them.

1. **Text-to-index vectorisation** (`python/baseline/reader.py`). Tokenised
   lines become fixed-length integer vectors.
   - The TSV sentence-pair reader (sequence-to-sequence) frames the target
     with GO and EOS and keeps `src_len`/`tgt_len`.
   - The CoNLL reader groups tokens into sentences at blank lines, builds a
     per-character matrix and numbers labels as it meets them.
   - The TSV label reader splits off a label, cleans the text, and pads with
     zero margins of `mxfiltsz // 2`.
   - Each reader also has a vocabulary builder, and the CoNLL reader has the
     `web_cleanup` rewrite.
2. **The early-stopping epoch controller** of the language-model and
   classifier `fit` loops (`python/baseline/tf/lm/train.py`,
   `python/baseline/tf/classify/train.py`). It also covers the language-model
   trainer's `valid_epochs` counter and its 500-batch report cadence.

Files are given as sequences of lines, and a `None` entry in a file list is
`Option.None`. Vocabularies are `map<string, int>`. A Python `Counter` is a
`map<K, nat>` whose missing keys read as 0. A Python exception is the
`Failure` arm of a `Result`, naming the exception: `KeyError`, `IndexError`,
`TypeError` or `ZeroDivisionError`. numpy buffers are Dafny arrays filled
with zeros, and the loops that fill them in place are methods.

The regular-expression splits are explicit functions over one ASCII
whitespace set: space, `\t`, `\n`, `\v`, `\f`, `\r` and `\x1c`-`\x1f`. These
are the ASCII characters `str.isspace()` accepts.
- `re.split("\s", s)` and `re.split("\t", s)` become `Text.SplitOn`, which
  splits at every single separator and keeps empty pieces.
- `re.split("\s+", s)` and `re.split('[\t\s]+', s)` become `Text.SplitRuns`,
  which splits at runs and can yield an empty first or last piece.

Modules:
- `Wrappers`: `Option`, `Result` and `Error`.
- `Text`: Python string built-ins (split shapes, `strip`, `replace`, `lower`,
  `join`, negative indexing and slicing).
- `Counters`: `Counter` as a map.
- `SentencePairReader`, `ConllReader`, `SeqLabelReader`: the three readers.
- `EarlyStopping`: the shared epoch loop and its specification.
- `LmTrain`, `ClassifyTrain`: the two `fit` functions and the language-model
  trainer class.

The validation metric of each epoch is an input, `ms[e]`, compared exactly as
a real number. The trace of `fit` is a sequence of events:
- `Trained`, `AfterTrain`, `Validated`
- `Checkpointed`, `Saved`
- `Stopped`
- `Restored`, `Tested`

## Model

| member | source | states |
|---|---|---|
| `Text.PySliceTo` | python/baseline/reader.py:264-265 | Python slice `s[:k]` is a prefix of `s` of length `min(k, len(s))` for `k >= 0`, and `max(0, len(s) + k)` for `k < 0` |
| `Text.SplitOn` | python/baseline/reader.py:29-31 | `re.split` on single separator characters always yields at least one piece |
| `Text.SplitOnAvoids` | python/baseline/reader.py:29-31 | no piece of a single-character split holds a separator |
| `Text.SplitOnCount` | python/baseline/reader.py:31 | a single-character split yields one more piece than the string has separators, so empty pieces are kept |
| `Text.SplitOnJoin` | python/baseline/reader.py:29 | joining the pieces of a split on one character with that character gives back the string |
| `Text.SplitOnLastEmpty` | python/baseline/reader.py:31 | a string ending in a separator (a line's newline) yields an empty last piece |
| `Text.SplitOnNoSeparator` | python/baseline/reader.py:29 | a string without separators splits into itself alone |
| `Text.SplitRuns` | python/baseline/reader.py:49-50 | `re.split("\s+")` always yields at least one piece |
| `Text.SplitRunsAvoids` | python/baseline/reader.py:212 | no piece of a split on whitespace runs holds whitespace |
| `Text.SplitRunsConcat` | python/baseline/reader.py:223 | the pieces of a split on whitespace runs are the string's non-whitespace characters, in order |
| `Text.Strip` | python/baseline/reader.py:219 | `str.strip()`: `lstrip()` then `rstrip()` over the whitespace set; what it keeps and cuts is proved in `StripEnds`, `StripBounds`, `StripAvoiding`, `StripEmpty` |
| `Text.StripEnds` | python/baseline/reader.py:219 | `strip()` leaves no whitespace at either end |
| `Text.StripSpaces` | python/baseline/reader.py:219 | on a string whose only whitespace is spaces, `strip()` removes only spaces and keeps every other character |
| `Text.StripBounds` | python/baseline/reader.py:48 | `strip()` returns a contiguous slice of its input, with only whitespace cut before and after it |
| `Text.StripAvoiding` | python/baseline/reader.py:34 | `strip()` leaves a whitespace-free string unchanged |
| `Text.StripEmpty` | python/baseline/reader.py:116-117 | `strip()` is empty exactly when the line is all whitespace |
| `Text.Replace` | python/baseline/reader.py:218 | `str.replace(pat, rep)`: non-overlapping occurrences of a non-empty pattern, scanned left to right; proved to change only `cs`-characters when `pat` and `rep` agree outside `cs` (`ReplaceRemove`) |
| `Text.LowerIdempotent` | python/baseline/reader.py:229 | `lower()` applied twice is `lower()` applied once; it leaves no upper-case letter and keeps every other character |
| `Text.ConcatChars` | python/baseline/reader.py:227 | the one-character strings of a string, joined back together, are the string |
| `Text.ReplaceRemove` | python/baseline/reader.py:218 | `replace(pat, rep)` with `pat` and `rep` equal up to the characters `cs` leaves the string equal up to `cs` |
| `Text.ReplaceWithin` | python/baseline/reader.py:218 | `replace` keeps a string within a character set when the replacement is within it |
| `Text.JoinWith` | python/baseline/reader.py:229-231 | `sep.join(ws)`: the words with `sep` between neighbours; `JoinRemove` proves it is their concatenation once `sep`'s characters are removed |
| `Text.JoinRemove` | python/baseline/reader.py:229-231 | `sep.join(ws)` equals the concatenation of `ws` once the separator's characters are removed |
| `Text.NonEmptyElements` | python/baseline/reader.py:212 | filtering out empty strings leaves only non-empty members of the input |
| `Text.NonEmptyConcat` | python/baseline/reader.py:212 | filtering out empty strings does not change the concatenation |
| `Counters.CountAllOccurrences` | python/baseline/reader.py:33-35 | counting a sequence of keys adds, for each key, exactly its number of occurrences |
| `Counters.CountAllKeys` | python/baseline/reader.py:244 | after counting, the keys are the old keys and the counted ones |
| `Counters.CountAllAppend` | python/baseline/reader.py:241-244 | counting two sequences in turn equals counting their concatenation |
| `Counters.CountEach` | python/baseline/reader.py:243-244 | the `vocab[w] += 1` loop computes the counter specified by `CountAll` |
| `SentencePairReader.CountColumn` | python/baseline/reader.py:33-35 | the inner loop adds each stripped piece of a column to the counter |
| `SentencePairReader.CountLine` | python/baseline/reader.py:29-35 | a line adds the words of its selected columns; a column index beyond the fields is IndexError |
| `SentencePairReader.CountFile` | python/baseline/reader.py:28-35 | a file adds the words of its lines, or fails with IndexError at the first bad column |
| `SentencePairReader.BuildVocab` | python/baseline/reader.py:19-36 | the counter seeded with `<PAD>`, `<GO>`, `<EOS>` at 1, plus every word of every present file; `None` files skipped |
| `SentencePairReader.LineWordsPrefixNone` | python/baseline/reader.py:30-31 | a bad column aborts the line whatever columns follow |
| `SentencePairReader.FileWordsPrefixNone` | python/baseline/reader.py:28-31 | a bad line aborts the file whatever lines follow |
| `SentencePairReader.FilesWordsPrefixNone` | python/baseline/reader.py:24-31 | a bad file aborts the build whatever files follow |
| `SentencePairReader.BuildVocabCounts` | python/baseline/reader.py:20-35 | each word's count is its seed plus its occurrences, so the three specials always count at least 1 |
| `SentencePairReader.StripPieces` | python/baseline/reader.py:31-34 | stripping the pieces of a `\s` split changes nothing, because no piece holds whitespace |
| `SentencePairReader.EmptyWordCounted` | python/baseline/reader.py:31-35 | a column ending in whitespace contributes the empty word to the vocabulary |
| `SentencePairReader.LineWordsContains` | python/baseline/reader.py:30-35 | every piece of every selected column is among the line's counted words |
| `SentencePairReader.Fields` | python/baseline/reader.py:48-50 | a line that parses yields non-empty source and target token lists, as `re.split` never returns an empty list |
| `SentencePairReader.EncodeLine` | python/baseline/reader.py:48-71 | a line encodes exactly when it parses and its pair is encodable, and the result meets the encoding specification; otherwise IndexError for a line without a tab, else the pair's exception |
| `SentencePairReader.CopyPair` | python/baseline/reader.py:63-67 | the copy loop raises KeyError exactly when a copied token is not in its vocabulary, and otherwise IndexError exactly when `last >= mxlen`; on success both arrays are in their closed forms |
| `SentencePairReader.ClosedFormEncodes` | python/baseline/reader.py:52-71 | the closed-form arrays with EOS written at `end2` meet the encoding specification |
| `SentencePairReader.EncodePair` | python/baseline/reader.py:52-71 | a pair encodes exactly when encodable, and the arrays and lengths it returns meet the specification; otherwise IndexError when `mxlen == 0`, else KeyError when a copied token has no index, else IndexError (a source of `mxlen` or more tokens) |
| `SentencePairReader.Load` | python/baseline/reader.py:39-72 | succeeds exactly when `<PADDING>`, `<GO>`, `<EOS>` are present and every line encodes; one example per line, each meeting the specification; KeyError without the three specials, otherwise the exception of the first line that does not encode |
| `SentencePairReader.Lengths` | python/baseline/reader.py:54-61 | `src_len = min(#src, mxlen)` and `tgt_len = min(#dst + 2, mxlen)`, with `2 <= tgt_len <= mxlen` |
| `SentencePairReader.TargetFraming` | python/baseline/reader.py:59-69 | EOS sits at `end2`; slot 0 holds GO unless EOS overwrote it; slots `1 .. end2-1` hold the copied target ids; the slot after EOS is PAD or 0 |
| `SentencePairReader.EncodingUnique` | python/baseline/reader.py:52-71 | the encoding specification determines the example |
| `ConllReader.WebCleanup` | python/baseline/reader.py:91-98 | a word is returned unchanged or rewritten to one of the cleaned forms, and a rewrite happens only under one of the six rules |
| `ConllReader.CleanedFixed` | python/baseline/reader.py:92-97 | every cleaned form is left unchanged by `web_cleanup` |
| `ConllReader.WebCleanupIdempotent` | python/baseline/reader.py:91-98 | applying `web_cleanup` twice is the same as once |
| `ConllReader.States` | python/baseline/reader.py:122 | splitting a non-blank line yields at least one field |
| `ConllReader.CountChars` | python/baseline/reader.py:127-128 | the character loop adds each character of the word to the counter |
| `ConllReader.ScanSentences` | python/baseline/reader.py:112-123 | `maxs` is the longest sentence closed by a blank line; the open sentence at the end is carried, not counted |
| `ConllReader.ScanLongestWord` | python/baseline/reader.py:124-126 | `maxw` is the length of the longest raw first field |
| `ConllReader.ScanChars` | python/baseline/reader.py:127-128 | `vocab_ch` counts every character of the raw first fields |
| `ConllReader.ScanWords` | python/baseline/reader.py:125 | `vocab_word` counts the cleaned first fields |
| `ConllReader.ScanClosedForm` | python/baseline/reader.py:112-128 | scanning a file equals the closed-form totals |
| `ConllReader.ScanFile` | python/baseline/reader.py:112-128 | the per-line loop over a file computes the closed-form totals |
| `ConllReader.BuildVocab` | python/baseline/reader.py:101-130 | `maxs`, `maxw`, `vocab_ch`, `vocab_word` equal their closed forms over all present files |
| `ConllReader.MaxLenIsMaximum` | python/baseline/reader.py:126 | `maxw` bounds every first field's length and is reached by one of them |
| `ConllReader.CharCounts` | python/baseline/reader.py:127-128 | `vocab_ch[c]` is the number of occurrences of `c`, and the counts total the characters of all first fields |
| `ConllReader.OpenSentenceIgnored` | python/baseline/reader.py:117-123 | tokens after the last blank line do not change `maxs` |
| `ConllReader.LongestBoundsClosed` | python/baseline/reader.py:117-119 | every sentence closed by a blank line is at most `maxs` |
| `ConllReader.LongestMonotone` | python/baseline/reader.py:118 | `maxs` never decreases as lines are read |
| `ConllReader.FilesLongestBounds` | python/baseline/reader.py:108-119 | `maxs` over all files bounds each file's sentences |
| `ConllReader.Read` | python/baseline/reader.py:133-154 | `len(txts) == len(lbls)`, and each sentence has as many labels as tokens |
| `ConllReader.ReadLines` | python/baseline/reader.py:133-154 | the append-and-reset loop computes the closed-form reading |
| `ConllReader.ReadCount` | python/baseline/reader.py:147-149 | one sentence per line with at most one field, empty sentences included |
| `ConllReader.ReadTokens` | python/baseline/reader.py:144-146 | the sentences and the open tail hold every first field and every last field, in order |
| `ConllReader.ReadDropsOpenSentence` | python/baseline/reader.py:144-154 | tokens after the last flush are not returned |
| `ConllReader.EmptySentence` | python/baseline/reader.py:147-151 | two flushing lines in a row produce an empty sentence |
| `ConllReader.BlankEndsSentence` | python/baseline/reader.py:142-147 | a blank line flushes the sentence |
| `ConllReader.NewLabelsMembers` | python/baseline/reader.py:183-185 | the labels registered are exactly those seen and not already in `f2i` |
| `ConllReader.Register` | python/baseline/reader.py:183-185 | the CoNLL label numbering: an unseen label gets the next value of the counter, from `idx + 1`; its properties are proved in `RegisterKeepsExisting`, `RegisterKeys`, `RegisterNumbering` |
| `ConllReader.RegisterKeepsExisting` | python/baseline/reader.py:183-185 | existing labels keep their ids |
| `ConllReader.RegisterKeys` | python/baseline/reader.py:183-185 | afterwards `f2i` holds the old labels and the ones seen |
| `ConllReader.RegisterNumbering` | python/baseline/reader.py:183-185 | new labels get `idx + 1, idx + 2, ...` in order of first appearance, from a counter that starts at 0 |
| `ConllReader.LabelIdCollision` | python/baseline/reader.py:183-185 | with `{"O": 1}` given, a new label also gets id 1: the counter ignores existing ids |
| `ConllReader.RegisterAppend` | python/baseline/reader.py:163-185 | registering two label lists in turn equals registering their concatenation |
| `ConllReader.RegisterPrefix` | python/baseline/reader.py:163-187 | ids given while reading a prefix of the sentences are final |
| `ConllReader.FillRow` | python/baseline/reader.py:189-190 | writes `chars_vocab.get(w[k], 0)` for `k < min(len(w), maxw)` in row `j` and changes no other row |
| `ConllReader.WriteWord` | python/baseline/reader.py:187-190 | writes word `j`'s id, tag and character row and nothing else |
| `ConllReader.WriteWords` | python/baseline/reader.py:172-190 | the word loop registers the labels of the first `min(len(v), mxlen)` words and fills the three arrays in closed form, failing (TypeError) on a word missing from `words_vocab` |
| `ConllReader.EncodeSentence` | python/baseline/reader.py:165-192 | one sentence encodes exactly when its shown words are in the vocabulary, and fails with TypeError otherwise; `length = min(len(v), mxlen)`, ids and tags for `j < length`, zeros elsewhere |
| `ConllReader.EncodeAll` | python/baseline/reader.py:163-195 | succeeds exactly when every sentence encodes, and fails with TypeError otherwise; one example per sentence, the returned `f2i` registering the shown labels in order |
| `ConllReader.Load` | python/baseline/reader.py:157-195 | `load` of a file succeeds exactly when every sentence of `read_lines` encodes, and fails with TypeError otherwise; one example per sentence, returned with the extended `f2i` and the token lists |
| `SeqLabelReader.SplitsTokens` | python/baseline/reader.py:211-212 | `splits` returns non-empty, whitespace-free tokens that are together the text's non-whitespace characters |
| `SeqLabelReader.Splits` | python/baseline/reader.py:211-212 | `splits(text)`: every token is non-empty and free of whitespace |
| `SeqLabelReader.SplitsJoin` | python/baseline/reader.py:211-212 | `splits` undoes joining clean tokens with spaces |
| `SeqLabelReader.ReplacementsSpaceOnly` | python/baseline/reader.py:200-208 | every `REPLACE` entry only adds spaces around an allowed pattern |
| `SeqLabelReader.Sanitize` | python/baseline/reader.py:216 | the character-class substitution of `do_clean`, one output character per input character; its meaning is proved in `SanitizeKeeps` |
| `SeqLabelReader.ReplaceAll` | python/baseline/reader.py:217-218 | the `REPLACE` loop, one `replace` per entry in insertion order; its meaning is proved in `ReplaceAllKeeps` |
| `SeqLabelReader.DoClean` | python/baseline/reader.py:215-219 | `do_clean(l)`: substitution, the `REPLACE` loop, then `strip()`; its meaning is proved in `DoCleanMeaning` |
| `SeqLabelReader.SanitizeKeeps` | python/baseline/reader.py:216 | the character-class substitution keeps the allowed characters and turns the rest into spaces |
| `SeqLabelReader.ReplaceAllKeeps` | python/baseline/reader.py:217-218 | the `REPLACE` loop keeps a clean string clean and changes only its spacing |
| `SeqLabelReader.StripClean` | python/baseline/reader.py:219 | on a clean string `strip()` removes spaces only |
| `SeqLabelReader.CleanPipeline` | python/baseline/reader.py:217-219 | after the character-class step, the `REPLACE` loop and `strip()` give a stripped string of allowed characters and spaces with the same non-space characters |
| `SeqLabelReader.DoCleanMeaning` | python/baseline/reader.py:215-219 | `do_clean` returns a stripped string of allowed characters and spaces whose non-space characters are exactly the input's allowed ones, in order |
| `SeqLabelReader.LabelBody` | python/baseline/reader.py:223-225 | the label and the remaining pieces are whitespace-free and together are the line without its whitespace |
| `SeqLabelReader.LabelAndSentence` | python/baseline/reader.py:222-232 | `label_and_sentence`: the pair of `Label` and `Sentence`; what the pair holds is proved in `LabelAndSentenceText` |
| `SeqLabelReader.Label` | python/baseline/reader.py:223-224 | the label, the first piece of the `[\t\s]+` split, holds no whitespace |
| `SeqLabelReader.Sentence` | python/baseline/reader.py:225-231 | the text after the label: the pieces (as characters when `chars`), cleaned when `clean`, joined by spaces with double spaces collapsed; its content is proved in `LabelAndSentenceText` |
| `SeqLabelReader.WordsContent` | python/baseline/reader.py:226-227 | spelling the text out as characters adds only spaces |
| `SeqLabelReader.JoinedText` | python/baseline/reader.py:229-231 | joining with spaces and collapsing double spaces changes only whitespace |
| `SeqLabelReader.ConcatKept` | python/baseline/reader.py:229 | words each cleaned to their allowed lower-cased characters (whitespace aside) spell, together, the allowed lower-cased characters of the words joined |
| `SeqLabelReader.CleanWordsContent` | python/baseline/reader.py:229 | the cleaned words hold, whitespace aside, exactly the allowed characters of the lower-cased words |
| `SeqLabelReader.LabelAndSentenceText` | python/baseline/reader.py:222-232 | the label is whitespace-free; label and text hold the line's non-whitespace characters, the text's being all of them or, with `clean`, exactly the allowed ones after lower-casing |
| `SeqLabelReader.CountFile` | python/baseline/reader.py:241-244 | a file adds the `splits` tokens of every line's text |
| `SeqLabelReader.BuildVocab` | python/baseline/reader.py:235-245 | the counter of all tokens of all present files; `None` files skipped |
| `SeqLabelReader.FilesTokensClean` | python/baseline/reader.py:242-244 | every counted token is non-empty and whitespace-free |
| `SeqLabelReader.BuildVocabCounts` | python/baseline/reader.py:236-245 | each token's count is its number of occurrences, and no empty or whitespace-holding key is ever counted |
| `SeqLabelReader.EncodeTokens` | python/baseline/reader.py:266-270 | the write loop succeeds exactly when every token's slot `j + halffiltsz` is inside `mxlen`, writing the specified vector; IndexError otherwise |
| `SeqLabelReader.RegisterLabel` | python/baseline/reader.py:258-262 | a label not yet in `f2i` gets the next id and `label_idx` moves on; `y` is the label's id either way |
| `SeqLabelReader.EncodeText` | python/baseline/reader.py:263-270 | the vector of a line's text is built exactly when its kept tokens fit, and is then the specified one; IndexError otherwise |
| `SeqLabelReader.LoadNext` | python/baseline/reader.py:256-271 | one pass of the line loop fails exactly when its line overruns, and otherwise extends the registered labels, the fitting prefix and the examples by that line |
| `SeqLabelReader.ExamplesStep` | python/baseline/reader.py:257-271 | the example appended for a line carries the id the label keeps to the end, so the examples stay those of the final `f2i` |
| `SeqLabelReader.LoadLines` | python/baseline/reader.py:256-271 | the line loop succeeds exactly when every line fits, returning the specified examples and label map |
| `SeqLabelReader.Load` | python/baseline/reader.py:248-272 | KeyError without `<PADDING>`; otherwise succeeds exactly when every line fits and fails only with IndexError (a line's tokens overrun `mxlen`), with one example per line whose label id is final and whose vector is specified |
| `SeqLabelReader.AddLabel` | python/baseline/reader.py:258-260 | one label registered: an unseen label gets `len(f2i)`, a known one changes nothing |
| `SeqLabelReader.AddLabels` | python/baseline/reader.py:256-260 | `f2i` after the labels of the lines, in order; its properties are proved in `AddLabelsAppend`, `AddLabelsKeeps`, `AddLabelsKeys`, `AddLabelsDense`, `NewLabelId` |
| `SeqLabelReader.AddLabelsAppend` | python/baseline/reader.py:258-260 | registering two label lists in turn equals registering their concatenation |
| `SeqLabelReader.AddLabelsKeeps` | python/baseline/reader.py:258-260 | existing labels keep their ids |
| `SeqLabelReader.AddLabelsKeys` | python/baseline/reader.py:258-260 | afterwards `f2i` holds the old labels and the ones seen |
| `SeqLabelReader.AddLabelsDense` | python/baseline/reader.py:253-260 | when `f2i` numbers its labels `0 .. len(f2i)-1`, it still does after loading |
| `SeqLabelReader.NewLabelId` | python/baseline/reader.py:253-260 | a new label gets the current size of `f2i` as its id and keeps it |
| `SeqLabelReader.ZeroMargins` | python/baseline/reader.py:251-270 | when `2*(mxfiltsz//2) <= mxlen`, at most `nozplen` tokens are kept, from the front; they are written from `halffiltsz` on, unknown words as `PAD`; both margins stay 0 |
| `SeqLabelReader.NegativeLengthDropsFromEnd` | python/baseline/reader.py:252-265 | when `nozplen` is negative, the slice drops tokens from the end |
| `EarlyStopping.LastImproved` | python/baseline/tf/lm/train.py:143-145 | `last_improved` after `n > 0` epochs is an earlier epoch |
| `EarlyStopping.RunLength` | python/baseline/tf/lm/train.py:131-152 | the number of epochs run lies between the start and the planned count |
| `EarlyStopping.RunEpochs` | python/baseline/tf/lm/train.py:128-152 | the epoch loop runs the specified number of epochs, emits the specified events, and ends with the running best and `last_improved` (or the start values without early stopping) |
| `EarlyStopping.RunEpoch` | python/baseline/tf/lm/train.py:133-152 | one epoch: train, validate, then checkpoint and save on improvement (always without early stopping) or stop once the patience is exceeded |
| `EarlyStopping.BestIsExtreme` | python/baseline/tf/lm/train.py:143-145 | the running best is the start value or a seen metric, and no seen value improves on it |
| `EarlyStopping.BeatsIffBetterThanBest` | python/baseline/tf/classify/train.py:117-119 | beating the running best is the same as beating the start value and every earlier epoch |
| `EarlyStopping.BestMonotone` | python/baseline/tf/lm/train.py:143-145 | `min_metric` never increases and `max_metric` never decreases |
| `EarlyStopping.LastImprovedLatest` | python/baseline/tf/lm/train.py:143-145 | `last_improved` is the latest improving epoch, or 0 when none improved |
| `EarlyStopping.RestoredIsBest` | python/baseline/tf/lm/train.py:143-157 | when some epoch improved, the epoch `last_improved` names holds the best metric |
| `EarlyStopping.RunLengthMeans` | python/baseline/tf/lm/train.py:131-152 | the loop ends early only at an epoch that stops, no earlier epoch stops, and without early stopping all planned epochs run |
| `EarlyStopping.ImprovingNeverStops` | python/baseline/tf/lm/train.py:143-152 | an improving epoch checkpoints and never stops, whatever the patience |
| `EarlyStopping.CheckpointedIff` | python/baseline/tf/classify/train.py:113-122 | an epoch checkpoints exactly when it runs and early stopping is off or it improves |
| `EarlyStopping.StoppedIff` | python/baseline/tf/classify/train.py:124-126 | an epoch stops exactly when it runs, does not improve, and is more than `patience` epochs past `last_improved` |
| `EarlyStopping.SavedWithCheckpoint` | python/baseline/tf/lm/train.py:147-148 | every checkpoint is followed by saving the model file |
| `EarlyStopping.TestedNotInTrace` | python/baseline/tf/lm/train.py:131-152 | the epoch loop neither restores nor tests |
| `EarlyStopping.WithFinalTest` | python/baseline/tf/lm/train.py:156-158 | after the final restore and test, the checkpoints are unchanged and the test runs once with a test set and never without |
| `LmTrain.LanguageModelTrainer.constructor` | python/baseline/tf/lm/train.py:9-13 | a new trainer has counted no validation passes |
| `LmTrain.LanguageModelTrainer.Train` | python/baseline/tf/lm/train.py:23-64 | `n/500 + 1` reports: one after each 500th batch with the average so far, and one at the end with the overall average; ZeroDivisionError exactly when there are no batches |
| `LmTrain.LanguageModelTrainer.Test` | python/baseline/tf/lm/train.py:66-103 | a `'Valid'` pass adds exactly 1 to `valid_epochs` and reports it; other phases leave it and report 0; ZeroDivisionError exactly when there are no batches, after the count |
| `LmTrain.Fit` | python/baseline/tf/lm/train.py:106-158 | the minimum tracked from 10000; checkpoints exactly at improving epochs (all without early stopping); at most `epochs` epochs; then, given a test set, restore and exactly one test |
| `LmTrain.Defaults` | python/baseline/tf/lm/train.py:107-122 | defaults: 5 epochs, patience = epochs, early stopping on `avg_loss`, model file `./seq2seq-model-tf` |
| `LmTrain.NoEarlyStoppingCheckpointsAll` | python/baseline/tf/lm/train.py:131-141 | without early stopping every epoch checkpoints and saves the model file |
| `ClassifyTrain.Fit` | python/baseline/tf/classify/train.py:65-134 | the maximum tracked from 0; checkpoints exactly at improving epochs (all without early stopping); at most `epochs` epochs; then, given a test set, restore and exactly one test |
| `ClassifyTrain.Defaults` | python/baseline/tf/classify/train.py:89-95 | defaults: 20 epochs, patience = epochs, early stopping on `acc`, model file `./classifier-model-tf` |
| `ClassifyTrain.NonPositiveNeverCheckpoints` | python/baseline/tf/classify/train.py:105-117 | with early stopping, a metric at or below 0 never checkpoints |
| `ClassifyTrain.RestoresBest` | python/baseline/tf/classify/train.py:117-134 | when some epoch checkpointed, the last checkpoint is epoch `last_improved`, holding the highest metric, and no later epoch checkpointed |

## Left out

- File I/O (`codecs.open`, `num_lines`, UTF-8 decoding): every reader takes its files as sequences of lines.
- Text.Lower: ASCII only. It maps `A`-`Z` and leaves every other character alone, where Python's `lower()` also maps non-ASCII letters.
- Unicode: `\s` and `strip()` work on the ASCII whitespace set only.
- Regular expressions in general: only the three split shapes and the `[^A-Za-z0-9(),!?'\`]` substitution are modelled, as explicit functions.
- `REPLACE` is applied in the dictionary's insertion order (Python 3.7+). An older interpreter could apply the eight rules in another order.
- numpy dtypes and the `baseline.data.*Examples` wrappers: results are plain sequences of datatypes.
- Mutation of `f2i` on failure: the readers change the caller's `f2i` in place, even when a later line raises. The model returns the new map only on success, and a failure gives back nothing.
- SentencePairReader.Load, ConllReader.Load, SeqLabelReader.Load: `mxlen`, `maxw` and `mxfiltsz` are natural numbers. A negative `mxlen` or `maxw` makes `np.zeros` raise ValueError, and a negative `mxfiltsz` makes `halffiltsz` negative, so numpy's negative indexing writes from the end without raising; neither case is modelled. The default arguments of the label reader's `load` (`clean=False`, `chars=False`, `mxlen=1000`, `mxfiltsz=0`) are not modelled: callers pass every argument.
- SentencePairReader.EncodePair: requires non-empty source and target token lists. Its only caller passes `re.split` results, which are never empty.
- ConllReader.WriteWords: `ys[j]` is written before the `xs[j]` store raises TypeError. The partial arrays of a failed sentence are not returned, so this order is not visible in the model.
- `word_trans_fn` is a pure `string -> string` function. A callback with side effects or exceptions is not modelled.
- The TensorFlow graph code (`python/baseline/tf/tfy.py`), sessions, optimisers, savers and `model.save`: these are foreign calls. They appear only as events in the `fit` trace. `recover_last_checkpoint` is modelled as always finding a checkpoint. In the source, when `./tf-checkpoints` holds none (for example with `epochs <= 0`, or with early stopping when no epoch improves, on a fresh directory), `latest` is None and `"Reloading " + latest` raises TypeError. That depends on the file system and is not modelled.
- Loss and perplexity arithmetic: float division and `np.exp`. The trainer's average loss is an exact real, and perplexity is not modelled.
- Reporting callbacks, `ConfusionMatrix`, `ProgressBar` and printing: they only consume values. `Train` returns the rounds it reports, once each, and not once per callback.
- LmTrain.LanguageModelTrainer.Train, LmTrain.LanguageModelTrainer.Test: `nbptt` is a positive unroll length (`LmTrain.Unroll`). With `nbptt == 0` and at least one batch, numpy divides the scalar total by 0 and reports inf or nan without raising; that case is not modelled. An empty batch list still raises ZeroDivisionError, as the plain float `0.0 / 0` does.
- LmTrain.LanguageModelTrainer.Train: the reported `global_step` comes from the session, so a report carries the batch count instead.
- `valid_epochs` starts at 0 when the trainer is built. Its initialisation is in the base `Trainer` class, `baseline/train.py`, which is not part of this model.
- LmTrain.Fit, ClassifyTrain.Fit: take each epoch's validation metric as the input `ms[e]`. They do not look `early_stopping_metric` up in the metrics dictionary, so a missing metric name (KeyError) is not modelled. A failure of `train` or `test` inside `fit` is not modelled either.
- LmTrain.Fit, ClassifyTrain.Fit: treat an `outfile` given as `None` like an absent one. For the language model this is the source's behaviour. The classifier would instead pass `None` on to `model.save`.
- The classifier trainer's `_train`/`_test` (confusion-matrix metrics) are not part of this model. Only its `fit` loop is.
