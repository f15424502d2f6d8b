# Semantic parsing seq2seq: the integer bookkeeping, modelled in Dafny

`copy_of_semantic_parsing_stencil.py` trains an attention encoder/decoder that
translates natural-language job queries into a query language. This project
models the parts of that program that are pure integer and sequence
bookkeeping. The neural mathematics around them stays abstract.

The modelled parts:

- **Input preparation.** Input sentences are reversed (lines 63-64). Each word
  is mapped to its vocabulary id, and unknown words go to `<UNK>`
  (lines 92-96). Every row is cut or padded to a fixed width (`pad`,
  lines 98-109). The query width is the floor of 1.5 times the longest
  training query, and the decoder horizon is one less (lines 107, 278).
- **Vocabularies.** A `collections.Counter` is filled from the training
  sentences. The input vocabulary numbers every word counted at least twice,
  in the Counter's key order, then `<UNK>` and `<PAD>` (lines 70-80). The query
  vocabulary enumerates every query word, then `<UNK>` and `<PAD>`
  (lines 84-90).
- **`Seq2SeqModel.generate`** (lines 230-275). The batch starts from `<s>`. The
  decoder is stepped at most `max_length` times. It is fed either the label
  column (teacher forcing) or its own argmax (greedy decoding). A sequence's
  `ended` flag goes up when it is fed `</s>`. The loop breaks after the first
  step at which every flag is up. In greedy mode the per-step columns are
  concatenated and transposed. The encoder, the decoder step and the argmax
  are abstract function-valued fields of the model class.
- **`evaluate`** (lines 332-385). It builds the attention mask and runs
  `generate` greedily. It cuts every predicted row after its first `</s>` in
  place, using a two-dimensional array. It counts the scored label tokens and
  the correctly predicted ones, sums both over the batches, and returns their
  ratio.

Modules, one file each:

- `Wrappers`: `Option`, `Result`.
- `Tokens`: reversal, encoding, padding, widths.
- `Tensors`: integer matrices and the element-wise tensor operations used.
- `Vocabulary`: the `Counter` class and the two vocabulary builders.
- `Decoding`: the `Seq2SeqModel` class and its `Generate` method.
- `Scoring`: masks, truncation, counting, `Evaluate`.

Each method is proved against a specification function:

- `Seq2SeqModel.Run` gives the decoding state after `n` steps.
- `Seq2SeqModel.Steps` gives the number of steps the loop runs.
- `TruncateRows` gives the cut prediction matrix.
- `BatchCounts` and `Score` give the per-batch and summed counts.

The lemmas then state what the program promises about those functions.

The `ended` flag goes up on the token actually fed back: the argmax in
greedy mode, the label column under teacher forcing (lines 257-268).
`Decoding.Seq2SeqModel.EndedIffEosFed` states this.

## Model

| member | source | states |
|---|---|---|
| Tokens.Reverse | copy_of_semantic_parsing_stencil.py:63-64 | `ls[::-1]` keeps the length; element `k` is element `n - 1 - k` of the sentence |
| Tokens.ReverseTwice | copy_of_semantic_parsing_stencil.py:63-64 | reversing twice gives back the sentence |
| Tokens.Encode | copy_of_semantic_parsing_stencil.py:92-96 | one id per word; a known word gets its vocabulary id, an unknown one the `<UNK>` id; every id is a vocabulary value |
| Tokens.EncodeReverse | copy_of_semantic_parsing_stencil.py:92-93 | encoding the reversed sentence is reversing the encoded sentence |
| Tokens.Pad | copy_of_semantic_parsing_stencil.py:98-101 | the result has exactly `max_len` elements; the first `min(len, max_len)` are the input's, the rest are the padding id |
| Tokens.PadIdempotent | copy_of_semantic_parsing_stencil.py:98-101 | padding a padded row to the same width changes nothing |
| Tokens.PadKeepsShortSequence | copy_of_semantic_parsing_stencil.py:98-101 | a row no longer than `max_len` is a prefix of its padded form |
| Tokens.PrepareInput | copy_of_semantic_parsing_stencil.py:103-105 | a prepared input row (reversed, encoded, padded) is exactly as wide as the input width |
| Tokens.MaxLen | copy_of_semantic_parsing_stencil.py:103 | the maximum length bounds every sequence and is attained by one |
| Tokens.PadToMaxKeepsTraining | copy_of_semantic_parsing_stencil.py:103-104 | padding a training row to the training maximum never truncates it |
| Tokens.QueryWidth | copy_of_semantic_parsing_stencil.py:107 | `int(longest * 1.5)` is the floor of 3/2 of the longest query: `2w <= 3·longest < 2w + 2` |
| Tokens.Bracket | copy_of_semantic_parsing_stencil.py:57 | a query becomes `<s>`, the query, `</s>` |
| Tokens.DecodeHorizon | copy_of_semantic_parsing_stencil.py:278 | the decoder horizon is below the query width, because the labels lose the leading `<s>`; it is non-negative exactly when the width is positive |
| Tokens.HorizonMatchesLabels | copy_of_semantic_parsing_stencil.py:278 | with bracketed, encoded queries, `max_length` is at least 2 and equals the width of every label row, so `labels[:, t]` is in range for every step |
| Vocabulary.Counter.constructor | copy_of_semantic_parsing_stencil.py:70 | an empty Counter has no keys and no counts |
| Vocabulary.Counter.Update | copy_of_semantic_parsing_stencil.py:71-72 | `update(words)` appends unseen words to the key order in first-seen order and adds to every count the word's occurrences |
| Vocabulary.Counter.Put | copy_of_semantic_parsing_stencil.py:87-88 | `counter[w] = c` sets the count; an unseen word goes to the end of the key order |
| Vocabulary.TallyMeaning | copy_of_semantic_parsing_stencil.py:70-72 | counting word by word keeps keys distinct and in first-seen order and each count equal to the old count plus the occurrences |
| Vocabulary.CountCorpus | copy_of_semantic_parsing_stencil.py:70-72 | the Counter over all training sentences lists every corpus word once, in first-seen order, with its number of occurrences |
| Vocabulary.Kept | copy_of_semantic_parsing_stencil.py:75-76 | the kept words are exactly the keys occurring at least twice, without repeats |
| Vocabulary.NumberFrequentWords | copy_of_semantic_parsing_stencil.py:74-77 | the loop over `input_vocab.items()` builds the dictionary that numbers each frequent word by the dictionary size on arrival |
| Vocabulary.NumberFrequentIsEnumerate | copy_of_semantic_parsing_stencil.py:74-77 | numbering frequent words by `len(input_word2idx)` is enumerating the list of frequent words |
| Vocabulary.BuildInputVocab | copy_of_semantic_parsing_stencil.py:70-80 | the input vocabulary has exactly `<UNK>`, `<PAD>` and the words occurring at least twice; ids are `0..n-1`, `<UNK>` is `n-2`, `<PAD>` is `n-1`; `input_idx2word` inverts it |
| Vocabulary.InputWordsMembers | copy_of_semantic_parsing_stencil.py:75-79 | a word has an input id exactly when it is reserved or occurs at least twice |
| Vocabulary.InputVocabIds | copy_of_semantic_parsing_stencil.py:78-80 | the input ids are one per word, `<UNK>` and `<PAD>` hold the last two, and the id-to-word dictionary is the inverse |
| Vocabulary.Invert | copy_of_semantic_parsing_stencil.py:80 | the inverted dictionary maps each value back to its key and nothing else |
| Vocabulary.EnumerateIsBijection | copy_of_semantic_parsing_stencil.py:89-90 | over distinct words, `enumerate` gives ids `0..n-1`, each once; `query_word2idx` and `query_idx2word` are mutual inverses |
| Vocabulary.BuildQueryVocab | copy_of_semantic_parsing_stencil.py:84-90 | the query vocabulary enumerates the Counter keys: query words in first-seen order, then `<UNK>` and `<PAD>` unless already present |
| Vocabulary.QueryVocabIsBijection | copy_of_semantic_parsing_stencil.py:84-90 | the words with query ids are `<UNK>`, `<PAD>` and every training query word; ids and words are in bijection |
| Vocabulary.ReservedQueryIds | copy_of_semantic_parsing_stencil.py:290-292 | when every training query is `Bracket` of its words, `<s>`, `</s>` and `<PAD>` have query ids, pairwise different |
| Vocabulary.EncodeRoundTrip | copy_of_semantic_parsing_stencil.py:92-96 | encoding with an enumerated vocabulary and reading back through the inverse gives each word, or `<UNK>` for unknown ones |
| Tensors.ZerosLike | copy_of_semantic_parsing_stencil.py:357 | `zeros_like` has the same shape and only zeros |
| Tensors.Assign | copy_of_semantic_parsing_stencil.py:358 | `m[sel] = v` overwrites exactly the selected entries and keeps the shape |
| Tensors.Zip | copy_of_semantic_parsing_stencil.py:370 | the element-wise comparison pairs prediction and label at each position |
| Tensors.Sum | copy_of_semantic_parsing_stencil.py:366 | `torch.sum` of a tensor without negative entries is not negative, so the summed counts are natural numbers |
| Tensors.SumOfIndicator | copy_of_semantic_parsing_stencil.py:366 | `torch.sum` of a 0/1 indicator tensor is the number of entries it marks |
| Tensors.Column | copy_of_semantic_parsing_stencil.py:250 | `labels[:, t]` holds entry `t` of every row |
| Tensors.Transpose | copy_of_semantic_parsing_stencil.py:272-273 | concatenating the step columns and transposing gives a batch-by-steps matrix with `[i][t]` = column `t`'s entry `i` |
| Tensors.DropFirst | copy_of_semantic_parsing_stencil.py:342 | `batch[1][1:]` removes the leading `<s>` position of every query row |
| Tensors.TakeColumns | copy_of_semantic_parsing_stencil.py:369 | `labels[:, :w]` keeps the first `w` positions of every row |
| Decoding.Seq2SeqModel.constructor | copy_of_semantic_parsing_stencil.py:225-228 | the model holds the given encoder, decoder and `max_length` |
| Decoding.Raised | copy_of_semantic_parsing_stencil.py:265-268 | after a step a raised flag stays up, and a lowered one goes up exactly when its sequence was fed `</s>` |
| Decoding.Seq2SeqModel.Chosen | copy_of_semantic_parsing_stencil.py:258 | `logit.max(1)` yields one token per sequence of the batch, the highest-scoring one of that sequence's scores |
| Decoding.Seq2SeqModel.Run | copy_of_semantic_parsing_stencil.py:237-269 | after `n` steps there is one fed token and one flag per sequence, and in greedy mode one kept column per step |
| Decoding.Seq2SeqModel.StopFrom | copy_of_semantic_parsing_stencil.py:247-269 | having run `n` steps, the loop stops between `n` and `max_length` |
| Decoding.Seq2SeqModel.Steps | copy_of_semantic_parsing_stencil.py:247-269 | the loop runs at most `max_length` steps, and at least one exactly when `max_length > 0` |
| Decoding.Seq2SeqModel.Output | copy_of_semantic_parsing_stencil.py:270-275 | training returns `[]`; greedy decoding fails (`torch.cat` of an empty list) exactly when `max_length` is 0, and otherwise returns one row per sequence |
| Decoding.Seq2SeqModel.Generate | copy_of_semantic_parsing_stencil.py:230-275 | the loop runs `Steps` iterations, never more than `max_length`, and returns the specified output: `[]` in training, the transposed columns in greedy mode, a failure when no step ran |
| Decoding.Seq2SeqModel.StepAgrees | copy_of_semantic_parsing_stencil.py:248-268 | one loop iteration takes the decoder step, feeds the argmax or the label column and raises the flags, as `Run` specifies |
| Decoding.Seq2SeqModel.StepsCharacterized | copy_of_semantic_parsing_stencil.py:247-269 | the loop runs at least one step when `max_length > 0`, at most `max_length`, no flag set is complete before the last step, and stopping early means every flag is up |
| Decoding.Seq2SeqModel.StopFromCharacterized | copy_of_semantic_parsing_stencil.py:247-269 | from step `n` on, the stop is the first step at which every flag is up, or the horizon |
| Decoding.Seq2SeqModel.GreedyOutputShape | copy_of_semantic_parsing_stencil.py:271-273 | every row of the greedy output has one column per step run |
| Decoding.Seq2SeqModel.GreedyOutputIsFed | copy_of_semantic_parsing_stencil.py:257-273 | entry `[i][t]` of the greedy output is the token fed back to sequence `i` at step `t` |
| Decoding.Seq2SeqModel.PredictionsAreFed | copy_of_semantic_parsing_stencil.py:258-260 | the column kept at step `t` is the token fed back by that step |
| Decoding.Seq2SeqModel.EndedMonotone | copy_of_semantic_parsing_stencil.py:265-268 | a raised `ended` flag stays up |
| Decoding.Seq2SeqModel.EndedIffEosFed | copy_of_semantic_parsing_stencil.py:264-268 | after `n` steps a flag is up exactly when its sequence was fed `</s>` at one of those steps |
| Decoding.Seq2SeqModel.TeacherForcingFeedsLabels | copy_of_semantic_parsing_stencil.py:261-262 | teacher forcing feeds step `t` the label column `t` |
| Decoding.Seq2SeqModel.TrainingEndedFromLabels | copy_of_semantic_parsing_stencil.py:261-268 | with teacher forcing a flag is up after `n` steps exactly when `</s>` is among the first `n` labels of its row |
| Decoding.TeacherForcingIgnoresDecoder | copy_of_semantic_parsing_stencil.py:261-268 | under teacher forcing, two models with the same horizon feed the same tokens and raise the same flags |
| Decoding.TeacherForcingSameSteps | copy_of_semantic_parsing_stencil.py:269 | hence they stop at the same step from any step on |
| Decoding.TeacherForcingSameStepCount | copy_of_semantic_parsing_stencil.py:247-269 | and `generate` in training runs the same number of steps whatever the decoder computes |
| Decoding.MarkEnded | copy_of_semantic_parsing_stencil.py:265-268 | the flag loop raises exactly the flags of sequences fed `</s>` and keeps raised flags up |
| Scoring.PadMask | copy_of_semantic_parsing_stencil.py:311-312 | the training mask has the inputs' shape and is 1 exactly at padding positions, 0 elsewhere |
| Scoring.MaskMarksPadding | copy_of_semantic_parsing_stencil.py:311-312 | on prepared input rows the mask is 1 exactly at the positions past the sentence's end, including a sentence longer than the width, which is cut and gets no 1 |
| Scoring.EvalMask | copy_of_semantic_parsing_stencil.py:343-344 | the evaluation mask as written is the complement of the training mask |
| Scoring.EvalMaskHidesWords | copy_of_semantic_parsing_stencil.py:343-344 | on the row `[w, pad]` the evaluation mask is `[1, 0]` where the training mask is `[0, 1]`, so attention skips the word and sees only padding |
| Scoring.FirstIndex | copy_of_semantic_parsing_stencil.py:350-353 | the first position of `</s>`, absent exactly when the row holds none |
| Scoring.TruncateRow | copy_of_semantic_parsing_stencil.py:350-353 | a row keeps its length; a position becomes padding exactly when `</s>` occurs strictly before it, otherwise it is kept |
| Scoring.TruncateIdempotent | copy_of_semantic_parsing_stencil.py:350-353 | cutting an already cut row changes nothing |
| Scoring.TruncateRows | copy_of_semantic_parsing_stencil.py:350-353 | every row of the batch is cut |
| Scoring.TruncateRowAt | copy_of_semantic_parsing_stencil.py:351-353 | the inner loop cuts row `i` of the array in place and leaves the other rows unchanged |
| Scoring.TruncateAfterEos | copy_of_semantic_parsing_stencil.py:350-353 | the in-place double loop leaves the array equal to the cut matrix |
| Scoring.CutPredictions | copy_of_semantic_parsing_stencil.py:350-353 | the generated matrix, cut in place as a tensor, comes back as the cut matrix |
| Scoring.TotalTokens | copy_of_semantic_parsing_stencil.py:357-360 | the sum of `total_tokens` is the number of label entries that are not `<PAD>`, `</s>` or `<s>` |
| Scoring.CorrectTokens | copy_of_semantic_parsing_stencil.py:368-371 | the sum of `correct_tokens` is the number of positions where the prediction equals a non-padding label |
| Scoring.CorrectCanExceedTotal | copy_of_semantic_parsing_stencil.py:357-373 | a predicted `</s>` matching its label counts as correct but not in the total, so `correct <= total` does not hold in general |
| Scoring.BatchCounts | copy_of_semantic_parsing_stencil.py:341-373 | a batch that fails does so with the empty prediction exactly when the horizon is positive, and otherwise with the `torch.cat` failure |
| Scoring.BatchOutcome | copy_of_semantic_parsing_stencil.py:341-373 | a batch fails exactly when the horizon is 0 or the batch is empty; otherwise its total is its number of scored label tokens |
| Scoring.EvaluateBatch | copy_of_semantic_parsing_stencil.py:341-373 | one iteration of the batch loop computes the specified per-batch counts or error |
| Scoring.Combine | copy_of_semantic_parsing_stencil.py:366-373 | `correct += …; total += …` adds both counts; the first failure is kept |
| Scoring.TotalAdditive | copy_of_semantic_parsing_stencil.py:337-373 | the counts of two runs of batches one after the other are the sums of their counts |
| Scoring.TotalOutcome | copy_of_semantic_parsing_stencil.py:340-373 | a run fails exactly when some batch fails, and then with the first failure |
| Scoring.FailureIsFinal | copy_of_semantic_parsing_stencil.py:340 | once a batch has failed, later batches change nothing |
| Scoring.TotalIsLabelTotal | copy_of_semantic_parsing_stencil.py:357-366 | a successful run's total counts the scored tokens of all labels, independent of the predictions and of how many steps were generated |
| Scoring.RunFails | copy_of_semantic_parsing_stencil.py:340-373 | a run over batches fails exactly when `max_length` is 0 or some batch is empty |
| Scoring.Accuracy | copy_of_semantic_parsing_stencil.py:385 | `correct / total` is defined exactly when `total > 0`, and then multiplies back to `correct` |
| Scoring.NextBatch | copy_of_semantic_parsing_stencil.py:340-373 | one turn of the batch loop: a failing batch is the outcome of the whole run, a successful one adds its counts to the running `correct` and `total` |
| Scoring.Evaluate | copy_of_semantic_parsing_stencil.py:332-385 | the loop over batches returns the summed counts `Score` or the first batch error, and their ratio |

## Left out

- The neural network itself is abstract: encoder, LSTM cells, attention,
  softmax, dropout and the argmax are function-valued fields of
  `Seq2SeqModel`. The losses (`nll_loss`, line 255) and back-propagation are
  not modelled because they are floating-point computations.
- Decoding.Seq2SeqModel.Generate: returns the predictions and the step count
  but not the loss.
- Downloading the corpus over FTP, line splitting, stemming and the regular
  expression tokenisation (lines 40-56, 58) are left out as I/O and foreign
  libraries. Sentences arrive as word lists. The bracketing of line 57 is
  modelled (`Tokens.Bracket`).
- The random train/test split (line 61) and the shuffling data loader
  (lines 115-139) are left out as randomness and library plumbing. Batches
  arrive as a sequence of row-major matrices, after the transposes of lines
  308-309 and 341-342.
- `train` (lines 295-330) is left out: the optimiser steps, the loss
  accumulation and the printing. Its mask (lines 311-312) is modelled as
  `PadMask`.
- The printing of five examples after evaluation (lines 375-383) is left out.
  As written, it raises when the last batch has fewer than five rows, and
  `inputs` is undefined when there are no batches.
- Tokens.QueryWidth: states `int(x * 1.5)` as the exact floor of 3/2. Binary
  floating point gives the same result for the lengths that occur, but that
  is not proved.
- Scoring.Accuracy: the tensor division of line 385 yields `nan`/`inf` when
  the total is 0; the model returns `None` instead. The ratio is an exact
  real, not a float.
- Scoring.Evaluate: with no batches at all, the source raises on the unset
  `inputs` of line 376; the model returns the zero counts and no ratio.
- Scoring.Evaluate: attends with the training-convention mask (`PadMask`),
  not the inverted mask of lines 343-344. The mask as written is modelled by
  `EvalMask` and reported under Findings. The choice is made in the two
  members whose counts `Evaluate` sums:
  - Scoring.BatchCounts: builds `PadMask` for the batch it specifies.
  - Scoring.EvaluateBatch: builds `PadMask` before calling `Generate`.
- Tokens.MaxLen: requires a non-empty list. `max([])` at line 103 raises on
  an empty training set, a case the model does not cover.
- Vocabulary.BuildInputVocab: requires that `<UNK>` and `<PAD>` are not
  corpus words. Input lines are lower-cased at line 46, so the upper-case
  reserved words never occur.
- Integers are unbounded. The source uses int64 tensors and Python integers,
  which do not overflow at these sizes.

## Findings

| source | as written | input that shows it | evidently intended | confidence | as-written member | corrected member |
|---|---|---|---|---|---|---|
| copy_of_semantic_parsing_stencil.py:343-344 | the evaluation mask sets 1 where the input is not padding; attention (line 198) fills the positions marked 1 with minus infinity | an input row `[w, pad]` with `w != pad` gets the mask `[1, 0]`, so the decoder attends only to the padding | `masks[inputs == INPUT_PAD_INDEX] = 1`, as in training (lines 311-312), giving `[0, 1]` | high; not executed | Scoring.EvalMaskHidesWords | Scoring.MaskMarksPadding |
