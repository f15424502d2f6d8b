/** The bookkeeping of `evaluate`: the attention masks, cutting every
    prediction after its first end-of-sequence id, counting the scored label
    tokens and the correctly predicted ones per batch, summing both over the
    batches, and the final ratio. */
module Scoring {
  import opened Wrappers
  import opened Tokens
  import opened Tensors
  import opened Decoding

  /** `masks[inputs == INPUT_PAD_INDEX] = 1`: the attention step fills the
      scores of the positions marked 1 with minus infinity, so the mask marks
      the padding the decoder must not attend to. */
  function PadMask(inputs: Matrix, pad: int): (m: Matrix)
    ensures SameShape(m, inputs)
    ensures forall i, j :: 0 <= i < |m| && 0 <= j < |m[i]| ==> (m[i][j] == 1 <==> inputs[i][j] == pad)
    ensures forall i, j :: 0 <= i < |m| && 0 <= j < |m[i]| ==> (m[i][j] == 0 <==> inputs[i][j] != pad)
  {
    Assign(ZerosLike(inputs), inputs, x => x == pad, 1)
  }

  /** The mask of prepared input rows marks exactly the positions past the end
      of each sentence, when no sentence holds the padding word itself and
      no other word shares its id. A sentence longer than the width (a test
      sentence longer than every training one) is cut and gets no mark. */
  lemma MaskMarksPadding(vocab: map<string, int>, sentences: seq<seq<string>>, width: nat)
    requires UNK in vocab && PAD in vocab
    requires forall w :: w in vocab && w != PAD ==> vocab[w] != vocab[PAD]
    requires forall i :: 0 <= i < |sentences| ==> PAD !in sentences[i]
    ensures var inputs := seq(|sentences|, i requires 0 <= i < |sentences| => PrepareInput(vocab, sentences[i], width));
      var m := PadMask(inputs, vocab[PAD]);
      |m| == |sentences| && Rectangular(m, width) &&
      forall i, j :: 0 <= i < |m| && 0 <= j < width ==> m[i][j] == (if j < |sentences[i]| then 0 else 1)
  {
    assert UNK != PAD;
    var inputs := seq(|sentences|, i requires 0 <= i < |sentences| => PrepareInput(vocab, sentences[i], width));
    forall i, j | 0 <= i < |sentences| && 0 <= j < |sentences[i]| && j < width
      ensures inputs[i][j] != vocab[PAD]
    {
      var words := Reverse(sentences[i]);
      var e := Encode(vocab, words);
      assert words[j] == sentences[i][|sentences[i]| - 1 - j];
      assert words[j] != PAD;
      assert inputs[i][..Min(|e|, width)] == e[..Min(|e|, width)];
      assert inputs[i][j] == inputs[i][..Min(|e|, width)][j];
    }
  }

  /** Lines 343-344 as written: `masks[inputs != INPUT_PAD_INDEX] = 1`. */
  function EvalMask(inputs: Matrix, pad: int): (m: Matrix)
    ensures SameShape(m, inputs)
    ensures forall i, j :: 0 <= i < |m| && 0 <= j < |m[i]| ==> m[i][j] == 1 - PadMask(inputs, pad)[i][j]
  {
    Assign(ZerosLike(inputs), inputs, x => x != pad, 1)
  }

  /** At evaluation the decoder is told to skip every real word and to attend
      only to the padding. */
  lemma EvalMaskHidesWords(word: int, pad: int)
    requires word != pad
    ensures EvalMask([[word, pad]], pad) == [[1, 0]]
    ensures PadMask([[word, pad]], pad) == [[0, 1]]
  {
    var e := EvalMask([[word, pad]], pad);
    var m := PadMask([[word, pad]], pad);
    assert e[0] == [1, 0] && m[0] == [0, 1];
  }

  /** The first position of `x` in `s`, if any. */
  function FirstIndex(s: seq<int>, x: int): (r: Option<nat>)
    ensures r.None? <==> x !in s
    ensures r.Some? ==> r.value < |s| && s[r.value] == x && x !in s[..r.value]
  {
    if s == [] then None
    else if s[0] == x then Some(0)
    else match FirstIndex(s[1..], x)
      case None => None
      case Some(f) =>
        assert s[..f + 1] == [s[0]] + s[1..][..f];
        Some(f + 1)
  }

  /** `x` occurs before position `k` exactly when its first occurrence does. */
  lemma FirstIndexBefore(s: seq<int>, x: int, k: nat)
    requires k <= |s|
    ensures x in s[..k] <==> FirstIndex(s, x).Some? && FirstIndex(s, x).value < k
  {
    if x in s[..k] {
      var t :| 0 <= t < k && s[..k][t] == x;
      assert s[t] == x;
    }
  }

  /** Lines 350-353 on one row: every position after the first
      end-of-sequence id becomes padding; a row without one is kept. */
  function TruncateRow(row: seq<int>, eos: int, pad: int): (r: seq<int>)
    ensures |r| == |row|
    ensures forall k :: 0 <= k < |row| ==> r[k] == if eos in row[..k] then pad else row[k]
  {
    match FirstIndex(row, eos)
    case None => row
    case Some(f) =>
      var r := row[..f + 1] + seq(|row| - f - 1, _ => pad);
      assert forall k :: 0 <= k < |row| ==> (eos in row[..k] <==> f < k) by {
        forall k | 0 <= k < |row| {
          FirstIndexBefore(row, eos, k);
        }
      }
      r
  }

  /** Cutting twice cuts no more than cutting once. */
  lemma TruncateIdempotent(row: seq<int>, eos: int, pad: int)
    ensures TruncateRow(TruncateRow(row, eos, pad), eos, pad) == TruncateRow(row, eos, pad)
  {
    var once := TruncateRow(row, eos, pad);
    var f := FirstIndex(row, eos);
    forall k | 0 <= k <= |row|
      ensures eos in once[..k] <==> eos in row[..k]
    {
      FirstIndexBefore(row, eos, k);
      if f.Some? && f.value < k {
        FirstIndexBefore(row, eos, f.value);
        assert once[f.value] == eos;
        assert once[..k][f.value] == eos;
      } else {
        assert once[..k] == row[..k];
      }
    }
  }

  /** The cut applied to every row. */
  function TruncateRows(m: Matrix, eos: int, pad: int): (r: Matrix)
    ensures |r| == |m| && forall i :: 0 <= i < |m| ==> r[i] == TruncateRow(m[i], eos, pad)
  {
    seq(|m|, i requires 0 <= i < |m| => TruncateRow(m[i], eos, pad))
  }

  /** Row `i` of a two-dimensional array. */
  function Row(m: array2<int>, i: nat): (r: seq<int>)
    requires i < m.Length0
    reads m
    ensures |r| == m.Length1 && forall j :: 0 <= j < m.Length1 ==> r[j] == m[i, j]
  {
    seq(m.Length1, j requires 0 <= j < m.Length1 reads m => m[i, j])
  }

  /** The array as a matrix of its rows. */
  function Rows(m: array2<int>): (r: Matrix)
    reads m
    ensures |r| == m.Length0 && forall i :: 0 <= i < m.Length0 ==> r[i] == Row(m, i)
  {
    seq(m.Length0, i requires 0 <= i < m.Length0 reads m => Row(m, i))
  }

  /** The inner loop of lines 351-353 on row `i`: at the first
      end-of-sequence id, overwrite the rest of the row with padding. */
  method TruncateRowAt(m: array2<int>, i: nat, eos: int, pad: int)
    requires i < m.Length0
    modifies m
    ensures Row(m, i) == TruncateRow(old(Row(m, i)), eos, pad)
    ensures forall r :: 0 <= r < m.Length0 && r != i ==> Row(m, r) == old(Row(m, r))
  {
    ghost var orig := Row(m, i);
    ghost var first := FirstIndex(orig, eos);
    var j := 0;
    while j < m.Length1
      invariant 0 <= j <= m.Length1
      invariant forall k :: 0 <= k < m.Length1 ==>
        m[i, k] == if first.Some? && first.value < k && first.value < j then pad else orig[k]
      invariant forall r, k :: 0 <= r < m.Length0 && r != i && 0 <= k < m.Length1 ==> m[r, k] == old(m[r, k])
    {
      if m[i, j] == eos {
        assert first.Some? && first.value <= j by {
          if !(first.Some? && first.value < j) {
            assert orig[j] == eos;
            FirstIndexBefore(orig, eos, j + 1);
            assert orig[..j + 1][j] == eos;
          }
        }
        forall k | j + 1 <= k < m.Length1 {
          m[i, k] := pad;
        }
      } else if first.Some? && first.value == j {
        assert false;
      }
      j := j + 1;
    }
    forall k | 0 <= k < m.Length1
      ensures m[i, k] == TruncateRow(orig, eos, pad)[k]
    {
      FirstIndexBefore(orig, eos, k);
    }
  }

  /** Lines 350-353: cut every predicted row after its first
      end-of-sequence id, in place. */
  method TruncateAfterEos(m: array2<int>, eos: int, pad: int)
    modifies m
    ensures Rows(m) == TruncateRows(old(Rows(m)), eos, pad)
  {
    ghost var before := Rows(m);
    var i := 0;
    while i < m.Length0
      invariant 0 <= i <= m.Length0
      invariant forall r :: 0 <= r < i ==> Row(m, r) == TruncateRow(before[r], eos, pad)
      invariant forall r :: i <= r < m.Length0 ==> Row(m, r) == before[r]
    {
      TruncateRowAt(m, i, eos, pad);
      i := i + 1;
    }
  }

  /** A label token counts towards the total unless it is padding, the
      end-of-sequence id or the start-of-sequence id. */
  function Scored(ids: QueryIds): int -> bool
  {
    x => x != ids.pad && x != ids.eos && x != ids.sos
  }

  /** Lines 357-360: `total_tokens` marks the scored label tokens, and its
      sum is their number. */
  method TotalTokens(labels: Matrix, ids: QueryIds) returns (n: int)
    ensures n == Count(labels, Scored(ids))
  {
    var marked := Assign(ZerosLike(labels), labels, x => x != ids.pad, 1);
    var noEos := Assign(marked, labels, x => x == ids.eos, 0);
    var noSos := Assign(noEos, labels, x => x == ids.sos, 0);
    SumOfIndicator(noSos, labels, Scored(ids));
    n := Sum(noSos);
  }

  /** A predicted token is correct when it equals its label and the label is
      not padding. */
  function Matches(pad: int): ((int, int)) -> bool
  {
    (pr: (int, int)) => pr.0 == pr.1 && pr.1 != pad
  }

  /** Lines 368-371: `correct_tokens` marks the positions where the
      prediction equals the label, unmarks padded labels, and its sum is the
      number of correct tokens. */
  method CorrectTokens(pred: Matrix, labels: Matrix, pad: int) returns (n: int)
    requires SameShape(pred, labels)
    ensures n == Count(Zip(pred, labels), Matches(pad))
  {
    var pairs := Zip(pred, labels);
    var hit := Assign(ZerosLike(pred), pairs, (pr: (int, int)) => pr.0 == pr.1, 1);
    var scored := Assign(hit, labels, x => x == pad, 0);
    SumOfIndicator(scored, pairs, Matches(pad));
    n := Sum(scored);
  }

  /** A predicted end-of-sequence id that matches its label is counted as
      correct but is not among the scored tokens, so the correct count can
      exceed the total. */
  lemma CorrectCanExceedTotal(ids: QueryIds)
    requires ids.eos != ids.pad
    ensures Count(Zip([[ids.eos]], [[ids.eos]]), Matches(ids.pad)) == 1
    ensures Count([[ids.eos]], Scored(ids)) == 0
  {
    var pairs := Zip([[ids.eos]], [[ids.eos]]);
    assert pairs[0] == [(ids.eos, ids.eos)];
    assert pairs == [[(ids.eos, ids.eos)]];
    CountOne((ids.eos, ids.eos), Matches(ids.pad));
    CountOne(ids.eos, Scored(ids));
  }

  /** Counting over a one-entry matrix. */
  lemma CountOne<T>(x: T, p: T -> bool)
    ensures Count([[x]], p) == if p(x) then 1 else 0
  {
    var m := [[x]];
    assert m[..|m| - 1] == [] && m[|m| - 1] == [x];
    assert Count(m, p) == RowCount([x], p);
    assert [x][..0] == [];
  }

  /** Why `evaluate` gives up on a batch. */
  datatype EvalError =
    | GenerateFailed(cause: GenerateError)  // no decoding step to concatenate
    | EmptyPrediction                       // `instr_output[0]` of an empty batch

  /** A batch as the data loader yields it, one row per example: the prepared
      input ids and the padded query ids. */
  datatype Batch = Batch(inputs: Matrix, queries: Matrix)

  /** What the source needs of a batch: one query per input, each with a
      leading `<s>` to drop, and labels long enough for every decoding step. */
  predicate Fits<C, S, L>(model: Seq2SeqModel<C, S, L>, b: Batch)
  {
    |b.queries| == |b.inputs| &&
    (forall i :: 0 <= i < |b.queries| ==> 1 <= |b.queries[i]|) &&
    model.LabelsCover(b.inputs, DropFirst(b.queries))
  }

  /** The correct and total token counts of one batch (lines 341-373), with
      the padding mask of training (see EvalMask for the mask as written):
      generate greedily, cut each row after its first end-of-sequence id,
      count the positions whose prediction matches a label that is not
      padding among as many label columns as were generated, and count the
      scored label tokens. */
  function BatchCounts<C, S, L>(model: Seq2SeqModel<C, S, L>, b: Batch, inputPad: int, ids: QueryIds)
    : (r: Result<(nat, nat), EvalError>)
    requires Fits(model, b)
    ensures r.Failure? ==> (r.error == EmptyPrediction <==> 0 < model.maxLength)
  {
    var labels := DropFirst(b.queries);
    var out := model.Output(b.inputs, labels, PadMask(b.inputs, inputPad), true, ids);
    if out.Failure? then Failure(GenerateFailed(out.error))
    else if |out.value| == 0 then Failure(EmptyPrediction)
    else
      var pred := TruncateRows(out.value, ids.eos, ids.pad);
      Success((Count(Zip(pred, TakeColumns(labels, |pred[0]|)), Matches(ids.pad)), Count(labels, Scored(ids))))
  }

  /** A batch fails exactly when it is empty or the horizon is zero; the
      total it contributes is the number of its scored label tokens. */
  lemma BatchOutcome<C, S, L>(model: Seq2SeqModel<C, S, L>, b: Batch, inputPad: int, ids: QueryIds)
    requires Fits(model, b)
    ensures var r := BatchCounts(model, b, inputPad, ids);
      (r.Failure? <==> model.maxLength == 0 || |b.inputs| == 0) &&
      (r.Success? ==> r.value.1 == Count(DropFirst(b.queries), Scored(ids)))
  {
  }

  /** Adding up the counts of two runs; the first failure wins. */
  function Combine(a: Result<(nat, nat), EvalError>, b: Result<(nat, nat), EvalError>)
    : (r: Result<(nat, nat), EvalError>)
    ensures r.Success? <==> a.Success? && b.Success?
    ensures r.Success? ==> r.value == (a.value.0 + b.value.0, a.value.1 + b.value.1)
    ensures a.Failure? ==> r == a
  {
    match a
    case Failure(e) => Failure(e)
    case Success((c, t)) =>
      match b
      case Failure(e) => Failure(e)
      case Success((c', t')) => Success((c + c', t + t'))
  }

  /** The running `correct` and `total` after the per-batch outcomes, in
      order. */
  function Total(outcomes: seq<Result<(nat, nat), EvalError>>): Result<(nat, nat), EvalError>
  {
    if outcomes == [] then Success((0, 0))
    else Combine(Total(outcomes[..|outcomes| - 1]), outcomes[|outcomes| - 1])
  }

  /** One more successful outcome adds its counts. */
  lemma TotalAdd(done: seq<Result<(nat, nat), EvalError>>, outcome: Result<(nat, nat), EvalError>, correct: nat, total: nat)
    requires Total(done) == Success((correct, total)) && outcome.Success?
    ensures Total(done + [outcome]) == Success((correct + outcome.value.0, total + outcome.value.1))
  {
    assert (done + [outcome])[..|done|] == done;
  }

  /** A failing outcome after successful ones is the outcome of the run so
      far. */
  lemma TotalFails(done: seq<Result<(nat, nat), EvalError>>, outcome: Result<(nat, nat), EvalError>)
    requires Total(done).Success? && outcome.Failure?
    ensures Total(done + [outcome]) == outcome
  {
    assert (done + [outcome])[..|done|] == done;
  }

  /** Once the run so far has failed, the later batches change nothing. */
  lemma FailureIsFinal(outcomes: seq<Result<(nat, nat), EvalError>>, k: nat)
    requires k <= |outcomes| && Total(outcomes[..k]).Failure?
    ensures Total(outcomes) == Total(outcomes[..k])
  {
    assert outcomes[..k] + outcomes[k..] == outcomes;
    TotalAdditive(outcomes[..k], outcomes[k..]);
  }

  /** The counts are sums over the batches: two runs of batches one after
      the other add their counts. */
  lemma {:induction false} TotalAdditive(a: seq<Result<(nat, nat), EvalError>>, b: seq<Result<(nat, nat), EvalError>>)
    ensures Total(a + b) == Combine(Total(a), Total(b))
    decreases |b|
  {
    if b == [] {
      assert a + b == a;
    } else {
      var n := |b| - 1;
      var init := b[..n];
      assert (a + b)[..|a + b| - 1] == a + init;
      assert (a + b)[|a + b| - 1] == b[n];
      TotalAdditive(a, init);
      CombineAssociative(Total(a), Total(init), b[n]);
    }
  }

  /** Adding up counts does not depend on how the runs are grouped. */
  lemma CombineAssociative(x: Result<(nat, nat), EvalError>, y: Result<(nat, nat), EvalError>,
                           z: Result<(nat, nat), EvalError>)
    ensures Combine(Combine(x, y), z) == Combine(x, Combine(y, z))
  {
  }

  /** The run fails exactly when one batch fails, and then with the first
      failure; otherwise both counts are the sums over the batches. */
  lemma {:induction false} TotalOutcome(outcomes: seq<Result<(nat, nat), EvalError>>)
    ensures Total(outcomes).Failure? <==> exists k :: 0 <= k < |outcomes| && outcomes[k].Failure?
    ensures Total(outcomes).Failure? ==>
      exists k :: 0 <= k < |outcomes| && Total(outcomes) == outcomes[k] && (forall j :: 0 <= j < k ==> outcomes[j].Success?)
  {
    if outcomes != [] {
      var n := |outcomes| - 1;
      var init := outcomes[..n];
      TotalOutcome(init);
      assert Total(outcomes) == Combine(Total(init), outcomes[n]);
      if Total(init).Failure? {
        var k :| 0 <= k < n && Total(init) == init[k] && forall j :: 0 <= j < k ==> init[j].Success?;
        assert outcomes[k] == init[k];
      } else {
        forall j | 0 <= j < n
          ensures outcomes[j].Success?
        {
          assert outcomes[j] == init[j];
        }
      }
    }
  }

  /** The per-batch outcomes of a run. */
  function Outcomes<C, S, L>(model: Seq2SeqModel<C, S, L>, batches: seq<Batch>, inputPad: int, ids: QueryIds)
    : (r: seq<Result<(nat, nat), EvalError>>)
    requires forall k :: 0 <= k < |batches| ==> Fits(model, batches[k])
    ensures |r| == |batches|
  {
    seq(|batches|, k requires 0 <= k < |batches| => BatchCounts(model, batches[k], inputPad, ids))
  }

  /** The outcomes of a prefix of the batches are a prefix of the outcomes. */
  lemma OutcomesPrefix<C, S, L>(model: Seq2SeqModel<C, S, L>, batches: seq<Batch>, k: nat,
                                inputPad: int, ids: QueryIds)
    requires forall j :: 0 <= j < |batches| ==> Fits(model, batches[j])
    requires k <= |batches|
    ensures Outcomes(model, batches[..k], inputPad, ids) == Outcomes(model, batches, inputPad, ids)[..k]
  {
    var prefix := Outcomes(model, batches[..k], inputPad, ids);
    var all := Outcomes(model, batches, inputPad, ids);
    forall j | 0 <= j < k
      ensures prefix[j] == all[j]
    {
      assert batches[..k][j] == batches[j];
    }
  }

  /** What `evaluate` computes: the summed counts of all batches. */
  function Score<C, S, L>(model: Seq2SeqModel<C, S, L>, batches: seq<Batch>, inputPad: int, ids: QueryIds)
    : Result<(nat, nat), EvalError>
    requires forall k :: 0 <= k < |batches| ==> Fits(model, batches[k])
  {
    Total(Outcomes(model, batches, inputPad, ids))
  }

  /** The number of scored label tokens over the batches. */
  function LabelTotal(batches: seq<Batch>, ids: QueryIds): nat
    requires forall k :: 0 <= k < |batches| ==> forall i :: 0 <= i < |batches[k].queries| ==> 1 <= |batches[k].queries[i]|
  {
    if batches == [] then 0
    else
      var n := |batches| - 1;
      LabelTotal(batches[..n], ids) + Count(DropFirst(batches[n].queries), Scored(ids))
  }

  /** A successful run's total depends on the labels alone, never on what the
      model predicts. */
  lemma {:induction false} TotalIsLabelTotal<C, S, L>(model: Seq2SeqModel<C, S, L>, batches: seq<Batch>,
                                                      inputPad: int, ids: QueryIds)
    requires forall k :: 0 <= k < |batches| ==> Fits(model, batches[k])
    ensures var r := Score(model, batches, inputPad, ids);
      r.Success? ==> r.value.1 == LabelTotal(batches, ids)
  {
    if batches != [] {
      var n := |batches| - 1;
      var all := Outcomes(model, batches, inputPad, ids);
      OutcomesPrefix(model, batches, n, inputPad, ids);
      TotalIsLabelTotal(model, batches[..n], inputPad, ids);
      BatchOutcome(model, batches[n], inputPad, ids);
    }
  }

  /** A run over at least one batch fails exactly when the horizon is zero or
      some batch is empty. */
  lemma RunFails<C, S, L>(model: Seq2SeqModel<C, S, L>, batches: seq<Batch>, inputPad: int, ids: QueryIds)
    requires forall k :: 0 <= k < |batches| ==> Fits(model, batches[k])
    ensures Score(model, batches, inputPad, ids).Failure? <==>
      |batches| > 0 && (model.maxLength == 0 || exists k :: 0 <= k < |batches| && |batches[k].inputs| == 0)
  {
    var all := Outcomes(model, batches, inputPad, ids);
    TotalOutcome(all);
    forall k | 0 <= k < |batches|
      ensures all[k].Failure? <==> model.maxLength == 0 || |batches[k].inputs| == 0
    {
      BatchOutcome(model, batches[k], inputPad, ids);
    }
    if |batches| > 0 && model.maxLength == 0 {
      assert all[0].Failure?;
    }
  }

  /** `correct / total`: a tensor division, which gives no finite number
      when no label token was scored. */
  function Accuracy(correct: nat, total: nat): (r: Option<real>)
    ensures r.Some? <==> total > 0
    ensures r.Some? ==> r.value * total as real == correct as real
  {
    if total == 0 then None else Some(correct as real / total as real)
  }

  /** The generated matrix as a two-dimensional tensor. */
  method ToArray(m: Matrix, width: nat) returns (a: array2<int>)
    requires Rectangular(m, width)
    ensures fresh(a) && Rows(a) == m
  {
    a := new int[|m|, width]((i, j) requires 0 <= i < |m| && 0 <= j < width => m[i][j]);
    forall i | 0 <= i < |m|
      ensures Row(a, i) == m[i]
    {
    }
  }

  /** Lines 350-353 on the generated tensor. */
  method CutPredictions(generated: Matrix, steps: nat, ids: QueryIds) returns (pred: Matrix)
    requires Rectangular(generated, steps)
    ensures pred == TruncateRows(generated, ids.eos, ids.pad)
  {
    var out := ToArray(generated, steps);
    TruncateAfterEos(out, ids.eos, ids.pad);
    pred := Rows(out);
  }

  /** `evaluate(model, dataloader)` without the printing: the counts summed
      over the batches, and their ratio. */
  method Evaluate<C, S, L>(model: Seq2SeqModel<C, S, L>, batches: seq<Batch>, inputPad: int, ids: QueryIds)
    returns (counts: Result<(nat, nat), EvalError>, accuracy: Option<real>)
    requires forall k :: 0 <= k < |batches| ==> Fits(model, batches[k])
    ensures counts == Score(model, batches, inputPad, ids)
    ensures accuracy == if counts.Success? then Accuracy(counts.value.0, counts.value.1) else None
  {
    var correct, total := 0, 0;
    ghost var done: seq<Result<(nat, nat), EvalError>> := [];
    var k := 0;
    while k < |batches|
      invariant 0 <= k <= |batches|
      invariant done == Outcomes(model, batches, inputPad, ids)[..k]
      invariant Total(done).Success? && Total(done).value.0 == correct && Total(done).value.1 == total
    {
      var outcome := NextBatch(model, batches, k, inputPad, ids, done, correct, total);
      if outcome.Failure? {
        counts, accuracy := outcome, None;
        return;
      }
      var (hits, scored) := outcome.value;
      done := done + [outcome];
      correct, total := correct + hits, total + scored;
      k := k + 1;
    }
    assert Outcomes(model, batches, inputPad, ids)[..k] == Outcomes(model, batches, inputPad, ids);
    counts := Success((correct, total));
    accuracy := Accuracy(correct, total);
  }

  /** One turn of the batch loop of `evaluate`: the outcome of batch `k`,
      which either ends the run or adds its counts to those before it. */
  method NextBatch<C, S, L>(model: Seq2SeqModel<C, S, L>, batches: seq<Batch>, k: nat, inputPad: int, ids: QueryIds,
                            ghost done: seq<Result<(nat, nat), EvalError>>, correct: nat, total: nat)
    returns (outcome: Result<(nat, nat), EvalError>)
    requires forall j :: 0 <= j < |batches| ==> Fits(model, batches[j])
    requires k < |batches| && done == Outcomes(model, batches, inputPad, ids)[..k]
    requires Total(done).Success? && Total(done).value.0 == correct && Total(done).value.1 == total
    ensures outcome.Failure? ==> Score(model, batches, inputPad, ids) == outcome
    ensures outcome.Success? ==>
      done + [outcome] == Outcomes(model, batches, inputPad, ids)[..k + 1] &&
      Total(done + [outcome]).Success? &&
      Total(done + [outcome]).value.0 == correct + outcome.value.0 &&
      Total(done + [outcome]).value.1 == total + outcome.value.1
  {
    outcome := EvaluateBatch(model, batches[k], inputPad, ids);
    ScoreAdvances(model, batches, k, inputPad, ids, done, outcome, correct, total);
  }

  /** One turn of the batch loop: a failing batch is the outcome of the whole
      run, a successful one adds its counts to those of the batches before. */
  lemma ScoreAdvances<C, S, L>(model: Seq2SeqModel<C, S, L>, batches: seq<Batch>, k: nat, inputPad: int, ids: QueryIds,
                               done: seq<Result<(nat, nat), EvalError>>, outcome: Result<(nat, nat), EvalError>,
                               correct: nat, total: nat)
    requires forall j :: 0 <= j < |batches| ==> Fits(model, batches[j])
    requires k < |batches| && done == Outcomes(model, batches, inputPad, ids)[..k]
    requires Total(done).Success? && Total(done).value.0 == correct && Total(done).value.1 == total
    requires outcome == BatchCounts(model, batches[k], inputPad, ids)
    ensures outcome.Failure? ==> Score(model, batches, inputPad, ids) == outcome
    ensures outcome.Success? ==>
      done + [outcome] == Outcomes(model, batches, inputPad, ids)[..k + 1] &&
      Total(done + [outcome]).Success? &&
      Total(done + [outcome]).value.0 == correct + outcome.value.0 &&
      Total(done + [outcome]).value.1 == total + outcome.value.1
  {
    var all := Outcomes(model, batches, inputPad, ids);
    PrefixGrows(all, k);
    if outcome.Failure? {
      TotalFails(done, outcome);
      ScoreStopsAtFailure(model, batches, k, inputPad, ids, outcome);
    } else {
      assert Total(done) == Success((correct, total));
      TotalAdd(done, outcome, correct, total);
    }
  }

  /** A prefix one longer ends with the next element. */
  lemma PrefixGrows<T>(s: seq<T>, k: nat)
    requires k < |s|
    ensures s[..k + 1] == s[..k] + [s[k]]
  {
  }

  /** A failing batch after successful ones is the outcome of the whole run. */
  lemma ScoreStopsAtFailure<C, S, L>(model: Seq2SeqModel<C, S, L>, batches: seq<Batch>, k: nat,
                                     inputPad: int, ids: QueryIds, outcome: Result<(nat, nat), EvalError>)
    requires forall j :: 0 <= j < |batches| ==> Fits(model, batches[j])
    requires k < |batches| && Total(Outcomes(model, batches, inputPad, ids)[..k + 1]) == outcome && outcome.Failure?
    ensures Score(model, batches, inputPad, ids) == outcome
  {
    FailureIsFinal(Outcomes(model, batches, inputPad, ids), k + 1);
  }

  /** The body of the batch loop of `evaluate`: generate greedily, cut the
      predictions in place, count. */
  method EvaluateBatch<C, S, L>(model: Seq2SeqModel<C, S, L>, b: Batch, inputPad: int, ids: QueryIds)
    returns (outcome: Result<(nat, nat), EvalError>)
    requires Fits(model, b)
    ensures outcome == BatchCounts(model, b, inputPad, ids)
  {
    var labels := DropFirst(b.queries);
    var masks := PadMask(b.inputs, inputPad);
    var predicted, steps := model.Generate(b.inputs, labels, masks, true, ids);
    if predicted.Failure? {
      return Failure(GenerateFailed(predicted.error));
    }
    var pred := CutPredictions(predicted.value, steps, ids);
    var total := TotalTokens(labels, ids);
    if |pred| == 0 {
      return Failure(EmptyPrediction);
    }
    var correct := CorrectTokens(pred, TakeColumns(labels, |pred[0]|), ids.pad);
    outcome := Success((correct, total));
  }
}
