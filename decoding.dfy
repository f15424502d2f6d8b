/** The control skeleton of `Seq2SeqModel.generate`: the batch starts from the
    start-of-sequence id, the decoder is stepped at most `maxLength` times,
    the token fed back is the label (teacher forcing) or the decoder's choice
    (greedy decoding), per-sequence `ended` flags are raised on the
    end-of-sequence id, and the loop stops after the first step at which every
    flag is up. The encoder, the decoder step and the argmax over its scores
    are abstract functions; losses are not modelled. */
module Decoding {
  import opened Wrappers
  import opened Tensors

  /** `QUERY_SOS_INDEX`, `QUERY_EOS_INDEX` and `QUERY_PAD_INDEX`. */
  datatype QueryIds = QueryIds(sos: int, eos: int, pad: int)

  /** The decoding state after some steps: the decoder's hidden state, the
      tokens to feed at the next step (`y_t`), the `ended` flags and, in
      greedy mode, the chosen column of every step so far (`instr_pred`). */
  datatype Trace<S> = Trace(hidden: S, fed: seq<int>, ended: seq<bool>, columns: seq<seq<int>>)

  /** `torch.cat` of an empty list raises: greedy decoding with no step. */
  datatype GenerateError = NoStepToConcatenate

  /** The flags after a step that fed `y`: a flag is up when it was up or its
      sequence was fed the end-of-sequence id. */
  function Raised(ended: seq<bool>, y: seq<int>, eos: int): (r: seq<bool>)
    requires |ended| == |y|
    ensures |r| == |y|
    ensures forall k :: 0 <= k < |y| && ended[k] ==> r[k]
    ensures forall k :: 0 <= k < |y| && !ended[k] ==> (r[k] <==> y[k] == eos)
  {
    seq(|y|, k requires 0 <= k < |y| => ended[k] || y[k] == eos)
  }

  /** `ended.all()`. */
  predicate AllEnded(ended: seq<bool>)
  {
    forall i :: 0 <= i < |ended| ==> ended[i]
  }

  /** A sequence-to-sequence model: an encoder giving the context `C` and the
      first decoder state `S`, a decoder step giving the next state and the
      vocabulary scores `L`, the per-sequence argmax of the scores
      (`logit.max(1)`), and the decoding horizon `max_length`. */
  class Seq2SeqModel<C, S, L> {
    const encoder: Matrix -> (C, S)
    const decoder: (seq<int>, S, C, Matrix) -> (S, L)
    const argmax: (L, nat) -> int
    const maxLength: nat

    constructor (encoder: Matrix -> (C, S), decoder: (seq<int>, S, C, Matrix) -> (S, L),
                 argmax: (L, nat) -> int, maxLength: nat)
      ensures this.encoder == encoder && this.decoder == decoder
      ensures this.argmax == argmax && this.maxLength == maxLength
    {
      this.encoder := encoder;
      this.decoder := decoder;
      this.argmax := argmax;
      this.maxLength := maxLength;
    }

    /** One label row per sequence, each wide enough for `labels[:, t]` at
        every step `t < maxLength`. */
    predicate LabelsCover(inputs: Matrix, labels: Matrix)
    {
      |labels| == |inputs| && forall i :: 0 <= i < |labels| ==> maxLength <= |labels[i]|
    }

    /** `logit.max(1)`: the highest-scoring token of every sequence. */
    function Chosen(logit: L, batch: nat): (c: seq<int>)
      ensures |c| == batch
      ensures forall i :: 0 <= i < batch ==> c[i] == argmax(logit, i)
    {
      seq(batch, i requires 0 <= i < batch => argmax(logit, i))
    }

    /** The decoding state after `n` unconditional steps. */
    function Run(inputs: Matrix, labels: Matrix, masks: Matrix, test: bool, ids: QueryIds, n: nat): (tr: Trace<S>)
      requires LabelsCover(inputs, labels) && n <= maxLength
      ensures |tr.fed| == |inputs| && |tr.ended| == |inputs|
      ensures |tr.columns| == (if test then n else 0)
      ensures forall t :: 0 <= t < |tr.columns| ==> |tr.columns[t]| == |inputs|
      decreases n
    {
      if n == 0 then
        Trace(encoder(inputs).1, seq(|inputs|, _ => ids.sos), seq(|inputs|, _ => false), [])
      else
        var prev := Run(inputs, labels, masks, test, ids, n - 1);
        var (h, logit) := decoder(prev.fed, prev.hidden, encoder(inputs).0, masks);
        var chosen := Chosen(logit, |inputs|);
        var y := if test then chosen else Column(labels, n - 1);
        Trace(h, y, Raised(prev.ended, y, ids.eos), if test then prev.columns + [chosen] else prev.columns)
    }

    /** The tokens fed back by step `t` (counting from 0). */
    function FedAt(inputs: Matrix, labels: Matrix, masks: Matrix, test: bool, ids: QueryIds, t: nat): seq<int>
      requires LabelsCover(inputs, labels) && t < maxLength
    {
      Run(inputs, labels, masks, test, ids, t + 1).fed
    }

    /** The number of steps the loop runs when it has run `n` and goes on
        until the horizon or until every flag is up. */
    function StopFrom(inputs: Matrix, labels: Matrix, masks: Matrix, test: bool, ids: QueryIds, n: nat): (s: nat)
      requires LabelsCover(inputs, labels) && 1 <= n <= maxLength
      ensures n <= s <= maxLength
      decreases maxLength - n
    {
      if n == maxLength || AllEnded(Run(inputs, labels, masks, test, ids, n).ended) then n
      else StopFrom(inputs, labels, masks, test, ids, n + 1)
    }

    /** The number of steps `generate` runs. */
    function Steps(inputs: Matrix, labels: Matrix, masks: Matrix, test: bool, ids: QueryIds): (s: nat)
      requires LabelsCover(inputs, labels)
      ensures s <= maxLength
      ensures 1 <= s <==> 0 < maxLength
    {
      if maxLength == 0 then 0 else StopFrom(inputs, labels, masks, test, ids, 1)
    }

    /** What `generate` returns besides the loss: nothing (an empty list) in
        training mode, otherwise the batch-by-steps matrix of chosen tokens,
        which `torch.cat` cannot build when no step ran. */
    function Output(inputs: Matrix, labels: Matrix, masks: Matrix, test: bool, ids: QueryIds)
      : (r: Result<Matrix, GenerateError>)
      requires LabelsCover(inputs, labels)
      ensures !test ==> r == Success([])
      ensures r.Failure? <==> test && maxLength == 0
      ensures test && r.Success? ==> |r.value| == |inputs|
    {
      var steps := Steps(inputs, labels, masks, test, ids);
      if !test then Success([])
      else if steps == 0 then Failure(NoStepToConcatenate)
      else Success(Transpose(Run(inputs, labels, masks, test, ids, steps).columns, |inputs|))
    }

    /** One step of the loop, as `Run` takes it: from the state after `t`
        steps, the decoder's new state and scores, the fed tokens `y` and the
        raised flags give the state after `t + 1` steps. */
    lemma StepAgrees(inputs: Matrix, labels: Matrix, masks: Matrix, test: bool, ids: QueryIds, t: nat,
                     h: S, y: seq<int>, ended: seq<bool>, columns: seq<seq<int>>)
      requires LabelsCover(inputs, labels) && t < maxLength
      requires Run(inputs, labels, masks, test, ids, t) == Trace(h, y, ended, columns)
      ensures var (h', logit) := decoder(y, h, encoder(inputs).0, masks);
        var chosen := Chosen(logit, |inputs|);
        var y' := if test then chosen else Column(labels, t);
        Run(inputs, labels, masks, test, ids, t + 1) ==
          Trace(h', y', Raised(ended, y', ids.eos), if test then columns + [chosen] else columns)
    {
    }

    /** Not stopping after step `t` leaves the step count to the later steps. */
    lemma StepsAdvance(inputs: Matrix, labels: Matrix, masks: Matrix, test: bool, ids: QueryIds, t: nat)
      requires LabelsCover(inputs, labels) && t < maxLength
      requires 0 < t ==> Steps(inputs, labels, masks, test, ids) == StopFrom(inputs, labels, masks, test, ids, t)
      requires 0 < t ==> !AllEnded(Run(inputs, labels, masks, test, ids, t).ended)
      ensures Steps(inputs, labels, masks, test, ids) == StopFrom(inputs, labels, masks, test, ids, t + 1)
    {
    }

    /** The loop stops after step `t` when that is the horizon or every flag
        is up. */
    lemma StepsAt(inputs: Matrix, labels: Matrix, masks: Matrix, test: bool, ids: QueryIds, t: nat)
      requires LabelsCover(inputs, labels) && t <= maxLength
      requires 0 < t ==> Steps(inputs, labels, masks, test, ids) == StopFrom(inputs, labels, masks, test, ids, t)
      requires t == maxLength || (0 < t && AllEnded(Run(inputs, labels, masks, test, ids, t).ended))
      ensures Steps(inputs, labels, masks, test, ids) == t
    {
    }

    /** In greedy mode the returned matrix has one column per step run. */
    lemma GreedyOutputShape(inputs: Matrix, labels: Matrix, masks: Matrix, ids: QueryIds)
      requires LabelsCover(inputs, labels)
      ensures var out := Output(inputs, labels, masks, true, ids);
        out.Success? ==> Rectangular(out.value, Steps(inputs, labels, masks, true, ids))
    {
    }

    /** In greedy mode with a positive horizon `generate` returns one row per
        sequence with one entry per step run, and entry `[i][t]` is the token
        the loop fed back to sequence `i` at step `t`. */
    lemma GreedyOutputIsFed(inputs: Matrix, labels: Matrix, masks: Matrix, ids: QueryIds)
      requires LabelsCover(inputs, labels) && 0 < maxLength
      ensures var out := Output(inputs, labels, masks, true, ids);
        var steps := Steps(inputs, labels, masks, true, ids);
        out.Success? && |out.value| == |inputs| && Rectangular(out.value, steps) &&
        forall i, t :: 0 <= i < |inputs| && 0 <= t < steps ==>
          out.value[i][t] == FedAt(inputs, labels, masks, true, ids, t)[i]
    {
      PredictionsAreFed(inputs, labels, masks, ids, Steps(inputs, labels, masks, true, ids));
    }

    /** `generate(inputs, labels, masks, device, test)` without the loss. */
    method Generate(inputs: Matrix, labels: Matrix, masks: Matrix, test: bool, ids: QueryIds)
      returns (predicted: Result<Matrix, GenerateError>, steps: nat)
      requires LabelsCover(inputs, labels)
      ensures steps == Steps(inputs, labels, masks, test, ids) && steps <= maxLength
      ensures predicted == Output(inputs, labels, masks, test, ids)
    {
      var batch := |inputs|;
      var ended := new bool[batch](_ => false);
      var y := seq(batch, _ => ids.sos);
      var (ctx, h) := encoder(inputs);
      var columns: seq<seq<int>> := [];
      var t := 0;
      assert ended[..] == seq(batch, _ => false);
      while t < maxLength
        invariant 0 <= t <= maxLength && ended.Length == batch
        invariant Run(inputs, labels, masks, test, ids, t) == Trace(h, y, ended[..], columns)
        invariant 0 < t ==> Steps(inputs, labels, masks, test, ids) == StopFrom(inputs, labels, masks, test, ids, t)
        invariant 0 < t ==> !AllEnded(ended[..])
        decreases maxLength - t
      {
        StepsAdvance(inputs, labels, masks, test, ids, t);
        StepAgrees(inputs, labels, masks, test, ids, t, h, y, ended[..], columns);
        var (h', logit) := decoder(y, h, ctx, masks);
        h := h';
        if test {
          y := Chosen(logit, batch);
          columns := columns + [y];
        } else {
          y := Column(labels, t);
        }
        MarkEnded(ended, y, ids.eos);
        t := t + 1;
        assert Run(inputs, labels, masks, test, ids, t).ended == ended[..];
        if forall k :: 0 <= k < batch ==> ended[k] {
          assert AllEnded(ended[..]);
          break;
        }
      }
      StepsAt(inputs, labels, masks, test, ids, t);
      steps := t;
      if !test {
        predicted := Success([]);
      } else if t == 0 {
        predicted := Failure(NoStepToConcatenate);
      } else {
        predicted := Success(Transpose(columns, batch));
      }
    }

    /** In greedy mode the column kept for step `t` is the token fed back by
        that step. */
    lemma {:induction false} PredictionsAreFed(inputs: Matrix, labels: Matrix, masks: Matrix, ids: QueryIds, n: nat)
      requires LabelsCover(inputs, labels) && n <= maxLength
      ensures forall t :: 0 <= t < n ==>
        Run(inputs, labels, masks, true, ids, n).columns[t] == FedAt(inputs, labels, masks, true, ids, t)
      decreases n
    {
      if n > 0 {
        PredictionsAreFed(inputs, labels, masks, ids, n - 1);
      }
    }

    /** A raised flag stays up. */
    lemma {:induction false} EndedMonotone(inputs: Matrix, labels: Matrix, masks: Matrix, test: bool, ids: QueryIds,
                                           m: nat, n: nat, i: nat)
      requires LabelsCover(inputs, labels) && m <= n <= maxLength && i < |inputs|
      requires Run(inputs, labels, masks, test, ids, m).ended[i]
      ensures Run(inputs, labels, masks, test, ids, n).ended[i]
      decreases n
    {
      if m < n {
        EndedMonotone(inputs, labels, masks, test, ids, m, n - 1, i);
      }
    }

    /** After `n` steps the flag of sequence `i` is up exactly when one of
        those steps fed it the end-of-sequence id. */
    lemma {:induction false} EndedIffEosFed(inputs: Matrix, labels: Matrix, masks: Matrix, test: bool, ids: QueryIds,
                                            n: nat, i: nat)
      requires LabelsCover(inputs, labels) && n <= maxLength && i < |inputs|
      ensures Run(inputs, labels, masks, test, ids, n).ended[i] <==>
        exists t :: 0 <= t < n && FedAt(inputs, labels, masks, test, ids, t)[i] == ids.eos
      decreases n
    {
      if n > 0 {
        EndedIffEosFed(inputs, labels, masks, test, ids, n - 1, i);
        if Run(inputs, labels, masks, test, ids, n).ended[i] {
          if !Run(inputs, labels, masks, test, ids, n - 1).ended[i] {
            assert FedAt(inputs, labels, masks, test, ids, n - 1)[i] == ids.eos;
          }
        } else {
          forall t | 0 <= t < n
            ensures FedAt(inputs, labels, masks, test, ids, t)[i] != ids.eos
          {
            if t < n - 1 {
              assert !Run(inputs, labels, masks, test, ids, n - 1).ended[i];
            }
          }
        }
      }
    }

    /** Teacher forcing feeds step `t` the label column `t`. */
    lemma TeacherForcingFeedsLabels(inputs: Matrix, labels: Matrix, masks: Matrix, ids: QueryIds, t: nat)
      requires LabelsCover(inputs, labels) && t < maxLength
      ensures var fed := FedAt(inputs, labels, masks, false, ids, t);
        |fed| == |inputs| && forall i :: 0 <= i < |inputs| ==> fed[i] == labels[i][t]
    {
    }

    /** With teacher forcing the flag of sequence `i` after `n` steps is up
        exactly when its labels hold the end-of-sequence id among the first
        `n`. */
    lemma {:induction false} TrainingEndedFromLabels(inputs: Matrix, labels: Matrix, masks: Matrix, ids: QueryIds,
                                                     n: nat, i: nat)
      requires LabelsCover(inputs, labels) && n <= maxLength && i < |inputs|
      ensures Run(inputs, labels, masks, false, ids, n).ended[i] <==> ids.eos in labels[i][..n]
      decreases n
    {
      if n > 0 {
        TrainingEndedFromLabels(inputs, labels, masks, ids, n - 1, i);
        assert labels[i][..n] == labels[i][..n - 1] + [labels[i][n - 1]];
      }
    }

    /** What the stop search promises from step `n` on. */
    lemma {:induction false} StopFromCharacterized(inputs: Matrix, labels: Matrix, masks: Matrix, test: bool,
                                                   ids: QueryIds, n: nat)
      requires LabelsCover(inputs, labels) && 1 <= n <= maxLength
      ensures var s := StopFrom(inputs, labels, masks, test, ids, n);
        (forall t :: n <= t < s ==> !AllEnded(Run(inputs, labels, masks, test, ids, t).ended)) &&
        (s < maxLength ==> AllEnded(Run(inputs, labels, masks, test, ids, s).ended))
      decreases maxLength - n
    {
      var stopped := AllEnded(Run(inputs, labels, masks, test, ids, n).ended);
      if !(n == maxLength || stopped) {
        StopFromCharacterized(inputs, labels, masks, test, ids, n + 1);
        var s := StopFrom(inputs, labels, masks, test, ids, n + 1);
        assert StopFrom(inputs, labels, masks, test, ids, n) == s;
        forall t | n <= t < s
          ensures !AllEnded(Run(inputs, labels, masks, test, ids, t).ended)
        {
          if t == n {
            assert !stopped;
          }
        }
      }
    }

    /** The loop runs at least one step when the horizon allows it, never
        more than the horizon, stops at the first step after which every flag
        is up, and otherwise runs to the horizon. */
    lemma StepsCharacterized(inputs: Matrix, labels: Matrix, masks: Matrix, test: bool, ids: QueryIds)
      requires LabelsCover(inputs, labels)
      ensures var s := Steps(inputs, labels, masks, test, ids);
        s <= maxLength && (0 < maxLength ==> 1 <= s) &&
        (forall t :: 1 <= t < s ==> !AllEnded(Run(inputs, labels, masks, test, ids, t).ended)) &&
        (s < maxLength ==> s == 0 || AllEnded(Run(inputs, labels, masks, test, ids, s).ended))
    {
      if 0 < maxLength {
        StopFromCharacterized(inputs, labels, masks, test, ids, 1);
      }
    }
  }

  /** Teacher forcing never looks at the decoder's scores: two models with
      the same horizon feed the same tokens, raise the same flags and run the
      same number of steps on the same labels. */
  lemma {:induction false} TeacherForcingIgnoresDecoder<C, S, L, C', S', L'>(
      a: Seq2SeqModel<C, S, L>, b: Seq2SeqModel<C', S', L'>,
      inputs: Matrix, labels: Matrix, masks: Matrix, ids: QueryIds, n: nat)
    requires a.maxLength == b.maxLength && a.LabelsCover(inputs, labels) && n <= a.maxLength
    ensures b.LabelsCover(inputs, labels)
    ensures a.Run(inputs, labels, masks, false, ids, n).fed == b.Run(inputs, labels, masks, false, ids, n).fed
    ensures a.Run(inputs, labels, masks, false, ids, n).ended == b.Run(inputs, labels, masks, false, ids, n).ended
    decreases n
  {
    if n > 0 {
      TeacherForcingIgnoresDecoder(a, b, inputs, labels, masks, ids, n - 1);
    }
  }

  /** Hence the two models also run the same number of steps. */
  lemma {:induction false} TeacherForcingSameSteps<C, S, L, C', S', L'>(
      a: Seq2SeqModel<C, S, L>, b: Seq2SeqModel<C', S', L'>,
      inputs: Matrix, labels: Matrix, masks: Matrix, ids: QueryIds, n: nat)
    requires a.maxLength == b.maxLength && a.LabelsCover(inputs, labels) && 1 <= n <= a.maxLength
    ensures b.LabelsCover(inputs, labels)
    ensures a.StopFrom(inputs, labels, masks, false, ids, n) == b.StopFrom(inputs, labels, masks, false, ids, n)
    decreases a.maxLength - n
  {
    TeacherForcingIgnoresDecoder(a, b, inputs, labels, masks, ids, n);
    if n < a.maxLength {
      TeacherForcingSameSteps(a, b, inputs, labels, masks, ids, n + 1);
    }
  }

  /** The step count of `generate` under teacher forcing is the same for
      any two models with the same horizon. */
  lemma TeacherForcingSameStepCount<C, S, L, C', S', L'>(
      a: Seq2SeqModel<C, S, L>, b: Seq2SeqModel<C', S', L'>,
      inputs: Matrix, labels: Matrix, masks: Matrix, ids: QueryIds)
    requires a.maxLength == b.maxLength && a.LabelsCover(inputs, labels)
    ensures b.LabelsCover(inputs, labels)
    ensures a.Steps(inputs, labels, masks, false, ids) == b.Steps(inputs, labels, masks, false, ids)
  {
    if 0 < a.maxLength {
      TeacherForcingSameSteps(a, b, inputs, labels, masks, ids, 1);
    }
  }

  /** Lines 265-268: raise the flag of every sequence whose fed token is the
      end-of-sequence id; raised flags stay up. */
  method MarkEnded(ended: array<bool>, y: seq<int>, eos: int)
    requires ended.Length == |y|
    modifies ended
    ensures ended[..] == Raised(old(ended[..]), y, eos)
  {
    var i := 0;
    while i < |y|
      invariant 0 <= i <= |y|
      invariant forall k :: 0 <= k < |y| ==> ended[k] == (old(ended[k]) || (k < i && y[k] == eos))
    {
      if y[i] == eos {
        ended[i] := true;
      }
      i := i + 1;
    }
  }
}
