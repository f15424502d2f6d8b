/** Sequence preparation: sentence reversal, word-to-id mapping, padding to a
    fixed width, and the widths the pipeline derives from the training data. */
module Tokens {

  /** Reserved words of the two vocabularies. */
  const UNK := "<UNK>"
  const PAD := "<PAD>"
  const SOS := "<s>"
  const EOS := "</s>"

  function Min(a: int, b: int): int { if a <= b then a else b }

  /** `ls[::-1]`: the input sentence read backwards. */
  function Reverse<T>(s: seq<T>): (r: seq<T>)
    ensures |r| == |s|
    ensures forall k :: 0 <= k < |s| ==> r[k] == s[|s| - 1 - k]
  {
    if s == [] then [] else Reverse(s[1..]) + [s[0]]
  }

  lemma ReverseTwice<T>(s: seq<T>)
    ensures Reverse(Reverse(s)) == s
  {
  }

  /** `pad(input_seq, max_len, pad_token_idx)`: cut the sequence to `width`
      elements, then fill it up to `width` with the padding id. */
  function Pad(s: seq<int>, width: nat, p: int): (r: seq<int>)
    ensures |r| == width
    ensures r[..Min(|s|, width)] == s[..Min(|s|, width)]
    ensures forall k :: Min(|s|, width) <= k < width ==> r[k] == p
  {
    var kept := s[..Min(|s|, width)];
    kept + seq(width - |kept|, _ => p)
  }

  /** Padding a padded sequence again to the same width changes nothing. */
  lemma {:induction false} PadIdempotent(s: seq<int>, width: nat, p: int)
    ensures Pad(Pad(s, width, p), width, p) == Pad(s, width, p)
  {
    var once := Pad(s, width, p);
    assert once[..Min(|once|, width)] == once;
  }

  /** A sequence no longer than the width survives padding intact. */
  lemma PadKeepsShortSequence(s: seq<int>, width: nat, p: int)
    requires |s| <= width
    ensures Pad(s, width, p)[..|s|] == s
  {
  }

  /** `vocab.get(w, vocab['<UNK>'])` for every word of a sentence. */
  function Encode(vocab: map<string, int>, words: seq<string>): (ids: seq<int>)
    requires UNK in vocab
    ensures |ids| == |words|
    ensures forall k :: 0 <= k < |words| ==> ids[k] in vocab.Values
    ensures forall k :: 0 <= k < |words| && words[k] in vocab ==> ids[k] == vocab[words[k]]
    ensures forall k :: 0 <= k < |words| && words[k] !in vocab ==> ids[k] == vocab[UNK]
  {
    seq(|words|, k requires 0 <= k < |words| =>
      if words[k] in vocab then vocab[words[k]] else vocab[UNK])
  }

  /** An input sentence as the model sees it: read backwards, mapped to ids
      and padded to the input width. */
  function PrepareInput(vocab: map<string, int>, sentence: seq<string>, width: nat): (row: seq<int>)
    requires UNK in vocab && PAD in vocab
    ensures |row| == width
  {
    Pad(Encode(vocab, Reverse(sentence)), width, vocab[PAD])
  }

  /** Mapping words to ids commutes with reversing the sentence. */
  lemma EncodeReverse(vocab: map<string, int>, words: seq<string>)
    requires UNK in vocab
    ensures Encode(vocab, Reverse(words)) == Reverse(Encode(vocab, words))
  {
  }

  /** `max([len(i) for i in seqs])`; `max` of an empty list raises. */
  function MaxLen<T>(seqs: seq<seq<T>>): (m: nat)
    requires |seqs| > 0
    ensures forall i :: 0 <= i < |seqs| ==> |seqs[i]| <= m
    ensures exists i :: 0 <= i < |seqs| && |seqs[i]| == m
  {
    if |seqs| == 1 then |seqs[0]|
    else
      var rest := MaxLen(seqs[1..]);
      if |seqs[0]| >= rest then |seqs[0]| else rest
  }

  /** `int(longest * 1.5)`: the query width, the floor of one and a half times
      the longest training query. */
  function QueryWidth(longest: nat): (w: nat)
    ensures 2 * w <= 3 * longest < 2 * w + 2
  {
    longest + longest / 2
  }

  /** `max_length = queries_max_target_len - 1`: the decoder horizon, one less
      than the query width because the labels drop the leading `<s>`. */
  function DecodeHorizon(queryWidth: nat): (h: int)
    ensures h < queryWidth
    ensures 0 <= h <==> 0 < queryWidth
  {
    queryWidth - 1
  }

  /** `["<s>"] + query + ["</s>"]`: every query is bracketed. */
  function Bracket(query: seq<string>): (q: seq<string>)
    ensures |q| == |query| + 2 && q[0] == SOS && q[|q| - 1] == EOS
    ensures q[1..|q| - 1] == query
  {
    [SOS] + query + [EOS]
  }

  /** Padding every training sequence to the training maximum never cuts one. */
  lemma PadToMaxKeepsTraining(corpus: seq<seq<int>>, i: nat, p: int)
    requires i < |corpus|
    ensures |Pad(corpus[i], MaxLen(corpus), p)| == MaxLen(corpus)
    ensures Pad(corpus[i], MaxLen(corpus), p)[..|corpus[i]|] == corpus[i]
  {
    PadKeepsShortSequence(corpus[i], MaxLen(corpus), p);
  }

  /** Every row of the labels (a padded query without its first column) is
      exactly as wide as the decoder horizon, and the horizon is at least two
      when every training query is bracketed and encoded (line 95), so
      `labels[:, t]` is in range for every step `t` the decoder runs. */
  lemma {:induction false} HorizonMatchesLabels(vocab: map<string, int>, raw: seq<seq<string>>,
                                                queries: seq<seq<int>>, padded: seq<int>, p: int)
    requires UNK in vocab && |queries| > 0 && |raw| == |queries|
    requires forall i :: 0 <= i < |queries| ==> queries[i] == Encode(vocab, Bracket(raw[i]))
    ensures var w := QueryWidth(MaxLen(queries));
      DecodeHorizon(w) >= 2 && |Pad(padded, w, p)[1..]| == DecodeHorizon(w)
  {
    var longest := MaxLen(queries);
    var i :| 0 <= i < |queries| && |queries[i]| == longest;
    assert |queries[i]| == |raw[i]| + 2;
  }
}
