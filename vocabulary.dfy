/** Vocabulary construction: the word counter filled from the training
    sentences, the input vocabulary (frequent words plus `<UNK>` and `<PAD>`)
    and the query vocabulary (every query word, in first-seen order). */
module Vocabulary {
  import opened Tokens

  predicate Distinct(s: seq<string>)
  {
    forall i, j :: 0 <= i < j < |s| ==> s[i] != s[j]
  }

  /** All sentences of a corpus, one after the other. */
  function Flatten(corpus: seq<seq<string>>): seq<string>
  {
    if corpus == [] then [] else Flatten(corpus[..|corpus| - 1]) + corpus[|corpus| - 1]
  }

  /** How often `w` occurs in `words`. */
  function Occurrences(words: seq<string>, w: string): nat
  {
    if words == [] then 0
    else Occurrences(words[..|words| - 1], w) + if words[|words| - 1] == w then 1 else 0
  }

  lemma {:induction false} OccurrencesAppend(a: seq<string>, b: seq<string>, w: string)
    ensures Occurrences(a + b, w) == Occurrences(a, w) + Occurrences(b, w)
    decreases |b|
  {
    if b == [] {
      assert a + b == a;
    } else {
      var n := |b| - 1;
      assert (a + b)[..|a + b| - 1] == a + b[..n];
      OccurrencesAppend(a, b[..n], w);
    }
  }

  lemma {:induction false} OccursWhenPresent(words: seq<string>, w: string)
    ensures Occurrences(words, w) > 0 <==> w in words
  {
    if words != [] {
      var n := |words| - 1;
      OccursWhenPresent(words[..n], w);
      assert words == words[..n] + [words[n]];
    }
  }

  /** The count a Counter holding `counts` answers for `w`. */
  function CountIn(counts: map<string, nat>, w: string): nat
  {
    if w in counts then counts[w] else 0
  }

  lemma OccurrencesSnoc(words: seq<string>, k: nat)
    requires k < |words|
    ensures forall v ::
      Occurrences(words[..k + 1], v) == Occurrences(words[..k], v) + (if words[k] == v then 1 else 0)
  {
    assert words[..k + 1][..k] == words[..k];
  }

  /** The keys of an insertion-ordered dictionary after the words have been
      inserted one by one: unseen words are appended in order of first sight. */
  function Extend(keys: seq<string>, words: seq<string>): (r: seq<string>)
    ensures |keys| <= |r| && r[..|keys|] == keys
    ensures Distinct(keys) ==> Distinct(r)
  {
    if words == [] then keys
    else
      var r := Extend(keys, words[..|words| - 1]);
      var w := words[|words| - 1];
      assert words == words[..|words| - 1] + [w];
      if w in r then r else r + [w]
  }

  lemma {:induction false} ExtendMembers(keys: seq<string>, words: seq<string>, w: string)
    ensures w in Extend(keys, words) <==> w in keys || w in words
  {
    if words != [] {
      var n := |words| - 1;
      ExtendMembers(keys, words[..n], w);
      assert words == words[..n] + [words[n]];
    }
  }

  lemma ExtendSnoc(keys: seq<string>, words: seq<string>, k: nat)
    requires k < |words|
    ensures Extend(keys, words[..k + 1]) ==
      var r := Extend(keys, words[..k]);
      if words[k] in r then r else r + [words[k]]
  {
    assert words[..k + 1][..k] == words[..k];
  }

  lemma {:induction false} ExtendAppend(keys: seq<string>, a: seq<string>, b: seq<string>)
    ensures Extend(keys, a + b) == Extend(Extend(keys, a), b)
    decreases |b|
  {
    if b == [] {
      assert a + b == a;
    } else {
      var n := |b| - 1;
      assert (a + b)[..|a + b| - 1] == a + b[..n];
      ExtendAppend(keys, a, b[..n]);
    }
  }

  lemma FlattenSnoc(corpus: seq<seq<string>>, k: nat)
    requires k < |corpus|
    ensures Flatten(corpus[..k + 1]) == Flatten(corpus[..k]) + corpus[k]
  {
    assert corpus[..k + 1][..k] == corpus[..k];
  }

  /** The Counter's invariant: keys are listed once each, and the counted
      words are exactly the listed ones. */
  ghost predicate Consistent(keys: seq<string>, counts: map<string, nat>)
  {
    Distinct(keys) && (forall w :: w in counts ==> w in keys) && (forall i :: 0 <= i < |keys| ==> keys[i] in counts)
  }

  /** The Counter state after `update(words)` from the state `(keys, counts)`,
      one word at a time: `self[w] = self.get(w, 0) + 1`. */
  function Tally(keys: seq<string>, counts: map<string, nat>, words: seq<string>): (seq<string>, map<string, nat>)
  {
    if words == [] then (keys, counts)
    else
      var (ks, cs) := Tally(keys, counts, words[..|words| - 1]);
      var w := words[|words| - 1];
      (if w in cs then ks else ks + [w], cs[w := CountIn(cs, w) + 1])
  }

  lemma TallySnoc(keys: seq<string>, counts: map<string, nat>, words: seq<string>, k: nat)
    requires k < |words|
    ensures Tally(keys, counts, words[..k + 1]) ==
      var (ks, cs) := Tally(keys, counts, words[..k]);
      (if words[k] in cs then ks else ks + [words[k]], cs[words[k] := CountIn(cs, words[k]) + 1])
  {
    assert words[..k + 1][..k] == words[..k];
  }

  /** Counting keeps the Counter consistent, lists the keys in first-seen
      order and adds to each count the word's occurrences. */
  lemma {:induction false} TallyMeaning(keys: seq<string>, counts: map<string, nat>, words: seq<string>)
    requires Consistent(keys, counts)
    ensures Consistent(Tally(keys, counts, words).0, Tally(keys, counts, words).1)
    ensures Tally(keys, counts, words).0 == Extend(keys, words)
    ensures forall v :: CountIn(Tally(keys, counts, words).1, v) == CountIn(counts, v) + Occurrences(words, v)
  {
    if words != [] {
      var n := |words| - 1;
      TallyMeaning(keys, counts, words[..n]);
      var (ks, cs) := Tally(keys, counts, words[..n]);
      var w := words[n];
      assert words[..n + 1] == words;
      OccurrencesSnoc(words, n);
      ExtendSnoc(keys, words, n);
      TallyStepConsistent(ks, cs, w);
    }
  }

  lemma TallyStepConsistent(ks: seq<string>, cs: map<string, nat>, w: string)
    requires Consistent(ks, cs)
    ensures Consistent(if w in cs then ks else ks + [w], cs[w := CountIn(cs, w) + 1])
  {
  }

  /** `collections.Counter`: an insertion-ordered dictionary from words to
      counts that answers 0 for a word it has not seen. */
  class Counter {
    var keys: seq<string>
    var counts: map<string, nat>

    ghost predicate Valid()
      reads this
    {
      Consistent(keys, counts)
    }

    /** `counter[w]`. */
    function Get(w: string): nat
      reads this
    {
      CountIn(counts, w)
    }

    constructor ()
      ensures Valid() && keys == [] && counts == map[]
    {
      keys := [];
      counts := map[];
    }

    /** `counter.update(words)`: count every word, appending unseen words to
        the key order. */
    method Update(words: seq<string>)
      requires Valid()
      modifies this
      ensures Valid()
      ensures keys == Extend(old(keys), words)
      ensures forall w :: Get(w) == old(Get(w)) + Occurrences(words, w)
    {
      ghost var keys0, counts0 := keys, counts;
      var k := 0;
      while k < |words|
        invariant 0 <= k <= |words|
        invariant (keys, counts) == Tally(keys0, counts0, words[..k])
      {
        TallySnoc(keys0, counts0, words, k);
        var w := words[k];
        var seen := CountIn(counts, w);
        if w !in counts {
          keys := keys + [w];
        }
        counts := counts[w := seen + 1];
        k := k + 1;
      }
      assert words[..k] == words;
      TallyMeaning(keys0, counts0, words);
    }

    /** `counter[w] = c`: an unseen word goes to the end of the key order, a
        seen one keeps its place. */
    method Put(w: string, c: nat)
      requires Valid()
      modifies this
      ensures Valid()
      ensures keys == if w in old(keys) then old(keys) else old(keys) + [w]
      ensures counts == old(counts)[w := c]
    {
      if w !in counts {
        keys := keys + [w];
      }
      counts := counts[w := c];
    }
  }

  /** A Counter updated with every sentence of the corpus (lines 70-72 and
      84-86): its keys are the corpus words in order of first occurrence, and
      its count of a word is the number of times the word occurs. */
  method CountCorpus(corpus: seq<seq<string>>) returns (c: Counter)
    ensures fresh(c) && c.Valid()
    ensures c.keys == Extend([], Flatten(corpus))
    ensures forall w :: c.Get(w) == Occurrences(Flatten(corpus), w)
  {
    c := new Counter();
    var k := 0;
    while k < |corpus|
      invariant 0 <= k <= |corpus| && c.Valid()
      invariant c.keys == Extend([], Flatten(corpus[..k]))
      invariant forall w :: c.Get(w) == Occurrences(Flatten(corpus[..k]), w)
    {
      FlattenSnoc(corpus, k);
      ExtendAppend([], Flatten(corpus[..k]), corpus[k]);
      forall w ensures Occurrences(Flatten(corpus[..k + 1]), w)
        == Occurrences(Flatten(corpus[..k]), w) + Occurrences(corpus[k], w)
      {
        OccurrencesAppend(Flatten(corpus[..k]), corpus[k], w);
      }
      c.Update(corpus[k]);
      k := k + 1;
    }
    assert corpus[..k] == corpus;
  }

  /** The words of `keys` occurring at least twice in `words`, in key order. */
  function Kept(keys: seq<string>, words: seq<string>): (r: seq<string>)
    ensures forall w :: w in r <==> w in keys && Occurrences(words, w) >= 2
    ensures Distinct(keys) ==> Distinct(r)
  {
    if keys == [] then []
    else
      var rest := Kept(keys[..|keys| - 1], words);
      var w := keys[|keys| - 1];
      assert keys == keys[..|keys| - 1] + [w];
      if Occurrences(words, w) >= 2 then rest + [w] else rest
  }

  /** The position of the first occurrence of `w`. */
  function IndexOf(ws: seq<string>, w: string): (i: nat)
    requires w in ws
    ensures i < |ws| && ws[i] == w
    ensures forall j :: 0 <= j < i ==> ws[j] != w
  {
    if ws[0] == w then 0 else 1 + IndexOf(ws[1..], w)
  }

  /** Each word of `ws` mapped to the position of its first occurrence. */
  function Enumerate(ws: seq<string>): map<string, int>
  {
    map w | w in ws :: IndexOf(ws, w)
  }

  /** `dict(enumerate(ws))`: each position mapped to its word. */
  function Indexed(ws: seq<string>): map<int, string>
  {
    map i | 0 <= i < |ws| :: ws[i]
  }

  predicate Injective<K, V(==)>(m: map<K, V>)
  {
    forall a, b :: a in m && b in m && m[a] == m[b] ==> a == b
  }

  /** `{v: k for k, v in m.items()}`. */
  function Invert<K, V(==)>(m: map<K, V>): (r: map<V, K>)
    requires Injective(m)
    ensures forall k :: k in m ==> m[k] in r && r[m[k]] == k
    ensures forall v :: v in r ==> r[v] in m && m[r[v]] == v
  {
    map k | k in m :: m[k] := k
  }

  /** Over distinct words, enumeration gives the ids `0 .. |ws| - 1`, each
      exactly once, and `Indexed` is its inverse. */
  lemma {:induction false} EnumerateIsBijection(ws: seq<string>)
    requires Distinct(ws)
    ensures forall i :: 0 <= i < |ws| ==> ws[i] in Enumerate(ws) && Enumerate(ws)[ws[i]] == i
    ensures forall w :: w in Enumerate(ws) ==> 0 <= Enumerate(ws)[w] < |ws|
    ensures forall id :: id in Enumerate(ws).Values <==> 0 <= id < |ws|
    ensures Injective(Enumerate(ws))
    ensures Invert(Enumerate(ws)) == Indexed(ws)
    ensures Injective(Indexed(ws)) && Invert(Indexed(ws)) == Enumerate(ws)
  {
    forall i | 0 <= i < |ws| ensures ws[i] in Enumerate(ws) && Enumerate(ws)[ws[i]] == i {
      EnumerateAt(ws, i);
    }
    EnumerateValues(ws);
    EnumerateInjective(ws);
    EnumerateInverse(ws);
    IndexedInverse(ws);
  }

  /** The ids of an enumeration are the positions of the list. */
  lemma EnumerateValues(ws: seq<string>)
    requires Distinct(ws)
    ensures forall w :: w in Enumerate(ws) ==> 0 <= Enumerate(ws)[w] < |ws|
    ensures forall id :: id in Enumerate(ws).Values <==> 0 <= id < |ws|
  {
    var e := Enumerate(ws);
    forall id | 0 <= id < |ws| ensures id in e.Values {
      EnumerateAt(ws, id);
      assert e[ws[id]] == id;
    }
  }

  lemma EnumerateInjective(ws: seq<string>)
    ensures Injective(Enumerate(ws))
  {
    var e := Enumerate(ws);
    forall a, b | a in e && b in e && e[a] == e[b] ensures a == b {
      assert ws[IndexOf(ws, a)] == a && ws[IndexOf(ws, b)] == b;
    }
  }

  lemma EnumerateInverse(ws: seq<string>)
    requires Distinct(ws)
    ensures Injective(Enumerate(ws)) && Invert(Enumerate(ws)) == Indexed(ws)
  {
    EnumerateInjective(ws);
    EnumerateValues(ws);
    var e := Enumerate(ws);
    var inv := Invert(e);
    forall id | 0 <= id < |ws| ensures id in inv && inv[id] == ws[id] {
      EnumerateAt(ws, id);
    }
    assert inv.Keys == Indexed(ws).Keys;
  }

  lemma IndexedInverse(ws: seq<string>)
    requires Distinct(ws)
    ensures Injective(Indexed(ws)) && Invert(Indexed(ws)) == Enumerate(ws)
  {
    var inv := Indexed(ws);
    var e := Enumerate(ws);
    assert Injective(inv);
    forall w | w in ws ensures w in Invert(inv) && Invert(inv)[w] == e[w] {
      var i := IndexOf(ws, w);
      EnumerateAt(ws, i);
      assert inv[i] == w;
    }
    assert Invert(inv).Keys == e.Keys;
  }

  lemma IndexOfSnoc(ws: seq<string>, w: string, v: string)
    requires w !in ws && v in ws + [w]
    ensures IndexOf(ws + [w], v) == if v == w then |ws| else IndexOf(ws, v)
  {
    var i := IndexOf(ws + [w], v);
    if v == w {
      assert i == |ws|;
    } else {
      var j := IndexOf(ws, v);
      assert (ws + [w])[j] == v;
    }
  }

  lemma EnumerateAt(ws: seq<string>, i: nat)
    requires Distinct(ws) && i < |ws|
    ensures ws[i] in Enumerate(ws) && Enumerate(ws)[ws[i]] == i
  {
    var j := IndexOf(ws, ws[i]);
  }

  /** Inserting one more unseen word gives it the next id. */
  lemma EnumerateSnoc(ws: seq<string>, w: string)
    requires w !in ws
    ensures Enumerate(ws + [w]) == Enumerate(ws)[w := |ws|]
  {
    forall v | v in ws + [w] ensures IndexOf(ws + [w], v) == if v == w then |ws| else IndexOf(ws, v) {
      IndexOfSnoc(ws, w, v);
    }
  }

  lemma {:induction false} EnumerateSize(ws: seq<string>)
    requires Distinct(ws)
    ensures |Enumerate(ws)| == |ws|
  {
    if ws != [] {
      var n := |ws| - 1;
      assert ws == ws[..n] + [ws[n]];
      EnumerateSnoc(ws[..n], ws[n]);
      EnumerateSize(ws[..n]);
    }
  }

  /** Python's `d[w] = len(d)` on the enumeration of distinct words appends
      `w` to the enumeration. */
  lemma EnumerateGrow(ws: seq<string>, w: string)
    requires Distinct(ws) && w !in ws
    ensures Distinct(ws + [w])
    ensures Enumerate(ws)[w := |Enumerate(ws)|] == Enumerate(ws + [w])
  {
    EnumerateSize(ws);
    EnumerateSnoc(ws, w);
  }

  lemma KeptSnoc(keys: seq<string>, words: seq<string>, n: nat)
    requires Distinct(keys) && n < |keys|
    ensures Distinct(Kept(keys[..n], words)) && keys[n] !in Kept(keys[..n], words)
    ensures Kept(keys[..n + 1], words) ==
      var k := Kept(keys[..n], words);
      if Occurrences(words, keys[n]) >= 2 then k + [keys[n]] else k
  {
    assert keys[..n + 1][..n] == keys[..n];
    assert Distinct(keys[..n]);
  }

  /** The dictionary the loop of lines 74-77 builds: each word counted at
      least twice is numbered by the dictionary's size when it arrives. */
  function NumberFrequent(keys: seq<string>, words: seq<string>): map<string, int>
  {
    if keys == [] then map[]
    else
      var m := NumberFrequent(keys[..|keys| - 1], words);
      var w := keys[|keys| - 1];
      if Occurrences(words, w) >= 2 then m[w := |m|] else m
  }

  lemma NumberFrequentSnoc(keys: seq<string>, words: seq<string>, n: nat)
    requires n < |keys|
    ensures NumberFrequent(keys[..n + 1], words) ==
      var m := NumberFrequent(keys[..n], words);
      if Occurrences(words, keys[n]) >= 2 then m[keys[n] := |m|] else m
  {
    assert keys[..n + 1][..n] == keys[..n];
  }

  /** Numbering the frequent words as they arrive is enumerating the list of
      frequent words. */
  lemma {:induction false} NumberFrequentIsEnumerate(keys: seq<string>, words: seq<string>)
    requires Distinct(keys)
    ensures Distinct(Kept(keys, words))
    ensures NumberFrequent(keys, words) == Enumerate(Kept(keys, words))
  {
    if keys != [] {
      var n := |keys| - 1;
      assert keys[..n + 1] == keys;
      assert Distinct(keys[..n]);
      NumberFrequentIsEnumerate(keys[..n], words);
      KeptSnoc(keys, words, n);
      if Occurrences(words, keys[n]) >= 2 {
        EnumerateGrow(Kept(keys[..n], words), keys[n]);
      }
    }
  }

  /** Appending `<UNK>` and then `<PAD>` with `d[w] = len(d)` extends the
      enumeration of the frequent words by those two words. */
  lemma AppendSpecials(kept: seq<string>)
    requires Distinct(kept) && UNK !in kept && PAD !in kept
    ensures var e := Enumerate(kept);
      var e1 := e[UNK := |e|];
      e1[PAD := |e1|] == Enumerate(kept + [UNK, PAD])
    ensures Distinct(kept + [UNK, PAD])
  {
    EnumerateGrow(kept, UNK);
    EnumerateGrow(kept + [UNK], PAD);
    assert kept + [UNK] + [PAD] == kept + [UNK, PAD];
  }

  /** The input vocabulary's word list for corpus words `words`: the
      frequent words in first-seen order, then `<UNK>`, then `<PAD>`. */
  function InputWords(words: seq<string>): (ws: seq<string>)
    ensures |ws| >= 2 && ws[|ws| - 2] == UNK && ws[|ws| - 1] == PAD
  {
    Kept(Extend([], words), words) + [UNK, PAD]
  }

  lemma InputWordsDistinct(words: seq<string>)
    requires UNK !in words && PAD !in words
    ensures Distinct(InputWords(words))
    ensures var m := NumberFrequent(Extend([], words), words);
      var m1 := m[UNK := |m|];
      m1[PAD := |m1|] == Enumerate(InputWords(words))
  {
    var keys := Extend([], words);
    NumberFrequentIsEnumerate(keys, words);
    ExtendMembers([], words, UNK);
    ExtendMembers([], words, PAD);
    AppendSpecials(Kept(keys, words));
  }

  /** A word has an input id exactly when it is reserved or occurs at least
      twice in the training sentences. */
  lemma InputWordsMembers(words: seq<string>, w: string)
    ensures w in InputWords(words) <==> w == UNK || w == PAD || Occurrences(words, w) >= 2
  {
    ExtendMembers([], words, w);
    OccursWhenPresent(words, w);
  }

  /** The facts about the input vocabulary built from the corpus words
      `words`: the ids are `0 .. n - 1`, one per word, `<UNK>` and `<PAD>`
      hold the last two, and the id-to-word dictionary is the inverse. */
  lemma InputVocabIds(words: seq<string>)
    requires UNK !in words && PAD !in words
    ensures var ws := InputWords(words);
      var e := Enumerate(ws);
      var inv := Indexed(ws);
      Injective(e) && Invert(e) == inv &&
      e[UNK] == |e| - 2 && e[PAD] == |e| - 1 &&
      (forall id :: id in inv <==> 0 <= id < |e|) &&
      (forall w :: w in e ==> e[w] in inv && inv[e[w]] == w) &&
      (forall w :: w in e <==> w == UNK || w == PAD || Occurrences(words, w) >= 2)
  {
    InputWordsDistinct(words);
    ReservedLast(InputWords(words));
    forall w ensures w in InputWords(words) <==> w == UNK || w == PAD || Occurrences(words, w) >= 2 {
      InputWordsMembers(words, w);
    }
  }

  /** Distinct words ending in `<UNK>` and `<PAD>` are numbered `0 .. n - 1`
      with those two last, and `Indexed` inverts the numbering. */
  lemma ReservedLast(ws: seq<string>)
    requires Distinct(ws) && |ws| >= 2 && ws[|ws| - 2] == UNK && ws[|ws| - 1] == PAD
    ensures var e := Enumerate(ws);
      var inv := Indexed(ws);
      Injective(e) && Invert(e) == inv &&
      e[UNK] == |e| - 2 && e[PAD] == |e| - 1 &&
      (forall id :: id in inv <==> 0 <= id < |e|) &&
      (forall w :: w in e ==> e[w] in inv && inv[e[w]] == w)
  {
    EnumerateInverse(ws);
    EnumerateSize(ws);
    EnumerateAt(ws, |ws| - 2);
    EnumerateAt(ws, |ws| - 1);
  }

  /** The input vocabulary (lines 70-80): a Counter over the training
      sentences; then every word counted at least twice, in the Counter's key
      order, then `<UNK>`, then `<PAD>`, each numbered by the size of the
      dictionary when it is inserted; and the inverse dictionary from ids to
      words. The ids are `0 .. k + 1` for `k` frequent words, one per word. */
  method BuildInputVocab(corpus: seq<seq<string>>) returns (word2idx: map<string, int>, idx2word: map<int, string>)
    requires UNK !in Flatten(corpus) && PAD !in Flatten(corpus)
    ensures word2idx == Enumerate(InputWords(Flatten(corpus)))
    ensures idx2word == Indexed(InputWords(Flatten(corpus)))
    ensures forall w :: w in word2idx <==> w == UNK || w == PAD || Occurrences(Flatten(corpus), w) >= 2
    ensures word2idx[UNK] == |word2idx| - 2 && word2idx[PAD] == |word2idx| - 1
    ensures forall id :: id in idx2word <==> 0 <= id < |word2idx|
    ensures forall w :: w in word2idx ==> word2idx[w] in idx2word && idx2word[word2idx[w]] == w
  {
    var c := CountCorpus(corpus);
    ghost var words := Flatten(corpus);
    InputWordsDistinct(words);
    InputVocabIds(words);
    word2idx := NumberFrequentWords(c.keys, c.counts, words);
    word2idx := word2idx[UNK := |word2idx|];
    word2idx := word2idx[PAD := |word2idx|];
    idx2word := Invert(word2idx);
  }

  /** The loop of lines 74-77: walk the Counter's keys in order and give
      each word counted at least twice the next id. */
  method NumberFrequentWords(keys: seq<string>, counts: map<string, nat>, ghost words: seq<string>)
    returns (word2idx: map<string, int>)
    requires Consistent(keys, counts) && keys == Extend([], words)
    requires forall w :: CountIn(counts, w) == Occurrences(words, w)
    ensures word2idx == NumberFrequent(Extend([], words), words)
  {
    word2idx := map[];
    var n := 0;
    while n < |keys|
      invariant 0 <= n <= |keys|
      invariant word2idx == NumberFrequent(keys[..n], words)
    {
      NumberFrequentSnoc(keys, words, n);
      var w := keys[n];
      if counts[w] >= 2 {
        word2idx := word2idx[w := |word2idx|];
      }
      n := n + 1;
    }
    assert keys[..n] == keys;
  }

  /** The query vocabulary's words in id order: every training query word in
      order of first occurrence, then `<UNK>` and `<PAD>` unless already seen. */
  function QueryKeys(queries: seq<seq<string>>): seq<string>
  {
    Extend(Extend([], Flatten(queries)), [UNK, PAD])
  }

  /** The query vocabulary (lines 84-90): a Counter over the training
      queries, `<UNK>` and `<PAD>` set to count 0, ids given by enumerating the
      Counter's keys, and the word-to-id dictionary inverting that. */
  method BuildQueryVocab(queries: seq<seq<string>>) returns (idx2word: map<int, string>, word2idx: map<string, int>)
    ensures idx2word == Indexed(QueryKeys(queries))
    ensures word2idx == Enumerate(QueryKeys(queries))
  {
    var c := CountCorpus(queries);
    ghost var seen := c.keys;
    c.Put(UNK, 0);
    ExtendOne(seen, UNK);
    c.Put(PAD, 0);
    ExtendOne(Extend(seen, [UNK]), PAD);
    QueryKeysSplit(queries);
    var keys := c.keys;
    idx2word := Indexed(keys);
    IndexedInverse(keys);
    word2idx := Invert(idx2word);
  }

  /** Counting one more word. */
  lemma ExtendOne(keys: seq<string>, w: string)
    ensures Extend(keys, [w]) == if w in keys then keys else keys + [w]
  {
    assert [w][..0] == [];
  }

  lemma QueryKeysSplit(queries: seq<seq<string>>)
    ensures QueryKeys(queries) == Extend(Extend(Extend([], Flatten(queries)), [UNK]), [PAD])
  {
    ExtendAppend(Extend([], Flatten(queries)), [UNK], [PAD]);
    assert [UNK] + [PAD] == [UNK, PAD];
  }

  lemma QueryKeysMembers(queries: seq<seq<string>>, w: string)
    ensures Distinct(QueryKeys(queries))
    ensures w in QueryKeys(queries) <==> w == UNK || w == PAD || w in Flatten(queries)
  {
    ExtendMembers([], Flatten(queries), w);
    ExtendMembers(Extend([], Flatten(queries)), [UNK, PAD], w);
  }

  /** The query ids are `0 .. n - 1`, one per word, and the words having one
      are `<UNK>`, `<PAD>` and every training query word. */
  lemma QueryVocabIsBijection(queries: seq<seq<string>>)
    ensures var keys := QueryKeys(queries);
      (forall w :: w in Enumerate(keys) <==> w == UNK || w == PAD || w in Flatten(queries)) &&
      (forall id :: id in Indexed(keys) <==> 0 <= id < |keys|) &&
      (forall w :: w in Enumerate(keys) ==> Indexed(keys)[Enumerate(keys)[w]] == w) &&
      (forall id :: id in Indexed(keys) ==> Enumerate(keys)[Indexed(keys)[id]] == id)
  {
    var keys := QueryKeys(queries);
    forall w ensures w in keys <==> w == UNK || w == PAD || w in Flatten(queries) {
      QueryKeysMembers(queries, w);
    }
    EnumerateIsBijection(keys);
  }

  lemma {:induction false} InLastSentence(corpus: seq<seq<string>>, w: string)
    requires |corpus| > 0 && w in corpus[|corpus| - 1]
    ensures w in Flatten(corpus)
  {
  }

  /** When every training query is bracketed, `<s>` and `</s>` have query
      ids, different from each other and from `<PAD>`'s, so the reserved ids
      looked up at lines 290-292 exist and are distinct. */
  lemma ReservedQueryIds(raw: seq<seq<string>>, queries: seq<seq<string>>)
    requires |queries| > 0 && |raw| == |queries|
    requires forall i :: 0 <= i < |queries| ==> queries[i] == Bracket(raw[i])
    ensures var e := Enumerate(QueryKeys(queries));
      SOS in e && EOS in e && PAD in e && e[SOS] != e[EOS] && e[SOS] != e[PAD] && e[EOS] != e[PAD]
  {
    var last := queries[|queries| - 1];
    assert last == Bracket(raw[|raw| - 1]);
    assert last[0] == SOS && last[|last| - 1] == EOS;
    InLastSentence(queries, SOS);
    InLastSentence(queries, EOS);
    QueryKeysMembers(queries, SOS);
    QueryKeysMembers(queries, EOS);
    QueryKeysMembers(queries, PAD);
    EnumerateIsBijection(QueryKeys(queries));
  }

  /** Mapping a sentence to ids with an enumerated vocabulary and reading the
      ids back gives the sentence with every unknown word replaced by
      `<UNK>`; every id is a valid position of the vocabulary. */
  lemma EncodeRoundTrip(ws: seq<string>, words: seq<string>)
    requires Distinct(ws) && UNK in ws
    ensures var ids := Encode(Enumerate(ws), words);
      forall k :: 0 <= k < |words| ==>
        0 <= ids[k] < |ws| && ids[k] in Indexed(ws) &&
        Indexed(ws)[ids[k]] == if words[k] in ws then words[k] else UNK
  {
    EnumerateIsBijection(ws);
  }
}
