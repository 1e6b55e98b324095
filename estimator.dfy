/**
 `prior` and `p_word_given_label`: add-one smoothed estimates.

 Python returns each estimate as the float `log(num) - log(den)`; here it is
 kept exactly as the pair of integers `LogRatio(num, den)`.
 */
module Estimator {

  import opened Counting
  import opened BagOfWords
  import opened Dataset

  /** The log-probability `log(num) - log(den)`, kept as its two integers. */
  datatype LogRatio = LogRatio(num: nat, den: nat)

  /** Number of examples labelled `cat`. */
  function CountLabel(data: seq<Example>, cat: string): (r: nat)
    ensures r <= |data|
  {
    if |data| == 0 then 0
    else CountLabel(data[..|data| - 1], cat) + (if data[|data| - 1].category == cat then 1 else 0)
  }

  /** Every example carries one of the two labels the classifier knows. */
  ghost predicate TwoLabelled(data: seq<Example>)
  {
    forall n :: 0 <= n < |data| ==> data[n].category == "2016" || data[n].category == "2020"
  }

  /** When every example is labelled "2016" or "2020", the two label counts add up to all examples. */
  lemma {:induction false} LabelCountsCover(data: seq<Example>)
    requires TwoLabelled(data)
    ensures CountLabel(data, "2016") + CountLabel(data, "2020") == |data|
  {
    if |data| > 0 {
      LabelCountsCover(data[..|data| - 1]);
    }
  }

  /** The `logprob` dictionary of `prior`: (label count + 1) / (number of examples + 2) per label. */
  function PriorOf(data: seq<Example>): map<string, LogRatio>
  {
    map["2020" := LogRatio(CountLabel(data, "2020") + 1, |data| + 2),
        "2016" := LogRatio(CountLabel(data, "2016") + 1, |data| + 2)]
  }

  /** With two labels, the smoothed priors form a distribution: their numerators add up to the common denominator. */
  lemma PriorsSumToOne(data: seq<Example>)
    requires TwoLabelled(data)
    ensures PriorOf(data)["2016"].den == PriorOf(data)["2020"].den
    ensures PriorOf(data)["2016"].num + PriorOf(data)["2020"].num == PriorOf(data)["2016"].den
  {
    LabelCountsCover(data);
  }

  /** `prior(training_data, label_list)`; the unused `label_list` is left out. */
  method Prior(data: seq<Example>) returns (logprob: map<string, LogRatio>)
    ensures logprob == PriorOf(data)
    ensures logprob.Keys == {"2016", "2020"}
    ensures TwoLabelled(data) ==> logprob["2016"].num + logprob["2020"].num == logprob["2016"].den
  {
    var label16, label20, totalDocs := 0, 0, 0;
    var i := 0;
    while i < |data|
      invariant 0 <= i <= |data|
      invariant label16 == CountLabel(data[..i], "2016")
      invariant label20 == CountLabel(data[..i], "2020")
      invariant totalDocs == i
    {
      if data[i].category == "2016" {
        label16 := label16 + 1;
      }
      if data[i].category == "2020" {
        label20 := label20 + 1;
      }
      totalDocs := totalDocs + 1;
      assert data[..i + 1][..i] == data[..i];
      i := i + 1;
    }
    assert data[..i] == data;
    logprob := map[];
    logprob := logprob["2020" := LogRatio(label20 + 1, totalDocs + 2)];
    logprob := logprob["2016" := LogRatio(label16 + 1, totalDocs + 2)];
    if TwoLabelled(data) {
      PriorsSumToOne(data);
    }
  }

  /** The counts of the examples labelled `cat`, added key by key. */
  function Tally(data: seq<Example>, cat: string): map<Key, nat>
  {
    if |data| == 0 then map[]
    else
      var t := Tally(data[..|data| - 1], cat);
      if data[|data| - 1].category == cat then AddCounts(t, data[|data| - 1].bow) else t
  }

  /** `wordCount`: every count of every example labelled `cat`, the `None` bucket included. */
  ghost function WordCount(data: seq<Example>, cat: string): nat
  {
    if |data| == 0 then 0
    else
      WordCount(data[..|data| - 1], cat)
      + (if data[|data| - 1].category == cat then MapSum(data[|data| - 1].bow) else 0)
  }

  /** The tally keeps every count: its sum is the label's `wordCount`. */
  lemma {:induction false} TallyTotal(data: seq<Example>, cat: string)
    ensures MapSum(Tally(data, cat)) == WordCount(data, cat)
  {
    if |data| > 0 {
      TallyTotal(data[..|data| - 1], cat);
      if data[|data| - 1].category == cat {
        MapSumAdd(Tally(data[..|data| - 1], cat), data[|data| - 1].bow);
      }
    }
  }

  /** The bags of the examples labelled `cat` are keyed by vocabulary words and `None` (line 110 raises `KeyError` otherwise). */
  ghost predicate KeyedFor(vocab: seq<string>, data: seq<Example>, cat: string)
  {
    forall n, k :: 0 <= n < |data| && data[n].category == cat && k in data[n].bow && k.Word? ==> k.word in vocab
  }

  /** The keys `p_word_given_label` writes: every vocabulary word, and `None` once the loop of line 112 has run. */
  function KeySpace(vocab: seq<string>): set<Key>
  {
    (set w | w in vocab :: Word(w)) + (if |vocab| > 0 then {Oov} else {})
  }

  /** The tally mentions no key outside the key space. */
  lemma {:induction false} TallyKeys(vocab: seq<string>, data: seq<Example>, cat: string)
    requires KeyedFor(vocab, data, cat) && |vocab| > 0
    ensures Tally(data, cat).Keys <= KeySpace(vocab)
  {
    if |data| > 0 {
      var init := data[..|data| - 1];
      assert KeyedFor(vocab, init, cat) by {
        forall n, k | 0 <= n < |init| && init[n].category == cat && k in init[n].bow && k.Word?
          ensures k.word in vocab
        {
          assert init[n] == data[n];
        }
      }
      TallyKeys(vocab, init, cat);
      forall k | k in Tally(data, cat) ensures k in KeySpace(vocab) {
        if k.Word? {
          assert k in Tally(init, cat) || k in data[|data| - 1].bow;
          assert Word(k.word) == k;
        }
      }
    }
  }

  /** A vocabulary without duplicates gives one key per word, and `None` when it is non-empty. */
  lemma {:induction false} KeySpaceSize(vocab: seq<string>)
    requires Distinct(vocab)
    ensures |KeySpace(vocab)| == |vocab| + (if |vocab| > 0 then 1 else 0)
  {
    var words := set w | w in vocab :: Word(w);
    WordKeysSize(vocab);
    if |vocab| > 0 {
      assert Oov !in words;
      assert KeySpace(vocab) == words + {Oov};
    }
  }

  lemma {:induction false} WordKeysSize(vocab: seq<string>)
    requires Distinct(vocab)
    ensures |set w | w in vocab :: Word(w)| == |vocab|
  {
    if |vocab| > 0 {
      var init := vocab[..|vocab| - 1];
      var last := vocab[|vocab| - 1];
      assert Distinct(init);
      WordKeysSize(init);
      assert vocab == init + [last];
      assert (set w | w in vocab :: Word(w)) == (set w | w in init :: Word(w)) + {Word(last)};
      assert Word(last) !in (set w | w in init :: Word(w));
    }
  }

  lemma KeySpaceStep(vocab: seq<string>, j: nat)
    requires j < |vocab|
    ensures KeySpace(vocab[..j + 1]) == KeySpace(vocab[..j]) + {Word(vocab[j]), Oov}
  {
    assert vocab[..j + 1] == vocab[..j] + [vocab[j]];
  }

  /** The dictionary `p_word_given_label` returns: (count + 1) / (wordCount + |V| + 1) for every key of the key space. */
  ghost function ConditionalOf(vocab: seq<string>, data: seq<Example>, cat: string): map<Key, LogRatio>
  {
    var den := WordCount(data, cat) + |vocab| + 1;
    map k | k in KeySpace(vocab) :: LogRatio(Get(Tally(data, cat), k) + 1, den)
  }

  /** The numerators of a dictionary of log-ratios. */
  function Numerators(m: map<Key, LogRatio>): map<Key, nat>
  {
    map k | k in m :: m[k].num
  }

  /**
   Over the vocabulary and `None`, the smoothed numerators add up to the
   common denominator: add-one smoothing over |V| + 1 outcomes.
   */
  lemma ConditionalSumsToOne(vocab: seq<string>, data: seq<Example>, cat: string)
    requires Distinct(vocab) && |vocab| > 0 && KeyedFor(vocab, data, cat)
    ensures forall k :: k in ConditionalOf(vocab, data, cat) ==>
      ConditionalOf(vocab, data, cat)[k].den == WordCount(data, cat) + |vocab| + 1
    ensures MapSum(Numerators(ConditionalOf(vocab, data, cat))) == WordCount(data, cat) + |vocab| + 1
  {
    var t := Tally(data, cat);
    TallyKeys(vocab, data, cat);
    assert Numerators(ConditionalOf(vocab, data, cat)) == Smoothed(t, KeySpace(vocab));
    MapSumSmoothed(t, KeySpace(vocab));
    TallyTotal(data, cat);
    KeySpaceSize(vocab);
  }

  /** `p_word_given_label(vocab, training_data, label)`. */
  method PWordGivenLabel(vocab: seq<string>, data: seq<Example>, cat: string) returns (wordProb: map<Key, LogRatio>)
    requires Distinct(vocab)
    requires KeyedFor(vocab, data, cat)
    ensures wordProb == ConditionalOf(vocab, data, cat)
    ensures |vocab| == 0 ==> wordProb == map[]
    ensures |vocab| > 0 ==> MapSum(Numerators(wordProb)) == WordCount(data, cat) + |vocab| + 1
  {
    // word_prob before smoothing: a count per vocabulary word
    var counts: map<string, nat> := map[];
    var j := 0;
    while j < |vocab|
      invariant 0 <= j <= |vocab|
      invariant forall w :: w in counts <==> w in vocab[..j]
      invariant forall w :: w in counts ==> counts[w] == 0
    {
      counts := counts[vocab[j] := 0];
      assert vocab[..j + 1] == vocab[..j] + [vocab[j]];
      j := j + 1;
    }
    assert vocab[..j] == vocab;
    var wordCount, noneCount := 0, 0;
    var i := 0;
    while i < |data|
      invariant 0 <= i <= |data|
      invariant forall w :: w in counts <==> w in vocab
      invariant forall w :: w in counts ==> counts[w] == Get(Tally(data[..i], cat), Word(w))
      invariant noneCount == Get(Tally(data[..i], cat), Oov)
      invariant wordCount == WordCount(data[..i], cat)
    {
      assert data[..i + 1][..i] == data[..i];
      if data[i].category == cat {
        counts, noneCount, wordCount := AddExample(vocab, counts, noneCount, wordCount, data, i, cat);
      }
      i := i + 1;
    }
    assert data[..i] == data;
    wordProb := SmoothCounts(vocab, counts, noneCount, wordCount);
    assert wordProb == ConditionalOf(vocab, data, cat) by {
      forall k | k in KeySpace(vocab) ensures wordProb[k] == ConditionalOf(vocab, data, cat)[k] {
        if k.Word? {
          assert Word(k.word) == k;
        }
      }
    }
    if |vocab| > 0 {
      ConditionalSumsToOne(vocab, data, cat);
    }
  }

  /** The loop of lines 112-114: each vocabulary word, and `None`, gets its count plus one over the common denominator. */
  method SmoothCounts(vocab: seq<string>, counts: map<string, nat>, noneCount: nat, wordCount: nat)
    returns (wordProb: map<Key, LogRatio>)
    requires forall w :: w in vocab ==> w in counts
    ensures wordProb.Keys == KeySpace(vocab)
    ensures forall w :: w in vocab ==> wordProb[Word(w)] == LogRatio(counts[w] + 1, wordCount + |vocab| + 1)
    ensures |vocab| > 0 ==> wordProb[Oov] == LogRatio(noneCount + 1, wordCount + |vocab| + 1)
  {
    var den := wordCount + |vocab| + 1;
    wordProb := map[];
    var j := 0;
    while j < |vocab|
      invariant 0 <= j <= |vocab|
      invariant wordProb.Keys == KeySpace(vocab[..j])
      invariant forall w :: w in vocab[..j] ==> wordProb[Word(w)] == LogRatio(counts[w] + 1, den)
      invariant j > 0 ==> wordProb[Oov] == LogRatio(noneCount + 1, den)
    {
      var word := vocab[j];
      wordProb := wordProb[Word(word) := LogRatio(counts[word] + 1, den)];
      wordProb := wordProb[Oov := LogRatio(noneCount + 1, den)];
      KeySpaceStep(vocab, j);
      assert vocab[..j + 1] == vocab[..j] + [word];
      j := j + 1;
    }
    assert vocab[..j] == vocab;
  }

  /** The loop of lines 105-110 over the keys of one example labelled `cat`. */
  method AddExample(vocab: seq<string>, counts: map<string, nat>, noneCount: nat, wordCount: nat,
                    data: seq<Example>, i: nat, cat: string)
    returns (counts': map<string, nat>, noneCount': nat, wordCount': nat)
    requires i < |data| && data[i].category == cat && KeyedFor(vocab, data, cat)
    requires forall w :: w in counts <==> w in vocab
    requires forall w :: w in counts ==> counts[w] == Get(Tally(data[..i], cat), Word(w))
    requires noneCount == Get(Tally(data[..i], cat), Oov)
    requires wordCount == WordCount(data[..i], cat)
    ensures forall w :: w in counts' <==> w in vocab
    ensures forall w :: w in counts' ==> counts'[w] == Get(Tally(data[..i + 1], cat), Word(w))
    ensures noneCount' == Get(Tally(data[..i + 1], cat), Oov)
    ensures wordCount' == WordCount(data[..i + 1], cat)
  {
    assert data[..i + 1][..i] == data[..i];
    var bow := data[i].bow;
    var before := Tally(data[..i], cat);
    counts', noneCount', wordCount' := counts, noneCount, wordCount;
    var rest := bow.Keys;
    ghost var done: set<Key> := {};
    while rest != {}
      invariant rest + done == bow.Keys && rest !! done
      invariant forall w :: w in counts' <==> w in vocab
      invariant forall w :: w in counts' ==> counts'[w] == Get(before, Word(w)) + Get(Restrict(bow, done), Word(w))
      invariant noneCount' == Get(before, Oov) + Get(Restrict(bow, done), Oov)
      invariant wordCount' == wordCount + MapSum(Restrict(bow, done))
      decreases rest
    {
      var val :| val in rest;
      wordCount' := wordCount' + bow[val];
      if val == Oov {
        noneCount' := noneCount' + bow[val];
      } else {
        counts' := counts'[val.word := counts'[val.word] + bow[val]];
      }
      RestrictStep(bow, done, val);
      rest := rest - {val};
      done := done + {val};
    }
    assert Restrict(bow, done) == bow;
  }
}
