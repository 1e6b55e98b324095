/**
 `train` and `classify`: build the model from the training directory, then
 score a document under each label and pick the higher score.
 */
module Classifier {

  import opened Lexicographic
  import opened Corpus
  import opened Vocabulary
  import opened BagOfWords
  import opened Dataset
  import opened Estimator

  /** The dictionary `train` returns. */
  datatype Model = Model(
    vocabulary: seq<string>,               // 'vocabulary'
    logPrior: map<string, LogRatio>,       // 'log prior'
    logPGiven2016: map<Key, LogRatio>,     // 'log p(w|y=2016)'
    logPGiven2020: map<Key, LogRatio>)     // 'log p(w|y=2020)'

  /** `train(training_directory, cutoff)`. */
  method Train(corpus: Corpus, cutoff: int) returns (model: Model)
    requires WellNamed(corpus)
    ensures StrictlyAscending(model.vocabulary)
    ensures forall w :: w in model.vocabulary <==> Frequent(corpus, cutoff, w)
    ensures model.logPrior == PriorOf(Examples(model.vocabulary, corpus))
    ensures model.logPGiven2016 == ConditionalOf(model.vocabulary, Examples(model.vocabulary, corpus), "2016")
    ensures model.logPGiven2020 == ConditionalOf(model.vocabulary, Examples(model.vocabulary, corpus), "2020")
    ensures model.vocabulary == [] ==> model.logPGiven2016 == map[] && model.logPGiven2020 == map[]
    ensures TwoLabelled(Examples(model.vocabulary, corpus)) ==>
      model.logPrior["2016"].num + model.logPrior["2020"].num == model.logPrior["2016"].den
  {
    var vocab := CreateVocabulary(corpus, cutoff);
    var data := LoadTrainingData(vocab, corpus);
    AscendingDistinct(vocab);
    var logPrior := Prior(data);
    var given2020 := PWordGivenLabel(vocab, data, "2020");
    var given2016 := PWordGivenLabel(vocab, data, "2016");
    model := Model(vocab, logPrior, given2016, given2020);
  }

  /** The float `log(num) - log(den)`, for a logarithm `ln` given as a parameter. */
  function LogOf(ln: nat -> real, r: LogRatio): real
  {
    ln(r.num) - ln(r.den)
  }

  /** What key `k` adds to a score: its weight times its count when the bag has it, nothing otherwise. */
  function Contribution(weights: map<Key, LogRatio>, bow: Bow, ln: nat -> real, k: Key): real
    requires k in weights
  {
    if k in bow then LogOf(ln, weights[k]) * (bow[k] as real) else 0.0
  }

  /** Sum of the contributions of the keys of `keys`. */
  ghost function Score(keys: set<Key>, weights: map<Key, LogRatio>, bow: Bow, ln: nat -> real): real
    requires keys <= weights.Keys
    decreases keys
  {
    if keys == {} then 0.0
    else
      var k :| k in keys;
      Contribution(weights, bow, ln, k) + Score(keys - {k}, weights, bow, ln)
  }

  /** The score does not depend on the order in which keys are visited. */
  lemma {:induction false} ScoreRemove(keys: set<Key>, weights: map<Key, LogRatio>, bow: Bow, ln: nat -> real, k: Key)
    requires keys <= weights.Keys && k in keys
    ensures Score(keys, weights, bow, ln) == Contribution(weights, bow, ln, k) + Score(keys - {k}, weights, bow, ln)
    decreases keys
  {
    var j :| j in keys && Score(keys, weights, bow, ln) ==
      Contribution(weights, bow, ln, j) + Score(keys - {j}, weights, bow, ln);
    if j != k {
      ScoreRemove(keys - {j}, weights, bow, ln, k);
      ScoreRemove(keys - {k}, weights, bow, ln, j);
      assert keys - {j} - {k} == keys - {k} - {j};
    }
  }

  /** An empty bag of words scores nothing. */
  lemma {:induction false} ScoreOfEmptyBow(keys: set<Key>, weights: map<Key, LogRatio>, ln: nat -> real)
    requires keys <= weights.Keys
    ensures Score(keys, weights, map[], ln) == 0.0
    decreases keys
  {
    if keys != {} {
      var k :| k in keys;
      ScoreRemove(keys, weights, map[], ln, k);
      ScoreOfEmptyBow(keys - {k}, weights, ln);
    }
  }

  /** A key the bag lacks adds nothing: the score only sees keys present in both maps. */
  lemma {:induction false} ScoreCommonKeys(keys: set<Key>, weights: map<Key, LogRatio>, bow: Bow, ln: nat -> real)
    requires keys <= weights.Keys
    ensures Score(keys, weights, bow, ln) == Score(keys * bow.Keys, weights, bow, ln)
    decreases keys
  {
    if keys != {} {
      var k :| k in keys;
      ScoreRemove(keys, weights, bow, ln, k);
      ScoreCommonKeys(keys - {k}, weights, bow, ln);
      assert (keys - {k}) * bow.Keys == keys * bow.Keys - {k};
      if k in bow {
        ScoreRemove(keys * bow.Keys, weights, bow, ln, k);
      } else {
        assert keys * bow.Keys - {k} == keys * bow.Keys;
      }
    }
  }

  /** The loops of lines 156-158 and 160-162: the weighted sum over the model's keys found in the bag. */
  method WeightedSum(weights: map<Key, LogRatio>, bow: Bow, ln: nat -> real) returns (total: real)
    ensures total == Score(weights.Keys, weights, bow, ln)
    ensures bow == map[] ==> total == 0.0
    ensures weights == map[] ==> total == 0.0
  {
    total := 0.0;
    var rest := weights.Keys;
    ghost var done: set<Key> := {};
    while rest != {}
      invariant rest + done == weights.Keys && rest !! done
      invariant total == Score(done, weights, bow, ln)
      decreases rest
    {
      var key :| key in rest;
      if key in bow {
        total := total + LogOf(ln, weights[key]) * (bow[key] as real);
      }
      ScoreRemove(done + {key}, weights, bow, ln, key);
      assert done + {key} - {key} == done;
      rest := rest - {key};
      done := done + {key};
    }
    if bow == map[] {
      ScoreOfEmptyBow(weights.Keys, weights, ln);
    }
  }

  /** The dictionary `classify` returns. */
  datatype Prediction = Prediction(
    predicted: string,      // 'predicted y'
    logPost2016: real,      // 'log p(y=2016|x)'
    logPost2020: real)      // 'log p(y=2020|x)'

  /** `classify(model, filepath)`, given the stripped lines of the file and the logarithm. */
  method Classify(model: Model, doc: seq<string>, ln: nat -> real) returns (result: Prediction)
    requires "2016" in model.logPrior && "2020" in model.logPrior
    ensures result.logPost2016 == LogOf(ln, model.logPrior["2016"])
      + Score(model.logPGiven2016.Keys, model.logPGiven2016, Histogram(model.vocabulary, doc), ln)
    ensures result.logPost2020 == LogOf(ln, model.logPrior["2020"])
      + Score(model.logPGiven2020.Keys, model.logPGiven2020, Histogram(model.vocabulary, doc), ln)
    ensures result.predicted == "2016" || result.predicted == "2020"
    ensures result.predicted == "2016" <==> result.logPost2016 > result.logPost2020
    ensures |doc| == 0 ==>
      result.logPost2016 == LogOf(ln, model.logPrior["2016"]) && result.logPost2020 == LogOf(ln, model.logPrior["2020"])
    ensures model.logPGiven2016 == map[] ==> result.logPost2016 == LogOf(ln, model.logPrior["2016"])
    ensures model.logPGiven2020 == map[] ==> result.logPost2020 == LogOf(ln, model.logPrior["2020"])
  {
    var prior2016 := LogOf(ln, model.logPrior["2016"]);
    var prior2020 := LogOf(ln, model.logPrior["2020"]);
    var bow := CreateBow(model.vocabulary, doc);
    var logP2016 := WeightedSum(model.logPGiven2016, bow, ln);
    var logP2020 := WeightedSum(model.logPGiven2020, bow, ln);
    var post2020 := prior2020 + logP2020;
    var post2016 := prior2016 + logP2016;
    if post2016 > post2020 {
      result := Prediction("2016", post2016, post2020);
    } else {
      result := Prediction("2020", post2016, post2020);
    }
  }
}
