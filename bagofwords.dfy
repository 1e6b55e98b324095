/**
 `create_bow`: the sparse count map of one document over a vocabulary.

 Every line that is a vocabulary word is counted under that word; every other
 line, a blank one included, is counted under the dictionary key `None`, which
 is the `Oov` key here.
 */
module BagOfWords {

  import opened Counting

  /** A key of a bag of words: a vocabulary word, or the out-of-vocabulary bucket (`None`). */
  datatype Key = Word(word: string) | Oov

  /** A bag of words: how often each key occurs in one document. */
  type Bow = map<Key, nat>

  /** The key a line is counted under: `vocab.count(line) == 0` sends it to `None`. */
  function KeyOf(vocab: seq<string>, line: string): Key
  {
    if line in vocab then Word(line) else Oov
  }

  /** Number of lines that are not vocabulary words. */
  function OovCount(vocab: seq<string>, lines: seq<string>): (r: nat)
    ensures r <= |lines|
  {
    if |lines| == 0 then 0
    else OovCount(vocab, lines[..|lines| - 1]) + (if lines[|lines| - 1] in vocab then 0 else 1)
  }

  /** The `bow` dictionary after counting `lines` one after the other. */
  function Histogram(vocab: seq<string>, lines: seq<string>): Bow
  {
    if |lines| == 0 then map[]
    else
      var bow := Histogram(vocab, lines[..|lines| - 1]);
      var k := KeyOf(vocab, lines[|lines| - 1]);
      bow[k := Get(bow, k) + 1]
  }

  /**
   A word is a key exactly when it is a vocabulary word that occurs, and is
   stored with its number of occurrences; `None` is a key exactly when some line
   is not a vocabulary word, and is stored with the number of such lines; no
   stored count is zero.
   */
  lemma {:induction false} HistogramCounts(vocab: seq<string>, lines: seq<string>)
    ensures forall w :: Word(w) in Histogram(vocab, lines) <==> w in vocab && Occ(lines, w) > 0
    ensures forall w :: Word(w) in Histogram(vocab, lines) ==> Histogram(vocab, lines)[Word(w)] == Occ(lines, w)
    ensures Oov in Histogram(vocab, lines) <==> OovCount(vocab, lines) > 0
    ensures Oov in Histogram(vocab, lines) ==> Histogram(vocab, lines)[Oov] == OovCount(vocab, lines)
    ensures forall k :: k in Histogram(vocab, lines) ==> Histogram(vocab, lines)[k] >= 1
  {
    if |lines| > 0 {
      HistogramCounts(vocab, lines[..|lines| - 1]);
    }
  }

  /** Every line is counted exactly once, blank lines and unknown words included. */
  lemma {:induction false} HistogramTotal(vocab: seq<string>, lines: seq<string>)
    ensures MapSum(Histogram(vocab, lines)) == |lines|
  {
    if |lines| > 0 {
      HistogramTotal(vocab, lines[..|lines| - 1]);
      MapSumIncrement(Histogram(vocab, lines[..|lines| - 1]), KeyOf(vocab, lines[|lines| - 1]));
    }
  }

  /** With a vocabulary that has no empty word, every blank line is counted under `None`. */
  lemma {:induction false} BlankLinesAreOov(vocab: seq<string>, lines: seq<string>)
    requires "" !in vocab
    ensures OovCount(vocab, lines) >= Occ(lines, "")
  {
    if |lines| > 0 {
      BlankLinesAreOov(vocab, lines[..|lines| - 1]);
    }
  }

  /** `create_bow(vocab, filepath)`, given the stripped lines of the file. */
  method CreateBow(vocab: seq<string>, doc: seq<string>) returns (bow: Bow)
    ensures bow == Histogram(vocab, doc)
    ensures MapSum(bow) == |doc|
    ensures forall k :: k in bow ==> bow[k] >= 1 && (k.Word? ==> k.word in vocab)
    ensures |doc| == 0 ==> bow == map[]
  {
    bow := map[];
    var i := 0;
    while i < |doc|
      invariant 0 <= i <= |doc|
      invariant bow == Histogram(vocab, doc[..i])
    {
      var line := doc[i];
      if line !in vocab {
        if Oov !in bow {
          bow := bow[Oov := 1];
        } else {
          bow := bow[Oov := bow[Oov] + 1];
        }
      } else if Word(line) !in bow {
        bow := bow[Word(line) := 1];
      } else {
        bow := bow[Word(line) := bow[Word(line)] + 1];
      }
      assert doc[..i + 1][..i] == doc[..i];
      i := i + 1;
    }
    assert doc[..i] == doc;
    HistogramTotal(vocab, doc);
    HistogramCounts(vocab, doc);
  }
}
