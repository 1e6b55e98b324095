/**
 `create_vocabulary`: count every non-empty line of every training file, keep
 the words seen at least `cutoff` times, and return them sorted.
 */
module Vocabulary {

  import opened Counting
  import opened Lexicographic
  import opened Corpus

  /** The `vocab` counter after reading `lines`: one entry per non-empty line, counting repeats. */
  function WordCounts(lines: seq<string>): map<string, nat>
  {
    if |lines| == 0 then map[]
    else
      var counts := WordCounts(lines[..|lines| - 1]);
      var word := lines[|lines| - 1];
      if |word| > 0 then counts[word := Get(counts, word) + 1] else counts
  }

  /** The counter holds exactly the non-empty words read, each with its number of occurrences. */
  lemma {:induction false} WordCountsOcc(lines: seq<string>)
    ensures forall w :: w in WordCounts(lines) <==> w != "" && Occ(lines, w) > 0
    ensures forall w :: w in WordCounts(lines) ==> WordCounts(lines)[w] == Occ(lines, w)
  {
    if |lines| > 0 {
      WordCountsOcc(lines[..|lines| - 1]);
    }
  }

  /** A word belongs in the vocabulary: a non-empty line seen at least `cutoff` times (and at least once). */
  predicate Frequent(corpus: Corpus, cutoff: int, w: string)
  {
    var n := Occ(CorpusLines(corpus), w);
    w != "" && n > 0 && n >= cutoff
  }

  /** Raising the cutoff can only remove words. */
  lemma CutoffMonotone(corpus: Corpus, low: int, high: int, w: string)
    requires low <= high && Frequent(corpus, high, w)
    ensures Frequent(corpus, low, w)
  {
  }

  /** `[word for word in vocab if vocab[word] >= cutoff]`, over the counter's keys in insertion order. */
  function Kept(order: seq<string>, counts: map<string, nat>, cutoff: int): (r: seq<string>)
    requires forall w :: w in order ==> w in counts
    ensures forall w :: w in r <==> w in order && counts[w] >= cutoff
    ensures Distinct(order) ==> Distinct(r)
  {
    if |order| == 0 then []
    else
      var rest := Kept(order[1..], counts, cutoff);
      assert order == [order[0]] + order[1..];
      assert Distinct(order) ==> order[0] !in order[1..];
      if counts[order[0]] >= cutoff then [order[0]] + rest else rest
  }

  /** Python's dictionaries remember insertion order: `order` lists the keys of `counts` once each. */
  ghost predicate KeyOrder(order: seq<string>, counts: map<string, nat>)
  {
    Distinct(order) && forall w :: w in order <==> w in counts
  }

  /** The loop over the lines of one open file (lines 35-40), counting into `counts`. */
  method CountDocument(counts: map<string, nat>, order: seq<string>, ghost seen: seq<string>, doc: Doc)
    returns (counts': map<string, nat>, order': seq<string>)
    requires counts == WordCounts(seen) && KeyOrder(order, counts)
    ensures counts' == WordCounts(seen + doc) && KeyOrder(order', counts')
  {
    counts', order' := counts, order;
    var k := 0;
    assert seen + doc[..0] == seen;
    while k < |doc|
      invariant 0 <= k <= |doc|
      invariant counts' == WordCounts(seen + doc[..k])
      invariant KeyOrder(order', counts')
    {
      var word := doc[k];
      if word !in counts' && |word| > 0 {
        counts' := counts'[word := 1];
        order' := order' + [word];
      } else if |word| > 0 {
        counts' := counts'[word := counts'[word] + 1];
      }
      assert (seen + doc[..k + 1])[..|seen| + k] == seen + doc[..k];
      k := k + 1;
    }
    assert doc[..k] == doc;
  }

  /** The loop over the files of one subdirectory (lines 33-40), counting into `counts`. */
  method CountFolder(counts: map<string, nat>, order: seq<string>, ghost seen: seq<string>, files: seq<Doc>)
    returns (counts': map<string, nat>, order': seq<string>)
    requires counts == WordCounts(seen) && KeyOrder(order, counts)
    ensures counts' == WordCounts(seen + FilesLines(files)) && KeyOrder(order', counts')
  {
    counts', order' := counts, order;
    var j := 0;
    assert files[..0] == [];
    assert seen + FilesLines(files[..0]) == seen;
    while j < |files|
      invariant 0 <= j <= |files|
      invariant counts' == WordCounts(seen + FilesLines(files[..j])) && KeyOrder(order', counts')
    {
      counts', order' := CountDocument(counts', order', seen + FilesLines(files[..j]), files[j]);
      assert files[..j + 1][..j] == files[..j];
      assert FilesLines(files[..j + 1]) == FilesLines(files[..j]) + files[j];
      assert seen + FilesLines(files[..j + 1]) == seen + FilesLines(files[..j]) + files[j];
      j := j + 1;
    }
    assert files[..j] == files;
  }

  /** `create_vocabulary(directory, cutoff)`. */
  method CreateVocabulary(corpus: Corpus, cutoff: int) returns (vocab: seq<string>)
    requires WellNamed(corpus)
    ensures StrictlyAscending(vocab)
    ensures forall w :: w in vocab <==> Frequent(corpus, cutoff, w)
  {
    var counts: map<string, nat> := map[];
    var order: seq<string> := [];
    var i := 0;
    while i < |corpus|
      invariant 0 <= i <= |corpus|
      invariant counts == WordCounts(CorpusLines(corpus[..i])) && KeyOrder(order, counts)
    {
      counts, order := CountFolder(counts, order, CorpusLines(corpus[..i]), corpus[i].files);
      assert corpus[..i + 1][..i] == corpus[..i];
      i := i + 1;
    }
    assert corpus[..i] == corpus;
    vocab := SortStrings(Kept(order, counts, cutoff));
    FilterAndSort(corpus, cutoff, order, counts);
  }

  /** The comprehension and `sorted` of line 41 keep exactly the frequent words, in ascending order. */
  lemma FilterAndSort(corpus: Corpus, cutoff: int, order: seq<string>, counts: map<string, nat>)
    requires counts == WordCounts(CorpusLines(corpus)) && KeyOrder(order, counts)
    ensures StrictlyAscending(SortStrings(Kept(order, counts, cutoff)))
    ensures forall w :: w in SortStrings(Kept(order, counts, cutoff)) <==> Frequent(corpus, cutoff, w)
  {
    var kept := Kept(order, counts, cutoff);
    SortDistinct(kept);
    WordCountsOcc(CorpusLines(corpus));
    forall w ensures w in kept <==> Frequent(corpus, cutoff, w) {
      if w in counts {
        assert counts[w] == Occ(CorpusLines(corpus), w);
      }
    }
  }

  /** The vocabulary is determined by the corpus and the cutoff: the contract of `CreateVocabulary` has one solution. */
  lemma VocabularyDetermined(corpus: Corpus, cutoff: int, v1: seq<string>, v2: seq<string>)
    requires StrictlyAscending(v1) && forall w :: w in v1 <==> Frequent(corpus, cutoff, w)
    requires StrictlyAscending(v2) && forall w :: w in v2 <==> Frequent(corpus, cutoff, w)
    ensures v1 == v2
  {
    AscendingUnique(v1, v2);
  }
}
