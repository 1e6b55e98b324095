/**
 `load_training_data`: one labelled bag of words per training file.
 */
module Dataset {

  import opened Corpus
  import opened BagOfWords

  /** One training example: the `{'label': ..., 'bow': ...}` dictionary; `category` is its `'label'`. */
  datatype Example = Example(category: string, bow: Bow)

  /** The label of a subdirectory: its name without the one trailing `/` it may have. */
  function LabelOf(name: string): (cat: string)
    requires name != ""
    ensures cat == name || cat + "/" == name
    ensures name[|name| - 1] != '/' ==> cat == name
    ensures name[|name| - 1] == '/' ==> cat + "/" == name
  {
    if name[|name| - 1] == '/' then name[..|name| - 1] else name
  }

  /** The examples of one subdirectory, file by file. */
  function FolderExamples(vocab: seq<string>, folder: Folder): seq<Example>
    requires folder.name != ""
  {
    seq(|folder.files|, j requires 0 <= j < |folder.files| =>
      Example(LabelOf(folder.name), Histogram(vocab, folder.files[j])))
  }

  /** The examples of the whole directory, subdirectory by subdirectory. */
  function Examples(vocab: seq<string>, corpus: Corpus): seq<Example>
    requires WellNamed(corpus)
  {
    if |corpus| == 0 then []
    else Examples(vocab, corpus[..|corpus| - 1]) + FolderExamples(vocab, corpus[|corpus| - 1])
  }

  /** One example per file. */
  lemma {:induction false} ExamplesCount(vocab: seq<string>, corpus: Corpus)
    requires WellNamed(corpus)
    ensures |Examples(vocab, corpus)| == FileCount(corpus)
  {
    if |corpus| > 0 {
      ExamplesCount(vocab, corpus[..|corpus| - 1]);
    }
  }

  /** Each example is the bag of words of some file, labelled after that file's subdirectory. */
  lemma {:induction false} ExampleOrigin(vocab: seq<string>, corpus: Corpus, n: nat)
    requires WellNamed(corpus) && n < |Examples(vocab, corpus)|
    ensures exists i, j :: (0 <= i < |corpus| && 0 <= j < |corpus[i].files| &&
      Examples(vocab, corpus)[n] == Example(LabelOf(corpus[i].name), Histogram(vocab, corpus[i].files[j])))
  {
    var last := |corpus| - 1;
    var init := Examples(vocab, corpus[..last]);
    if n < |init| {
      ExampleOrigin(vocab, corpus[..last], n);
      var i, j :| 0 <= i < last && 0 <= j < |corpus[..last][i].files| &&
        init[n] == Example(LabelOf(corpus[..last][i].name), Histogram(vocab, corpus[..last][i].files[j]));
      assert corpus[..last][i] == corpus[i];
    } else {
      var j := n - |init|;
      assert Examples(vocab, corpus)[n] == FolderExamples(vocab, corpus[last])[j];
    }
  }

  /** The bags of words in an example list are all keyed by words of `vocab` and `None`. */
  ghost predicate KeyedBy(vocab: seq<string>, data: seq<Example>)
  {
    forall n, k :: 0 <= n < |data| && k in data[n].bow && k.Word? ==> k.word in vocab
  }

  /** Bags built from a vocabulary mention no other word. */
  lemma {:induction false} ExamplesKeyed(vocab: seq<string>, corpus: Corpus)
    requires WellNamed(corpus)
    ensures KeyedBy(vocab, Examples(vocab, corpus))
  {
    forall n, k | 0 <= n < |Examples(vocab, corpus)| && k in Examples(vocab, corpus)[n].bow && k.Word?
      ensures k.word in vocab
    {
      ExampleOrigin(vocab, corpus, n);
      var i, j :| 0 <= i < |corpus| && 0 <= j < |corpus[i].files| &&
        Examples(vocab, corpus)[n] == Example(LabelOf(corpus[i].name), Histogram(vocab, corpus[i].files[j]));
      HistogramCounts(vocab, corpus[i].files[j]);
      assert Word(k.word) == k;
    }
  }

  /** `load_training_data(vocab, directory)`. */
  method LoadTrainingData(vocab: seq<string>, corpus: Corpus) returns (dataset: seq<Example>)
    requires WellNamed(corpus)
    ensures dataset == Examples(vocab, corpus)
    ensures |dataset| == FileCount(corpus)
    ensures KeyedBy(vocab, dataset)
  {
    dataset := [];
    var i := 0;
    while i < |corpus|
      invariant 0 <= i <= |corpus|
      invariant dataset == Examples(vocab, corpus[..i])
    {
      var d := corpus[i].name;
      var cat := if d[|d| - 1] == '/' then d[..|d| - 1] else d;
      var files := corpus[i].files;
      ghost var before := dataset;
      var j := 0;
      while j < |files|
        invariant 0 <= j <= |files|
        invariant dataset == before + FolderExamples(vocab, corpus[i])[..j]
      {
        var bow := CreateBow(vocab, files[j]);
        dataset := dataset + [Example(cat, bow)];
        assert FolderExamples(vocab, corpus[i])[..j + 1] == FolderExamples(vocab, corpus[i])[..j] + [Example(cat, bow)];
        j := j + 1;
      }
      assert FolderExamples(vocab, corpus[i])[..j] == FolderExamples(vocab, corpus[i]);
      assert corpus[..i + 1][..i] == corpus[..i];
      i := i + 1;
    }
    assert corpus[..i] == corpus;
    ExamplesCount(vocab, corpus);
    ExamplesKeyed(vocab, corpus);
  }
}
