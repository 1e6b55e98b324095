# Two-label Naive Bayes document classifier, modelled in Dafny

This project models `classify/classify.py`. That file holds a bag-of-words Naive Bayes classifier for
documents labelled "2016" or "2020". A document is a file with one word per line.

- **Vocabulary** (`create_vocabulary`): it counts every non-empty stripped line of every training
  file. It keeps the words seen at least `cutoff` times and returns them sorted.
- **Bag of words** (`create_bow`): it counts each line of one file under its word when the word is
  in the vocabulary. Every other line goes under the key `None`, and that includes blank lines.
- **Training data** (`load_training_data`): it makes one example per file. The label is the name of
  the file's subdirectory, without one trailing `/`.
- **Estimates** (`prior`, `p_word_given_label`): these use add-one smoothing. The prior of a label is
  (count + 1) / (documents + 2). For each vocabulary word and for `None`, the conditional estimate
  is (count + 1) / (wordCount + |V| + 1).
- **Classification** (`classify`): the score of a label is its log prior plus, for each key in both
  the model and the bag, the key's weight times its count. The prediction is "2016" only when its
  score is strictly greater, so a tie gives "2020".

The Python works by updating dictionaries in loops. Each of its functions is therefore a Dafny
`method` with `while` loops and invariants. Each method is proved against a specification function:
`WordCounts`, `Histogram`, `Examples`, `PriorOf`, `ConditionalOf` and `Score`. Lemmas prove the
properties of those functions.

How the model represents the Python:

- A file is the sequence of its lines, already stripped. The training directory is a sequence of
  `Folder(name, files)`.
- The `None` key is the `Oov` constructor of `Key`.
- Each log-probability `log(a) - log(b)` is kept exactly as `LogRatio(a, b)`.
- `classify` takes the logarithm as a parameter `ln: nat -> real` and adds exact reals.

Modules, one per file:

- `Counting`: counts in sequences, sums of count maps, add-one smoothing of a count map.
- `Lexicographic`: Python's string order, and `sorted` as an insertion sort.
- `Corpus`: the training directory as data.
- `Vocabulary`, `BagOfWords`, `Dataset`, `Estimator`, `Classifier`: the components listed above.

Behaviour of the code worth noting:

- Blank lines are counted in the `None` bucket, so a bag's counts add up to all lines of the file,
  not to the non-empty ones (`HistogramTotal`).
- With an empty vocabulary, no `None` weight is written, because line 114 sits inside the loop over
  the vocabulary. Every document then scores its prior alone, with no out-of-vocabulary term
  (`PWordGivenLabel`, `Classify`).
- The prior is written for exactly the two labels "2016" and "2020", with denominator
  documents + 2. It does not generalise to an arbitrary label set.

## Model

| member | source | states |
|---|---|---|
| `Lexicographic.LexLessIrreflexive` | classify/classify.py:41 | no string sorts before itself under Python's string order |
| `Lexicographic.LexLessTransitive` | classify/classify.py:41 | Python's string order is transitive |
| `Lexicographic.LexLessTotal` | classify/classify.py:41 | any two different strings are ordered one way or the other |
| `Lexicographic.SortStrings` | classify/classify.py:41 | `sorted` returns an ascending list that is a permutation of its input (same multiset) |
| `Lexicographic.SortDistinct` | classify/classify.py:41 | sorting a list without duplicates gives a strictly ascending list with exactly the same members |
| `Lexicographic.AscendingUnique` | classify/classify.py:41 | two strictly ascending lists with the same members are equal, so the sorted vocabulary is determined by its members |
| `Vocabulary.WordCountsOcc` | classify/classify.py:35-40 | the counter holds exactly the non-empty words that occur, each with its number of line occurrences |
| `Vocabulary.CountDocument` | classify/classify.py:35-40 | reading one file extends the counter to the counts of all lines read so far, and keeps its insertion order free of duplicates |
| `Vocabulary.CountFolder` | classify/classify.py:32-40 | reading the files of one subdirectory extends the counter by every line of those files |
| `Vocabulary.Kept` | classify/classify.py:41 | the comprehension keeps exactly the counted words whose count reaches the cutoff, with no duplicates |
| `Vocabulary.FilterAndSort` | classify/classify.py:41 | filtering and then sorting gives a strictly ascending list of exactly the frequent words |
| `Vocabulary.CreateVocabulary` | classify/classify.py:23-41 | the vocabulary is strictly ascending and holds a word exactly when it is non-empty and occurs at least once and at least `cutoff` times across all files |
| `Vocabulary.CutoffMonotone` | classify/classify.py:41 | raising the cutoff only removes words from the vocabulary |
| `Vocabulary.VocabularyDetermined` | classify/classify.py:23-41 | only one list meets the vocabulary's contract, so equal inputs give equal vocabularies |
| `BagOfWords.HistogramCounts` | classify/classify.py:50-62 | a word is a key exactly when it is in the vocabulary and occurs, stored with its occurrence count; `None` is a key exactly when some line is outside the vocabulary, stored with the number of such lines; every stored count is at least 1 |
| `BagOfWords.HistogramTotal` | classify/classify.py:50-62 | the counts of a bag, `None` included, add up to the number of lines in the file, blank lines included |
| `BagOfWords.BlankLinesAreOov` | classify/classify.py:53-58 | when the vocabulary has no empty word, every blank line is counted under `None` |
| `BagOfWords.CreateBow` | classify/classify.py:44-66 | the bag is the histogram of the file over the vocabulary; its counts sum to the number of lines; every word key is a vocabulary member with count at least 1; an empty file gives an empty map |
| `Dataset.LabelOf` | classify/classify.py:10-15 | a name ending in `/` loses exactly that `/` (the label followed by `/` is the name); a name without a trailing `/` is kept unchanged |
| `Dataset.ExamplesCount` | classify/classify.py:16-19 | there is one example per file |
| `Dataset.ExampleOrigin` | classify/classify.py:9-19 | each example is the bag of some file, labelled with that file's subdirectory name minus a trailing `/` |
| `Dataset.ExamplesKeyed` | classify/classify.py:18 | bags built from a vocabulary use no word key outside it |
| `Dataset.LoadTrainingData` | classify/classify.py:5-20 | the dataset is the examples of the directory, subdirectory by subdirectory and file by file; it has one example per file, and its bags use only vocabulary words and `None` |
| `Estimator.LabelCountsCover` | classify/classify.py:79-84 | when every example is labelled "2016" or "2020", the two label counts add up to the number of examples |
| `Estimator.PriorsSumToOne` | classify/classify.py:86-87 | with two labels, both priors share the denominator total + 2, and their numerators add up to it |
| `Estimator.Prior` | classify/classify.py:69-89 | each label's prior is (examples with that label + 1) over (all examples + 2), for exactly the keys "2016" and "2020"; with two labels the numerators sum to the denominator |
| `Estimator.TallyTotal` | classify/classify.py:103-108 | the per-key counts summed over a label's examples add up to that label's `wordCount` |
| `Estimator.TallyKeys` | classify/classify.py:105-110 | when the bags use only vocabulary words and `None`, so does the label's tally |
| `Estimator.KeySpaceSize` | classify/classify.py:112-114 | a vocabulary without duplicates gives one key per word, plus `None` when it is non-empty |
| `Estimator.ConditionalSumsToOne` | classify/classify.py:112-114 | every entry has denominator wordCount + \|V\| + 1, and the numerators over V and `None` add up to that denominator |
| `Estimator.AddExample` | classify/classify.py:105-110 | adding one example's bag adds each word's count to the word, the `None` count to `none_count`, and the bag's total to `wordCount` |
| `Estimator.SmoothCounts` | classify/classify.py:112-114 | each vocabulary word gets (count + 1) / (wordCount + \|V\| + 1); `None` gets (none_count + 1) over the same denominator, only when the vocabulary is non-empty |
| `Estimator.PWordGivenLabel` | classify/classify.py:92-116 | the result gives every key of V, plus `None` when V is non-empty, the value (label count + 1) / (wordCount + \|V\| + 1); an empty vocabulary gives an empty map; otherwise the numerators sum to the denominator |
| `Classifier.Train` | classify/classify.py:119-138 | the model holds the vocabulary of the directory, the priors and the two conditional maps estimated from that vocabulary's examples; an empty vocabulary gives empty conditional maps |
| `Classifier.ScoreRemove` | classify/classify.py:156-162 | a score does not depend on the order in which the keys are visited |
| `Classifier.ScoreOfEmptyBow` | classify/classify.py:156-162 | an empty bag scores 0 |
| `Classifier.ScoreCommonKeys` | classify/classify.py:156-162 | only keys present in both the model map and the bag contribute to a score |
| `Classifier.WeightedSum` | classify/classify.py:156-162 | the loop adds weight × count over the model's keys found in the bag; an empty bag or an empty model map gives 0 |
| `Classifier.Classify` | classify/classify.py:141-173 | each label's score is its log prior plus the weighted sum over the document's bag; the prediction is "2016" exactly when its score is strictly greater, and "2020" otherwise, ties included; an empty document or an empty model map scores the prior alone |

## Left out

- File access is not modelled: `os.listdir`, `open` and UTF-8 decoding (lines 7, 16, 28, 32, 34, 49-50, 64). Files are given as sequences of lines and the directory as a sequence of folders; listing order does not affect any count.
- `str.strip` is not modelled: lines are taken as already stripped, since Python's exact whitespace set plays no part in the counting.
- `math.log` and floating point (lines 86-87, 113-114, 158, 162) are not modelled: estimates are exact `LogRatio` pairs, and `Classify` takes the logarithm as a parameter and adds exact reals. Float rounding, and the dependence of a float sum on dictionary order, are not captured.
- The module-level `print(create_vocabulary('./EasyFiles/', 1))` (line 175) is an I/O side effect and is not modelled.
- The unused `label_list` parameter of `prior` and the `os.listdir` that produces it in `train` (lines 69, 129) are not modelled.
- The second, identical `create_vocabulary` call in `train` (lines 130-131) is merged with the first. The result is deterministic (`VocabularyDetermined`).
- Python iterates dictionaries in insertion order. The loops over a bag and over a model map visit keys in an arbitrary order here. The sums do not depend on that order (`ScoreRemove`, `MapSumRemove`).
- `p_word_given_label` reuses one dictionary, first for counts and then for log values. The model keeps the counts and the resulting `LogRatio` map apart.
- PWordGivenLabel: requires a vocabulary without duplicates. With a repeated word, line 113 would take the logarithm of an entry it had already converted. `create_vocabulary` never returns duplicates.
- The `KeyError` of line 110, raised when a bag holds a word outside the vocabulary, is not modelled: `PWordGivenLabel` requires `KeyedFor`, which bags built by `create_bow` from the same vocabulary always meet (`LoadTrainingData`).
- The `KeyError` of lines 150-151, raised when the model lacks a prior for "2016" or "2020", is not modelled: `Classify` requires both keys, and `prior` always writes both (`Prior`).
- The `IndexError` of `d[-1]` on an empty subdirectory name (lines 10 and 31) is not modelled: `WellNamed` requires every name to be non-empty, which directory listings always are.
