/**
 The training directory, as data.

 The classifier reads a directory with one subdirectory per label and one file
 per document, each file holding one word per line. Here a document is the
 list of its lines, already stripped of surrounding whitespace, and the
 directory is the list of its subdirectories, each with the name the
 directory listing gave it and its documents. Listing order does not matter
 to any count below.
 */
module Corpus {

  /** The stripped lines of one file. */
  type Doc = seq<string>

  /** One subdirectory: its name as listed (with or without a trailing `/`) and its files. */
  datatype Folder = Folder(name: string, files: seq<Doc>)

  /** The training directory: its subdirectories. */
  type Corpus = seq<Folder>

  /** Indexing a name with `[-1]` needs it to be non-empty, which directory entries always are. */
  predicate WellNamed(corpus: Corpus)
  {
    forall i :: 0 <= i < |corpus| ==> corpus[i].name != ""
  }

  /** Every line of the files, file after file. */
  function FilesLines(files: seq<Doc>): seq<string>
  {
    if |files| == 0 then []
    else FilesLines(files[..|files| - 1]) + files[|files| - 1]
  }

  /** Every line of every file of every subdirectory. */
  function CorpusLines(corpus: Corpus): seq<string>
  {
    if |corpus| == 0 then []
    else CorpusLines(corpus[..|corpus| - 1]) + FilesLines(corpus[|corpus| - 1].files)
  }

  /** Number of files in the whole directory. */
  function FileCount(corpus: Corpus): nat
  {
    if |corpus| == 0 then 0
    else FileCount(corpus[..|corpus| - 1]) + |corpus[|corpus| - 1].files|
  }
}
