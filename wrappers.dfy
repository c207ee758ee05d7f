/** Failure-compatible wrappers shared by every module of the model, and the
    kinds of exception the retrieval engine raises. */
module Wrappers {

  datatype Option<+T> = None | Some(value: T)

  /** The exceptions of the retrieval core, one constructor per raise site kind. */
  datatype Error =
    | EmptyCorpus               // ValueError("Corpus cannot be empty")
    | TopKTooSmall              // ValueError("top_k must be at least 1")
    | UnknownIndexType          // save: ValueError for a class outside the type-tag table
    | UnsupportedExtension      // save/load: ValueError for a suffix other than .json/.pkl
    | Undecodable               // load: json/pickle cannot decode the file's content
    | UnsupportedSavedLanguage  // load: ValueError for an unknown language tag
    | UnsupportedLanguage       // create_bm25: ValueError for an unknown selector
    | ZeroDivision              // ZeroDivisionError raised by a float division
    | IndexOutOfRange           // IndexError raised by a list subscript

  datatype Result<+T> = Ok(value: T) | Err(error: Error) {
    predicate IsFailure() { Err? }

    function PropagateFailure<U>(): Result<U>
      requires Err?
    {
      Err(error)
    }

    function Extract(): T
      requires Ok?
    {
      value
    }
  }
}
