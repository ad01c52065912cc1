/** Failure-carrying values shared by the whole model: the Python exceptions the
    pipeline raises or lets through, the result of a step that may raise, and
    the state of a JSON file as the next `json.load` of it would see it. */
module Outcomes {

  datatype Option<+T> = None | Some(value: T)

  /** The exception classes that matter to the modelled control flow. */
  datatype Exception =
    | ValueError       // an explicit `raise ValueError`, including a falsy backend reply
    | RuntimeError     // every backend failure, and `eval_process`' wrapper of unexpected errors
    | OSError          // a file that exists but cannot be opened or read
    | LookupError      // a dataset column shorter than the `question` column
    | ClassifierError  // the classification oracle failed or its output did not parse

  /** The value a call returns, or the exception it raises. */
  datatype Result<+T> = Ok(value: T) | Err(error: Exception)

  /** What loading a JSON file yields; after a helper runs, what the next load yields. */
  datatype FileState<+T> =
    | Missing      // the path does not exist (`FileNotFoundError`)
    | Corrupt      // the content is not JSON (`json.JSONDecodeError`)
    | Mistyped     // valid JSON whose root is not the container the helper expects
    | Unreadable   // any other failure opening or reading the path
    | Parsed(doc: T)

  /** A file the document helpers can update: absent (they start from an empty
      document) or holding a document of the expected shape. */
  predicate Usable<T>(file: FileState<T>) {
    file.Missing? || file.Parsed?
  }
}
