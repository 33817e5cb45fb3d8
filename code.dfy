/** The records the word-count pipeline passes between its stages (code/code.go). */
module Code {
  import opened Wrappers
  import opened Ast

  newtype Byte = b: int | 0 <= b < 256

  /**
   * Go's `*token.FileSet`: the position bookkeeping shared by the files of one
   * parse run.  Only its identity is modelled.
   */
  class FileSet {
    /** `token.NewFileSet()`. */
    constructor () { }
  }

  datatype Repository = Repository(
    name: string,
    url: string,
    hash: string,
    dateCreated: string,
    error: Option<Err>)

  /** One source file: its name, raw bytes, syntax tree, file set and error (each nil-able). */
  datatype File = File(
    name: string,
    raw: seq<Byte>,
    ast: Option<Node>,
    fileSet: Option<FileSet>,
    error: Option<Err>)

  function Names(files: seq<File>): seq<string>
  {
    seq(|files|, i requires 0 <= i < |files| => files[i].name)
  }

  /** The syntax trees of `files`, in order; `None` where a file has a nil AST. */
  function Trees(files: seq<File>): seq<Option<Node>>
  {
    seq(|files|, i requires 0 <= i < |files| => files[i].ast)
  }
}
