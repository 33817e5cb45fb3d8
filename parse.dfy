/**
 * The parsing stage and the collector (adapter/wordcount/parse.go).  Go's
 * `parser.ParseFile` is not part of this model: it is the `Parser` function the
 * caller supplies, giving a (nil-able) tree and a (nil-able) error for a file's
 * name and bytes.  Nothing ties the two together, so a file may carry both.
 */
module Parse {
  import opened Wrappers
  import opened Ast
  import opened Code

  datatype ParseOutcome = ParseOutcome(ast: Option<Node>, err: Option<Err>)

  type Parser = (string, seq<Byte>) -> ParseOutcome

  /** One file after the stage: tree, file set and error overwritten, name and bytes kept. */
  function Parsed(parser: Parser, fset: FileSet, file: File): File
  {
    var outcome := parser(file.name, file.raw);
    file.(ast := outcome.ast, fileSet := Some(fset), error := outcome.err)
  }

  function ParsedAll(parser: Parser, fset: FileSet, files: seq<File>): seq<File>
  {
    seq(|files|, i requires 0 <= i < |files| => Parsed(parser, fset, files[i]))
  }

  /** The trees the parser gives for `files`, in order. */
  function ParsedTrees(parser: Parser, files: seq<File>): seq<Option<Node>>
  {
    seq(|files|, i requires 0 <= i < |files| => parser(files[i].name, files[i].raw).ast)
  }

  /** The goroutine of `Parse`: one parsed file sent per file received, in order. */
  method ParseStream(fset: FileSet, filesc: seq<File>, parser: Parser) returns (parsedc: seq<File>)
    ensures parsedc == ParsedAll(parser, fset, filesc)
  {
    parsedc := [];
    for i := 0 to |filesc|
      invariant |parsedc| == i
      invariant forall k :: 0 <= k < i ==> parsedc[k] == Parsed(parser, fset, filesc[k])
    {
      var file := filesc[i];
      var outcome := parser(file.name, file.raw);
      file := file.(ast := outcome.ast);
      file := file.(fileSet := Some(fset));
      file := file.(error := outcome.err);
      parsedc := parsedc + [file];
    }
  }

  /** `Parse`: one new file set, shared by every file of the stream. */
  method Parse(filesc: seq<File>, parser: Parser) returns (parsedc: seq<File>, ghost fset: FileSet)
    ensures fresh(fset)
    ensures parsedc == ParsedAll(parser, fset, filesc)
  {
    var shared := new FileSet();
    fset := shared;
    parsedc := ParseStream(shared, filesc, parser);
  }

  /** `Merge`: drain the stream into a slice, in arrival order. */
  method Merge(parsedc: seq<File>) returns (files: seq<File>)
    ensures files == parsedc
  {
    files := [];
    for i := 0 to |parsedc|
      invariant files == parsedc[..i]
    {
      files := files + [parsedc[i]];
    }
    assert parsedc[..|parsedc|] == parsedc;
  }

  /**
   * One output per input, in order; name and bytes kept; tree and error are the
   * parser's for that file alone (a read error from cloning is discarded); every
   * file carries the same file set.
   */
  lemma ParseOverwritesTreeAndError(parser: Parser, fset: FileSet, files: seq<File>)
    ensures |ParsedAll(parser, fset, files)| == |files|
    ensures forall i :: 0 <= i < |files| ==>
              var p := ParsedAll(parser, fset, files)[i];
              && p.name == files[i].name
              && p.raw == files[i].raw
              && p.ast == parser(files[i].name, files[i].raw).ast
              && p.error == parser(files[i].name, files[i].raw).err
              && p.fileSet == Some(fset)
  {
  }

  /** Each file is parsed on its own: a syntax error in one stops none of the others. */
  lemma ParsedAllAppend(parser: Parser, fset: FileSet, a: seq<File>, b: seq<File>)
    ensures ParsedAll(parser, fset, a + b) == ParsedAll(parser, fset, a) + ParsedAll(parser, fset, b)
  {
    var whole := ParsedAll(parser, fset, a + b);
    var parts := ParsedAll(parser, fset, a) + ParsedAll(parser, fset, b);
    assert |whole| == |parts|;
    forall i | 0 <= i < |whole|
      ensures whole[i] == parts[i]
    {
      if i < |a| {
        assert (a + b)[i] == a[i];
      } else {
        assert (a + b)[i] == b[i - |a|];
      }
    }
  }

  /** The trees of the parsed stream do not depend on which file set it shares. */
  lemma ParsedTreesOfStream(parser: Parser, fset: FileSet, files: seq<File>)
    ensures Trees(ParsedAll(parser, fset, files)) == ParsedTrees(parser, files)
  {
  }
}
