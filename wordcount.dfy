/**
 * The orchestrator (adapter/wordcount/processor.go): clone, parse, merge, mine,
 * and report the miner's results.  Only a cloning failure is an error; it is
 * reported as `ErrCloningRepository` whatever the cloner said.  A parse error
 * on a file never makes extraction fail; a file for which the parser gives no
 * tree is not mined, and any tree it does give is mined, partial or not.
 */
module Wordcount {
  import opened Wrappers
  import opened Mine
  import Clone
  import Parse
  import Step

  const ErrCloningRepository := Err("Error while reading/cloning remote repository")

  datatype ProcessorConfig<S> = ProcessorConfig(cloner: Clone.Cloner, miner: Miner<S>)

  /** The outcome of `Extract(url)` for a miner that starts in state `initial`. */
  function Extraction<S>(url: string, cloner: Clone.Cloner, parser: Parse.Parser, visitor: Visitor<S>, initial: S)
    : Result<map<string, int>>
  {
    match Clone.Cloning(url, cloner)
    case Fail(_) => Fail(ErrCloningRepository)
    case Ok(cloned) => Ok(visitor.results(Mined(visitor.visit, initial, Parse.ParsedTrees(parser, cloned.files))))
  }

  datatype Processor<S> = Processor(config: ProcessorConfig<S>)
  {
    method Extract(url: string, parser: Parse.Parser) returns (r: Result<map<string, int>>)
      modifies config.miner
      ensures r == Extraction(url, config.cloner, parser, config.miner.visitor, old(config.miner.state))
      ensures r.Fail? ==> config.miner.state == old(config.miner.state)
      ensures r.Ok? ==> config.miner.state
                        == Mined(config.miner.visitor.visit, old(config.miner.state),
                                 Parse.ParsedTrees(parser, Clone.Cloning(url, config.cloner).value.files))
    {
      var cloned := Clone.Clone(url, config.cloner);
      if cloned.Fail? {
        return Fail(ErrCloningRepository);
      }
      ghost var fset;
      var parsedc;
      parsedc, fset := Step.Parse(cloned.value.files, parser);
      var files := Step.Merge(parsedc);
      var miningResults := Step.Mine(files, config.miner);
      Parse.ParsedTreesOfStream(parser, fset, cloned.value.files);
      return Ok(miningResults.Results());
    }
  }

  /**
   * Extraction fails exactly when cloning fails, always with the one sentinel
   * error; a parse error on any file never makes it fail.
   */
  lemma ExtractFailsOnlyWhenCloningFails<S>(url: string, cloner: Clone.Cloner, parser: Parse.Parser, visitor: Visitor<S>, initial: S)
    ensures Extraction(url, cloner, parser, visitor, initial).Fail? <==> Clone.Cloning(url, cloner).Fail?
    ensures Extraction(url, cloner, parser, visitor, initial).Fail? ==>
              Extraction(url, cloner, parser, visitor, initial).err == ErrCloningRepository
  {
  }

  /**
   * After a cloning failure nothing else matters: neither the parser, nor the
   * miner, nor the cloner's own error.
   */
  lemma CloningFailureHidesEverything<S>(
    url: string, cloner: Clone.Cloner, other: Clone.Cloner,
    parser: Parse.Parser, otherParser: Parse.Parser, visitor: Visitor<S>, initial: S, otherInitial: S)
    requires Clone.Cloning(url, cloner).Fail? && Clone.Cloning(url, other).Fail?
    ensures Extraction(url, cloner, parser, visitor, initial) == Extraction(url, other, otherParser, visitor, otherInitial)
  {
  }

  /** Files whose parse gives no tree contribute nothing to the results. */
  lemma ExtractMinesOnlyParsedTrees<S>(url: string, cloner: Clone.Cloner, parser: Parse.Parser, visitor: Visitor<S>, initial: S)
    requires Clone.Cloning(url, cloner).Ok?
    ensures Extraction(url, cloner, parser, visitor, initial)
            == Ok(visitor.results(Mined(visitor.visit, initial,
                    Present(Parse.ParsedTrees(parser, Clone.Cloning(url, cloner).value.files)))))
  {
    MinedSkipsNil(visitor.visit, initial, Parse.ParsedTrees(parser, Clone.Cloning(url, cloner).value.files));
  }

  /** A repository with no ".go" file completes with the results of an untouched miner. */
  lemma ExtractWithoutGoFiles<S>(url: string, cloner: Clone.Cloner, parser: Parse.Parser, visitor: Visitor<S>, initial: S)
    requires cloner.clone(url).Ok? && cloner.filenames.Ok?
    requires forall x :: x in cloner.filenames.value ==> !Clone.IsGoFile(x)
    ensures Extraction(url, cloner, parser, visitor, initial) == Ok(visitor.results(initial))
  {
    Clone.NoGoNames(cloner.filenames.value);
    assert Clone.Cloning(url, cloner).value.files == [];
    assert Parse.ParsedTrees(parser, []) == [];
  }

  /**
   * When the parser gives no tree for any file, extraction still succeeds, with
   * the results of an unvisited miner.
   */
  lemma ExtractWithoutTrees<S>(url: string, cloner: Clone.Cloner, parser: Parse.Parser, visitor: Visitor<S>, initial: S)
    requires Clone.Cloning(url, cloner).Ok?
    requires forall name, raw :: parser(name, raw).ast == None
    ensures Extraction(url, cloner, parser, visitor, initial) == Ok(visitor.results(initial))
  {
    var trees := Parse.ParsedTrees(parser, Clone.Cloning(url, cloner).value.files);
    NothingMinedWithoutTrees(visitor.visit, initial, trees);
  }
}
