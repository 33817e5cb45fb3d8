/**
 * Package `step` (adapter/wordcount/step/parse.go, adapter/wordcount/step/mine.go)
 * repeats `Parse`, `Merge` and `Mine` of package `wordcount` line for line; the
 * processor calls these copies.  Each one here does what its original does by
 * calling the model of that original, and promises the same.
 */
module Step {
  import opened Code
  import Stage = Parse
  import Miners = Mine

  method Parse(filesc: seq<File>, parser: Stage.Parser) returns (parsedc: seq<File>, ghost fset: FileSet)
    ensures fresh(fset)
    ensures parsedc == Stage.ParsedAll(parser, fset, filesc)
  {
    parsedc, fset := Stage.Parse(filesc, parser);
  }

  method Merge(parsedc: seq<File>) returns (files: seq<File>)
    ensures files == parsedc
  {
    files := Stage.Merge(parsedc);
  }

  method Mine<S>(parsed: seq<File>, miner: Miners.Miner<S>) returns (r: Miners.Miner<S>)
    modifies miner
    ensures r == miner
    ensures miner.state == Miners.Mined(miner.visitor.visit, old(miner.state), Trees(parsed))
  {
    r := Miners.Mine(parsed, miner);
  }
}
