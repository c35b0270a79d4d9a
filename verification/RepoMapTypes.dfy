/** The entities of the repository map. */
module RepoMapTypes {

  datatype Symbol = Symbol(name: string, kind: string, file: string, line: int, endLine: int)

  datatype ScoredSymbol = ScoredSymbol(symbol: Symbol, score: real, inDegree: nat)

  /** One file: what it defines and the names it refers to. */
  datatype FileSymbols = FileSymbols(file: string, defs: seq<Symbol>, refs: seq<string>)
}
