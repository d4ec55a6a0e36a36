/** Ciphers that run one round function over a list of round keys. */
module Rounds {
  import opened Words64

  type RoundFunction = (Block, Word) -> Block

  /** The two functions undo each other, whatever the round key. */
  ghost predicate Inverse(f: RoundFunction, g: RoundFunction) {
    forall b, k :: g(f(b, k), k) == b && f(g(b, k), k) == b
  }

  function Run(f: RoundFunction, b: Block, ks: seq<Word>): Block {
    if ks == [] then b else f(Run(f, b, ks[..|ks| - 1]), ks[|ks| - 1])
  }

  /** The last key first. */
  function RunBack(g: RoundFunction, b: Block, ks: seq<Word>): Block
    decreases |ks|
  {
    if ks == [] then b else RunBack(g, g(b, ks[|ks| - 1]), ks[..|ks| - 1])
  }

  lemma OneRound(f: RoundFunction, g: RoundFunction, b: Block, k: Word)
    requires Inverse(f, g)
    ensures g(f(b, k), k) == b && f(g(b, k), k) == b
  {
  }

  /** Rounds that can be undone one by one can be undone together, from both sides. */
  lemma {:induction false} RunInverse(f: RoundFunction, g: RoundFunction, b: Block, ks: seq<Word>)
    requires Inverse(f, g)
    ensures RunBack(g, Run(f, b, ks), ks) == b
    ensures Run(f, RunBack(g, b, ks), ks) == b
    decreases |ks|
  {
    if ks != [] {
      var front, k := ks[..|ks| - 1], ks[|ks| - 1];
      RunInverse(f, g, b, front);
      OneRound(f, g, Run(f, b, front), k);
      RunInverse(f, g, g(b, k), front);
      OneRound(f, g, b, k);
    }
  }

  lemma RunStep(f: RoundFunction, b: Block, ks: seq<Word>, i: nat)
    requires i < |ks|
    ensures Run(f, b, ks[..i + 1]) == f(Run(f, b, ks[..i]), ks[i])
  {
    assert ks[..i + 1][..i] == ks[..i];
  }
}
