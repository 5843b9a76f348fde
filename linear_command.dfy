/** The command chain of the linear-design shell (rshell/Command.hpp and
    the four classes derived from it).  A node holds a program, its
    arguments and the next node; the class of a node says when it runs
    after the command executed before it.  The chain is modelled as the
    sequence of its nodes, head first. */
module LinearCommand {

  /** The class of a node: InitialCommand heads every chain, the others
      follow `;`, `&&` and `||`. */
  datatype Link = Initial | Sequential | Conjunctive | Disjunctive

  datatype Node = Node(link: Link, program: string, arguments: seq<string>)

  type Chain = seq<Node>

  /** InitialCommand::shouldExecuteAfter */
  predicate InitialShouldExecuteAfter(previous: Node, exitCode: int)
  {
    false
  }

  /** SequentialCommand::shouldExecuteAfter */
  predicate SequentialShouldExecuteAfter(previous: Node, exitCode: int)
  {
    true
  }

  /** ConjunctiveCommand::shouldExecuteAfter */
  predicate ConjunctiveShouldExecuteAfter(previous: Node, exitCode: int)
  {
    exitCode == 0
  }

  /** DisjunctiveCommand::shouldExecuteAfter */
  predicate DisjunctiveShouldExecuteAfter(previous: Node, exitCode: int)
  {
    exitCode != 0
  }

  /** The virtual call `node.shouldExecuteAfter(previous, exitCode)`. */
  predicate ShouldExecuteAfter(node: Node, previous: Node, exitCode: int)
  {
    match node.link
    case Initial => InitialShouldExecuteAfter(previous, exitCode)
    case Sequential => SequentialShouldExecuteAfter(previous, exitCode)
    case Conjunctive => ConjunctiveShouldExecuteAfter(previous, exitCode)
    case Disjunctive => DisjunctiveShouldExecuteAfter(previous, exitCode)
  }

  /** No predicate looks at the command before, and each is a fixed test of
      the exit code. */
  lemma PredicatesIgnorePrevious(node: Node, p: Node, q: Node, exitCode: int)
    ensures ShouldExecuteAfter(node, p, exitCode) == ShouldExecuteAfter(node, q, exitCode)
    ensures node.link == Initial ==> !ShouldExecuteAfter(node, p, exitCode)
    ensures node.link == Sequential ==> ShouldExecuteAfter(node, p, exitCode)
    ensures node.link == Conjunctive ==> (ShouldExecuteAfter(node, p, exitCode) <==> exitCode == 0)
    ensures node.link == Disjunctive ==> (ShouldExecuteAfter(node, p, exitCode) <==> exitCode != 0)
  {
  }

  /** `||` runs its command exactly when `&&` would not. */
  lemma DisjunctionNegatesConjunction(p: Node, q: Node, exitCode: int)
    ensures DisjunctiveShouldExecuteAfter(p, exitCode) <==> !ConjunctiveShouldExecuteAfter(q, exitCode)
  {
  }
}
