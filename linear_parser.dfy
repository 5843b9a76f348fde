/** The parser of the linear-design shell (rshell/Parser.cpp): one pass over
    the tokens that grows a chain of nodes, writing the program and the
    arguments of the last node and appending a new node at each `;`, `&&`
    and `||`.  The pure functions below are the specification; the class
    `Parser` is the loop of `apply`, proved equal to them. */
module LinearParser {
  import opened Wrappers
  import opened RshellTokens
  import opened LinearCommand

  /** The chain once the loop has made sure it has a head: an InitialCommand
      with no program is created before the first token is looked at. */
  function Started(chain: Chain): (r: Chain)
    ensures r != [] && (chain != [] ==> r == chain)
    ensures chain == [] ==> r == [Node(Initial, "", [])]
  {
    if chain == [] then [Node(Initial, "", [])] else chain
  }

  /** The node class a connective token appends. */
  function LinkOf(kind: TokenType): Link
    requires kind == Sequence || kind == Conjunction || kind == Disjunction
  {
    match kind
    case Sequence => Sequential
    case Conjunction => Conjunctive
    case Disjunction => Disjunctive
  }

  /** The chain with its last node replaced. */
  function WithLast(chain: Chain, node: Node): (r: Chain)
    requires chain != []
    ensures |r| == |chain| && r[|r| - 1] == node
    ensures forall k :: 0 <= k < |chain| - 1 ==> r[k] == chain[k]
  {
    chain[|chain| - 1 := node]
  }

  /** One iteration of the loop of `apply`: the last node is the current
      one. */
  function Step(chain: Chain, token: Token): Result<Chain>
  {
    var c := Started(chain);
    var last := c[|c| - 1];
    if last.program == "" then
      if token.kind != Word then Err("command must start with word")
      else Ok(WithLast(c, Node(last.link, token.text, last.arguments)))
    else if token.kind == Word then
      Ok(WithLast(c, Node(last.link, last.program, last.arguments + [token.text])))
    else if token.kind == Sequence || token.kind == Conjunction || token.kind == Disjunction then
      Ok(c + [Node(LinkOf(token.kind), "", [])])
    else
      Err("unexpected token")
  }

  /** The loop over the rest of the tokens; the first exception ends it. */
  function Run(chain: Chain, tokens: seq<Token>): Result<Chain>
    decreases |tokens|
  {
    if tokens == [] then Ok(chain)
    else
      var r := Step(chain, tokens[0]);
      if r.Err? then Err(r.message) else Run(r.value, tokens[1..])
  }

  /** `Parser::apply`: the empty chain stands for the null pointer returned
      for no tokens. */
  function Parse(tokens: seq<Token>): Result<Chain>
  {
    Run([], tokens)
  }

  class Parser {
    const tokens: seq<Token>

    constructor(tokens: seq<Token>)
      ensures this.tokens == tokens
    {
      this.tokens := tokens;
    }

    /** The loop of `apply`, with the chain as a sequence and `current` the
        index of the node the pointer designates. */
    method Apply() returns (r: Result<Chain>)
      ensures r == Parse(tokens)
    {
      var chain: Chain := [];
      var current: nat := 0;
      var i := 0;
      while i < |tokens|
        invariant 0 <= i <= |tokens|
        invariant chain != [] ==> current == |chain| - 1
        invariant Run(chain, tokens[i..]) == Parse(tokens)
      {
        var token := tokens[i];
        assert tokens[i..][0] == token && tokens[i..][1..] == tokens[i + 1..];
        ghost var before := chain;
        if chain == [] {
          chain := [Node(Initial, "", [])];
          current := 0;
        }
        var node := chain[current];
        if node.program == "" {
          if token.kind != Word {
            return Err("command must start with word");
          }
          chain := chain[current := Node(node.link, token.text, node.arguments)];
        } else if token.kind == Word {
          chain := chain[current := Node(node.link, node.program, node.arguments + [token.text])];
        } else if token.kind == Sequence {
          chain := chain + [Node(Sequential, "", [])];
          current := current + 1;
        } else if token.kind == Conjunction {
          chain := chain + [Node(Conjunctive, "", [])];
          current := current + 1;
        } else if token.kind == Disjunction {
          chain := chain + [Node(Disjunctive, "", [])];
          current := current + 1;
        } else {
          return Err("unexpected token");
        }
        assert Step(before, token) == Ok(chain);
        i := i + 1;
      }
      r := Ok(chain);
    }
  }
}
