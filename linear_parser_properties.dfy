/** What the linear-design parser promises: the shape of every chain it
    builds, a round trip over the chains it can build, and its two errors. */
module LinearParserProperties {
  import opened Wrappers
  import opened RshellTokens
  import opened LinearCommand
  import opened LinearParser

  /** A Word token. */
  function W(text: string): Token
  {
    Token(Word, text)
  }

  const SemiToken := Token(Sequence, ";")
  const AndToken := Token(Conjunction, "&&")
  const OrToken := Token(Disjunction, "||")

  predicate IsConnective(t: Token)
  {
    t.kind == Sequence || t.kind == Conjunction || t.kind == Disjunction
  }

  /** The number of connective tokens. */
  function Connectives(tokens: seq<Token>): nat
  {
    if tokens == [] then 0
    else (if IsConnective(tokens[0]) then 1 else 0) + Connectives(tokens[1..])
  }

  /** The shape of every chain the loop holds: an InitialCommand at the head
      and nowhere else; every node but the last has a program; a node still
      waiting for its program has no arguments. */
  predicate WellFormed(chain: Chain)
  {
    chain != [] ==>
      && chain[0].link == Initial
      && (forall k :: 0 < k < |chain| ==> chain[k].link != Initial)
      && (forall k :: 0 <= k < |chain| - 1 ==> chain[k].program != "")
      && (forall k :: 0 <= k < |chain| ==> chain[k].program == "" ==> chain[k].arguments == [])
  }

  /** One step keeps the shape, adds a node exactly for a connective, and
      fails exactly on the two conditions `apply` throws for. */
  lemma StepWellFormed(chain: Chain, token: Token)
    requires WellFormed(chain)
    ensures var r := Step(chain, token);
      var last := Started(chain)[|Started(chain)| - 1];
      && (r.Err? <==> ((last.program == "" && token.kind != Word)
                       || (last.program != "" && token.kind == TokenType.None)))
      && (r.Ok? ==> WellFormed(r.value)
                    && |r.value| == |Started(chain)| + (if IsConnective(token) then 1 else 0))
  {
    var c := Started(chain);
    assert WellFormed(c);
  }

  /** The whole loop keeps the shape, and counts one node per connective on
      top of the head. */
  lemma {:induction false} RunWellFormed(chain: Chain, tokens: seq<Token>)
    requires WellFormed(chain)
    ensures Run(chain, tokens).Ok? ==> WellFormed(Run(chain, tokens).value)
    ensures Run(chain, tokens).Ok? && tokens != [] ==>
      |Run(chain, tokens).value| == |Started(chain)| + Connectives(tokens)
    ensures tokens == [] ==> Run(chain, tokens) == Ok(chain)
    decreases |tokens|
  {
    if tokens != [] {
      StepWellFormed(chain, tokens[0]);
      var r := Step(chain, tokens[0]);
      if r.Ok? {
        RunWellFormed(r.value, tokens[1..]);
        if tokens[1..] != [] {
          assert Started(r.value) == r.value;
        }
      }
    }
  }

  /** A list of tokens produces the null pointer exactly when it is empty;
      any other chain has an InitialCommand at its head and nowhere else,
      and one node more than there are connectives. */
  lemma ParseShape(tokens: seq<Token>)
    ensures Parse([]) == Ok([])
    ensures Parse(tokens).Ok? ==> var c := Parse(tokens).value;
      && WellFormed(c)
      && (c == [] <==> tokens == [])
      && (tokens != [] ==> |c| == 1 + Connectives(tokens))
  {
    RunWellFormed([], tokens);
  }

  /** The tokens of the arguments. */
  function Words(ws: seq<string>): (r: seq<Token>)
    ensures |r| == |ws|
  {
    if ws == [] then [] else [W(ws[0])] + Words(ws[1..])
  }

  /** The connective token that appends a node of the given class. */
  function ConnectiveOf(link: Link): Token
    requires link != Initial
  {
    match link
    case Sequential => SemiToken
    case Conjunctive => AndToken
    case Disjunctive => OrToken
  }

  /** The tokens that spell one node: its connective (none for the head),
      then its program and its arguments. */
  function NodeTokens(node: Node): seq<Token>
    requires node.link != Initial || node.program != ""
  {
    (if node.link == Initial then [] else [ConnectiveOf(node.link)])
      + (if node.program == "" then [] else [W(node.program)] + Words(node.arguments))
  }

  /** A chain the parser can build: well formed, with a program at its
      head. */
  predicate Buildable(chain: Chain)
  {
    WellFormed(chain) && (chain != [] ==> chain[0].program != "")
  }

  /** The tokens that spell a buildable chain. */
  function Render(chain: Chain): seq<Token>
    requires Buildable(chain)
    decreases |chain|
  {
    if chain == [] then []
    else
      var front := chain[..|chain| - 1];
      assert Buildable(front);
      Render(front) + NodeTokens(chain[|chain| - 1])
  }

  /** The loop over a concatenation is the loop over the second part started
      where the first left off. */
  lemma {:induction false} RunAppend(chain: Chain, a: seq<Token>, b: seq<Token>)
    ensures Run(chain, a + b) ==
      (if Run(chain, a).Ok? then Run(Run(chain, a).value, b) else Err(Run(chain, a).message))
    decreases |a|
  {
    if a == [] {
      assert a + b == b;
    } else {
      assert (a + b)[0] == a[0] && (a + b)[1..] == a[1..] + b;
      var r := Step(chain, a[0]);
      if r.Ok? {
        RunAppend(r.value, a[1..], b);
      }
    }
  }

  /** The loop's first iteration over `[t] + rest`. */
  lemma RunStep(chain: Chain, t: Token, rest: seq<Token>)
    ensures Run(chain, [t] + rest) ==
      (if Step(chain, t).Ok? then Run(Step(chain, t).value, rest) else Err(Step(chain, t).message))
  {
    assert ([t] + rest)[0] == t && ([t] + rest)[1..] == rest;
  }

  /** Replacing the last node of `chain + [node]`. */
  lemma ReplaceLast(chain: Chain, node: Node, next: Node)
    ensures WithLast(chain + [node], next) == chain + [next]
  {
    assert WithLast(chain + [node], next) == chain + [next];
  }

  /** Replacing the only node of a chain. */
  lemma ReplaceOnly(node: Node, next: Node)
    ensures WithLast([node], next) == [next]
  {
    ReplaceLast([], node, next);
    assert [] + [node] == [node] && [] + [next] == [next];
  }

  /** Words after a program are appended to the arguments in order. */
  lemma {:induction false} ArgumentsFill(chain: Chain, node: Node, ws: seq<string>)
    requires node.program != ""
    ensures Run(chain + [node], Words(ws)) ==
      Ok(chain + [Node(node.link, node.program, node.arguments + ws)])
    decreases |ws|
  {
    if ws == [] {
      assert node.arguments + ws == node.arguments;
    } else {
      var next := Node(node.link, node.program, node.arguments + [ws[0]]);
      ReplaceLast(chain, node, next);
      assert Step(chain + [node], W(ws[0])) == Ok(chain + [next]);
      ArgumentsFill(chain, next, ws[1..]);
      assert node.arguments + [ws[0]] + ws[1..] == node.arguments + ws;
    }
  }

  /** A program word fills the empty current node, and its arguments
      follow. */
  lemma ProgramFills(front: Chain, node: Node)
    requires node.program != ""
    ensures Run(front + [Node(node.link, "", [])], [W(node.program)] + Words(node.arguments)) ==
      Ok(front + [node])
  {
    var named := Node(node.link, node.program, []);
    ReplaceLast(front, Node(node.link, "", []), named);
    RunStep(front + [Node(node.link, "", [])], W(node.program), Words(node.arguments));
    ArgumentsFill(front, named, node.arguments);
    assert named.arguments + node.arguments == node.arguments;
  }

  /** A connective after a program appends an empty node of its class. */
  lemma ConnectiveStep(chain: Chain, link: Link)
    requires chain != [] && chain[|chain| - 1].program != "" && link != Initial
    ensures Step(chain, ConnectiveOf(link)) == Ok(chain + [Node(link, "", [])])
  {
  }

  /** The tokens of a node that follows a connective. */
  lemma FollowerFills(chain: Chain, node: Node)
    requires node.link != Initial
    requires Step(chain, ConnectiveOf(node.link)) == Ok(chain + [Node(node.link, "", [])])
    requires node.program == "" ==> node.arguments == []
    ensures Run(chain, NodeTokens(node)) == Ok(chain + [node])
  {
    var conn := ConnectiveOf(node.link);
    var entered := chain + [Node(node.link, "", [])];
    var rest := if node.program == "" then [] else [W(node.program)] + Words(node.arguments);
    assert NodeTokens(node) == [conn] + rest;
    RunStep(chain, conn, rest);
    if node.program != "" {
      ProgramFills(chain, node);
    }
  }

  /** The tokens of one more node extend the chain by that node. */
  lemma NodeFills(chain: Chain, node: Node)
    requires chain == [] ==> node.link == Initial && node.program != ""
    requires chain != [] ==> node.link != Initial && chain[|chain| - 1].program != ""
    requires node.program == "" ==> node.arguments == []
    ensures Run(chain, NodeTokens(node)) == Ok(chain + [node])
  {
    if chain == [] {
      ProgramFills([], node);
      assert NodeTokens(node) == [W(node.program)] + Words(node.arguments);
      assert [] + [Node(Initial, "", [])] == [Node(Initial, "", [])];
    } else {
      ConnectiveStep(chain, node.link);
      FollowerFills(chain, node);
    }
  }

  /** Every chain the parser can build is built from its rendering. */
  lemma {:induction false} ParseRender(chain: Chain)
    requires Buildable(chain)
    ensures Parse(Render(chain)) == Ok(chain)
    decreases |chain|
  {
    if chain != [] {
      var front := chain[..|chain| - 1];
      var last := chain[|chain| - 1];
      assert Buildable(front);
      ParseRender(front);
      RunAppend([], Render(front), NodeTokens(last));
      if front != [] {
        assert front[|front| - 1] == chain[|chain| - 2];
      }
      NodeFills(front, last);
      assert front + [last] == chain;
    }
  }

  /** Two buildable chains with the same rendering are the same chain. */
  lemma RenderInjective(c: Chain, d: Chain)
    requires Buildable(c) && Buildable(d) && Render(c) == Render(d)
    ensures c == d
  {
    ParseRender(c);
    ParseRender(d);
  }

  /** A chain can only start with a word; a leading connective or a `None`
      token throws. */
  lemma MustStartWithWord(tokens: seq<Token>)
    requires tokens != [] && tokens[0].kind != Word
    ensures Parse(tokens) == Err("command must start with word")
  {
  }

  /** A connective right after another (or after nothing but connectives)
      throws, because the node it would follow has no program. */
  lemma DoubledConnective(prefix: seq<Token>, t: Token, rest: seq<Token>)
    requires Parse(prefix).Ok? && prefix != [] && IsConnective(prefix[|prefix| - 1])
    requires t.kind != Word
    ensures Parse(prefix + [t] + rest) == Err("command must start with word")
  {
    var chain := Parse(prefix).value;
    var front := prefix[..|prefix| - 1];
    assert prefix == front + [prefix[|prefix| - 1]];
    RunAppend([], front, [prefix[|prefix| - 1]]);
    var before := Run([], front).value;
    assert chain == Started(before) + [Node(LinkOf(prefix[|prefix| - 1].kind), "", [])];
    RunAppend([], prefix, [t] + rest);
    assert prefix + [t] + rest == prefix + ([t] + rest);
    assert ([t] + rest)[0] == t;
  }

  /** A token of kind None after a program throws. */
  lemma UnexpectedToken(program: string, arguments: seq<string>, text: string, rest: seq<Token>)
    requires program != ""
    ensures Parse([W(program)] + Words(arguments) + [Token(TokenType.None, text)] + rest) ==
      Err("unexpected token")
  {
    ProgramFills([], Node(Initial, program, arguments));
    assert [] + [Node(Initial, "", [])] == [Node(Initial, "", [])];
    var head := [W(program)] + Words(arguments);
    RunAppend([], head, [Token(TokenType.None, text)] + rest);
    assert head + [Token(TokenType.None, text)] + rest == head + ([Token(TokenType.None, text)] + rest);
    assert ([Token(TokenType.None, text)] + rest)[0] == Token(TokenType.None, text);
  }

  /** A trailing connective leaves a last node with no program. */
  lemma TrailingConnective(t: Token)
    requires IsConnective(t)
    ensures Parse([W("a"), t]) == Ok([Node(Initial, "a", []), Node(LinkOf(t.kind), "", [])])
  {
    var a := [Node(Initial, "a", [])];
    ReplaceOnly(Node(Initial, "", []), a[0]);
    assert Step([], W("a")) == Ok(a);
    RunStep([], W("a"), [t]);
    assert Step(a, t) == Ok(a + [Node(LinkOf(t.kind), "", [])]);
    RunStep(a, t, []);
    assert [t] + [] == [t] && [W("a")] + [t] == [W("a"), t];
    assert a + [Node(LinkOf(t.kind), "", [])] == [Node(Initial, "a", []), Node(LinkOf(t.kind), "", [])];
  }

  /** A word with no text does not take the program's place: the next word
      becomes the program. */
  lemma EmptyWord()
    ensures Parse([W(""), W("b"), W("c")]) == Ok([Node(Initial, "b", ["c"])])
  {
    var e := [Node(Initial, "", [])];
    var b := [Node(Initial, "b", [])];
    ReplaceOnly(e[0], e[0]);
    assert Step([], W("")) == Ok(e);
    ReplaceOnly(e[0], b[0]);
    assert Step(e, W("b")) == Ok(b);
    ReplaceOnly(b[0], Node(Initial, "b", ["c"]));
    assert b[0].arguments + ["c"] == ["c"];
    assert Step(b, W("c")) == Ok([Node(Initial, "b", ["c"])]);
    RunStep(b, W("c"), []);
    RunStep(e, W("b"), [W("c")]);
    RunStep([], W(""), [W("b"), W("c")]);
    assert [W("c")] + [] == [W("c")];
    assert [W("b")] + [W("c")] == [W("b"), W("c")];
    assert [W("")] + [W("b"), W("c")] == [W(""), W("b"), W("c")];
  }

  /** `a x && b || c` is a chain of three nodes. */
  lemma ThreeNodes()
    ensures Parse([W("a"), W("x"), AndToken, W("b"), OrToken, W("c")]) ==
      Ok([Node(Initial, "a", ["x"]), Node(Conjunctive, "b", []), Node(Disjunctive, "c", [])])
  {
    var chain := [Node(Initial, "a", ["x"]), Node(Conjunctive, "b", []), Node(Disjunctive, "c", [])];
    assert Buildable(chain);
    ParseRender(chain);
    assert chain[..2][..1] == [chain[0]] && chain[..1] == [chain[0]];
    assert chain[..2] == [chain[0], chain[1]];
    assert Render([]) == [];
    assert Words(["x"]) == [W("x")];
    assert Render(chain[..1]) == [W("a"), W("x")];
    assert Render(chain[..2]) == [W("a"), W("x"), AndToken, W("b")];
    assert Render(chain) == [W("a"), W("x"), AndToken, W("b"), OrToken, W("c")];
  }
}
