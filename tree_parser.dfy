/** The parser of the tree-design shell (src/Parser.cpp).  It builds the
    tree in one pass over the tokens, keeping a pointer `_current` to the
    slot the next command goes into and a stack `_scopes` of pairs: the
    Sequential node of an open scope and the slot to return to when the
    scope closes.  Here the tree is a value, the pointers are paths from the
    root and the stack is a sequence whose last element is the top. */
module TreeParser {
  import opened Wrappers
  import opened Tokens
  import opened CommandTree

  /** A `ScopePair`: the slot of the scope's Sequential node and the saved
      `_current`. */
  datatype ScopePair = ScopePair(scope: Path, saved: Path)

  /** The parser's fields `_root`, `_current`, `_scopes` and
      `_isRootSequence`. */
  datatype State = State(root: Command, current: Path, scopes: seq<ScopePair>, isRootSequence: bool)

  /** The leaf class parseWord() creates for the first word of a command. */
  function KindOf(text: string): (k: ExecKind)
    ensures k == ExitBuiltin <==> text == "exit"
    ensures k == TestBuiltin <==> text == "test" || text == "["
  {
    if text == "exit" then ExitBuiltin
    else if text == "test" || text == "[" then TestBuiltin
    else Program
  }

  /** `s` is the slot of a node whose sequence holds the slot `c` or one of
      its ancestors. */
  predicate Inside(s: Path, c: Path)
  {
    |s| < |c| && c[..|s|] == s && c[|s|].Elem?
  }

  /** The bookkeeping of the scopes: every pair names a Sequential node, the
      pairs nest from the bottom of the stack to the top, and a pair's saved
      slot is its scope's own slot, except for the pair the first `;` at the
      root pushes, which only `_isRootSequence` can have pushed. */
  predicate ScopesConsistent(st: State)
  {
    && (forall k :: 0 <= k < |st.scopes| ==>
          IsSlot(st.root, st.scopes[k].scope) && At(st.root, st.scopes[k].scope).Sequential?)
    && (forall j, k :: 0 <= j < k < |st.scopes| ==> Inside(st.scopes[j].scope, st.scopes[k].scope))
    && (forall k :: 0 < k < |st.scopes| ==> st.scopes[k].saved == st.scopes[k].scope)
    && (st.scopes != [] && st.scopes[0].saved != st.scopes[0].scope ==> st.isRootSequence)
  }

  /** The parser's invariant: `_current` points to a slot that lies inside
      every open scope. */
  predicate Consistent(st: State)
  {
    && ScopesConsistent(st)
    && IsSlot(st.root, st.current)
    && (forall k :: 0 <= k < |st.scopes| ==> Inside(st.scopes[k].scope, st.current))
  }

  /** The state apply() starts from: the root, the current slot and the
      stack are reset, `_isRootSequence` is not. */
  function Start(isRootSequence: bool): (st: State)
    ensures Consistent(st)
  {
    State(Null, [], [], isRootSequence)
  }

  /** parseWord(): an empty slot receives the leaf class the word names;
      the word becomes its program, or one more argument once it has one. */
  function WordStep(st: State, text: string): Result<State>
  {
    var found := At(st.root, st.current);
    var node := if found == Null then Executable(KindOf(text), "", []) else found;
    if !node.Executable? then Err("word in non-executable command")
    else
      var filled := if node.program == [] then node.(program := text)
                    else node.(arguments := node.arguments + [text]);
      Ok(st.(root := Put(st.root, st.current, filled)))
  }

  /** Where `_current` points once the root has moved into a new root
      Sequential: the slot `_root` itself still, anything below it one
      level further down. */
  function Relocated(st: State): Path
  {
    if st.root == Null || st.current == [] then st.current else [Elem(0)] + st.current
  }

  /** The first half of parseSequence() outside any scope: the root becomes
      element 0 of a new root Sequential whose pair is pushed. */
  function WrapRoot(st: State): State
  {
    var pair := ScopePair([], Relocated(st));
    State(Sequential(if st.root != Null then [st.root] else []), Relocated(st), [pair], true)
  }

  /** parseSequence(): an empty element is appended to the innermost scope's
      sequence and becomes the current slot. */
  function SequenceStep(st: State): State
  {
    var st1 := if st.scopes == [] then WrapRoot(st) else st;
    var top := st1.scopes[|st1.scopes| - 1].scope;
    var node := At(st1.root, top);
    var items := if node.Sequential? then node.sequence else [];
    st1.(root := Put(st1.root, top, Sequential(items + [Null])), current := top + [Elem(|items|)])
  }

  /** parseConjunction(): the current node becomes the primary of a new
      Conjunctive node, whose empty secondary becomes the current slot. */
  function ConjunctionStep(st: State): Result<State>
  {
    var node := At(st.root, st.current);
    if node == Null then Err("conjunction must follow command")
    else Ok(st.(root := Put(st.root, st.current, Conjunctive(node, Null)), current := st.current + [Secondary]))
  }

  /** parseDisjunction(), as parseConjunction() with a Disjunctive node. */
  function DisjunctionStep(st: State): Result<State>
  {
    var node := At(st.root, st.current);
    if node == Null then Err("disjunction must follow command")
    else Ok(st.(root := Put(st.root, st.current, Disjunctive(node, Null)), current := st.current + [Secondary]))
  }

  /** parseOpenScope(): an empty slot receives a one-element Sequential;
      its pair is pushed and its element becomes the current slot. */
  function OpenScopeStep(st: State): Result<State>
  {
    if At(st.root, st.current) != Null then Err("scope must not follow command")
    else Ok(st.(root := Put(st.root, st.current, Sequential([Null])),
                scopes := st.scopes + [ScopePair(st.current, st.current)],
                current := st.current + [Elem(0)]))
  }

  /** parseCloseScope(): the top pair is popped and its saved slot becomes
      current; an empty stack, or one holding only the root's pair, is an
      unbalanced parenthesis. */
  function CloseScopeStep(st: State): Result<State>
  {
    if st.scopes == [] || (|st.scopes| == 1 && st.isRootSequence) then Err("unbalanced closing parenthesis")
    else Ok(st.(current := st.scopes[|st.scopes| - 1].saved, scopes := st.scopes[..|st.scopes| - 1]))
  }

  /** The switch of apply(): a None token is ignored. */
  function TokenStep(st: State, token: Token): Result<State>
  {
    match token.kind
    case Word => WordStep(st, token.text)
    case Sequence => Ok(SequenceStep(st))
    case Conjunction => ConjunctionStep(st)
    case Disjunction => DisjunctionStep(st)
    case OpenScope => OpenScopeStep(st)
    case CloseScope => CloseScopeStep(st)
    case None => Ok(st)
  }

  /** The loop of apply(): the first exception ends the parse. */
  function Run(st: State, tokens: seq<Token>): Result<State>
    decreases |tokens|
  {
    if tokens == [] then Ok(st)
    else match TokenStep(st, tokens[0])
      case Err(message) => Err(message)
      case Ok(next) => Run(next, tokens[1..])
  }

  /** The state the loop of apply() leaves behind: the final state when
      every token is parsed, and otherwise the state before the token that
      threw, which no failing step changes. */
  function Halt(st: State, tokens: seq<Token>): (r: State)
    ensures Run(st, tokens).Ok? ==> r == Run(st, tokens).value
    decreases |tokens|
  {
    if tokens == [] then st
    else match TokenStep(st, tokens[0])
      case Err(_) => st
      case Ok(next) => Halt(next, tokens[1..])
  }

  /** A failed apply() stops at its first failing token: the tokens before
      it parse to the state left behind, and that token's step throws the
      apply's exception. */
  lemma {:induction false} HaltFails(st: State, tokens: seq<Token>)
    requires Run(st, tokens).Err?
    ensures exists k :: (0 <= k < |tokens| && Run(st, tokens[..k]) == Ok(Halt(st, tokens))
                         && TokenStep(Halt(st, tokens), tokens[k]) == Run(st, tokens))
    decreases |tokens|
  {
    match TokenStep(st, tokens[0])
    case Err(_) =>
      assert tokens[..0] == [];
    case Ok(next) =>
      HaltFails(next, tokens[1..]);
      var k :| 0 <= k < |tokens[1..]| && Run(next, tokens[1..][..k]) == Ok(Halt(next, tokens[1..]))
        && TokenStep(Halt(next, tokens[1..]), tokens[1..][k]) == Run(next, tokens[1..]);
      assert tokens[..k + 1][0] == tokens[0] && tokens[..k + 1][1..] == tokens[1..][..k];
      assert Run(st, tokens[..k + 1]) == Ok(Halt(st, tokens));
  }

  /** What apply() returns, or the exception it throws. */
  function Outcome(r: Result<State>): Result<Command>
  {
    match r
    case Ok(st) => Ok(st.root)
    case Err(message) => Err(message)
  }

  /** apply() on a parser that has never been applied before. */
  function Parse(tokens: seq<Token>): Result<Command>
  {
    Outcome(Run(Start(false), tokens))
  }

  // The invariant is kept by every parsing step.

  lemma InsideExtend(s: Path, c: Path, x: Path)
    requires Inside(s, c)
    ensures Inside(s, c + x)
  {
    assert (c + x)[..|s|] == c[..|s|];
  }

  /** A write to the current slot keeps the invariant. */
  lemma WriteCurrent(st: State, v: Command)
    requires Consistent(st)
    ensures Consistent(st.(root := Put(st.root, st.current, v)))
    ensures IsSlot(Put(st.root, st.current, v), st.current) && At(Put(st.root, st.current, v), st.current) == v
  {
    var root := Put(st.root, st.current, v);
    AtPut(st.root, st.current, v);
    forall k | 0 <= k < |st.scopes|
      ensures IsSlot(root, st.scopes[k].scope) && At(root, st.scopes[k].scope).Sequential?
    {
      var s := st.scopes[k].scope;
      var r := st.current[|s|..];
      assert st.current == s + r;
      SlotConcat(st.root, s, r);
      PutBelow(st.root, s, r, v);
      PutKeepsShape(At(st.root, s), r, v);
    }
  }

  /** The slot below `p` reached with `x` exists once `p` holds `v`. */
  lemma SlotBelow(t: Command, p: Path, v: Command, x: Path)
    requires IsSlot(t, p) && IsSlot(v, x)
    ensures IsSlot(Put(t, p, v), p + x) && At(Put(t, p, v), p + x) == At(v, x)
  {
    AtPut(t, p, v);
    SlotConcat(Put(t, p, v), p, x);
  }

  lemma WordStepConsistent(st: State, text: string)
    requires Consistent(st) && WordStep(st, text).Ok?
    ensures Consistent(WordStep(st, text).value)
  {
    var found := At(st.root, st.current);
    var node := if found == Null then Executable(KindOf(text), "", []) else found;
    var filled := if node.program == [] then node.(program := text) else node.(arguments := node.arguments + [text]);
    WriteCurrent(st, filled);
  }

  lemma ConjunctionStepConsistent(st: State)
    requires Consistent(st) && ConjunctionStep(st).Ok?
    ensures Consistent(ConjunctionStep(st).value)
  {
    var v := Conjunctive(At(st.root, st.current), Null);
    WriteCurrent(st, v);
    SlotBelow(st.root, st.current, v, [Secondary]);
    forall k | 0 <= k < |st.scopes|
      ensures Inside(st.scopes[k].scope, st.current + [Secondary])
    {
      InsideExtend(st.scopes[k].scope, st.current, [Secondary]);
    }
  }

  lemma DisjunctionStepConsistent(st: State)
    requires Consistent(st) && DisjunctionStep(st).Ok?
    ensures Consistent(DisjunctionStep(st).value)
  {
    var v := Disjunctive(At(st.root, st.current), Null);
    WriteCurrent(st, v);
    SlotBelow(st.root, st.current, v, [Secondary]);
    forall k | 0 <= k < |st.scopes|
      ensures Inside(st.scopes[k].scope, st.current + [Secondary])
    {
      InsideExtend(st.scopes[k].scope, st.current, [Secondary]);
    }
  }

  lemma OpenScopeStepConsistent(st: State)
    requires Consistent(st) && OpenScopeStep(st).Ok?
    ensures Consistent(OpenScopeStep(st).value)
  {
    var v := Sequential([Null]);
    WriteCurrent(st, v);
    SlotBelow(st.root, st.current, v, [Elem(0)]);
    var r := OpenScopeStep(st).value;
    forall k | 0 <= k < |r.scopes|
      ensures Inside(r.scopes[k].scope, r.current)
    {
      if k < |st.scopes| {
        InsideExtend(st.scopes[k].scope, st.current, [Elem(0)]);
      }
    }
  }

  lemma CloseScopeStepConsistent(st: State)
    requires Consistent(st) && CloseScopeStep(st).Ok?
    ensures Consistent(CloseScopeStep(st).value)
  {
    var top := |st.scopes| - 1;
    assert st.scopes[top].saved == st.scopes[top].scope;
  }

  /** Appending to the innermost scope keeps the invariant, whatever the
      current slot was. */
  lemma AppendConsistent(st: State)
    requires ScopesConsistent(st) && st.scopes != []
    ensures Consistent(SequenceStep(st))
  {
    var top := st.scopes[|st.scopes| - 1].scope;
    var items := At(st.root, top).sequence;
    var v := Sequential(items + [Null]);
    var root := Put(st.root, top, v);
    var r := SequenceStep(st);
    assert r.root == root && r.current == top + [Elem(|items|)];
    SlotBelow(st.root, top, v, [Elem(|items|)]);
    forall k | 0 <= k < |st.scopes|
      ensures IsSlot(root, st.scopes[k].scope) && At(root, st.scopes[k].scope).Sequential?
      ensures Inside(st.scopes[k].scope, r.current)
    {
      var s := st.scopes[k].scope;
      if k < |st.scopes| - 1 {
        var x := top[|s|..];
        assert top == s + x;
        SlotConcat(st.root, s, x);
        PutBelow(st.root, s, x, v);
        PutKeepsShape(At(st.root, s), x, v);
        InsideExtend(s, top, [Elem(|items|)]);
      } else {
        AtPut(st.root, top, v);
      }
    }
  }

  lemma SequenceStepConsistent(st: State)
    requires Consistent(st)
    ensures Consistent(SequenceStep(st))
  {
    if st.scopes == [] {
      var w := WrapRoot(st);
      assert ScopesConsistent(w);
      assert SequenceStep(st) == SequenceStep(w);
      AppendConsistent(w);
    } else {
      AppendConsistent(st);
    }
  }

  /** Every step that does not throw keeps the parser's invariant. */
  lemma TokenStepConsistent(st: State, token: Token)
    requires Consistent(st) && TokenStep(st, token).Ok?
    ensures Consistent(TokenStep(st, token).value)
  {
    match token.kind
    case Word => WordStepConsistent(st, token.text);
    case Sequence => SequenceStepConsistent(st);
    case Conjunction => ConjunctionStepConsistent(st);
    case Disjunction => DisjunctionStepConsistent(st);
    case OpenScope => OpenScopeStepConsistent(st);
    case CloseScope => CloseScopeStepConsistent(st);
    case None =>
  }

  lemma {:induction false} RunConsistent(st: State, tokens: seq<Token>)
    requires Consistent(st) && Run(st, tokens).Ok?
    ensures Consistent(Run(st, tokens).value)
    decreases |tokens|
  {
    if tokens != [] {
      TokenStepConsistent(st, tokens[0]);
      RunConsistent(TokenStep(st, tokens[0]).value, tokens[1..]);
    }
  }

  /** The Parser object over its token vector. */
  class Parser {
    const tokens: seq<Token>
    var root: Command
    var current: Path
    var scopes: seq<ScopePair>
    var isRootSequence: bool

    function St(): State
      reads this
    {
      State(root, current, scopes, isRootSequence)
    }

    predicate Valid()
      reads this
    {
      Consistent(St())
    }

    constructor (tokens: seq<Token>)
      ensures this.tokens == tokens && St() == Start(false) && Valid()
    {
      this.tokens := tokens;
      root := Null;
      current := [];
      scopes := [];
      isRootSequence := false;
    }

    /** apply(): reset the root, the current slot and the stack, then
        dispatch every token. */
    method Apply() returns (r: Result<Command>)
      modifies this
      ensures Valid()
      ensures r == Outcome(Run(Start(old(isRootSequence)), tokens))
      ensures r.Ok? ==> St() == Run(Start(old(isRootSequence)), tokens).value
      ensures St() == Halt(Start(old(isRootSequence)), tokens)
    {
      root := Null;
      current := [];
      scopes := [];
      var i := 0;
      while i < |tokens|
        invariant i <= |tokens| && Valid()
        invariant Run(St(), tokens[i..]) == Run(Start(old(isRootSequence)), tokens)
        invariant Halt(St(), tokens[i..]) == Halt(Start(old(isRootSequence)), tokens)
      {
        var error := ParseToken(tokens[i]);
        assert tokens[i..][1..] == tokens[i + 1..];
        if error.Some? {
          return Err(error.value);
        }
        i := i + 1;
      }
      return Ok(root);
    }

    /** The switch over the token type in apply()'s loop; a token of type
        None is skipped. */
    method ParseToken(token: Token) returns (error: Option<string>)
      requires Valid()
      modifies this
      ensures Valid()
      ensures TokenStep(old(St()), token) == (if error.Some? then Err(error.value) else Ok(St()))
      ensures error.Some? ==> St() == old(St())
    {
      error := Option.None;
      match token.kind {
        case Word => error := ParseWord(token);
        case Sequence => ParseSequence(token);
        case Conjunction => error := ParseConjunction(token);
        case Disjunction => error := ParseDisjunction(token);
        case OpenScope => error := ParseOpenScope(token);
        case CloseScope => error := ParseCloseScope(token);
        case None =>
      }
    }

    /** apply() with `_isRootSequence` reset as well, so that the result
        depends on the tokens alone. */
    method ApplyFresh() returns (r: Result<Command>)
      modifies this
      ensures Valid()
      ensures r == Parse(tokens)
      ensures r.Ok? ==> St() == Run(Start(false), tokens).value
      ensures St() == Halt(Start(false), tokens)
    {
      isRootSequence := false;
      r := Apply();
    }

    /** parseWord() */
    method ParseWord(token: Token) returns (error: Option<string>)
      requires Valid() && token.kind == Word
      modifies this
      ensures Valid()
      ensures WordStep(old(St()), token.text) == (if error.Some? then Err(error.value) else Ok(St()))
      ensures error.Some? ==> St() == old(St())
    {
      ghost var before := St();
      var node := At(root, current);
      var created := node == Null;
      if created {
        if token.text == "exit" {
          node := Executable(ExitBuiltin, "", []);
        } else if token.text == "test" || token.text == "[" {
          node := Executable(TestBuiltin, "", []);
        } else {
          node := Executable(Program, "", []);
        }
        root := Put(root, current, node);
      }
      if !node.Executable? {
        return Some("word in non-executable command");
      }
      var filled := node;
      if node.program == [] {
        filled := node.(program := token.text);
      } else {
        filled := node.(arguments := node.arguments + [token.text]);
      }
      if created {
        PutPut(before.root, current, node, filled);
      }
      root := Put(root, current, filled);
      assert root == Put(before.root, before.current, filled);
      WordStepConsistent(before, token.text);
      return Option.None;
    }

    /** parseSequence(): outside any scope the root first moves into a new
        root Sequential. */
    method ParseSequence(token: Token)
      requires Valid() && token.kind == Sequence
      modifies this
      ensures Valid()
      ensures St() == SequenceStep(old(St()))
    {
      ghost var before := St();
      SequenceStepConsistent(before);
      if scopes == [] {
        NewRootSequence();
        assert SequenceStep(before) == SequenceStep(St());
      }
      AppendElement();
    }

    /** The root moves into element 0 of a new root Sequential. */
    method NewRootSequence()
      requires scopes == []
      modifies this
      ensures St() == WrapRoot(old(St()))
    {
      var pair := ScopePair([], Relocated(St()));
      var scope := Sequential(if root != Null then [root] else []);
      scopes := scopes + [pair];
      current := pair.saved;
      root := scope;
      isRootSequence := true;
    }

    /** An empty element is appended to the innermost scope and becomes
        current. */
    method AppendElement()
      requires scopes != []
      modifies this
      ensures St() == SequenceStep(old(St()))
    {
      var top := scopes[|scopes| - 1].scope;
      var node := At(root, top);
      var items := if node.Sequential? then node.sequence else [];
      root := Put(root, top, Sequential(items + [Null]));
      current := top + [Elem(|items|)];
    }

    /** parseConjunction() */
    method ParseConjunction(token: Token) returns (error: Option<string>)
      requires Valid() && token.kind == Conjunction
      modifies this
      ensures Valid()
      ensures ConjunctionStep(old(St())) == (if error.Some? then Err(error.value) else Ok(St()))
      ensures error.Some? ==> St() == old(St())
    {
      var node := At(root, current);
      if node == Null {
        return Some("conjunction must follow command");
      }
      ConjunctionStepConsistent(St());
      root := Put(root, current, Conjunctive(node, Null));
      current := current + [Secondary];
      return Option.None;
    }

    /** parseDisjunction() */
    method ParseDisjunction(token: Token) returns (error: Option<string>)
      requires Valid() && token.kind == Disjunction
      modifies this
      ensures Valid()
      ensures DisjunctionStep(old(St())) == (if error.Some? then Err(error.value) else Ok(St()))
      ensures error.Some? ==> St() == old(St())
    {
      var node := At(root, current);
      if node == Null {
        return Some("disjunction must follow command");
      }
      DisjunctionStepConsistent(St());
      root := Put(root, current, Disjunctive(node, Null));
      current := current + [Secondary];
      return Option.None;
    }

    /** parseOpenScope() */
    method ParseOpenScope(token: Token) returns (error: Option<string>)
      requires Valid() && token.kind == OpenScope
      modifies this
      ensures Valid()
      ensures OpenScopeStep(old(St())) == (if error.Some? then Err(error.value) else Ok(St()))
      ensures error.Some? ==> St() == old(St())
    {
      if At(root, current) != Null {
        return Some("scope must not follow command");
      }
      OpenScopeStepConsistent(St());
      var pair := ScopePair(current, current);
      scopes := scopes + [pair];
      root := Put(root, current, Sequential([Null]));
      current := current + [Elem(0)];
      return Option.None;
    }

    /** parseCloseScope() */
    method ParseCloseScope(token: Token) returns (error: Option<string>)
      requires Valid() && token.kind == CloseScope
      modifies this
      ensures Valid()
      ensures CloseScopeStep(old(St())) == (if error.Some? then Err(error.value) else Ok(St()))
      ensures error.Some? ==> St() == old(St())
    {
      if scopes == [] || (|scopes| == 1 && isRootSequence) {
        return Some("unbalanced closing parenthesis");
      }
      CloseScopeStepConsistent(St());
      current := scopes[|scopes| - 1].saved;
      scopes := scopes[..|scopes| - 1];
      return Option.None;
    }
  }
}
