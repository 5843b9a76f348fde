/** What the tree-design parser promises: a canonical rendering of every
    tree it can build parses back to that tree, its errors, and the
    nesting of the scopes it accepts. */
module TreeParserProperties {
  import opened Wrappers
  import opened Tokens
  import opened CommandTree
  import opened TreeParser

  const SemiToken := Token(Sequence, ";")
  const AndToken := Token(Conjunction, "&&")
  const OrToken := Token(Disjunction, "||")
  const OpenToken := Token(OpenScope, "(")
  const CloseToken := Token(CloseScope, ")")

  function Words(ws: seq<string>): (r: seq<Token>)
    ensures |r| == |ws|
  {
    if ws == [] then [] else [Token(Word, ws[0])] + Words(ws[1..])
  }

  /** The commands a word list fills in: the leaf class follows the
      program, and a leaf whose program is the empty word has no
      arguments. */
  predicate IsLeaf(c: Command)
  {
    c.Executable? && c.kind == KindOf(c.program) && (c.program == [] ==> c.arguments == [])
  }

  /** A leaf, or a parenthesised scope of one or more elements. */
  predicate IsUnit(c: Command)
    decreases c, 0
  {
    IsLeaf(c) || (c.Sequential? && |c.sequence| >= 1 && forall i :: 0 <= i < |c.sequence| ==> IsItem(c.sequence[i]))
  }

  /** Units joined by `&&` and `||`, nested to the right. */
  predicate IsChain(c: Command)
    decreases c, 1
  {
    IsUnit(c) || ((c.Conjunctive? || c.Disjunctive?) && IsUnit(c.primary) && IsChain(c.secondary))
  }

  /** An element of a sequence: a chain, or empty. */
  predicate IsItem(c: Command)
    decreases c, 2
  {
    c == Null || IsChain(c)
  }

  /** The trees a parse of a fresh parser builds in canonical form: nothing,
      one chain, or a top-level sequence of two or more elements whose first
      one is a chain. */
  predicate IsTree(c: Command)
  {
    if c.Sequential? && |c.sequence| >= 2 then
      IsChain(c.sequence[0]) && forall i :: 1 <= i < |c.sequence| ==> IsItem(c.sequence[i])
    else IsItem(c)
  }

  /** The tokens of a command. */
  function Render(c: Command): seq<Token>
    decreases c, 1
  {
    match c
    case Executable(_, program, arguments) => Words([program] + arguments)
    case Sequential(sequence) => if sequence == [] then [] else [OpenToken] + RenderItems(sequence) + [CloseToken]
    case Conjunctive(primary, secondary) => Render(primary) + [AndToken] + Render(secondary)
    case Disjunctive(primary, secondary) => Render(primary) + [OrToken] + Render(secondary)
    case _ => []
  }

  /** The tokens of a sequence's elements, separated by `;`. */
  function RenderItems(items: seq<Command>): seq<Token>
    requires items != []
    decreases items, 0
  {
    if |items| == 1 then Render(items[0]) else Render(items[0]) + [SemiToken] + RenderItems(items[1..])
  }

  /** The tokens of a whole tree: a top-level sequence has no parentheses. */
  function RenderTree(c: Command): seq<Token>
  {
    if c.Sequential? && |c.sequence| >= 2 then RenderItems(c.sequence) else Render(c)
  }

  /** Parsing tokens one after the other is parsing the first list, then the
      second from where the first left off. */
  lemma {:induction false} RunAppend(st: State, a: seq<Token>, b: seq<Token>)
    ensures Run(st, a + b) == if Run(st, a).Ok? then Run(Run(st, a).value, b) else Err(Run(st, a).message)
    decreases |a|
  {
    if a == [] {
      assert a + b == b;
    } else {
      assert (a + b)[0] == a[0] && (a + b)[1..] == a[1..] + b;
      match TokenStep(st, a[0])
      case Err(_) =>
      case Ok(next) => RunAppend(next, a[1..], b);
    }
  }

  /** `r` is a successful parse from `st` that wrote `c` into the slot at
      `p` and left the scope stack as it was. */
  predicate Placed(st: State, r: Result<State>, p: Path, c: Command)
  {
    && r.Ok?
    && r.value.root == Put(st.root, p, c)
    && r.value.scopes == st.scopes
    && r.value.isRootSequence == st.isRootSequence
  }

  /** The current slot exists and is empty. */
  predicate Ready(st: State)
  {
    IsSlot(st.root, st.current) && At(st.root, st.current) == Null && (st.isRootSequence ==> st.scopes != [])
  }

  /** Parsing one token, then the rest. */
  lemma RunCons(st: State, t: Token, rest: seq<Token>)
    ensures Run(st, [t] + rest) == if TokenStep(st, t).Ok? then Run(TokenStep(st, t).value, rest) else Err(TokenStep(st, t).message)
  {
    assert ([t] + rest)[0] == t && ([t] + rest)[1..] == rest;
  }

  /** Parsing `a`, one more token and `b`. */
  lemma RunThrough(st: State, a: seq<Token>, t: Token, b: seq<Token>)
    requires Run(st, a).Ok? && TokenStep(Run(st, a).value, t).Ok?
    ensures Run(st, a + [t] + b) == Run(TokenStep(Run(st, a).value, t).value, b)
  {
    assert a + [t] + b == a + ([t] + b);
    RunAppend(st, a, [t] + b);
    RunCons(Run(st, a).value, t, b);
  }

  /** Later words are appended to the arguments of a leaf that has its
      program. */
  lemma {:induction false} ArgumentsFill(st: State, args: seq<string>)
    requires IsSlot(st.root, st.current)
    requires At(st.root, st.current).Executable? && At(st.root, st.current).program != []
    ensures var node := At(st.root, st.current);
      Run(st, Words(args)) == Ok(st.(root := Put(st.root, st.current, node.(arguments := node.arguments + args))))
    decreases |args|
  {
    var node := At(st.root, st.current);
    if args == [] {
      PutAt(st.root, st.current);
      assert node.(arguments := node.arguments + args) == node;
    } else {
      var v := node.(arguments := node.arguments + [args[0]]);
      var next := st.(root := Put(st.root, st.current, v));
      assert TokenStep(st, Token(Word, args[0])) == Ok(next);
      assert Words(args) == [Token(Word, args[0])] + Words(args[1..]);
      RunCons(st, Token(Word, args[0]), Words(args[1..]));
      AtPut(st.root, st.current, v);
      ArgumentsFill(next, args[1..]);
      PutPut(st.root, st.current, v, v.(arguments := v.arguments + args[1..]));
      assert node.arguments + args == node.arguments + [args[0]] + args[1..];
    }
  }

  /** A leaf parses into an empty slot. */
  lemma LeafFills(st: State, c: Command)
    requires Ready(st) && IsLeaf(c)
    ensures Placed(st, Run(st, Render(c)), st.current, c) && Run(st, Render(c)).value.current == st.current
  {
    var first := Executable(c.kind, c.program, []);
    var next := st.(root := Put(st.root, st.current, first));
    assert TokenStep(st, Token(Word, c.program)) == Ok(next);
    assert Render(c) == [Token(Word, c.program)] + Words(c.arguments);
    RunCons(st, Token(Word, c.program), Words(c.arguments));
    AtPut(st.root, st.current, first);
    if c.program == [] {
      assert Words(c.arguments) == [];
    } else {
      ArgumentsFill(next, c.arguments);
      assert first.(arguments := [] + c.arguments) == c;
      PutPut(st.root, st.current, first, c);
    }
  }

  /** A `(` on an empty slot enters a one-element scope. */
  lemma EnterStep(st: State)
    requires Ready(st)
    ensures OpenScopeStep(st).Ok?
    ensures var next := OpenScopeStep(st).value;
      && next.scopes == st.scopes + [ScopePair(st.current, st.current)]
      && IsSlot(next.root, st.current) && At(next.root, st.current) == Sequential([] + [Null])
      && next.current == st.current + [Elem(0)]
      && next.root == Put(st.root, st.current, Sequential([Null]))
      && next.isRootSequence == st.isRootSequence
  {
    AtPut(st.root, st.current, Sequential([Null]));
    assert [] + [Null] == [Null];
  }

  /** The `)` of a scope entered from a ready state restores its slot. */
  lemma LeaveStep(st: State, filled: State)
    requires Ready(st) && filled.scopes == st.scopes + [ScopePair(st.current, st.current)]
    requires filled.isRootSequence == st.isRootSequence
    ensures CloseScopeStep(filled) == Ok(filled.(current := st.current, scopes := st.scopes))
  {
    assert filled.scopes[..|filled.scopes| - 1] == st.scopes;
  }

  /** A parenthesised scope parses into an empty slot, and the slot is
      current again after its `)`. */
  lemma ScopeFills(st: State, c: Command)
    requires Ready(st)
    requires c.Sequential? && |c.sequence| >= 1 && forall i :: 0 <= i < |c.sequence| ==> IsItem(c.sequence[i])
    ensures Placed(st, Run(st, Render(c)), st.current, c) && Run(st, Render(c)).value.current == st.current
    decreases c, 0
  {
    EnterStep(st);
    var entered := OpenScopeStep(st).value;
    ItemsFill(entered, [], c.sequence);
    var filled := Run(entered, RenderItems(c.sequence)).value;
    assert [] + c.sequence == c.sequence;
    PutPut(st.root, st.current, Sequential([Null]), c);
    LeaveStep(st, filled);
    RunCons(st, OpenToken, []);
    RunAppend(st, [OpenToken], RenderItems(c.sequence));
    assert Render(c) == [OpenToken] + RenderItems(c.sequence) + [CloseToken] + [];
    RunThrough(st, [OpenToken] + RenderItems(c.sequence), CloseToken, []);
  }

  lemma UnitFills(st: State, c: Command)
    requires Ready(st) && IsUnit(c)
    ensures Placed(st, Run(st, Render(c)), st.current, c) && Run(st, Render(c)).value.current == st.current
    decreases c, 1
  {
    if IsLeaf(c) {
      LeafFills(st, c);
    } else {
      ScopeFills(st, c);
    }
  }

  /** The connective token of a two-command node. */
  function Connective(c: Command): Token
  {
    if c.Conjunctive? then AndToken else OrToken
  }

  /** The node a connective installs: its primary, and an empty secondary. */
  function Joined(c: Command): Command
  {
    match c
    case Conjunctive(primary, _) => Conjunctive(primary, Null)
    case Disjunctive(primary, _) => Disjunctive(primary, Null)
    case _ => c
  }

  /** A connective after a command moves the command into the primary of a
      new node and the current slot to its empty secondary. */
  lemma JoinStep(st: State, c: Command)
    requires IsSlot(st.root, st.current) && (c.Conjunctive? || c.Disjunctive?)
    requires c.primary == At(st.root, st.current) && c.primary != Null
    ensures var next := st.(root := Put(st.root, st.current, Joined(c)), current := st.current + [Secondary]);
      && TokenStep(st, Connective(c)) == Ok(next)
      && IsSlot(next.root, next.current) && At(next.root, next.current) == Null
      && Put(next.root, next.current, c.secondary) == Put(st.root, st.current, c)
  {
    var joined := Joined(c);
    var root := Put(st.root, st.current, joined);
    AtPut(st.root, st.current, joined);
    SlotConcat(root, st.current, [Secondary]);
    PutSecondary(root, st.current, c.secondary);
    PutPut(st.root, st.current, joined, c);
  }

  /** A chain of two or more units parses into an empty slot. */
  lemma JoinFills(st: State, c: Command)
    requires Ready(st) && (c.Conjunctive? || c.Disjunctive?) && IsUnit(c.primary) && IsChain(c.secondary)
    ensures Placed(st, Run(st, Render(c)), st.current, c)
    decreases c, 2
  {
    var u := c.primary;
    UnitFills(st, u);
    var st1 := Run(st, Render(u)).value;
    AtPut(st.root, st.current, u);
    JoinStep(st1, c);
    var st2 := TokenStep(st1, Connective(c)).value;
    ChainFills(st2, c.secondary);
    PutPut(st.root, st.current, u, c);
    assert Render(c) == Render(u) + [Connective(c)] + Render(c.secondary);
    RunThrough(st, Render(u), Connective(c), Render(c.secondary));
  }

  /** A chain parses into an empty slot. */
  lemma ChainFills(st: State, c: Command)
    requires Ready(st) && IsChain(c)
    ensures Placed(st, Run(st, Render(c)), st.current, c)
    decreases c, 3
  {
    if IsUnit(c) {
      UnitFills(st, c);
    } else {
      JoinFills(st, c);
    }
  }

  lemma ItemFills(st: State, c: Command)
    requires Ready(st) && IsItem(c)
    ensures Placed(st, Run(st, Render(c)), st.current, c)
    decreases c, 4
  {
    if c == Null {
      PutAt(st.root, st.current);
    } else {
      ChainFills(st, c);
    }
  }

  /** The empty element `done` is followed by in a Sequential node is a
      slot, and filling it replaces that element. */
  lemma ElementSlot(root: Command, s: Path, done: seq<Command>, x: Command)
    requires IsSlot(root, s) && At(root, s) == Sequential(done + [Null])
    ensures IsSlot(root, s + [Elem(|done|)]) && At(root, s + [Elem(|done|)]) == Null
    ensures Put(root, s + [Elem(|done|)], x) == Put(root, s, Sequential(done + [x]))
  {
    PutElement(root, s, |done|, x);
    assert (done + [Null])[|done| := x] == done + [x];
    SlotConcat(root, s, [Elem(|done|)]);
  }

  /** A `;` inside a scope appends an empty element to the scope's
      Sequential node and makes it current. */
  lemma AppendStep(st: State, done: seq<Command>)
    requires st.scopes != []
    requires var s := st.scopes[|st.scopes| - 1].scope;
      IsSlot(st.root, s) && At(st.root, s) == Sequential(done)
    ensures var s := st.scopes[|st.scopes| - 1].scope;
      var next := SequenceStep(st);
      && next == st.(root := Put(st.root, s, Sequential(done + [Null])), current := s + [Elem(|done|)])
      && IsSlot(next.root, s) && At(next.root, s) == Sequential(done + [Null])
  {
    var s := st.scopes[|st.scopes| - 1].scope;
    AtPut(st.root, s, Sequential(done + [Null]));
  }

  /** One element parses into the empty element of the innermost scope. */
  lemma ItemHead(st: State, done: seq<Command>, x: Command)
    requires st.scopes != []
    requires var s := st.scopes[|st.scopes| - 1].scope;
      IsSlot(st.root, s) && At(st.root, s) == Sequential(done + [Null]) && st.current == s + [Elem(|done|)]
    requires IsItem(x)
    ensures var s := st.scopes[|st.scopes| - 1].scope;
      && Placed(st, Run(st, Render(x)), s, Sequential(done + [x]))
      && IsSlot(Run(st, Render(x)).value.root, s)
      && At(Run(st, Render(x)).value.root, s) == Sequential(done + [x])
    decreases x, 5
  {
    var s := st.scopes[|st.scopes| - 1].scope;
    ElementSlot(st.root, s, done, x);
    ItemFills(st, x);
    AtPut(st.root, s, Sequential(done + [x]));
  }

  /** The elements of a sequence parse one after the other into the
      innermost scope, which already holds `done` and an empty element. */
  lemma ItemsFill(st: State, done: seq<Command>, items: seq<Command>)
    requires st.scopes != []
    requires var s := st.scopes[|st.scopes| - 1].scope;
      IsSlot(st.root, s) && At(st.root, s) == Sequential(done + [Null]) && st.current == s + [Elem(|done|)]
    requires items != [] && forall i :: 0 <= i < |items| ==> IsItem(items[i])
    ensures Placed(st, Run(st, RenderItems(items)), st.scopes[|st.scopes| - 1].scope, Sequential(done + items))
    decreases items, 1
  {
    ItemHead(st, done, items[0]);
    if |items| > 1 {
      MoreItemsFill(st, done, items);
    } else {
      assert done + items == done + [items[0]];
    }
  }

  lemma MoreItemsFill(st: State, done: seq<Command>, items: seq<Command>)
    requires st.scopes != []
    requires var s := st.scopes[|st.scopes| - 1].scope;
      IsSlot(st.root, s) && At(st.root, s) == Sequential(done + [Null]) && st.current == s + [Elem(|done|)]
    requires |items| > 1 && forall i :: 0 <= i < |items| ==> IsItem(items[i])
    ensures Placed(st, Run(st, RenderItems(items)), st.scopes[|st.scopes| - 1].scope, Sequential(done + items))
    decreases items, 0
  {
    var s := st.scopes[|st.scopes| - 1].scope;
    var next := SeparatorStep(st, done, items[0]);
    var rest := items[1..];
    ItemsFill(next, done + [items[0]], rest);
    RunSplice(st, Render(items[0]) + [SemiToken], RenderItems(rest), next);
    PlacedAfter(st, next, Run(next, RenderItems(rest)), s, done, items[0], rest);
    assert [items[0]] + rest == items;
  }

  /** Parsing `a` to `next`, then `b`, is parsing `b` from `next`. */
  lemma RunSplice(st: State, a: seq<Token>, b: seq<Token>, next: State)
    requires Run(st, a) == Ok(next)
    ensures Run(st, a + b) == Run(next, b)
  {
    RunAppend(st, a, b);
  }

  /** Filling the rest of a sequence after `done + [x]` was written fills
      the sequence `done + [x] + rest` as seen from before `x`. */
  lemma PlacedAfter(st: State, next: State, r: Result<State>, s: Path, done: seq<Command>, x: Command, rest: seq<Command>)
    requires IsSlot(st.root, s)
    requires next.scopes == st.scopes && next.isRootSequence == st.isRootSequence
    requires next.root == Put(st.root, s, Sequential(done + [x] + [Null]))
    requires Placed(next, r, s, Sequential(done + [x] + rest))
    ensures Placed(st, r, s, Sequential(done + ([x] + rest)))
  {
    PutPut(st.root, s, Sequential(done + [x] + [Null]), Sequential(done + [x] + rest));
    assert done + [x] + rest == done + ([x] + rest);
  }

  /** An element and the `;` after it: the element is in place and an empty
      element after it is current. */
  lemma SeparatorStep(st: State, done: seq<Command>, x: Command) returns (next: State)
    requires st.scopes != []
    requires var s := st.scopes[|st.scopes| - 1].scope;
      IsSlot(st.root, s) && At(st.root, s) == Sequential(done + [Null]) && st.current == s + [Elem(|done|)]
    requires IsItem(x)
    ensures Run(st, Render(x) + [SemiToken]) == Ok(next)
    ensures next.scopes == st.scopes && next.isRootSequence == st.isRootSequence
    ensures var s := st.scopes[|st.scopes| - 1].scope;
      && next.root == Put(st.root, s, Sequential(done + [x] + [Null]))
      && IsSlot(next.root, s) && At(next.root, s) == Sequential(done + [x] + [Null])
      && next.current == s + [Elem(|done + [x]|)]
    decreases x, 6
  {
    var s := st.scopes[|st.scopes| - 1].scope;
    ItemHead(st, done, x);
    var st1 := Run(st, Render(x)).value;
    AppendStep(st1, done + [x]);
    PutPut(st.root, s, Sequential(done + [x]), Sequential(done + [x] + [Null]));
    next := SequenceStep(st1);
    RunAppend(st, Render(x), [SemiToken]);
    RunCons(st1, SemiToken, []);
    assert [SemiToken] + [] == [SemiToken];
  }

  /** Every tree in canonical form is what a fresh parser builds from its
      tokens. */
  lemma ParseRender(c: Command)
    requires IsTree(c)
    ensures Parse(RenderTree(c)) == Ok(c)
    ensures Run(Start(false), RenderTree(c)).value.isRootSequence == (c.Sequential? && |c.sequence| >= 2)
  {
    var st := Start(false);
    if c.Sequential? && |c.sequence| >= 2 {
      var items := c.sequence;
      ChainFills(st, items[0]);
      var st1 := Run(st, Render(items[0])).value;
      assert st1.root == items[0] && st1.scopes == [] && !st1.isRootSequence;
      var st2 := SequenceStep(st1);
      assert st2.root == Sequential([items[0]] + [Null]) && st2.current == [] + [Elem(|[items[0]]|)];
      assert st2.scopes != [] && st2.scopes[|st2.scopes| - 1].scope == [];
      ItemsFill(st2, [items[0]], items[1..]);
      assert [items[0]] + items[1..] == items;
      RunThrough(st, Render(items[0]), SemiToken, RenderItems(items[1..]));
    } else {
      ItemFills(st, c);
    }
  }

  /** Canonical trees render differently, so each tree has one canonical
      token list. */
  lemma RenderInjective(c: Command, d: Command)
    requires IsTree(c) && IsTree(d) && RenderTree(c) == RenderTree(d)
    ensures c == d
  {
    ParseRender(c);
    ParseRender(d);
  }

  // Errors and edge cases of apply().

  function W(text: string): Token
  {
    Token(Word, text)
  }

  function Leaf(program: string): Command
  {
    Executable(Program, program, [])
  }

  /** An empty token list gives no tree. */
  lemma EmptyInput()
    ensures Parse([]) == Ok(Null)
  {
  }

  /** Connectives nest to the right: `a && b || c` is Conj(a, Disj(b, c)). */
  lemma RightNested()
    ensures Parse([W("a"), AndToken, W("b"), OrToken, W("c")])
      == Ok(Conjunctive(Leaf("a"), Disjunctive(Leaf("b"), Leaf("c"))))
  {
    var c := Conjunctive(Leaf("a"), Disjunctive(Leaf("b"), Leaf("c")));
    assert IsChain(c);
    assert RenderTree(c) == [W("a"), AndToken, W("b"), OrToken, W("c")];
    ParseRender(c);
  }

  /** The first word picks the leaf class: `exit`, `test` and `[` are
      builtins, and later words are arguments in order. */
  lemma Builtins()
    ensures Parse([W("exit"), W("3")]) == Ok(Executable(ExitBuiltin, "exit", ["3"]))
    ensures Parse([W("["), W("-e"), W("f"), W("]")]) == Ok(Executable(TestBuiltin, "[", ["-e", "f", "]"]))
  {
    var e := Executable(ExitBuiltin, "exit", ["3"]);
    assert ["exit"] + ["3"] == ["exit", "3"];
    assert Words(["exit", "3"]) == [W("exit")] + Words(["3"]);
    assert RenderTree(e) == [W("exit"), W("3")];
    ParseRender(e);
    var t := Executable(TestBuiltin, "[", ["-e", "f", "]"]);
    assert ["["] + ["-e", "f", "]"] == ["[", "-e", "f", "]"];
    assert Words(["[", "-e", "f", "]"]) == [W("[")] + Words(["-e", "f", "]"]);
    assert Words(["-e", "f", "]"]) == [W("-e")] + Words(["f", "]"]);
    assert Words(["f", "]"]) == [W("f")] + Words(["]"]);
    assert RenderTree(t) == [W("["), W("-e"), W("f"), W("]")];
    ParseRender(t);
  }

  /** A trailing `;` or connective leaves an empty slot in the tree. */
  lemma TrailingOperators()
    ensures Parse([W("a"), SemiToken]) == Ok(Sequential([Leaf("a"), Null]))
    ensures Parse([W("a"), AndToken]) == Ok(Conjunctive(Leaf("a"), Null))
  {
    var st0 := Start(false);
    RunCons(st0, W("a"), []);
    var st1 := Run(st0, [W("a")]).value;
    assert st1.root == Leaf("a") && st1.current == [] && st1.scopes == [];
    assert SequenceStep(st1).root == Sequential([Leaf("a")] + [Null]);
    assert [Leaf("a")] + [Null] == [Leaf("a"), Null];
    RunThrough(st0, [W("a")], SemiToken, []);
    assert [W("a")] + [SemiToken] + [] == [W("a"), SemiToken];
    RunThrough(st0, [W("a")], AndToken, []);
    assert [W("a")] + [AndToken] + [] == [W("a"), AndToken];
  }

  /** The state after `(` at the start: the root is a one-element scope
      whose element is current. */
  lemma EnterAtStart(isRootSequence: bool)
    ensures var st := OpenScopeStep(Start(isRootSequence));
      && st.Ok? && st.value.root == Sequential([Null]) && st.value.current == [Elem(0)]
      && st.value.scopes == [ScopePair([], [])] && st.value.isRootSequence == isRootSequence
      && IsSlot(st.value.root, st.value.current) && At(st.value.root, st.value.current) == Null
      && Put(st.value.root, st.value.current, Leaf("a")) == Sequential([Leaf("a")])
  {
    ElementSlot(Sequential([Null]), [], [], Leaf("a"));
    assert [] + [Elem(0)] == [Elem(0)];
    assert [] + [Null] == [Null];
    assert [] + [Leaf("a")] == [Leaf("a")];
  }

  /** `( a` from the start. */
  lemma ScopeOfA(isRootSequence: bool)
    ensures Run(Start(isRootSequence), [OpenToken, W("a")])
      == Ok(State(Sequential([Leaf("a")]), [Elem(0)], [ScopePair([], [])], isRootSequence))
  {
    EnterAtStart(isRootSequence);
    var st1 := OpenScopeStep(Start(isRootSequence)).value;
    RunCons(Start(isRootSequence), OpenToken, [W("a")]);
    RunCons(st1, W("a"), []);
  }

  /** A scope left open is not an error of the parser. */
  lemma UnclosedScope()
    ensures Parse([OpenToken, W("a")]) == Ok(Sequential([Leaf("a")]))
  {
    ScopeOfA(false);
  }

  /** A connective needs a command before it. */
  lemma ConnectiveFirst(rest: seq<Token>)
    ensures Parse([AndToken] + rest) == Err("conjunction must follow command")
    ensures Parse([OrToken] + rest) == Err("disjunction must follow command")
  {
    RunCons(Start(false), AndToken, rest);
    RunCons(Start(false), OrToken, rest);
  }

  /** A word right after a scope is refused. */
  lemma WordAfterScope(rest: seq<Token>)
    ensures Parse([OpenToken, W("a"), CloseToken, W("b")] + rest) == Err("word in non-executable command")
  {
    ScopeOfA(false);
    var st2 := Run(Start(false), [OpenToken, W("a")]).value;
    var st3 := CloseScopeStep(st2).value;
    assert st3.root == Sequential([Leaf("a")]) && st3.current == [];
    assert [OpenToken, W("a"), CloseToken, W("b")] + rest == [OpenToken, W("a")] + [CloseToken] + ([W("b")] + rest);
    RunThrough(Start(false), [OpenToken, W("a")], CloseToken, [W("b")] + rest);
    RunCons(st3, W("b"), rest);
  }

  /** A scope right after a word is refused. */
  lemma ScopeAfterWord(rest: seq<Token>)
    ensures Parse([W("a"), OpenToken] + rest) == Err("scope must not follow command")
  {
    var st0 := Start(false);
    var sa := WordStep(st0, "a").value;
    RunCons(st0, W("a"), [OpenToken] + rest);
    assert [W("a"), OpenToken] + rest == [W("a")] + ([OpenToken] + rest);
    RunCons(sa, OpenToken, rest);
  }

  /** A `)` with no open scope, also after a top-level `;`, is unbalanced. */
  lemma UnbalancedClose(rest: seq<Token>)
    ensures Parse([CloseToken] + rest) == Err("unbalanced closing parenthesis")
    ensures Parse([W("a"), SemiToken, CloseToken] + rest) == Err("unbalanced closing parenthesis")
  {
    var st0 := Start(false);
    RunCons(st0, CloseToken, rest);
    var sa := WordStep(st0, "a").value;
    var ss := SequenceStep(sa);
    assert |ss.scopes| == 1 && ss.isRootSequence;
    RunCons(st0, W("a"), [SemiToken, CloseToken] + rest);
    assert [W("a"), SemiToken, CloseToken] + rest == [W("a")] + ([SemiToken, CloseToken] + rest);
    RunCons(sa, SemiToken, [CloseToken] + rest);
    assert [SemiToken, CloseToken] + rest == [SemiToken] + ([CloseToken] + rest);
    RunCons(ss, CloseToken, rest);
  }

  // The nesting of scopes.

  function Opens(t: seq<Token>): nat
  {
    if t == [] then 0 else (if t[0].kind == OpenScope then 1 else 0) + Opens(t[1..])
  }

  function Closes(t: seq<Token>): nat
  {
    if t == [] then 0 else (if t[0].kind == CloseScope then 1 else 0) + Closes(t[1..])
  }

  /** Outside the first apply(), `_isRootSequence` is set only together with
      the root's pair at the bottom of the stack. */
  predicate RootPaired(st: State)
  {
    st.isRootSequence ==> st.scopes != []
  }

  /** The number of parenthesised scopes open. */
  function Depth(st: State): int
  {
    |st.scopes| - (if st.isRootSequence then 1 else 0)
  }

  /** `(` opens one scope, a successful `)` closes one, nothing else
      changes the depth. */
  lemma StepDepth(st: State, t: Token)
    requires RootPaired(st) && TokenStep(st, t).Ok?
    ensures RootPaired(TokenStep(st, t).value)
    ensures Depth(TokenStep(st, t).value)
      == Depth(st) + (if t.kind == OpenScope then 1 else 0) - (if t.kind == CloseScope then 1 else 0)
  {
  }

  lemma {:induction false} RunDepth(st: State, tokens: seq<Token>)
    requires RootPaired(st) && Run(st, tokens).Ok?
    ensures forall k :: 0 <= k <= |tokens| ==> Closes(tokens[..k]) <= Depth(st) + Opens(tokens[..k])
    ensures Depth(Run(st, tokens).value) == Depth(st) + Opens(tokens) - Closes(tokens)
    decreases |tokens|
  {
    if tokens != [] {
      var next := TokenStep(st, tokens[0]).value;
      StepDepth(st, tokens[0]);
      RunDepth(next, tokens[1..]);
      forall k | 0 <= k <= |tokens|
        ensures Closes(tokens[..k]) <= Depth(st) + Opens(tokens[..k])
      {
        if k > 0 {
          assert tokens[..k][0] == tokens[0] && tokens[..k][1..] == tokens[1..][..k - 1];
        }
      }
    }
  }

  /** A parse that succeeds never closes more scopes than it has opened,
      and leaves open the scopes it has not closed: the parser itself does
      not insist on balance. */
  lemma ScopesNest(tokens: seq<Token>)
    requires Parse(tokens).Ok?
    ensures forall k :: 0 <= k <= |tokens| ==> Closes(tokens[..k]) <= Opens(tokens[..k])
    ensures Depth(Run(Start(false), tokens).value) == Opens(tokens) - Closes(tokens)
  {
    RunDepth(Start(false), tokens);
  }

  // apply() does not reset `_isRootSequence`.

  const Reapplied := [OpenToken, W("a"), CloseToken, SemiToken, W("b")]

  /** The first apply() of `( a ) ; b` succeeds and sets
      `_isRootSequence`. */
  lemma FirstApply()
    ensures var first := Run(Start(false), Reapplied);
      && first.Ok? && first.value.isRootSequence
      && Outcome(first) == Ok(Sequential([Sequential([Leaf("a")]), Leaf("b")]))
  {
    var c := Sequential([Sequential([Leaf("a")]), Leaf("b")]);
    assert IsTree(c);
    assert Words(["a"] + []) == [W("a")];
    assert Words(["b"] + []) == [W("b")];
    assert RenderTree(c) == Reapplied;
    ParseRender(c);
  }

  /** With `_isRootSequence` set, the `)` of a scope at the root is taken
      for an unbalanced one. */
  lemma SecondApply()
    ensures Run(Start(true), Reapplied) == Err("unbalanced closing parenthesis")
  {
    ScopeOfA(true);
    var st2 := Run(Start(true), [OpenToken, W("a")]).value;
    assert Reapplied == [OpenToken, W("a")] + ([CloseToken] + [SemiToken, W("b")]);
    RunAppend(Start(true), [OpenToken, W("a")], [CloseToken] + [SemiToken, W("b")]);
    RunCons(st2, CloseToken, [SemiToken, W("b")]);
  }

  /** The same tokens parse on the first apply() and fail on the second:
      the first leaves `_isRootSequence` set, and the second then takes the
      scope's pair for the root's. */
  lemma ReapplyFails()
    ensures var first := Run(Start(false), Reapplied);
      && first.Ok? && first.value.isRootSequence
      && Outcome(first) == Ok(Sequential([Sequential([Leaf("a")]), Leaf("b")]))
      && Run(Start(first.value.isRootSequence), Reapplied) == Err("unbalanced closing parenthesis")
  {
    FirstApply();
    SecondApply();
  }

  /** A failed apply() leaves the flag behind too: `a ; )` sets
      `_isRootSequence` at the `;` and throws at the `)`, and the next apply
      on that parser then fails on `( a ) ; b`. */
  lemma FailedApplySetsFlag()
    ensures Run(Start(false), [W("a"), SemiToken, CloseToken]) == Err("unbalanced closing parenthesis")
    ensures Halt(Start(false), [W("a"), SemiToken, CloseToken]).isRootSequence
    ensures Run(Start(Halt(Start(false), [W("a"), SemiToken, CloseToken]).isRootSequence), Reapplied)
         == Err("unbalanced closing parenthesis")
  {
    var ts := [W("a"), SemiToken, CloseToken];
    assert ts[1..] == [SemiToken, CloseToken] && ts[1..][1..] == [CloseToken];
    var st1 := Start(false).(root := Executable(Program, "a", []));
    assert TokenStep(Start(false), ts[0]) == Ok(st1);
    var st2 := SequenceStep(st1);
    assert st2.isRootSequence && |st2.scopes| == 1;
    assert TokenStep(st2, CloseToken) == Err("unbalanced closing parenthesis");
    assert Run(st2, [CloseToken]) == Err("unbalanced closing parenthesis");
    assert Run(Start(false), ts) == Run(st2, [CloseToken]);
    assert Halt(st2, [CloseToken]) == st2;
    assert Halt(Start(false), ts) == Halt(st2, [CloseToken]);
    SecondApply();
  }

  /** Two calls of apply() on one parser, as written. */
  method ReapplyParser() returns (first: Result<Command>, second: Result<Command>)
    ensures first == Ok(Sequential([Sequential([Leaf("a")]), Leaf("b")]))
    ensures second == Err("unbalanced closing parenthesis")
  {
    var parser := new Parser(Reapplied);
    first := parser.Apply();
    ReapplyFails();
    second := parser.Apply();
  }

  /** Two calls of apply() that also reset `_isRootSequence`. */
  method ReapplyFreshParser() returns (first: Result<Command>, second: Result<Command>)
    ensures first == second == Ok(Sequential([Sequential([Leaf("a")]), Leaf("b")]))
  {
    var parser := new Parser(Reapplied);
    first := parser.ApplyFresh();
    ReapplyFails();
    second := parser.ApplyFresh();
  }
}
