/** The walk both linear-design drivers make over a chain
    (rshell/Execution.cpp and src/Execution.cpp): the head always runs; a
    later node runs only when its class accepts the exit code of the node
    that ran last; a node whose program is "exit" ends the walk with the
    code its driver computes.  `Walk` is the specification both `execute`
    loops are proved against; the executor they call is an abstract one. */
module LinearWalk {
  import opened Wrappers
  import opened LinearCommand

  /** How a walk ends: `execute` returns a code, or the exit handler throws
      one. */
  datatype Outcome = Completed(code: int) | Terminated(code: int)

  /** The end of a walk, the positions of the nodes handed to the executor,
      in order, those nodes, and the position where the walk stopped (the
      "exit" node, or the end of the chain). */
  datatype Walked = Walked(outcome: Outcome, ran: seq<nat>, commands: seq<Node>, stop: nat)

  /** The executor interface of the linear design (`Executor::execute`).
      Running a program is left to an oracle: the code of the n-th command
      the executor runs is `answer(n, command)`.  The executor records what
      it ran. */
  class Executor {
    const answer: (nat, Node) -> int
    var log: seq<Node>

    constructor(answer: (nat, Node) -> int)
      ensures this.answer == answer && log == []
    {
      this.answer := answer;
      log := [];
    }

    method Execute(command: Node) returns (code: int)
      modifies this
      ensures log == old(log) + [command]
      ensures code == answer(|old(log)|, command)
    {
      code := answer(|log|, command);
      log := log + [command];
    }
  }

  /** The loop of `execute` from position `at`: `calls` commands have been
      run so far, `code` is the code of the last one and `previous` the last
      node run (None before the first). */
  function Walk(chain: Chain, handleExit: Node -> int, answer: (nat, Node) -> int,
                at: nat, calls: nat, code: int, previous: Option<Node>): Walked
    requires at <= |chain|
    decreases |chain| - at
  {
    if at == |chain| then Walked(Completed(code), [], [], at)
    else
      var node := chain[at];
      if previous.Some? && !ShouldExecuteAfter(node, previous.value, code) then
        Walk(chain, handleExit, answer, at + 1, calls, code, previous)
      else if node.program == "exit" then
        Walked(Terminated(handleExit(node)), [], [], at)
      else
        var rest := Walk(chain, handleExit, answer, at + 1, calls + 1, answer(calls, node), Some(node));
        Walked(rest.outcome, [at] + rest.ran, [node] + rest.commands, rest.stop)
  }

  /** The whole of `execute`: from the head, with code 0 and no previous
      node. */
  function WalkFromHead(chain: Chain, handleExit: Node -> int, answer: (nat, Node) -> int, calls: nat): Walked
  {
    Walk(chain, handleExit, answer, 0, calls, 0, None)
  }

  /** Where a walk may stop and which positions it may run. */
  predicate Bounded(chain: Chain, handleExit: Node -> int, at: nat, w: Walked)
  {
    && at <= w.stop <= |chain|
    && (w.outcome.Completed? <==> w.stop == |chain|)
    && (forall i :: 0 <= i < |w.ran| ==> at <= w.ran[i] < w.stop)
    && (forall i, j :: 0 <= i < j < |w.ran| ==> w.ran[i] < w.ran[j])
    && |w.commands| == |w.ran|
    && (forall i :: 0 <= i < |w.ran| ==> w.commands[i] == chain[w.ran[i]])
    && (forall i :: 0 <= i < |w.ran| ==> chain[w.ran[i]].program != "exit")
    && (w.outcome.Terminated? ==>
          chain[w.stop].program == "exit" && w.outcome.code == handleExit(chain[w.stop]))
  }

  /** Running the node at `at` before a bounded walk from `at + 1` gives a
      bounded walk from `at`. */
  lemma BoundedAfterRun(chain: Chain, handleExit: Node -> int, at: nat, rest: Walked, w: Walked)
    requires at < |chain| && chain[at].program != "exit"
    requires Bounded(chain, handleExit, at + 1, rest)
    requires w == Walked(rest.outcome, [at] + rest.ran, [chain[at]] + rest.commands, rest.stop)
    ensures Bounded(chain, handleExit, at, w)
  {
    assert forall i :: 0 < i < |w.ran| ==> w.ran[i] == rest.ran[i - 1] && w.commands[i] == rest.commands[i - 1];
  }

  /** The walk runs positions in increasing order, never an "exit" node; it
      completes exactly when it reaches the end of the chain, and otherwise
      stops at an "exit" node with that node's code. */
  lemma {:induction false} WalkBounded(chain: Chain, handleExit: Node -> int, answer: (nat, Node) -> int,
                                       at: nat, calls: nat, code: int, previous: Option<Node>)
    requires at <= |chain|
    ensures Bounded(chain, handleExit, at, Walk(chain, handleExit, answer, at, calls, code, previous))
    decreases |chain| - at
  {
    if at < |chain| {
      var node := chain[at];
      if previous.Some? && !ShouldExecuteAfter(node, previous.value, code) {
        WalkBounded(chain, handleExit, answer, at + 1, calls, code, previous);
      } else if node.program != "exit" {
        WalkBounded(chain, handleExit, answer, at + 1, calls + 1, answer(calls, node), Some(node));
        BoundedAfterRun(chain, handleExit, at,
                        Walk(chain, handleExit, answer, at + 1, calls + 1, answer(calls, node), Some(node)),
                        Walk(chain, handleExit, answer, at, calls, code, previous));
      }
    }
  }

  /** The code a completed walk returns is that of the last command run, or
      the code it started with when it ran none. */
  lemma {:induction false} WalkCode(chain: Chain, handleExit: Node -> int, answer: (nat, Node) -> int,
                                    at: nat, calls: nat, code: int, previous: Option<Node>)
    requires at <= |chain|
    ensures var w := Walk(chain, handleExit, answer, at, calls, code, previous);
      w.outcome.Completed? ==>
        w.outcome.code == (if w.commands == [] then code
                           else answer(calls + |w.commands| - 1, w.commands[|w.commands| - 1]))
    decreases |chain| - at
  {
    if at < |chain| {
      var node := chain[at];
      if previous.Some? && !ShouldExecuteAfter(node, previous.value, code) {
        WalkCode(chain, handleExit, answer, at + 1, calls, code, previous);
      } else if node.program != "exit" {
        WalkCode(chain, handleExit, answer, at + 1, calls + 1, answer(calls, node), Some(node));
      }
    }
  }

  /** The last node run before the `j`-th position of a walk, and its code:
      what the walk started with for `j == 0`. */
  function PreviousAt(chain: Chain, ran: seq<nat>, previous: Option<Node>, j: nat): Option<Node>
    requires j <= |ran| && forall i :: 0 <= i < |ran| ==> ran[i] < |chain|
  {
    if j == 0 then previous else Some(chain[ran[j - 1]])
  }

  function CodeAt(chain: Chain, answer: (nat, Node) -> int, ran: seq<nat>, calls: nat, code: int, j: nat): int
    requires j <= |ran| && forall i :: 0 <= i < |ran| ==> ran[i] < |chain|
  {
    if j == 0 then code else answer(calls + j - 1, chain[ran[j - 1]])
  }

  /** Every node in positions `from` up to `to` is skipped: it is not the
      head, and its class refuses to follow `previous` after `code`. */
  predicate Skipped(chain: Chain, from: nat, to: nat, previous: Option<Node>, code: int)
    requires to <= |chain|
  {
    forall k :: from <= k < to ==> previous.Some? && !ShouldExecuteAfter(chain[k], previous.value, code)
  }

  /** The node at `k` is not skipped: it is the head, or its class accepts
      following `previous` after `code`. */
  predicate Admitted(chain: Chain, k: nat, previous: Option<Node>, code: int)
    requires k < |chain|
  {
    previous.None? || ShouldExecuteAfter(chain[k], previous.value, code)
  }

  /** The skip rule of the walk, stated for the `j`-th position it reaches
      (a node it runs, or where it stops): every node since the position
      before was skipped, and the node there was not. */
  predicate GapExplained(chain: Chain, answer: (nat, Node) -> int, at: nat, calls: nat, code: int,
                         previous: Option<Node>, w: Walked, j: nat)
    requires w.stop <= |chain| && j <= |w.ran|
    requires forall i :: 0 <= i < |w.ran| ==> w.ran[i] < w.stop
  {
    var from := if j == 0 then at else w.ran[j - 1] + 1;
    var to := if j < |w.ran| then w.ran[j] else w.stop;
    var p := PreviousAt(chain, w.ran, previous, j);
    var c := CodeAt(chain, answer, w.ran, calls, code, j);
    && Skipped(chain, from, to, p, c)
    && (to < |chain| ==> Admitted(chain, to, p, c))
  }

  /** Skipping the node at `at` leaves the explanation of the rest of the
      walk in place, one position earlier. */
  lemma GapsAfterSkip(chain: Chain, answer: (nat, Node) -> int, at: nat, next: nat, calls: nat, code: int,
                      previous: Option<Node>, w: Walked)
    requires at < |chain| && w.stop <= |chain| && next == at + 1
    requires previous.Some? && !ShouldExecuteAfter(chain[at], previous.value, code)
    requires forall i :: 0 <= i < |w.ran| ==> at + 1 <= w.ran[i] < w.stop
    requires at + 1 <= w.stop
    requires forall j :: 0 <= j <= |w.ran| ==> GapExplained(chain, answer, next, calls, code, previous, w, j)
    ensures forall j :: 0 <= j <= |w.ran| ==> GapExplained(chain, answer, at, calls, code, previous, w, j)
  {
    forall j | 0 <= j <= |w.ran|
      ensures GapExplained(chain, answer, at, calls, code, previous, w, j)
    {
      assert GapExplained(chain, answer, next, calls, code, previous, w, j);
    }
  }

  /** Running the node at `at` puts it before the positions of the rest of
      the walk, which is explained from that node and its code. */
  lemma GapsAfterRun(chain: Chain, answer: (nat, Node) -> int, at: nat, next: nat, calls: nat, later: nat,
                     code: int, previous: Option<Node>, rest: Walked, w: Walked)
    requires at < |chain| && rest.stop <= |chain| && next == at + 1 && next <= rest.stop && later == calls + 1
    requires Admitted(chain, at, previous, code)
    requires forall i :: 0 <= i < |rest.ran| ==> at + 1 <= rest.ran[i] < rest.stop
    requires at + 1 <= rest.stop
    requires forall j :: 0 <= j <= |rest.ran| ==>
      GapExplained(chain, answer, next, later, answer(calls, chain[at]), Some(chain[at]), rest, j)
    requires w.ran == [at] + rest.ran && w.stop == rest.stop
    ensures forall i :: 0 <= i < |w.ran| ==> w.ran[i] < w.stop
    ensures forall j :: 0 <= j <= |w.ran| ==> GapExplained(chain, answer, at, calls, code, previous, w, j)
  {
    var c := answer(calls, chain[at]);
    assert forall i :: 0 < i < |w.ran| ==> w.ran[i] == rest.ran[i - 1];
    forall j | 0 <= j <= |w.ran|
      ensures GapExplained(chain, answer, at, calls, code, previous, w, j)
    {
      if j > 0 {
        assert GapExplained(chain, answer, next, later, c, Some(chain[at]), rest, j - 1);
        assert PreviousAt(chain, w.ran, previous, j) == PreviousAt(chain, rest.ran, Some(chain[at]), j - 1);
        assert CodeAt(chain, answer, w.ran, calls, code, j) == CodeAt(chain, answer, rest.ran, calls + 1, c, j - 1);
      }
    }
  }

  /** A node is skipped exactly when its class refuses the code of the node
      run last; skipped nodes change neither that code nor that node. */
  lemma {:induction false} WalkSkips(chain: Chain, handleExit: Node -> int, answer: (nat, Node) -> int,
                                     at: nat, calls: nat, code: int, previous: Option<Node>)
    requires at <= |chain|
    ensures var w := Walk(chain, handleExit, answer, at, calls, code, previous);
      Bounded(chain, handleExit, at, w) &&
      forall j :: 0 <= j <= |w.ran| ==> GapExplained(chain, answer, at, calls, code, previous, w, j)
    decreases |chain| - at
  {
    WalkBounded(chain, handleExit, answer, at, calls, code, previous);
    var w := Walk(chain, handleExit, answer, at, calls, code, previous);
    if at < |chain| {
      var node := chain[at];
      if previous.Some? && !ShouldExecuteAfter(node, previous.value, code) {
        WalkSkips(chain, handleExit, answer, at + 1, calls, code, previous);
        GapsAfterSkip(chain, answer, at, at + 1, calls, code, previous, w);
      } else if node.program != "exit" {
        var c := answer(calls, node);
        WalkSkips(chain, handleExit, answer, at + 1, calls + 1, c, Some(node));
        var rest := Walk(chain, handleExit, answer, at + 1, calls + 1, c, Some(node));
        GapsAfterRun(chain, answer, at, at + 1, calls, calls + 1, code, previous, rest, w);
      }
    }
  }

  /** The head of the chain is never skipped: it runs, or it is an "exit"
      node and the walk terminates there with that node's code. */
  lemma HeadRuns(chain: Chain, handleExit: Node -> int, answer: (nat, Node) -> int, calls: nat)
    requires chain != []
    ensures var w := WalkFromHead(chain, handleExit, answer, calls);
      if chain[0].program == "exit" then w == Walked(Terminated(handleExit(chain[0])), [], [], 0)
      else w.ran != [] && w.ran[0] == 0 && w.commands[0] == chain[0]
  {
  }

  /** Once a node has run, a node after `;` is never skipped: the walk runs
      it unless it stopped before it. */
  lemma {:induction false} SequentialRuns(chain: Chain, handleExit: Node -> int, answer: (nat, Node) -> int,
                                          at: nat, calls: nat, code: int, previous: Option<Node>, k: nat)
    requires at <= k < |chain| && chain[k].link == Sequential
    requires previous.Some? || at < k
    requires k < Walk(chain, handleExit, answer, at, calls, code, previous).stop
    ensures k in Walk(chain, handleExit, answer, at, calls, code, previous).ran
    decreases |chain| - at
  {
    var node := chain[at];
    if previous.Some? && !ShouldExecuteAfter(node, previous.value, code) {
      SequentialRuns(chain, handleExit, answer, at + 1, calls, code, previous, k);
    } else if at < k {
      SequentialRuns(chain, handleExit, answer, at + 1, calls + 1, answer(calls, node), Some(node), k);
    }
  }

  /** The first step of a walk over two nodes whose head runs. */
  lemma PairHead(a: Node, b: Node, handleExit: Node -> int, answer: (nat, Node) -> int, calls: nat)
    requires a.program != "exit"
    ensures var rest := Walk([a, b], handleExit, answer, 1, calls + 1, answer(calls, a), Some(a));
      var w := WalkFromHead([a, b], handleExit, answer, calls);
      w.commands == [a] + rest.commands && w.outcome == rest.outcome
  {
    assert [a, b][0] == a;
  }

  /** The second step of a walk over two nodes, after the head ran or was
      the previous node. */
  lemma PairTail(a: Node, b: Node, handleExit: Node -> int, answer: (nat, Node) -> int, calls: nat, code: int)
    ensures var rest := Walk([a, b], handleExit, answer, 1, calls, code, Some(a));
      if !ShouldExecuteAfter(b, a, code) then rest.commands == [] && rest.outcome == Completed(code)
      else if b.program == "exit" then rest.commands == [] && rest.outcome == Terminated(handleExit(b))
      else rest.commands == [b] && rest.outcome == Completed(answer(calls, b))
  {
    assert [a, b][1] == b;
  }

  /** `a && b`: b runs exactly when a returned 0. */
  lemma ConjunctionRuns(a: Node, b: Node, handleExit: Node -> int, answer: (nat, Node) -> int, calls: nat)
    requires a.program != "exit" && b.program != "exit" && b.link == Conjunctive
    ensures var w := WalkFromHead([a, b], handleExit, answer, calls);
      && w.commands == (if answer(calls, a) == 0 then [a, b] else [a])
      && w.outcome == Completed(if answer(calls, a) == 0 then answer(calls + 1, b) else answer(calls, a))
  {
    PairHead(a, b, handleExit, answer, calls);
    PairTail(a, b, handleExit, answer, calls + 1, answer(calls, a));
  }

  /** `a || b`: b runs exactly when a did not return 0. */
  lemma DisjunctionRuns(a: Node, b: Node, handleExit: Node -> int, answer: (nat, Node) -> int, calls: nat)
    requires a.program != "exit" && b.program != "exit" && b.link == Disjunctive
    ensures var w := WalkFromHead([a, b], handleExit, answer, calls);
      && w.commands == (if answer(calls, a) != 0 then [a, b] else [a])
      && w.outcome == Completed(if answer(calls, a) != 0 then answer(calls + 1, b) else answer(calls, a))
  {
    PairHead(a, b, handleExit, answer, calls);
    PairTail(a, b, handleExit, answer, calls + 1, answer(calls, a));
  }

  /** `a ; exit`: the exit node is reached whatever a returned, and ends the
      walk with its own code. */
  lemma SequenceThenExit(a: Node, e: Node, handleExit: Node -> int, answer: (nat, Node) -> int, calls: nat)
    requires a.program != "exit" && e.program == "exit" && e.link == Sequential
    ensures var w := WalkFromHead([a, e], handleExit, answer, calls);
      w.commands == [a] && w.outcome == Terminated(handleExit(e))
  {
    PairHead(a, e, handleExit, answer, calls);
    PairTail(a, e, handleExit, answer, calls + 1, answer(calls, a));
  }

  /** `a && exit` after a failing a: the exit node is skipped, and the walk
      completes with a's code. */
  lemma SkippedExit(a: Node, e: Node, handleExit: Node -> int, answer: (nat, Node) -> int, calls: nat)
    requires a.program != "exit" && e.program == "exit" && e.link == Conjunctive
    requires answer(calls, a) != 0
    ensures var w := WalkFromHead([a, e], handleExit, answer, calls);
      w.commands == [a] && w.outcome == Completed(answer(calls, a))
  {
    PairHead(a, e, handleExit, answer, calls);
    PairTail(a, e, handleExit, answer, calls + 1, answer(calls, a));
  }
}
