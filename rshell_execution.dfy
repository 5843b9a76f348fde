/** The driver of the linear-design shell (rshell/Execution.cpp): it owns an
    executor, walks a parsed chain with the skip rule of `LinearWalk`, and
    ends the walk at an "exit" node by throwing the code `handleExit`
    computes with std::stoi. */
module RshellExecution {
  import opened Wrappers
  import opened Numbers
  import opened LinearCommand
  import opened LinearWalk

  /** `Execution::handleExit`: the code the thrown int carries. */
  function HandleExit(command: Node): (code: int)
    ensures INT_MIN <= code <= INT_MAX
  {
    if command.arguments == [] then 0
    else
      match StoI(command.arguments[0])
      case None => 0
      case Some(v) => v
  }

  /** `exit` alone exits with 0, `exit n` with n for every int n, and an
      argument stoi rejects (not a number, or out of the range of int) with
      0; arguments after the first are ignored. */
  lemma HandleExitCodes(link: Link, n: int, word: string, rest: seq<string>)
    ensures HandleExit(Node(link, "exit", [])) == 0
    ensures INT_MIN <= n <= INT_MAX ==> HandleExit(Node(link, "exit", [IntString(n)] + rest)) == n
    ensures StoI(word).None? ==> HandleExit(Node(link, "exit", [word] + rest)) == 0
    ensures StoI(word).Some? ==> HandleExit(Node(link, "exit", [word] + rest)) == StoI(word).value
  {
    if INT_MIN <= n <= INT_MAX {
      StoIRoundTrip(n);
    }
  }

  /** `a ; exit 3` terminates with 3 after running a, whatever a returned. */
  lemma ExitAfterSequence(a: Node, answer: (nat, Node) -> int, calls: nat)
    requires a.program != "exit"
    ensures var w := WalkFromHead([a, Node(Sequential, "exit", ["3"])], HandleExit, answer, calls);
      w.commands == [a] && w.outcome == Terminated(3)
  {
    assert IntString(3) == "3";
    HandleExitCodes(Sequential, 3, "3", []);
    assert [IntString(3)] + [] == ["3"];
    SequenceThenExit(a, Node(Sequential, "exit", ["3"]), HandleExit, answer, calls);
  }

  class Execution {
    const executor: Executor

    constructor(executor: Executor)
      ensures this.executor == executor
    {
      this.executor := executor;
    }

    /** The constructor of `Execution`, which throws on a null executor. */
    static method Create(executor: Executor?) returns (r: Result<Execution>)
      ensures r.Err? <==> executor == null
      ensures r.Err? ==> r.message == "null executor in Execution"
      ensures r.Ok? ==> fresh(r.value) && r.value.executor == executor
    {
      if executor == null {
        return Err("null executor in Execution");
      }
      var e := new Execution(executor);
      return Ok(e);
    }

    /** `Execution::execute`: the loop over the chain with the code of the
        last command run and the last node run; the thrown int is the
        Terminated outcome.  The executor is handed exactly the nodes the
        walk runs, in order. */
    method Execute(command: Chain) returns (outcome: Outcome)
      modifies executor
      ensures var w := WalkFromHead(command, HandleExit, executor.answer, |old(executor.log)|);
        outcome == w.outcome && executor.log == old(executor.log) + w.commands
    {
      ghost var total := WalkFromHead(command, HandleExit, executor.answer, |executor.log|);
      ghost var start := executor.log;
      var exitCode := 0;
      var previous: Option<Node> := None;
      var i := 0;
      while i < |command|
        invariant i <= |command|
        invariant var w := Walk(command, HandleExit, executor.answer, i, |executor.log|, exitCode, previous);
          w.outcome == total.outcome && start + total.commands == executor.log + w.commands
      {
        var current := command[i];
        if previous.Some? && !ShouldExecuteAfter(current, previous.value, exitCode) {
          i := i + 1;
        } else if current.program == "exit" {
          return Terminated(HandleExit(current));
        } else {
          ghost var before := executor.log;
          ghost var rest := Walk(command, HandleExit, executor.answer, i + 1, |before| + 1,
                                 executor.answer(|before|, current), Some(current));
          exitCode := executor.Execute(current);
          assert before + ([current] + rest.commands) == executor.log + rest.commands;
          previous := Some(current);
          i := i + 1;
        }
      }
      return Completed(exitCode);
    }
  }
}
