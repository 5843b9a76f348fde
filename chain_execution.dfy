/** The driver left in the tree-design snapshot (src/Execution.cpp): the same
    walk over a linked chain as the linear design, owning its executor, with
    `handleExit` computing the code with std::atoi and throwing an
    ExitException. */
module ChainExecution {
  import opened Wrappers
  import opened Numbers
  import opened LinearCommand
  import opened LinearWalk
  import RshellExecution

  /** `Execution::handleExit`: the code the ExitException carries.  atoi
      does not throw, so the handler that would print a warning is never
      entered. */
  function HandleExit(command: Node): (code: int)
    ensures INT_MIN <= code <= INT_MAX
  {
    if command.arguments == [] then 0 else AtoI(command.arguments[0])
  }

  /** `exit` alone exits with 0, `exit n` with n for every int n, an argument
      with no number in front with 0, and a number past the range of int with
      its low 32 bits; arguments after the first are ignored. */
  lemma HandleExitCodes(link: Link, n: int, word: string, rest: seq<string>)
    ensures HandleExit(Node(link, "exit", [])) == 0
    ensures INT_MIN <= n <= INT_MAX ==> HandleExit(Node(link, "exit", [IntString(n)] + rest)) == n
    ensures INT_MAX < n <= LONG_MAX ==> HandleExit(Node(link, "exit", [IntString(n)] + rest)) == WrapInt(n)
    ensures ReadInteger(word).None? ==> HandleExit(Node(link, "exit", [word] + rest)) == 0
  {
    if INT_MIN <= n <= INT_MAX {
      StoIRoundTrip(n);
    } else if INT_MAX < n <= LONG_MAX {
      OutOfIntRange(n);
    }
  }

  /** The two drivers agree on the exit code whenever std::stoi accepts the
      argument, and also when there is no number at all. */
  lemma DriversAgreeOnExit(command: Node)
    requires command.arguments == [] || StoI(command.arguments[0]).Some?
             || ReadInteger(command.arguments[0]).None?
    ensures HandleExit(command) == RshellExecution.HandleExit(command)
  {
  }

  /** Past the range of int the linear design exits with 0 and this one with
      the low 32 bits of the number (`exit 4294967297` exits with 1 here). */
  lemma DriversDisagreePastInt(link: Link, n: int, rest: seq<string>)
    requires INT_MAX < n <= LONG_MAX
    ensures var exit := Node(link, "exit", [IntString(n)] + rest);
      && RshellExecution.HandleExit(exit) == 0
      && HandleExit(exit) == WrapInt(n)
      && (n == 4294967297 ==> HandleExit(exit) == 1)
  {
    OutOfIntRange(n);
  }

  class Execution {
    const executor: Executor

    constructor(executor: Executor)
      ensures this.executor == executor
    {
      this.executor := executor;
    }

    /** The constructor of `Execution`, which throws on a null executor. */
    static method Create(executor: Executor?) returns (r: Result<Execution>)
      ensures r.Err? <==> executor == null
      ensures r.Err? ==> r.message == "null executor in Execution"
      ensures r.Ok? ==> fresh(r.value) && r.value.executor == executor
    {
      if executor == null {
        return Err("null executor in Execution");
      }
      var e := new Execution(executor);
      return Ok(e);
    }

    /** `Execution::execute`: the loop over the chain with the code of the
        last command run and the last node run; the ExitException is the
        Terminated outcome.  The executor is handed exactly the nodes the
        walk runs, in order. */
    method Execute(command: Chain) returns (outcome: Outcome)
      modifies executor
      ensures var w := WalkFromHead(command, HandleExit, executor.answer, |old(executor.log)|);
        outcome == w.outcome && executor.log == old(executor.log) + w.commands
    {
      ghost var total := WalkFromHead(command, HandleExit, executor.answer, |executor.log|);
      ghost var start := executor.log;
      var exitCode := 0;
      var previous: Option<Node> := None;
      var current := 0;
      while current < |command|
        invariant current <= |command|
        invariant var w := Walk(command, HandleExit, executor.answer, current, |executor.log|, exitCode, previous);
          w.outcome == total.outcome && start + total.commands == executor.log + w.commands
      {
        var node := command[current];
        if previous.Some? && !ShouldExecuteAfter(node, previous.value, exitCode) {
          current := current + 1;
        } else if node.program == "exit" {
          return Terminated(HandleExit(node));
        } else {
          ghost var before := executor.log;
          ghost var rest := Walk(command, HandleExit, executor.answer, current + 1, |before| + 1,
                                 executor.answer(|before|, node), Some(node));
          exitCode := executor.Execute(node);
          assert before + ([node] + rest.commands) == executor.log + rest.commands;
          previous := Some(node);
          current := current + 1;
        }
      }
      return Completed(exitCode);
    }
  }
}
