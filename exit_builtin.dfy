/** The `exit` builtin of the tree design (src/ExitBuiltinCommand.cpp): it
    computes a code with std::stoi and throws an ExitException; it never
    returns normally and the executor is not touched. */
module ExitBuiltin {
  import opened Numbers
  import LinearCommand
  import RshellExecution

  /** The ExitException it throws, and what it writes to standard error. */
  datatype Signal = Signal(code: int, warning: string)

  const Warning: string :=
    "rshell: warning: exit code must be an integer\nrshell: warning: exiting with default code 0\n"

  /** `ExitBuiltinCommand::execute`. */
  function Execute(arguments: seq<string>): (s: Signal)
    ensures INT_MIN <= s.code <= INT_MAX
    ensures s.warning == "" || (s.warning == Warning && s.code == 0)
  {
    if arguments == [] then Signal(0, "")
    else
      match StoI(arguments[0])
      case None => Signal(0, Warning)
      case Some(v) => Signal(v, "")
  }

  /** No argument exits with 0; `exit n` exits with n for every int n; an
      argument stoi rejects exits with 0 after the warning; later arguments
      are ignored. */
  lemma ExitCodes(n: int, word: string, rest: seq<string>)
    ensures Execute([]) == Signal(0, "")
    ensures INT_MIN <= n <= INT_MAX ==> Execute([IntString(n)] + rest) == Signal(n, "")
    ensures StoI(word).None? ==> Execute([word] + rest) == Signal(0, Warning)
    ensures Execute([word] + rest) == Execute([word])
  {
    if INT_MIN <= n <= INT_MAX {
      StoIRoundTrip(n);
    }
  }

  /** The builtin exits with the code the linear design's `handleExit`
      throws for the same arguments. */
  lemma AgreesWithLinearExit(link: LinearCommand.Link, arguments: seq<string>)
    ensures Execute(arguments).code == RshellExecution.HandleExit(LinearCommand.Node(link, "exit", arguments))
  {
  }
}
