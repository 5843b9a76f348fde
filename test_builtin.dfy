/** The `test` builtin of the tree design (src/TestBuiltinCommand.cpp):
    `test -e|-f|-d path` and `[ -e|-f|-d path ]`.  The file system is an
    oracle from a path to what stat reports (None where stat fails); what
    the builtin prints is part of the result. */
module TestBuiltin {
  import opened Wrappers

  /** What `S_ISREG` and `S_ISDIR` tell apart in a successful stat. */
  datatype FileKind = RegularFile | Directory | OtherFile

  /** The exit code and the text written to standard output and standard
      error. */
  datatype Verdict = Verdict(code: int, out: string, err: string)

  const BracketUsage: string := "Usage: [ -<e|f|d> <path> ]\n"
  const TestUsage: string := "Usage: test -<e|f|d> <path>\n"
  const FlagError: string := "test: flag must be one of -e|-f|-d\n"
  const TrueText: string := "(True)\n"
  const FalseText: string := "(False)\n"

  /** The argument shape each spelling accepts. */
  predicate WellShaped(program: string, arguments: seq<string>)
  {
    if program == "[" then |arguments| == 3 && arguments[2] == "]" else |arguments| == 2
  }

  /** Whether an existing file of `kind` passes the test `flag` (for the
      three flags the builtin knows). */
  predicate Passes(flag: string, kind: FileKind)
  {
    flag == "-e" || (flag == "-f" && kind == RegularFile) || (flag == "-d" && kind == Directory)
  }

  /** `TestBuiltinCommand::execute`. */
  function Test(program: string, arguments: seq<string>, stat: string -> Option<FileKind>): (v: Verdict)
    ensures v.code == 0 || v.code == 1
    ensures v.code == 0 <==> v.out == TrueText
  {
    if program == "[" && (|arguments| != 3 || arguments[2] != "]") then Verdict(1, BracketUsage, "")
    else if program != "[" && |arguments| != 2 then Verdict(1, TestUsage, "")
    else
      match stat(arguments[1])
      case None => Verdict(1, FalseText, "")
      case Some(kind) =>
        if arguments[0] == "-e" then Verdict(0, TrueText, "")
        else if arguments[0] == "-f" then
          (if kind == RegularFile then Verdict(0, TrueText, "") else Verdict(1, FalseText, ""))
        else if arguments[0] == "-d" then
          (if kind == Directory then Verdict(0, TrueText, "") else Verdict(1, FalseText, ""))
        else Verdict(1, "", FlagError)
  }

  /** A badly shaped call prints its spelling's usage line and fails, and
      only a badly shaped call does. */
  lemma UsageExactlyWhenMisshaped(program: string, arguments: seq<string>, stat: string -> Option<FileKind>)
    ensures var v := Test(program, arguments, stat);
      && (!WellShaped(program, arguments) <==> v.out == (if program == "[" then BracketUsage else TestUsage))
      && (!WellShaped(program, arguments) ==> v == Verdict(1, v.out, ""))
  {
  }

  /** stat is consulted before the flag: a path stat rejects is "(False)"
      whatever the flag, even one the builtin does not know. */
  lemma MissingPathIsFalse(program: string, arguments: seq<string>, stat: string -> Option<FileKind>)
    requires WellShaped(program, arguments) && stat(arguments[1]).None?
    ensures Test(program, arguments, stat) == Verdict(1, FalseText, "")
  {
  }

  /** On a path stat accepts: the known flags succeed exactly when the file
      passes, and any other flag is an error on standard error. */
  lemma FlagDecides(program: string, arguments: seq<string>, stat: string -> Option<FileKind>)
    requires WellShaped(program, arguments) && stat(arguments[1]).Some?
    ensures var v := Test(program, arguments, stat);
      var flag := arguments[0];
      && (flag in ["-e", "-f", "-d"] ==>
            v == if Passes(flag, stat(arguments[1]).value) then Verdict(0, TrueText, "") else Verdict(1, FalseText, ""))
      && (flag !in ["-e", "-f", "-d"] ==> v == Verdict(1, "", FlagError))
  {
  }

  /** The bracket spelling behaves as the `test` spelling without the
      closing bracket. */
  lemma BracketIsTest(flag: string, path: string, stat: string -> Option<FileKind>)
    ensures Test("[", [flag, path, "]"], stat) == Test("test", [flag, path], stat)
  {
  }
}
