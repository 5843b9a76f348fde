/** The argument vector the linear design's POSIX executor hands to `execvp`
    (rshell/PosixExecutor.cpp): each string copied into a NUL-terminated
    character array, the program first, then the arguments, then a null
    pointer.  A C string is an `array<char>`; a slot of the vector is
    `Some(array)` or `None` for the null pointer.  The functions are what the
    vector holds; the methods build it as the source does and are proved to
    hold exactly that. */
module RshellArgv {
  import opened Wrappers

  const NUL: char := '\0'

  /** What `c_str()` exposes: the characters and the terminating NUL. */
  function CString(s: string): (c: seq<char>)
    ensures |c| == |s| + 1 && c[|s|] == NUL && c[..|s|] == s
  {
    s + [NUL]
  }

  /** The string a C routine reads from a character sequence: everything
      before the first NUL. */
  function Terminated(c: seq<char>): (s: string)
    ensures |s| <= |c| && s == c[..|s|] && NUL !in s
    ensures |s| < |c| ==> c[|s|] == NUL
  {
    if c == [] || c[0] == NUL then [] else [c[0]] + Terminated(c[1..])
  }

  /** The arguments `toCStrings` makes, as contents. */
  function CStrings(strings: seq<string>): (cs: seq<Option<seq<char>>>)
  {
    seq(|strings|, i requires 0 <= i < |strings| => Some(CString(strings[i])))
  }

  /** The vector `toArgv` returns, as contents. */
  function Argv(program: string, arguments: seq<string>): seq<Option<seq<char>>>
  {
    [Some(CString(program))] + CStrings(arguments) + [None]
  }

  /** The strings `execvp` takes from a vector: the entries before the first
      null pointer, each read up to its NUL. */
  function ExecStrings(argv: seq<Option<seq<char>>>): seq<string>
  {
    if argv == [] || argv[0].None? then [] else [Terminated(argv[0].value)] + ExecStrings(argv[1..])
  }

  /** A C string reads back as its string exactly when the string holds no
      NUL; one that does is cut at its first NUL. */
  lemma CStringRoundTrip(s: string)
    ensures Terminated(CString(s)) == s <==> NUL !in s
    ensures Terminated(CString(s)) == Terminated(s)
  {
    CStringReads(s);
  }

  lemma {:induction false} CStringReads(s: string)
    ensures Terminated(CString(s)) == Terminated(s)
    ensures NUL !in s ==> Terminated(s) == s
    decreases |s|
  {
    if s != [] {
      assert CString(s)[1..] == CString(s[1..]);
      CStringReads(s[1..]);
      assert s == [s[0]] + s[1..];
    }
  }

  /** The vector has `n + 2` slots: the program at 0, argument `i` at
      `i + 1` and the null pointer last, and no other null. */
  lemma ArgvShape(program: string, arguments: seq<string>)
    ensures var argv := Argv(program, arguments);
      && |argv| == |arguments| + 2
      && argv[0] == Some(CString(program))
      && (forall i :: 0 <= i < |arguments| ==> argv[i + 1] == Some(CString(arguments[i])))
      && argv[|argv| - 1] == None
      && (forall i :: 0 <= i < |argv| - 1 ==> argv[i].Some?)
  {
  }

  /** Every entry before the first null is read as a whole. */
  lemma {:induction false} ExecStringsOf(program: string, arguments: seq<string>)
    requires NUL !in program && forall i :: 0 <= i < |arguments| ==> NUL !in arguments[i]
    ensures ExecStrings(Argv(program, arguments)) == [program] + arguments
  {
    CStringReads(program);
    assert Argv(program, arguments)[1..] == CStrings(arguments) + [None];
    ExecStringsOfArguments(arguments);
  }

  lemma {:induction false} ExecStringsOfArguments(arguments: seq<string>)
    requires forall i :: 0 <= i < |arguments| ==> NUL !in arguments[i]
    ensures ExecStrings(CStrings(arguments) + [None]) == arguments
    decreases |arguments|
  {
    if arguments == [] {
      assert CStrings(arguments) + [None] == [None];
    } else {
      var t := CStrings(arguments) + [None];
      CStringReads(arguments[0]);
      assert t[0] == Some(CString(arguments[0]));
      assert CStrings(arguments)[1..] == CStrings(arguments[1..]);
      assert t[1..] == CStrings(arguments[1..]) + [None];
      ExecStringsOfArguments(arguments[1..]);
      assert ExecStrings(t) == [arguments[0]] + ExecStrings(t[1..]);
      assert arguments == [arguments[0]] + arguments[1..];
    }
  }

  /** `toCString`: a new array of `size() + 1` characters, filled by the
      copy of `c_str()`. */
  method ToCString(s: string) returns (c: array<char>)
    ensures fresh(c) && c[..] == CString(s)
  {
    var source := CString(s);
    c := new char[|source|];
    for k := 0 to |source|
      invariant c[..k] == source[..k]
    {
      c[k] := source[k];
    }
  }

  /** `toCStrings`: one new C string per string, in order. */
  method ToCStrings(strings: seq<string>) returns (cs: seq<array<char>>)
    ensures |cs| == |strings|
    ensures forall i :: 0 <= i < |cs| ==> fresh(cs[i]) && cs[i][..] == CString(strings[i])
    ensures forall i, j :: 0 <= i < j < |cs| ==> cs[i] != cs[j]
  {
    cs := [];
    for k := 0 to |strings|
      invariant |cs| == k
      invariant forall i :: 0 <= i < k ==> fresh(cs[i]) && cs[i][..] == CString(strings[i])
      invariant forall i, j :: 0 <= i < j < k ==> cs[i] != cs[j]
    {
      var c := ToCString(strings[k]);
      cs := cs + [c];
    }
  }

  /** `toArgv`: the arguments' C strings, the program's inserted in front,
      a null pointer pushed at the back. */
  method ToArgv(program: string, arguments: seq<string>) returns (argv: seq<Option<array<char>>>)
    ensures var contents := Argv(program, arguments);
      && |argv| == |contents|
      && (forall i :: 0 <= i < |argv| ==> argv[i].Some? == contents[i].Some?)
      && (forall i :: 0 <= i < |argv| && argv[i].Some? ==> fresh(argv[i].value) && argv[i].value[..] == contents[i].value)
      && (forall i, j :: 0 <= i < j < |argv| && argv[i].Some? && argv[j].Some? ==> argv[i].value != argv[j].value)
  {
    var cs := ToCStrings(arguments);
    var head := ToCString(program);
    argv := seq(|cs|, i requires 0 <= i < |cs| => Some(cs[i]));
    argv := [Some(head)] + argv;
    argv := argv + [None];
  }

  /** The loop of `execute` that lists the owned arrays as the `char*`
      vector: the same entries in the same order. */
  method ArgvPointers(owner: seq<Option<array<char>>>) returns (argv: seq<Option<array<char>>>)
    ensures argv == owner
  {
    argv := [];
    for k := 0 to |owner|
      invariant argv == owner[..k]
    {
      argv := argv + [owner[k]];
    }
  }
}
