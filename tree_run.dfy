/** What running a command tree of the tree design does to an abstract
    executor (src/SequentialCommand.cpp, src/PipeCommand.cpp,
    src/InputRedirectionCommand.cpp, src/OutputRedirectionCommand.cpp and
    the two builtins).  The executor's state is its input and output
    streams, the set of open streams, the resources it has created and the
    processes it has spawned.  An exception is a status: the ExitException
    of the exit builtin, a runtime_error, or a crash where a null child is
    run.  The functions here are the specification the methods of
    `TreeExecution` are proved against. */
module TreeRun {
  import opened Wrappers
  import opened CommandTree
  import ExitBuiltin
  import TestBuiltin

  /** `WaitMode`: whether the executor waits for a spawned process. */
  datatype WaitMode = Continue | Wait

  /** What a create call makes: a file stream or a pipe.  A resource is
      named by its position in the order of creation. */
  datatype Resource = InputFile(path: string) | OutputFile(path: string) | PipeResource

  /** A stream the executor can read from or write to: a file stream, or
      the read or the write end of a pipe. */
  datatype Stream = FileStream(id: nat) | ReadEnd(pipe: nat) | WriteEnd(pipe: nat)

  /** One call to the executor's `execute` for an executable: the command,
      the streams it was given and the wait mode. */
  datatype Spawn = Spawn(program: string, arguments: seq<string>,
                         input: Option<Stream>, output: Option<Stream>, mode: WaitMode)

  datatype State = State(input: Option<Stream>, output: Option<Stream>, streams: set<nat>,
                         created: seq<Resource>, spawns: seq<Spawn>)

  /** How running a command ends: a code, the ExitException, a
      runtime_error, or a call through a null pointer. */
  datatype Status = Done(code: int) | Exited(code: int) | Failed(message: string) | Crashed

  datatype Ran = Ran(status: Status, state: State)

  /** The outside world: the code of the n-th process the executor waits
      for, what stat reports for a path, and whether `creat` can open a
      path for output. */
  datatype World = World(answer: (nat, Spawn) -> int, stat: string -> Option<TestBuiltin.FileKind>,
                         creates: string -> bool)

  /** Every stream in the set was created by the executor. */
  predicate Sound(s: State)
  {
    forall id :: id in s.streams ==> id < |s.created|
  }

  /** Trees without the Conjunctive and Disjunctive nodes, whose execution
      is not part of this model. */
  predicate Modelled(c: Command)
  {
    match c
    case Null => true
    case Executable(_, _, _) => true
    case Sequential(cs) => forall i :: 0 <= i < |cs| ==> Modelled(cs[i])
    case Conjunctive(_, _) => false
    case Disjunctive(_, _) => false
    case Pipe(p, q) => Modelled(p) && Modelled(q)
    case InputRedirection(p, _) => Modelled(p)
    case OutputRedirection(p, _) => Modelled(p)
  }

  predicate AllModelled(cs: seq<Command>)
  {
    forall i :: 0 <= i < |cs| ==> Modelled(cs[i])
  }

  function Size(c: Command): nat
  {
    match c
    case Null => 1
    case Executable(_, _, _) => 1
    case Sequential(cs) => 1 + SizeAll(cs)
    case Conjunctive(p, q) => 1 + Size(p) + Size(q)
    case Disjunctive(p, q) => 1 + Size(p) + Size(q)
    case Pipe(p, q) => 1 + Size(p) + Size(q)
    case InputRedirection(p, _) => 1 + Size(p)
    case OutputRedirection(p, _) => 1 + Size(p)
  }

  function SizeAll(cs: seq<Command>): nat
  {
    if cs == [] then 0 else Size(cs[0]) + SizeAll(cs[1..])
  }

  lemma {:induction false} SizeAllAppend(a: seq<Command>, b: seq<Command>)
    ensures SizeAll(a + b) == SizeAll(a) + SizeAll(b)
    decreases |a|
  {
    if a != [] {
      assert (a + b)[0] == a[0] && (a + b)[1..] == a[1..] + b;
      SizeAllAppend(a[1..], b);
      assert SizeAll(a + b) == Size(a[0]) + SizeAll(a[1..] + b);
    } else {
      assert a + b == b;
    }
  }

  /** The suffix from `i` is the element at `i` before the suffix from
      `i + 1`. */
  lemma SizeAllFrom(cs: seq<Command>, i: nat)
    requires i < |cs|
    ensures SizeAll(cs[i..]) == Size(cs[i]) + SizeAll(cs[i + 1..])
  {
    assert cs[i..][1..] == cs[i + 1..];
  }

  /** The loop at the start of `PipeCommand::execute`: the primaries down
      the chain of secondaries that are pipes, then the last secondary. */
  function Flatten(c: Command): (stages: seq<Command>)
    requires c.Pipe?
    ensures |stages| >= 2 && SizeAll(stages) < Size(c)
    ensures Modelled(c) ==> AllModelled(stages)
  {
    var rest := if c.secondary.Pipe? then Flatten(c.secondary) else [c.secondary];
    SizeAllAppend([c.primary], rest);
    assert SizeAll([c.primary]) == Size(c.primary);
    [c.primary] + rest
  }

  /** The executor once the leaf `c` has run: an executable spawns a process
      with the current streams (Continue does not wait, and gives 0); the
      builtins spawn nothing. */
  function Leaf(kind: ExecKind, program: string, arguments: seq<string>, mode: WaitMode, s: State, w: World): Ran
  {
    match kind
    case Program =>
      var spawn := Spawn(program, arguments, s.input, s.output, mode);
      var code := if mode == Continue then 0 else w.answer(|s.spawns|, spawn);
      Ran(Done(code), s.(spawns := s.spawns + [spawn]))
    case ExitBuiltin => Ran(Exited(ExitBuiltin.Execute(arguments).code), s)
    case TestBuiltin => Ran(Done(TestBuiltin.Test(program, arguments, w.stat).code), s)
  }

  /** The executor after `count` pipes have been created from position
      `|s.created|` on and each has been inserted into the stream set. */
  function OpenPipes(s: State, count: nat): (r: State)
    ensures |r.created| == |s.created| + count
  {
    s.(streams := s.streams + PipeIds(|s.created|, count),
       created := s.created + PipeResources(count))
  }

  /** The resources `count` created pipes add to the executor's list. */
  function PipeResources(count: nat): (r: seq<Resource>)
    ensures |r| == count && forall k :: 0 <= k < count ==> r[k] == PipeResource
  {
    if count == 0 then [] else PipeResources(count - 1) + [PipeResource]
  }

  /** The positions of `count` resources created from `base` on. */
  function PipeIds(base: nat, count: nat): (ids: set<nat>)
    ensures forall k :: k in ids <==> base <= k < base + count
  {
    if count == 0 then {} else PipeIds(base, count - 1) + {base + count - 1}
  }

  /** `ExecutorPipeSet::activate` for stage `i` of `n`: read from the pipe
      before it, write to the pipe after it. */
  function Activate(s: State, base: nat, n: nat, i: nat): State
  {
    s.(input := if i == 0 then None else Some(ReadEnd(base + i - 1)),
       output := if i + 1 < n then Some(WriteEnd(base + i)) else None)
  }

  /** `SequentialCommand::execute`, without the emptiness check, from child
      `i` on: each child runs with the default wait mode; an exception stops
      the rest; the result is the last child's. */
  function RunAll(cs: seq<Command>, i: nat, s: State, w: World): Ran
    requires i < |cs| && AllModelled(cs)
    decreases SizeAll(cs[i..]), 1
  {
    SizeAllFrom(cs, i);
    var r := Exec(cs[i], Wait, s, w);
    if i == |cs| - 1 || !r.status.Done? then r else RunAll(cs, i + 1, r.state, w)
  }

  /** The loop of `PipeCommand::execute` from stage `i` on, the pipes being
      at positions `base` to `base + |stages| - 2`: every stage but the last
      runs with Continue and its code is dropped; the last runs with Wait. */
  function RunStages(stages: seq<Command>, base: nat, i: nat, s: State, w: World): Ran
    requires i < |stages| && AllModelled(stages)
    decreases SizeAll(stages[i..]), 1
  {
    SizeAllFrom(stages, i);
    var active := Activate(s, base, |stages|, i);
    if i == |stages| - 1 then Exec(stages[i], Wait, active, w)
    else
      var r := Exec(stages[i], Continue, active, w);
      if r.status.Done? then RunStages(stages, base, i + 1, r.state, w) else r
  }

  /** `PipeCommand::execute` once both children are present: one pipe
      between each two stages, created from position `|s.created|` on, the
      stages run, and the pipes erased from the stream set. */
  function PipeRun(stages: seq<Command>, s: State, w: World): Ran
    requires |stages| >= 1 && AllModelled(stages)
    decreases SizeAll(stages), 2
  {
    assert stages[0..] == stages;
    var base := |s.created|;
    var r := RunStages(stages, base, 0, OpenPipes(s, |stages| - 1), w);
    Ran(r.status, r.state.(streams := r.state.streams - PipeIds(base, |stages| - 1)))
  }

  /** The executor once the redirection's stream has been created, inserted
      and made current. */
  function OpenInput(s: State, path: string): State
  {
    s.(input := Some(FileStream(|s.created|)), streams := s.streams + {|s.created|},
       created := s.created + [InputFile(path)])
  }

  /** The runtime_error the output file stream's constructor throws when
      `creat` fails, before anything is inserted or set. */
  const UnableToOpen := "unable to open output file"

  /** The executor once the output redirection's stream has been created,
      inserted and made current. */
  function OpenOutput(s: State, path: string): State
  {
    s.(output := Some(FileStream(|s.created|)), streams := s.streams + {|s.created|},
       created := s.created + [OutputFile(path)])
  }

  /** `execute` of every modelled node. */
  function Exec(c: Command, mode: WaitMode, s: State, w: World): Ran
    requires Modelled(c)
    decreases Size(c), 0
  {
    match c
    case Null => Ran(Crashed, s)
    case Executable(kind, program, arguments) => Leaf(kind, program, arguments, mode, s, w)
    case Sequential(cs) =>
      if cs == [] then Ran(Failed("incomplete SequentialCommand"), s)
      else
        assert cs[0..] == cs;
        RunAll(cs, 0, s, w)
    case Pipe(p, q) =>
      if p == Null || q == Null then Ran(Failed("incomplete PipeCommand"), s)
      else
        PipeRun(Flatten(c), s, w)
    case InputRedirection(p, path) =>
      if p == Null || path == "" then Ran(Failed("incomplete InputRedirectionCommand"), s)
      else
        var id := |s.created|;
        var r := Exec(p, mode, OpenInput(s, path), w);
        if r.status.Done? then Ran(r.status, r.state.(input := None, streams := r.state.streams - {id}))
        else r
    case OutputRedirection(p, path) =>
      if p == Null || path == "" then Ran(Failed("incomplete OutputRedirectionCommand"), s)
      else if !w.creates(path) then Ran(Failed(UnableToOpen), s)
      else
        var id := |s.created|;
        var r := Exec(p, mode, OpenOutput(s, path), w);
        if r.status.Done? then Ran(r.status, r.state.(output := None, streams := r.state.streams - {id}))
        else r
  }
}
