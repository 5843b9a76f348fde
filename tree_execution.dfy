/** The tree design's executor as an object, and the `execute` member of
    every modelled command node as a method on it (src/SequentialCommand.cpp,
    src/PipeCommand.cpp, src/InputRedirectionCommand.cpp,
    src/OutputRedirectionCommand.cpp).  Each method is proved to leave the
    executor in the state, and to end with the status, that `TreeRun.Exec`
    gives; an exception of the source is a returned status other than
    `Done`, which every caller passes on at once. */
module TreeExecution {
  import opened Wrappers
  import opened CommandTree
  import opened TreeRun
  import ExitBuiltin
  import TestBuiltin

  /** The executor: its current input and output streams, its stream set,
      the resources it has created (a resource is named by its position)
      and the processes it has spawned.  The outside world answers for the
      processes it waits for and for `stat`. */
  class Executor {
    var input: Option<Stream>
    var output: Option<Stream>
    var streams: set<nat>
    var created: seq<Resource>
    var spawns: seq<Spawn>
    const world: World

    function Snapshot(): State
      reads this
    {
      State(input, output, streams, created, spawns)
    }

    /** A new executor has no streams set and has made nothing. */
    constructor(world: World)
      ensures Snapshot() == State(None, None, {}, [], []) && this.world == world
    {
      input := None;
      output := None;
      streams := {};
      created := [];
      spawns := [];
      this.world := world;
    }

    /** `createPipe`: a new pipe, named by its position. */
    method CreatePipe() returns (id: nat)
      modifies this
      ensures id == |old(created)|
      ensures Snapshot() == old(Snapshot()).(created := old(created) + [PipeResource])
    {
      id := |created|;
      created := created + [PipeResource];
    }

    /** `createInputFileStream`: a new stream reading `path`. */
    method CreateInputFileStream(path: string) returns (id: nat)
      modifies this
      ensures id == |old(created)|
      ensures Snapshot() == old(Snapshot()).(created := old(created) + [InputFile(path)])
    {
      id := |created|;
      created := created + [InputFile(path)];
    }

    /** `createOutputFileStream`: a new stream writing `path`, or the
        runtime_error of its constructor when `creat` fails, with nothing
        made. */
    method CreateOutputFileStream(path: string) returns (id: nat, error: Option<string>)
      modifies this
      ensures error.Some? <==> !world.creates(path)
      ensures error.Some? ==> error.value == UnableToOpen && Snapshot() == old(Snapshot())
      ensures error.None? ==> id == |old(created)|
      ensures error.None? ==> Snapshot() == old(Snapshot()).(created := old(created) + [OutputFile(path)])
    {
      if !world.creates(path) {
        return 0, Some(UnableToOpen);
      }
      id := |created|;
      created := created + [OutputFile(path)];
      error := Option.None;
    }

    /** `streamSet().insert`. */
    method Insert(id: nat)
      modifies this
      ensures Snapshot() == old(Snapshot()).(streams := old(streams) + {id})
    {
      streams := streams + {id};
    }

    /** `streamSet().erase`. */
    method Erase(id: nat)
      modifies this
      ensures Snapshot() == old(Snapshot()).(streams := old(streams) - {id})
    {
      streams := streams - {id};
    }

    /** `setInputStream`; `None` is the null pointer. */
    method SetInputStream(stream: Option<Stream>)
      modifies this
      ensures Snapshot() == old(Snapshot()).(input := stream)
    {
      input := stream;
    }

    /** `setOutputStream`. */
    method SetOutputStream(stream: Option<Stream>)
      modifies this
      ensures Snapshot() == old(Snapshot()).(output := stream)
    {
      output := stream;
    }

    /** `execute` of an executable: one process with the current streams;
        in Continue mode the executor does not wait and the code is 0. */
    method Spawn(program: string, arguments: seq<string>, mode: WaitMode) returns (code: int)
      modifies this
      ensures var spawn := TreeRun.Spawn(program, arguments, old(input), old(output), mode);
        && code == (if mode == Continue then 0 else world.answer(|old(spawns)|, spawn))
        && Snapshot() == old(Snapshot()).(spawns := old(spawns) + [spawn])
    {
      var spawn := TreeRun.Spawn(program, arguments, input, output, mode);
      code := if mode == Continue then 0 else world.answer(|spawns|, spawn);
      spawns := spawns + [spawn];
    }
  }

  /** A child's size is part of the size of its sequence. */
  lemma {:induction false} ElementSize(cs: seq<Command>, i: nat)
    requires i < |cs|
    ensures Size(cs[i]) <= SizeAll(cs)
    decreases i
  {
    if i > 0 {
      ElementSize(cs[1..], i - 1);
      assert cs[1..][i - 1] == cs[i];
    }
  }

  /** `execute` of any modelled node. */
  method Execute(c: Command, executor: Executor, mode: WaitMode) returns (status: Status)
    requires Modelled(c)
    modifies executor
    ensures Ran(status, executor.Snapshot()) == Exec(c, mode, old(executor.Snapshot()), executor.world)
    decreases Size(c), 2
  {
    match c
    case Null =>
      status := Crashed;
    case Executable(kind, program, arguments) =>
      match kind {
        case Program =>
          var code := executor.Spawn(program, arguments, mode);
          status := Done(code);
        case ExitBuiltin =>
          status := Exited(ExitBuiltin.Execute(arguments).code);
        case TestBuiltin =>
          status := Done(TestBuiltin.Test(program, arguments, executor.world.stat).code);
      }
    case Sequential(_) =>
      status := ExecuteSequential(c, executor);
    case Pipe(_, _) =>
      status := ExecutePipe(c, executor);
    case InputRedirection(_, _) =>
      status := ExecuteInputRedirection(c, executor, mode);
    case OutputRedirection(_, _) =>
      status := ExecuteOutputRedirection(c, executor, mode);
  }

  /** `SequentialCommand::execute`: every child in order with the default
      wait mode, the code being the last child's. */
  method ExecuteSequential(c: Command, executor: Executor) returns (status: Status)
    requires c.Sequential? && Modelled(c)
    modifies executor
    ensures Ran(status, executor.Snapshot()) == Exec(c, Wait, old(executor.Snapshot()), executor.world)
    decreases Size(c), 1
  {
    var sequence := c.sequence;
    if sequence == [] {
      return Failed("incomplete SequentialCommand");
    }
    ghost var start := executor.Snapshot();
    assert sequence[0..] == sequence;
    var exitCode := Done(0);
    var i := 0;
    while i < |sequence|
      invariant i <= |sequence| && exitCode.Done?
      invariant i < |sequence| ==> Exec(c, Wait, start, executor.world) == RunAll(sequence, i, executor.Snapshot(), executor.world)
      invariant i == |sequence| ==> Exec(c, Wait, start, executor.world) == Ran(exitCode, executor.Snapshot())
      decreases |sequence| - i
    {
      ElementSize(sequence, i);
      var code := Execute(sequence[i], executor, Wait);
      if !code.Done? {
        return code;
      }
      exitCode := code;
      i := i + 1;
    }
    return exitCode;
  }

  /** The stages of a pipe chain, gathered as the flattening loop of
      `PipeCommand::execute` does. */
  method FlattenPipe(c: Command) returns (commands: seq<Command>)
    requires c.Pipe?
    ensures commands == Flatten(c)
  {
    commands := [];
    var current := c;
    while current.secondary.Pipe?
      invariant current.Pipe? && commands + Flatten(current) == Flatten(c)
      decreases Size(current)
    {
      FlattenStep(commands, current);
      commands := commands + [current.primary];
      current := current.secondary;
    }
    FlattenStep(commands, current);
    commands := commands + [current.primary];
    commands := commands + [current.secondary];
  }

  /** One pass of the flattening loop: a pipe's stages are its primary,
      then the secondary's stages or the secondary itself. */
  lemma FlattenStep(commands: seq<Command>, c: Command)
    requires c.Pipe?
    ensures c.secondary.Pipe? ==> commands + Flatten(c) == (commands + [c.primary]) + Flatten(c.secondary)
    ensures !c.secondary.Pipe? ==> commands + Flatten(c) == (commands + [c.primary]) + [c.secondary]
  {
    var rest := if c.secondary.Pipe? then Flatten(c.secondary) else [c.secondary];
    assert Flatten(c) == [c.primary] + rest;
    assert commands + ([c.primary] + rest) == (commands + [c.primary]) + rest;
  }

  /** `PipeCommand::execute`: the pipes are created and inserted, the
      stages run each between its two pipes, every stage but the last
      without waiting, and the pipes are erased from the stream set however
      the stages end. */
  method ExecutePipe(c: Command, executor: Executor) returns (status: Status)
    requires c.Pipe? && Modelled(c)
    modifies executor
    ensures Ran(status, executor.Snapshot()) == Exec(c, Wait, old(executor.Snapshot()), executor.world)
    decreases Size(c), 1
  {
    if c.primary == Null || c.secondary == Null {
      return Failed("incomplete PipeCommand");
    }
    var commands := FlattenPipe(c);
    var n := |commands|;
    ghost var start := executor.Snapshot();
    ghost var base := |start.created|;
    ghost var w := executor.world;
    assert Exec(c, Wait, start, w) == PipeRun(commands, start, w);
    var pipes := CreatePipes(executor, n - 1);
    status := RunStagesOf(c, commands, pipes, base, executor);
    ghost var finish := executor.Snapshot();
    ErasePipes(executor, pipes);
    assert executor.Snapshot() == finish.(streams := finish.streams - PipeIds(base, n - 1));
  }

  /** The `ExecutorPipeSet` constructor: `count` pipes, each inserted into
      the stream set. */
  method CreatePipes(executor: Executor, count: nat) returns (pipes: seq<nat>)
    modifies executor
    ensures |pipes| == count
    ensures forall k :: 0 <= k < count ==> pipes[k] == |old(executor.created)| + k
    ensures executor.Snapshot() == OpenPipes(old(executor.Snapshot()), count)
  {
    ghost var start := executor.Snapshot();
    pipes := [];
    while |pipes| < count
      invariant |pipes| <= count
      invariant forall k :: 0 <= k < |pipes| ==> pipes[k] == |start.created| + k
      invariant executor.Snapshot() == OpenPipes(start, |pipes|)
      decreases count - |pipes|
    {
      var k := |pipes|;
      var pipe := executor.CreatePipe();
      executor.Insert(pipe);
      pipes := pipes + [pipe];
    }
  }

  /** The `ExecutorPipeSet` destructor: every pipe erased from the stream
      set, nothing else changed. */
  method ErasePipes(executor: Executor, pipes: seq<nat>)
    requires pipes != [] ==> forall k :: 0 <= k < |pipes| ==> pipes[k] == pipes[0] + k
    modifies executor
    ensures var s := old(executor.Snapshot());
      executor.Snapshot() == s.(streams := s.streams - PipeIds(if pipes == [] then 0 else pipes[0], |pipes|))
  {
    ghost var start := executor.Snapshot();
    ghost var base := if pipes == [] then 0 else pipes[0];
    for k := 0 to |pipes|
      invariant executor.Snapshot() == start.(streams := start.streams - PipeIds(base, k))
    {
      executor.Erase(pipes[k]);
      assert PipeIds(base, k + 1) == PipeIds(base, k) + {base + k};
    }
  }

  /** `ExecutorPipeSet::activate` for stage `i` of `n`: the read end of the
      pipe before the stage is the input, the write end of the pipe after it
      the output; the first stage has no input and the last no output. */
  method ActivateStage(executor: Executor, pipes: seq<nat>, ghost base: nat, n: nat, i: nat)
    requires |pipes| == n - 1 && i < n
    requires forall k :: 0 <= k < |pipes| ==> pipes[k] == base + k
    modifies executor
    ensures executor.Snapshot() == Activate(old(executor.Snapshot()), base, n, i)
  {
    executor.SetInputStream(if i == 0 then None else Some(ReadEnd(pipes[i - 1])));
    executor.SetOutputStream(if i + 1 < n then Some(WriteEnd(pipes[i])) else None);
  }

  /** The stage loop of `PipeCommand::execute`: `activate` then `execute`,
      the last stage in Wait mode and the others in Continue mode. */
  method RunStagesOf(c: Command, commands: seq<Command>, pipes: seq<nat>, ghost base: nat, executor: Executor)
    returns (status: Status)
    requires AllModelled(commands) && SizeAll(commands) < Size(c)
    requires |pipes| == |commands| - 1
    requires forall k :: 0 <= k < |pipes| ==> pipes[k] == base + k
    modifies executor
    ensures Ran(status, executor.Snapshot()) == RunStages(commands, base, 0, old(executor.Snapshot()), executor.world)
    decreases Size(c), 0
  {
    var n := |commands|;
    ghost var start := executor.Snapshot();
    assert commands[0..] == commands;
    var i := 0;
    var finished := false;
    status := Done(0);
    while !finished
      invariant i <= n
      invariant !finished ==> i < n && RunStages(commands, base, 0, start, executor.world) ==
                                       RunStages(commands, base, i, executor.Snapshot(), executor.world)
      invariant finished ==> RunStages(commands, base, 0, start, executor.world) == Ran(status, executor.Snapshot())
      decreases n - i
    {
      ActivateStage(executor, pipes, base, n, i);
      ElementSize(commands, i);
      if i == n - 1 {
        status := Execute(commands[i], executor, Wait);
        finished := true;
      } else {
        var code := Execute(commands[i], executor, Continue);
        if !code.Done? {
          status := code;
          finished := true;
        }
      }
      i := i + 1;
    }
  }

  /** `InputRedirectionCommand::execute`. */
  method ExecuteInputRedirection(c: Command, executor: Executor, mode: WaitMode) returns (status: Status)
    requires c.InputRedirection? && Modelled(c)
    modifies executor
    ensures Ran(status, executor.Snapshot()) == Exec(c, mode, old(executor.Snapshot()), executor.world)
    decreases Size(c), 1
  {
    if c.primary == Null || c.path == "" {
      return Failed("incomplete InputRedirectionCommand");
    }
    var stream := executor.CreateInputFileStream(c.path);
    executor.Insert(stream);
    executor.SetInputStream(Some(FileStream(stream)));
    status := Execute(c.primary, executor, mode);
    if status.Done? {
      executor.SetInputStream(None);
      executor.Erase(stream);
    }
  }

  /** `OutputRedirectionCommand::execute`. */
  method ExecuteOutputRedirection(c: Command, executor: Executor, mode: WaitMode) returns (status: Status)
    requires c.OutputRedirection? && Modelled(c)
    modifies executor
    ensures Ran(status, executor.Snapshot()) == Exec(c, mode, old(executor.Snapshot()), executor.world)
    decreases Size(c), 1
  {
    if c.primary == Null || c.path == "" {
      return Failed("incomplete OutputRedirectionCommand");
    }
    var stream, error := executor.CreateOutputFileStream(c.path);
    if error.Some? {
      return Failed(error.value);
    }
    executor.Insert(stream);
    executor.SetOutputStream(Some(FileStream(stream)));
    status := Execute(c.primary, executor, mode);
    if status.Done? {
      executor.SetOutputStream(None);
      executor.Erase(stream);
    }
  }
}
