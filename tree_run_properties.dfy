/** Properties of running a command tree: the executor's records only grow,
    a normal return leaves the stream set as it was, a sequence runs its
    children in order, a pipe wires its stages through fresh pipes, and a
    redirection scopes its stream to the primary. */
module TreeRunProperties {
  import opened Wrappers
  import opened CommandTree
  import opened TreeRun
  import ExitBuiltin

  /** `t` is a later state of the executor than `s`: nothing created or
      spawned is forgotten, and the stream set stays within what was
      created. */
  predicate Extends(s: State, t: State)
  {
    && s.created <= t.created
    && s.spawns <= t.spawns
    && (Sound(s) ==> Sound(t))
  }

  /** What running any modelled command keeps. */
  predicate Keeps(s: State, r: Ran)
  {
    && Extends(s, r.state)
    && (Sound(s) && r.status.Done? ==> r.state.streams == s.streams)
  }

  lemma ExtendsTransitive(s: State, t: State, u: State)
    requires Extends(s, t) && Extends(t, u)
    ensures Extends(s, u)
  {
  }

  /** Creating pipes keeps the state sound, and their positions are new. */
  lemma OpenPipesFresh(s: State, count: nat)
    ensures var t := OpenPipes(s, count);
      && Extends(s, t)
      && t.streams == s.streams + PipeIds(|s.created|, count)
      && (Sound(s) ==> s.streams !! PipeIds(|s.created|, count))
  {
  }

  /** Erasing the pipes a pipe set created keeps what running between
      creation and erasure kept. */
  lemma ClosePipesKeeps(s: State, count: nat, r: Ran)
    requires Keeps(OpenPipes(s, count), r)
    ensures Keeps(s, Ran(r.status, r.state.(streams := r.state.streams - PipeIds(|s.created|, count))))
  {
    OpenPipesFresh(s, count);
  }

  /** Resetting and erasing a redirection's stream keeps what running its
      primary kept; an exception leaves the state as the primary left it. */
  lemma CloseStreamKeeps(s: State, withStream: State, r: Ran)
    requires |withStream.created| == |s.created| + 1 && s.created <= withStream.created
    requires withStream.spawns == s.spawns
    requires withStream.streams == s.streams + {|s.created|}
    requires Keeps(withStream, r)
    ensures var id := |s.created|;
      && Keeps(s, Ran(r.status, r.state.(input := None, streams := r.state.streams - {id})))
      && Keeps(s, Ran(r.status, r.state.(output := None, streams := r.state.streams - {id})))
      && (!r.status.Done? ==> Keeps(s, r))
  {
  }

  /** Running a command only adds to what the executor created and spawned;
      it returns normally only with the stream set it started with. */
  lemma {:induction false} ExecKeeps(c: Command, mode: WaitMode, s: State, w: World)
    requires Modelled(c)
    ensures Keeps(s, Exec(c, mode, s, w))
    decreases Size(c), 1
  {
    match c
    case Null =>
    case Executable(_, _, _) =>
    case Sequential(_) => SequentialKeeps(c, mode, s, w);
    case Pipe(_, _) => PipeKeeps(c, mode, s, w);
    case InputRedirection(_, _) => InputKeeps(c, mode, s, w);
    case OutputRedirection(_, _) => OutputKeeps(c, mode, s, w);
  }

  lemma {:induction false} SequentialKeeps(c: Command, mode: WaitMode, s: State, w: World)
    requires c.Sequential? && Modelled(c)
    ensures Keeps(s, Exec(c, mode, s, w))
    decreases Size(c), 0
  {
    var cs := c.sequence;
    if cs != [] {
      assert cs[0..] == cs;
      RunAllKeeps(cs, 0, s, w);
    }
  }

  lemma {:induction false} PipeKeeps(c: Command, mode: WaitMode, s: State, w: World)
    requires c.Pipe? && Modelled(c)
    ensures Keeps(s, Exec(c, mode, s, w))
    decreases Size(c), 0
  {
    if c.primary != Null && c.secondary != Null {
      var stages := Flatten(c);
      var base := |s.created|;
      var withPipes := OpenPipes(s, |stages| - 1);
      assert stages[0..] == stages;
      RunStagesKeeps(stages, base, 0, withPipes, w);
      ClosePipesKeeps(s, |stages| - 1, RunStages(stages, base, 0, withPipes, w));
    }
  }

  lemma {:induction false} InputKeeps(c: Command, mode: WaitMode, s: State, w: World)
    requires c.InputRedirection? && Modelled(c)
    ensures Keeps(s, Exec(c, mode, s, w))
    decreases Size(c), 0
  {
    var p, path := c.primary, c.path;
    if p != Null && path != "" {
      ExecKeeps(p, mode, OpenInput(s, path), w);
      CloseStreamKeeps(s, OpenInput(s, path), Exec(p, mode, OpenInput(s, path), w));
    }
  }

  lemma {:induction false} OutputKeeps(c: Command, mode: WaitMode, s: State, w: World)
    requires c.OutputRedirection? && Modelled(c)
    ensures Keeps(s, Exec(c, mode, s, w))
    decreases Size(c), 0
  {
    var p, path := c.primary, c.path;
    if p != Null && path != "" && w.creates(path) {
      ExecKeeps(p, mode, OpenOutput(s, path), w);
      CloseStreamKeeps(s, OpenOutput(s, path), Exec(p, mode, OpenOutput(s, path), w));
    }
  }

  lemma {:induction false} RunAllKeeps(cs: seq<Command>, i: nat, s: State, w: World)
    requires i < |cs| && AllModelled(cs)
    ensures Keeps(s, RunAll(cs, i, s, w))
    decreases SizeAll(cs[i..]), 2
  {
    SizeAllFrom(cs, i);
    ExecKeeps(cs[i], Wait, s, w);
    var r := Exec(cs[i], Wait, s, w);
    if i < |cs| - 1 && r.status.Done? {
      RunAllKeeps(cs, i + 1, r.state, w);
      ExtendsTransitive(s, r.state, RunAll(cs, i + 1, r.state, w).state);
    }
  }

  lemma {:induction false} RunStagesKeeps(stages: seq<Command>, base: nat, i: nat, s: State, w: World)
    requires i < |stages| && AllModelled(stages)
    ensures Keeps(s, RunStages(stages, base, i, s, w))
    decreases SizeAll(stages[i..]), 2
  {
    SizeAllFrom(stages, i);
    var active := Activate(s, base, |stages|, i);
    if i == |stages| - 1 {
      ExecKeeps(stages[i], Wait, active, w);
    } else {
      ExecKeeps(stages[i], Continue, active, w);
      var r := Exec(stages[i], Continue, active, w);
      if r.status.Done? {
        RunStagesKeeps(stages, base, i + 1, r.state, w);
        ExtendsTransitive(s, r.state, RunStages(stages, base, i + 1, r.state, w).state);
      }
    }
  }

  /** The nodes that throw "incomplete …" do so before touching the
      executor. */
  lemma IncompleteSequential(mode: WaitMode, s: State, w: World)
    ensures Exec(Sequential([]), mode, s, w) == Ran(Failed("incomplete SequentialCommand"), s)
  {
  }

  lemma IncompletePipe(p: Command, q: Command, mode: WaitMode, s: State, w: World)
    requires Modelled(p) && Modelled(q) && (p == Null || q == Null)
    ensures Exec(Pipe(p, q), mode, s, w) == Ran(Failed("incomplete PipeCommand"), s)
  {
  }

  lemma IncompleteInputRedirection(p: Command, path: string, mode: WaitMode, s: State, w: World)
    requires Modelled(p) && (p == Null || path == "")
    ensures Exec(InputRedirection(p, path), mode, s, w) == Ran(Failed("incomplete InputRedirectionCommand"), s)
  {
  }

  lemma IncompleteOutputRedirection(p: Command, path: string, mode: WaitMode, s: State, w: World)
    requires Modelled(p) && (p == Null || path == "")
    ensures Exec(OutputRedirection(p, path), mode, s, w) == Ran(Failed("incomplete OutputRedirectionCommand"), s)
  {
  }

  /** Appending a child to a sequence runs it last, with the default wait
      mode, after the others and only when they all returned. */
  lemma {:induction false} RunAllSnoc(cs: seq<Command>, last: Command, i: nat, s: State, w: World)
    requires i < |cs| && AllModelled(cs) && Modelled(last)
    ensures AllModelled(cs + [last])
    ensures var r := RunAll(cs, i, s, w);
      RunAll(cs + [last], i, s, w) == if r.status.Done? then Exec(last, Wait, r.state, w) else r
    decreases |cs| - i
  {
    var all := cs + [last];
    assert forall k :: 0 <= k < |cs| ==> all[k] == cs[k];
    assert all[|cs|] == last;
    var r := Exec(cs[i], Wait, s, w);
    if i < |cs| - 1 && r.status.Done? {
      RunAllSnoc(cs, last, i + 1, r.state, w);
    } else if r.status.Done? {
      assert all[i + 1..] == [last];
      assert RunAll(all, i + 1, r.state, w) == Exec(last, Wait, r.state, w);
    }
  }

  /** `SequentialCommand::execute` runs every child once, in order, whatever
      the earlier ones returned; an exception from a child stops the rest;
      and the result is the last child's.  The caller's wait mode plays no
      part. */
  lemma SequentialRunsInOrder(cs: seq<Command>, last: Command, mode: WaitMode, s: State, w: World)
    requires cs != [] && AllModelled(cs) && Modelled(last)
    ensures Modelled(Sequential(cs + [last]))
    ensures var r := Exec(Sequential(cs), mode, s, w);
      Exec(Sequential(cs + [last]), mode, s, w) == if r.status.Done? then Exec(last, Wait, r.state, w) else r
  {
    RunAllSnoc(cs, last, 0, s, w);
    assert (cs + [last])[0..] == cs + [last] && cs[0..] == cs;
  }

  /** A one-child sequence is that child run with the default wait mode. */
  lemma SequentialOfOne(c: Command, mode: WaitMode, s: State, w: World)
    requires Modelled(c)
    ensures Modelled(Sequential([c]))
    ensures Exec(Sequential([c]), mode, s, w) == Exec(c, Wait, s, w)
  {
    assert [c][0..] == [c];
  }

  /** An exit builtin at the head of a sequence throws at once: nothing after
      it runs and the executor is untouched. */
  lemma ExitStopsSequence(program: string, arguments: seq<string>, rest: seq<Command>, mode: WaitMode,
                          s: State, w: World)
    requires AllModelled(rest)
    ensures Modelled(Sequential([Executable(ExitBuiltin, program, arguments)] + rest))
    ensures Exec(Sequential([Executable(ExitBuiltin, program, arguments)] + rest), mode, s, w)
            == Ran(Exited(ExitBuiltin.Execute(arguments).code), s)
  {
    var cs := [Executable(ExitBuiltin, program, arguments)] + rest;
    assert cs[0] == Executable(ExitBuiltin, program, arguments);
    assert forall i :: 0 < i < |cs| ==> cs[i] == rest[i - 1];
    assert cs[0..] == cs;
    assert Exec(cs[0], Wait, s, w) == Ran(Exited(ExitBuiltin.Execute(arguments).code), s);
    assert RunAll(cs, 0, s, w) == Exec(cs[0], Wait, s, w);
  }

  /** The right-nested pipe `ps[0] | (ps[1] | … (ps[k-1] | last))`. */
  function PipeChain(ps: seq<Command>, last: Command): (c: Command)
    requires ps != []
    ensures c.Pipe?
    decreases |ps|
  {
    if |ps| == 1 then Pipe(ps[0], last) else Pipe(ps[0], PipeChain(ps[1..], last))
  }

  /** k right-nested pipes give k + 1 stages, left to right: the primaries,
      then the last secondary. */
  lemma {:induction false} FlattenPipeChain(ps: seq<Command>, last: Command)
    requires ps != [] && !last.Pipe?
    ensures Flatten(PipeChain(ps, last)) == ps + [last]
    decreases |ps|
  {
    if |ps| > 1 {
      FlattenPipeChain(ps[1..], last);
      assert ps == [ps[0]] + ps[1..];
    }
  }

  /** Every pipe is such a chain, rebuilt from its stages. */
  lemma {:induction false} PipeChainOfFlatten(c: Command)
    requires c.Pipe?
    ensures var stages := Flatten(c);
      && !stages[|stages| - 1].Pipe?
      && PipeChain(stages[..|stages| - 1], stages[|stages| - 1]) == c
  {
    var stages := Flatten(c);
    if c.secondary.Pipe? {
      PipeChainOfFlatten(c.secondary);
      var rest := Flatten(c.secondary);
      assert stages == [c.primary] + rest;
      assert stages[..|stages| - 1] == [c.primary] + rest[..|rest| - 1];
      assert stages[..|stages| - 1][1..] == rest[..|rest| - 1];
    }
  }

  /** The stages of a pipe that are all executables: programs or builtins. */
  predicate Leaves(stages: seq<Command>)
  {
    forall i :: 0 <= i < |stages| ==> stages[i].Executable?
  }

  /** The stages of a pipe that are all programs. */
  predicate Programs(stages: seq<Command>)
  {
    forall i :: 0 <= i < |stages| ==> stages[i].Executable? && stages[i].kind == Program
  }

  /** What stage `i` of a pipe of executables is spawned with: the read end
      of the pipe before it (none for the first), the write end of the pipe
      after it (none for the last), Continue except for the last. */
  function StageSpawn(stages: seq<Command>, base: nat, i: nat): Spawn
    requires i < |stages| && stages[i].Executable?
  {
    Spawn(stages[i].program, stages[i].arguments,
          if i == 0 then None else Some(ReadEnd(base + i - 1)),
          if i + 1 < |stages| then Some(WriteEnd(base + i)) else None,
          if i + 1 < |stages| then Continue else Wait)
  }

  function StageSpawns(stages: seq<Command>, base: nat, i: nat): (r: seq<Spawn>)
    requires i <= |stages| && Programs(stages)
    ensures |r| == |stages| - i
    ensures forall j :: 0 <= j < |r| ==> r[j] == StageSpawn(stages, base, i + j)
    decreases |stages| - i
  {
    if i == |stages| then [] else [StageSpawn(stages, base, i)] + StageSpawns(stages, base, i + 1)
  }

  /** The stages of a pipe of executables from `i` on spawn one process
      each, in order; the code is that of the last, waited for. */
  lemma {:induction false} RunStagesPrograms(stages: seq<Command>, base: nat, i: nat, s: State, w: World)
    requires i < |stages| && Programs(stages)
    ensures AllModelled(stages)
    ensures var n := |stages|;
      var r := RunStages(stages, base, i, s, w);
      && r.status == Done(w.answer(|s.spawns| + n - 1 - i, StageSpawn(stages, base, n - 1)))
      && r.state == s.(input := Activate(s, base, n, n - 1).input, output := None,
                       spawns := s.spawns + StageSpawns(stages, base, i))
    decreases |stages| - i
  {
    var n := |stages|;
    var active := Activate(s, base, n, i);
    var spawn := StageSpawn(stages, base, i);
    assert Leaf(Program, stages[i].program, stages[i].arguments, spawn.mode, active, w).state
           == active.(spawns := s.spawns + [spawn]);
    if i < n - 1 {
      var next := active.(spawns := s.spawns + [spawn]);
      RunStagesPrograms(stages, base, i + 1, next, w);
      assert s.spawns + StageSpawns(stages, base, i) == next.spawns + StageSpawns(stages, base, i + 1);
    }
  }

  /** What a pipe of n executables leaves: n − 1 pipes created, n processes
      spawned, stage i reading from pipe i − 1 and writing to pipe i, all
      but the last with Continue; the code is the last stage's; the stream
      set is as it was, the input is on the last pipe's read end and the
      output is unset. */
  function Pipeline(stages: seq<Command>, s: State, w: World): Ran
    requires |stages| >= 2 && Programs(stages)
  {
    var n := |stages|;
    var base := |s.created|;
      Ran(Done(w.answer(|s.spawns| + n - 1, StageSpawn(stages, base, n - 1))),
            State(Some(ReadEnd(base + n - 2)), None, s.streams,
                  s.created + PipeResources(n - 1),
                  s.spawns + StageSpawns(stages, base, 0)))
  }

  /** `PipeCommand::execute` on a pipe of executables: n stages create n − 1
      fresh pipes and spawn n processes, stage i reading from pipe i − 1 and
      writing to pipe i, all but the last with Continue; the result is the
      last stage's code whatever the caller's wait mode; the pipes are
      erased again, and the input is left at the last pipe's read end while
      the output is unset. */
  lemma PipeOfPrograms(c: Command, mode: WaitMode, s: State, w: World)
    requires c.Pipe? && c.primary != Null && c.secondary != Null && Programs(Flatten(c)) && Sound(s)
    ensures Modelled(c)
    ensures Exec(c, mode, s, w) == Pipeline(Flatten(c), s, w)
  {
    PipeModelled(c);
    PipeExec(c, mode, s, w);
    PipeOutcome(Flatten(c), s, w);
  }

  /** `PipeCommand::execute` on a complete pipe runs its stages. */
  lemma PipeExec(c: Command, mode: WaitMode, s: State, w: World)
    requires c.Pipe? && c.primary != Null && c.secondary != Null && Modelled(c)
    ensures Exec(c, mode, s, w) == PipeRun(Flatten(c), s, w)
  {
  }

  /** The stages of a pipe of executables, run with the pipes open, and the
      pipes erased afterwards. */
  lemma PipeOutcome(stages: seq<Command>, s: State, w: World)
    requires |stages| >= 2 && Programs(stages) && Sound(s)
    ensures AllModelled(stages)
    ensures PipeRun(stages, s, w) == Pipeline(stages, s, w)
  {
    var n := |stages|;
    var base := |s.created|;
    var withPipes := OpenPipes(s, n - 1);
    RunStagesPrograms(stages, base, 0, withPipes, w);
    OpenPipesFresh(s, n - 1);
    var r := RunStages(stages, base, 0, withPipes, w);
    assert r.state.streams - PipeIds(base, n - 1) == s.streams;
  }

  /** A pipe whose stages are all leaves is modelled. */
  lemma {:induction false} PipeModelled(c: Command)
    requires c.Pipe? && Leaves(Flatten(c))
    ensures Modelled(c)
  {
    var stages := Flatten(c);
    assert stages[0] == c.primary;
    if c.secondary.Pipe? {
      var rest := Flatten(c.secondary);
      assert forall i :: 0 <= i < |rest| ==> rest[i] == stages[i + 1];
      PipeModelled(c.secondary);
    } else {
      assert stages[1] == c.secondary;
    }
  }

  /** `~ExecutorPipeSet` erases every pipe it inserted however
      `PipeCommand::execute` is left: whatever the status, none of the
      pipes a complete pipe created is in the stream set afterwards. */
  lemma PipeClosesPipes(c: Command, mode: WaitMode, s: State, w: World)
    requires c.Pipe? && c.primary != Null && c.secondary != Null && Modelled(c)
    ensures Exec(c, mode, s, w).state.streams !! PipeIds(|s.created|, |Flatten(c)| - 1)
  {
    PipeExec(c, mode, s, w);
  }

  /** A pipe of leaves, the exit builtin among them, leaves the stream set
      as it found it whatever the status: the stages neither insert nor
      erase, and the pipe set erases what it inserted. */
  lemma PipeOfLeaves(c: Command, mode: WaitMode, s: State, w: World)
    requires c.Pipe? && c.primary != Null && c.secondary != Null && Leaves(Flatten(c)) && Sound(s)
    ensures Modelled(c)
    ensures Exec(c, mode, s, w).state.streams == s.streams
  {
    PipeModelled(c);
    PipeExec(c, mode, s, w);
    var stages := Flatten(c);
    var n := |stages|;
    var withPipes := OpenPipes(s, n - 1);
    OpenPipesFresh(s, n - 1);
    RunStagesLeaves(stages, |s.created|, 0, withPipes, w);
    assert withPipes.streams - PipeIds(|s.created|, n - 1) == s.streams;
  }

  /** Stages that are leaves run without touching the stream set, whether
      they return normally or not. */
  lemma {:induction false} RunStagesLeaves(stages: seq<Command>, base: nat, i: nat, s: State, w: World)
    requires i < |stages| && Leaves(stages)
    ensures AllModelled(stages)
    ensures RunStages(stages, base, i, s, w).state.streams == s.streams
    decreases |stages| - i
  {
    var active := Activate(s, base, |stages|, i);
    if i < |stages| - 1 {
      var r := Exec(stages[i], Continue, active, w);
      if r.status.Done? {
        RunStagesLeaves(stages, base, i + 1, r.state, w);
      }
    }
  }

  /** An input redirection creates one input stream for its path, inserts it
      and makes it the input, and runs the primary with the caller's wait
      mode; after a normal return the input is unset (not restored), the
      stream is erased, and the redirection's code is the primary's.  It
      leaves the output as the primary left it. */
  lemma InputRedirectionScoped(p: Command, path: string, mode: WaitMode, s: State, w: World)
    requires p != Null && path != "" && Modelled(p) && Sound(s)
    ensures Modelled(InputRedirection(p, path))
    ensures var id := |s.created|;
      var inner := Exec(p, mode, s.(input := Some(FileStream(id)), streams := s.streams + {id},
                                    created := s.created + [InputFile(path)]), w);
      var r := Exec(InputRedirection(p, path), mode, s, w);
      && r.status == inner.status
      && (r.status.Done? ==>
            r.state == inner.state.(input := None, streams := s.streams) && r.state.output == inner.state.output)
  {
    ExecKeeps(p, mode, OpenInput(s, path), w);
  }

  /** The same for an output redirection, with the input left as the
      primary left it; where `creat` fails the redirection throws before it
      creates, inserts or sets anything, and the primary does not run. */
  lemma OutputRedirectionScoped(p: Command, path: string, mode: WaitMode, s: State, w: World)
    requires p != Null && path != "" && Modelled(p) && Sound(s)
    ensures Modelled(OutputRedirection(p, path))
    ensures !w.creates(path) ==> Exec(OutputRedirection(p, path), mode, s, w) == Ran(Failed(UnableToOpen), s)
    ensures var id := |s.created|;
      var inner := Exec(p, mode, s.(output := Some(FileStream(id)), streams := s.streams + {id},
                                    created := s.created + [OutputFile(path)]), w);
      var r := Exec(OutputRedirection(p, path), mode, s, w);
      w.creates(path) ==>
      && r.status == inner.status
      && (r.status.Done? ==>
            r.state == inner.state.(output := None, streams := s.streams) && r.state.input == inner.state.input)
  {
    ExecKeeps(p, mode, OpenOutput(s, path), w);
  }

  /** `cmd < path` for an executable: one process, reading from the new file
      stream and writing where the output already pointed; the stream set
      ends as it began and the input is unset. */
  lemma RedirectedInputProgram(program: string, arguments: seq<string>, path: string, mode: WaitMode,
                               s: State, w: World)
    requires path != "" && Sound(s)
    ensures var id := |s.created|;
      var spawn := Spawn(program, arguments, Some(FileStream(id)), s.output, mode);
      Exec(InputRedirection(Executable(Program, program, arguments), path), mode, s, w) ==
        Ran(Done(if mode == Continue then 0 else w.answer(|s.spawns|, spawn)),
            State(None, s.output, s.streams, s.created + [InputFile(path)], s.spawns + [spawn]))
  {
    assert |s.created| !in s.streams;
  }

  /** `cmd > path` for an executable, or the open error where `creat`
      fails. */
  lemma RedirectedOutputProgram(program: string, arguments: seq<string>, path: string, mode: WaitMode,
                                s: State, w: World)
    requires path != "" && Sound(s)
    ensures var id := |s.created|;
      var spawn := Spawn(program, arguments, s.input, Some(FileStream(id)), mode);
      Exec(OutputRedirection(Executable(Program, program, arguments), path), mode, s, w) ==
        if !w.creates(path) then Ran(Failed(UnableToOpen), s)
        else Ran(Done(if mode == Continue then 0 else w.answer(|s.spawns|, spawn)),
                 State(s.input, None, s.streams, s.created + [OutputFile(path)], s.spawns + [spawn]))
  {
    assert |s.created| !in s.streams;
  }

  /** The builtins take the executor but change nothing in it, and act the
      same in either wait mode. */
  lemma BuiltinsKeepExecutor(kind: ExecKind, program: string, arguments: seq<string>, mode: WaitMode,
                             s: State, w: World)
    requires kind != Program
    ensures Exec(Executable(kind, program, arguments), mode, s, w).state == s
    ensures Exec(Executable(kind, program, arguments), mode, s, w) ==
            Exec(Executable(kind, program, arguments), Wait, s, w)
    ensures kind == ExitBuiltin <==> Exec(Executable(kind, program, arguments), mode, s, w).status.Exited?
  {
  }

  /** A pipe ignores the wait mode it is run with. */
  lemma PipeIgnoresMode(c: Command, mode: WaitMode, s: State, w: World)
    requires c.Pipe? && Modelled(c)
    ensures Exec(c, mode, s, w) == Exec(c, Wait, s, w)
  {
  }
}
