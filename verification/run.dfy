/**
 One whole call of `run_singlem` (aviary/scripts/singlem_reads.py, lines
 6-30) against an explicit environment.

 The file system is reduced to the set of directories that exist, standard
 output to the list of lines the script prints, and `subprocess.run` to a
 `tool` parameter that says, for an argv vector, whether the process could
 be started and with which exit status. The script never inspects the
 returned `CompletedProcess`, so a non-zero exit status goes unnoticed; a
 process that cannot be started at all (the `singlem` executable missing
 from the search path) raises out of `run` and ends the script there. A
 thread count too long for `str` makes the first `pipe` f-string raise
 `ValueError` before anything is run.
 */
module SinglemRun {
  import opened SinglemCommands
  import opened SinglemReads

  /** What `subprocess.run` does with one argv vector. */
  datatype Launch = Exited(status: int) | SpawnFailed

  /** The observable environment: existing directories, printed lines, and
      the argv vectors handed to `subprocess.run` so far. */
  datatype World = World(dirs: set<string>, log: seq<string>, attempted: seq<seq<string>>)

  /** A finished call: the final environment, and whether an exception
      escaped. */
  datatype Outcome = Outcome(world: World, raised: bool)

  /** The line printed when `os.mkdir` raises `OSError` (the script's
      spelling of "preexisting" is kept). */
  const ExistingDirMessage := "Using prexisting directory: " + OutDir

  /** The directory `os.mkdir` creates the output directory in. */
  const ParentDir := "data/"

  /** `os.mkdir` succeeds only when the output directory is missing and its
      parent exists. */
  predicate MkdirSucceeds(dirs: set<string>) {
    OutDir !in dirs && ParentDir in dirs
  }

  /** `os.mkdir` of the output directory. Any `OSError` (the directory
      already exists, or its parent is missing) is caught and reported with
      the same message, and the script goes on. */
  function MakeOutDir(w: World): (r: World)
    ensures r.attempted == w.attempted
    ensures MkdirSucceeds(w.dirs) ==> OutDir in r.dirs && r.log == w.log
    ensures !MkdirSucceeds(w.dirs) ==> r.dirs == w.dirs && r.log == w.log + [ExistingDirMessage]
    ensures r.dirs - {OutDir} == w.dirs - {OutDir}
  {
    if MkdirSucceeds(w.dirs) then w.(dirs := w.dirs + {OutDir})
    else w.(log := w.log + [ExistingDirMessage])
  }

  /** Issue `cmds` one after another, stopping at the first command whose
      process cannot be started. Exit statuses are not looked at. */
  function RunAll(w: World, cmds: seq<seq<string>>, tool: seq<string> -> Launch): (r: Outcome)
    ensures r.world.dirs == w.dirs && r.world.log == w.log
    ensures |w.attempted| <= |r.world.attempted| <= |w.attempted| + |cmds|
    ensures r.world.attempted == w.attempted + cmds[..|r.world.attempted| - |w.attempted|]
    ensures forall i :: |w.attempted| <= i < |r.world.attempted| - 1
                        ==> !tool(r.world.attempted[i]).SpawnFailed?
    ensures r.raised <==> |r.world.attempted| > |w.attempted|
                          && tool(r.world.attempted[|r.world.attempted| - 1]).SpawnFailed?
    ensures !r.raised ==> r.world.attempted == w.attempted + cmds
    decreases |cmds|
  {
    if |cmds| == 0 then Outcome(w, false)
    else
      var w1 := w.(attempted := w.attempted + [cmds[0]]);
      if tool(cmds[0]).SpawnFailed? then
        assert cmds[..1] == [cmds[0]];
        Outcome(w1, true)
      else
        var r := RunAll(w1, cmds[1..], tool);
        assert w1.attempted + cmds[1..][..|r.world.attempted| - |w1.attempted|]
            == w.attempted + cmds[..|r.world.attempted| - |w.attempted|];
        r
  }

  /** The body of `run_singlem` for a given command list: create the output
      directory, then issue the commands. */
  function RunScript(dirs: set<string>, cmds: seq<seq<string>>,
                     tool: seq<string> -> Launch): (r: Outcome)
    ensures r.world.dirs == if MkdirSucceeds(dirs) then dirs + {OutDir} else dirs
    ensures r.world.log == if MkdirSucceeds(dirs) then [] else [ExistingDirMessage]
    ensures |r.world.attempted| <= |cmds|
    ensures r.world.attempted == cmds[..|r.world.attempted|]
    ensures forall i :: 0 <= i < |r.world.attempted| - 1
                        ==> !tool(r.world.attempted[i]).SpawnFailed?
    ensures r.raised <==> |r.world.attempted| > 0
                          && tool(r.world.attempted[|r.world.attempted| - 1]).SpawnFailed?
    ensures !r.raised ==> r.world.attempted == cmds
  {
    var w := MakeOutDir(World(dirs, [], []));
    assert w.dirs == if MkdirSucceeds(dirs) then dirs + {OutDir} else dirs;
    assert w.log == if MkdirSucceeds(dirs) then [] else [ExistingDirMessage];
    assert w.attempted == [];
    var r := RunAll(w, cmds, tool);
    assert r.world.attempted == [] + cmds[..|r.world.attempted|];
    assert [] + cmds == cmds;
    r
  }

  /** Some `pipe` command is planned, so the thread count is formatted. */
  predicate PipePlanned(long: ReadArg, sr1: ReadArg, sr2: ReadArg) {
    Given(long) || Given(sr1) || Given(sr2)
  }

  /** Formatting the first planned `pipe` f-string raises `ValueError`: the
      thread count has too many digits for `str`. The merge line has no
      placeholder, so it alone never fails this way. */
  predicate FormatFails(long: ReadArg, sr1: ReadArg, sr2: ReadArg, threads: int) {
    PipePlanned(long, sr1, sr2) && !Decimal.Renderable(threads)
  }

  /** `run_singlem(long_reads, short_reads_1, short_reads_2, pplacer_threads)`
      started with the directories `dirs` in place, nothing printed yet and
      nothing run yet. */
  function RunSinglem(dirs: set<string>, long: ReadArg, sr1: ReadArg, sr2: ReadArg,
                      threads: int, tool: seq<string> -> Launch): (r: Outcome)
    ensures r.world.dirs == if MkdirSucceeds(dirs) then dirs + {OutDir} else dirs
    ensures r.world.log == if MkdirSucceeds(dirs) then [] else [ExistingDirMessage]
    ensures FormatFails(long, sr1, sr2, threads) ==> r.raised && r.world.attempted == []
    ensures var c := Commands(long, sr1, sr2, threads);
      !FormatFails(long, sr1, sr2, threads) ==>
        && 1 <= |r.world.attempted| <= |c|
        && r.world.attempted == c[..|r.world.attempted|]
        && (forall i :: 0 <= i < |r.world.attempted| - 1
                        ==> !tool(r.world.attempted[i]).SpawnFailed?)
        && (r.raised <==> tool(r.world.attempted[|r.world.attempted| - 1]).SpawnFailed?)
        && (!r.raised ==> r.world.attempted == c)
  {
    if FormatFails(long, sr1, sr2, threads) then
      Outcome(MakeOutDir(World(dirs, [], [])), true)
    else
      CommandCount(long, sr1, sr2, threads);
      RunScript(dirs, Commands(long, sr1, sr2, threads), tool)
  }

  // ---------------------------------------------------------------------
  // Properties of a whole call

  lemma {:induction false} RunAllLaunches(w: World, cmds: seq<seq<string>>,
                                          tool: seq<string> -> Launch)
    requires forall i :: 0 <= i < |cmds| ==> !tool(cmds[i]).SpawnFailed?
    ensures RunAll(w, cmds, tool) == Outcome(w.(attempted := w.attempted + cmds), false)
    decreases |cmds|
  {
    if |cmds| > 0 {
      var w1 := w.(attempted := w.attempted + [cmds[0]]);
      RunAllLaunches(w1, cmds[1..], tool);
      assert w1.attempted + cmds[1..] == w.attempted + cmds;
    }
  }

  /** When every command can be started, all of them are run, in order,
      and the call returns normally, whatever their exit statuses are;
      unless the thread count cannot be formatted, in which case nothing is
      run and the call raises. */
  lemma AllCommandsRun(dirs: set<string>, long: ReadArg, sr1: ReadArg, sr2: ReadArg,
                       threads: int, tool: seq<string> -> Launch)
    requires forall a :: !tool(a).SpawnFailed?
    ensures var r := RunSinglem(dirs, long, sr1, sr2, threads, tool);
      !FormatFails(long, sr1, sr2, threads) ==>
        !r.raised && r.world.attempted == Commands(long, sr1, sr2, threads)
    ensures var r := RunSinglem(dirs, long, sr1, sr2, threads, tool);
      FormatFails(long, sr1, sr2, threads) ==> r.raised && r.world.attempted == []
  {
    if !FormatFails(long, sr1, sr2, threads) {
      var w := MakeOutDir(World(dirs, [], []));
      RunAllLaunches(w, Commands(long, sr1, sr2, threads), tool);
      assert [] + Commands(long, sr1, sr2, threads) == Commands(long, sr1, sr2, threads);
    }
  }

  /** A long-read `singlem` that cannot be started ends the call at the
      first `run`: the exception escapes and neither the short-read pipe
      nor the merge is attempted. With a thread count too long to format,
      the call raises earlier, at the f-string, and nothing is attempted. */
  lemma LongReadStartFailureEndsCall(dirs: set<string>, long: ReadArg, sr1: ReadArg,
                                     sr2: ReadArg, threads: int, tool: seq<string> -> Launch)
    requires Given(long) && tool(Argv(LongReadPipe(long), threads)).SpawnFailed?
    ensures var r := RunSinglem(dirs, long, sr1, sr2, threads, tool);
      && r.raised
      && (Decimal.Renderable(threads) ==> r.world.attempted == [Argv(LongReadPipe(long), threads)])
      && (!Decimal.Renderable(threads) ==> r.world.attempted == [])
  {
    var c := Commands(long, sr1, sr2, threads);
    var r := RunSinglem(dirs, long, sr1, sr2, threads, tool);
    if !Decimal.Renderable(threads) {
      return;
    }
    CommandsUnfold(long, sr1, sr2, threads);
    assert c[0] == Argv(LongReadPipe(long), threads);
    assert r.world.attempted[0] == c[0];
    assert |r.world.attempted| == 1;
    assert r.world.attempted == c[..1];
  }

  lemma {:induction false} RunAllIgnoresStatus(w: World, cmds: seq<seq<string>>,
                                               tool: seq<string> -> Launch,
                                               tool': seq<string> -> Launch)
    requires forall a :: tool(a).SpawnFailed? == tool'(a).SpawnFailed?
    ensures RunAll(w, cmds, tool) == RunAll(w, cmds, tool')
    decreases |cmds|
  {
    if |cmds| > 0 && !tool(cmds[0]).SpawnFailed? {
      RunAllIgnoresStatus(w.(attempted := w.attempted + [cmds[0]]), cmds[1..], tool, tool');
    }
  }

  /** The exit statuses of the `singlem` processes never influence the
      script: two tools that start the same commands give the same
      outcome, even if one of them fails every command. */
  lemma ExitStatusIgnored(dirs: set<string>, long: ReadArg, sr1: ReadArg, sr2: ReadArg,
                          threads: int, tool: seq<string> -> Launch,
                          tool': seq<string> -> Launch)
    requires forall a :: tool(a).SpawnFailed? == tool'(a).SpawnFailed?
    ensures RunSinglem(dirs, long, sr1, sr2, threads, tool)
         == RunSinglem(dirs, long, sr1, sr2, threads, tool')
  {
    if !FormatFails(long, sr1, sr2, threads) {
      RunAllIgnoresStatus(MakeOutDir(World(dirs, [], [])), Commands(long, sr1, sr2, threads),
                          tool, tool');
    }
  }

  lemma {:induction false} RunAllIgnoresDirs(w: World, w': World, cmds: seq<seq<string>>,
                                             tool: seq<string> -> Launch)
    requires w.attempted == w'.attempted
    ensures RunAll(w, cmds, tool).raised == RunAll(w', cmds, tool).raised
    ensures RunAll(w, cmds, tool).world.attempted == RunAll(w', cmds, tool).world.attempted
    decreases |cmds|
  {
    if |cmds| > 0 && !tool(cmds[0]).SpawnFailed? {
      RunAllIgnoresDirs(w.(attempted := w.attempted + [cmds[0]]),
                        w'.(attempted := w'.attempted + [cmds[0]]), cmds[1..], tool);
    }
  }

  /** The directories present at the start only decide whether the message
      is printed: the commands issued and the way the call ends are the same
      whether or not the output directory already existed. */
  lemma ExistingDirOnlyPrints(dirs: set<string>, dirs': set<string>, long: ReadArg,
                              sr1: ReadArg, sr2: ReadArg, threads: int,
                              tool: seq<string> -> Launch)
    ensures var r := RunSinglem(dirs, long, sr1, sr2, threads, tool);
      var r' := RunSinglem(dirs', long, sr1, sr2, threads, tool);
      && r.raised == r'.raised
      && r.world.attempted == r'.world.attempted
  {
    if !FormatFails(long, sr1, sr2, threads) {
      RunAllIgnoresDirs(MakeOutDir(World(dirs, [], [])), MakeOutDir(World(dirs', [], [])),
                        Commands(long, sr1, sr2, threads), tool);
    }
  }

  /** With all three read arguments "none" the thread count is never
      formatted: whatever its size, the call issues only the merge, and
      raises only if that process cannot be started. */
  lemma MergeOnlyIgnoresThreads(dirs: set<string>, threads: int, tool: seq<string> -> Launch)
    ensures var r := RunSinglem(dirs, NoneSentinel, NoneSentinel, NoneSentinel, threads, tool);
      && r.world.attempted == [SummariseArgv]
      && (r.raised <==> tool(SummariseArgv).SpawnFailed?)
  {
    CommandsUnfold(NoneSentinel, NoneSentinel, NoneSentinel, threads);
  }
}
