# singlem read-profiling dispatcher

A Dafny model of `run_singlem` in `aviary/scripts/singlem_reads.py`. This is
the step of the aviary pipeline that profiles a sample's reads with
`singlem`. The function receives three read arguments (long reads, forward
short reads, reverse short reads) and a thread count. Each read argument is
either the configuration sentinel string `"none"` or a list of file paths.
The function works in four steps:

1. It creates `data/singlem_out/` and tolerates any `OSError`.
2. It issues an optional long-read `singlem pipe --sequences …` command.
3. It issues at most one short-read `pipe` command:
   - the paired `--forward … --reverse …` form when the reverse reads are given;
   - otherwise the single-end `--sequences …` form when the forward reads are given.
4. It issues `singlem summarise` last, unless an earlier `run` raised, to
   merge every table it finds into one combined table.

Formatting a `pipe` f-string raises `ValueError` when the thread count has
more than 4300 digits. The call then ends after step 1, before any `run`.
The `summarise` line has no placeholder, so with all three reads `"none"`
it runs whatever the thread count.

The model is organised as follows:

- `tokens.dfy` (`Tokens`): Python's `str.split()` with no argument, using
  the interpreter's whitespace set, and `' '.join`.
- `decimal.dfy` (`Decimal`): `str(n)` for an `int`, which is what the
  `{pplacer_threads}` placeholder renders. Python refuses to convert an
  `int` of more than 4300 digits and raises `ValueError`. `Renderable` says
  when the conversion succeeds, and `Render` is the text it produces then.
- `commands.dfy` (`SinglemCommands`): the read-argument datatype
  (`NoneSentinel | Files(paths)`) and each f-string command line. It also
  defines the argv vector `Argv` and proves that `.split()` of the f-string
  is exactly that vector (`CommandLineSplits`).
- `dispatch.dfy` (`SinglemReads`): the branch structure as a list of planned
  invocations (`Plan`) and the argv vectors handed to `run` (`Commands`).
  `Classify` reads the read class of a command back from its fixed tokens.
  Most properties of the dispatch are stated through `Classify`.
- `run.dfy` (`SinglemRun`): one whole call against an explicit environment:
  - the set of existing directories;
  - the printed lines;
  - the argv vectors passed to `subprocess.run`;
  - a `tool` parameter saying, for each argv vector, whether the process
    starts and with which exit status.

`run_singlem` does not check that `short_reads_1` is given when
`short_reads_2` is, nor that the two lists have the same length. With
`short_reads_2` given and `short_reads_1` left at `"none"`, the paired
command is still built. `' '.join("none")` then iterates over the
characters of the string, so the command receives the four forward "files"
`n`, `o`, `n`, `e` (`UnguardedForwardSentinel`). Unequal forward and reverse
lists are passed through as they are.

## Model

| member | source | states |
|---|---|---|
| Tokens.SplitYieldsWords | aviary/scripts/singlem_reads.py:18 | every token `.split()` produces is non-empty and free of whitespace |
| Tokens.SplitAtSpace | aviary/scripts/singlem_reads.py:18 | a whitespace separator splits the text into the tokens before it followed by the tokens after it; it never glues two tokens together |
| Tokens.SplitJoin | aviary/scripts/singlem_reads.py:18 | splitting a blank-joined list gives the pieces of each item in order: an item with whitespace falls apart, an empty item vanishes |
| Tokens.JoinRoundTrip | aviary/scripts/singlem_reads.py:18 | `split` undoes `' '.join` on lists of whitespace-free, non-empty words |
| Tokens.SplitStable | aviary/scripts/singlem_reads.py:18 | re-joining the tokens of `split` and splitting again gives the same tokens |
| Tokens.SplitKeepsVisible | aviary/scripts/singlem_reads.py:18 | the tokens, concatenated, are the input with exactly the whitespace characters removed |
| Decimal.NatDigits | aviary/scripts/singlem_reads.py:18 | the rendering of a natural number is a non-empty digit string with no leading zero |
| Decimal.RenderRoundTrip | aviary/scripts/singlem_reads.py:18 | the rendering (the text of `str(n)` whenever `str` accepts `n`, see RenderableRange) starts with a minus sign exactly when `n` is negative, and parsing it back gives `n` |
| Decimal.DigitCount | aviary/scripts/singlem_reads.py:18 | a natural number renders to at most `k` digits exactly when it is below `10^k` |
| Decimal.RenderableRange | aviary/scripts/singlem_reads.py:18 | `str` accepts the thread count, rather than raising `ValueError`, exactly when it lies strictly between `-10^4300` and `10^4300` |
| Decimal.RenderInjective | aviary/scripts/singlem_reads.py:18 | different thread counts render to different tokens |
| Decimal.RenderIsWord | aviary/scripts/singlem_reads.py:18 | the rendered thread count contains no whitespace, so it stays one argv token |
| SinglemCommands.JoinItems | aviary/scripts/singlem_reads.py:22 | what `' '.join(arg)` iterates over: a list argument's own paths, or, for the string `"none"`, one item per character of it |
| SinglemCommands.SentinelIterated | aviary/scripts/singlem_reads.py:22 | iterating the sentinel string yields its characters, each as a one-character string, so `' '.join("none")` joins n, o, n, e |
| SinglemCommands.CommandLine | aviary/scripts/singlem_reads.py:18-29 | the four f-strings before `.split()`: the long-read, paired and single-end `pipe` lines with the thread count and joined reads substituted, and the fixed `summarise` line (no contract of its own; see CommandLineSplits) |
| SinglemCommands.ArgTokensOfWords | aviary/scripts/singlem_reads.py:18 | non-empty, whitespace-free paths reach the argv one token each and unchanged; the sentinel contributes the four one-letter tokens n, o, n, e |
| SinglemCommands.SequencesShape | aviary/scripts/singlem_reads.py:18 | the split `pipe --sequences` command is `singlem pipe --threads <n> --sequences`, then the tokens of the joined reads, then `--otu_table` and the table |
| SinglemCommands.PairedShape | aviary/scripts/singlem_reads.py:22 | the split paired command is the head, `--forward`, the forward tokens, `--reverse`, the reverse tokens, then `--otu_table` and the short-read table |
| SinglemCommands.SummariseShape | aviary/scripts/singlem_reads.py:29 | the merge command splits into six tokens; the table glob `data/singlem_out/*.csv` is passed literally as one token |
| SinglemCommands.CommandLineSplits | aviary/scripts/singlem_reads.py:17-29 | for each branch, `.split()` of the f-string is exactly the argv vector `Argv` |
| SinglemReads.Plan | aviary/scripts/singlem_reads.py:17-30 | one to three invocations. Merge is last and appears only once. Stages strictly increase. Long-read pipe iff long reads are given. Paired pipe iff reverse reads are given. Single-end pipe iff only forward reads are given. Some short-read pipe iff either short list is given |
| SinglemReads.Commands | aviary/scripts/singlem_reads.py:17-30 | the argv vectors handed to `run`, in order: `Argv` of each planned invocation (no contract of its own; see Plan, CommandsAreSplitLines and the dispatch lemmas) |
| SinglemReads.CommandsAreSplitLines | aviary/scripts/singlem_reads.py:17-30 | each command is exactly the `.split()` of the f-string its branch builds, one per planned invocation, in plan order |
| SinglemReads.ClassifyArgv | aviary/scripts/singlem_reads.py:18-29 | the read class of every built command can be recovered from its fixed tokens, whatever the paths contain |
| SinglemReads.ClassesOfCommands | aviary/scripts/singlem_reads.py:17-30 | filtering the commands by read class gives each branch's argv exactly when that branch's condition holds, and the merge argv once |
| SinglemReads.MergeOnceAndLast | aviary/scripts/singlem_reads.py:29-30 | for every input, all three reads "none" included, the last command is the merge; no earlier command is a merge |
| SinglemReads.CommandCount | aviary/scripts/singlem_reads.py:17-30 | there are 1 + [long reads given] + [some short reads given] commands, so between 1 and 3 |
| SinglemReads.CommandOrder | aviary/scripts/singlem_reads.py:17-30 | commands appear in strictly increasing stage: long-read pipe, then short-read pipe, then merge |
| SinglemReads.LongReadIndependent | aviary/scripts/singlem_reads.py:17-19 | a long-read command is issued iff the long reads are not "none"; it is the first command, and it is the same whatever the short-read arguments are |
| SinglemReads.ShortReadIndependent | aviary/scripts/singlem_reads.py:21-27 | the short-read commands do not depend on the long-read argument |
| SinglemReads.PairedTakesPrecedence | aviary/scripts/singlem_reads.py:21-25 | with reverse reads given, exactly one short-read command is issued, the paired one, and no single-end command |
| SinglemReads.SingleEndOnlyWithoutReverse | aviary/scripts/singlem_reads.py:25-27 | a single-end command is issued iff the reverse reads are "none" and the forward reads are not; with both "none" no short-read command is issued |
| SinglemReads.SentinelForwardArgv | aviary/scripts/singlem_reads.py:22 | the paired argv built with forward reads "none" carries n, o, n, e between `--forward` and `--reverse` |
| SinglemReads.UnguardedForwardSentinel | aviary/scripts/singlem_reads.py:21-22 | reverse reads given with forward reads "none" are not rejected; the paired command is issued with forward tokens n, o, n, e |
| SinglemReads.OutputTablesFixed | aviary/scripts/singlem_reads.py:18-29 | every pipe command ends with `--otu_table` and its class's table. Both short-read forms share one table, which is not the long-read table. The merge reads the glob and writes the combined table |
| SinglemReads.ThreadsFlag | aviary/scripts/singlem_reads.py:18-26 | every pipe command has `--threads` at position 2, followed by the decimal rendering of the thread count, which parses back to that count |
| SinglemReads.PathsVerbatim | aviary/scripts/singlem_reads.py:17-30 | with all three arguments given as non-empty, whitespace-free paths, the commands are exactly the long-read pipe, the paired pipe and the merge, with the paths verbatim |
| SinglemRun.MakeOutDir | aviary/scripts/singlem_reads.py:12-15 | if the directory is missing and its parent exists, it is created and nothing is printed; otherwise one message is printed and the directories are unchanged; nothing is run |
| SinglemRun.RunAll | aviary/scripts/singlem_reads.py:19-30 | the commands are attempted in order and the attempts form a prefix of the list; only the last attempt can have failed to start, and it did exactly when an exception escapes; without one, every command was attempted |
| SinglemRun.RunScript | aviary/scripts/singlem_reads.py:12-30 | directory step then commands: the final directories and printed lines depend only on whether `os.mkdir` succeeds; the attempted commands are a prefix of the list, every attempt but the last started, and the list is complete unless a start failed |
| SinglemRun.RunSinglem | aviary/scripts/singlem_reads.py:6-30 | if a `pipe` is planned and the thread count cannot be formatted, the call raises before any command is attempted. Otherwise it attempts at least one command, and the attempted commands are a prefix of `Commands`; every attempt but the last started; an exception escapes iff the last attempted command failed to start; otherwise all of `Commands` were issued. Either way, the directories and the printed lines depend only on whether `os.mkdir` succeeds |
| SinglemRun.LongReadStartFailureEndsCall | aviary/scripts/singlem_reads.py:17-19 | when long reads are given and the long-read process cannot be started, the call raises. If the thread count can be formatted, the exception escapes from that first `run` and only the long-read argv was attempted: no short-read pipe, no merge. If it cannot, the `ValueError` at the f-string comes first and nothing is attempted |
| SinglemRun.AllCommandsRun | aviary/scripts/singlem_reads.py:17-30 | when every process starts and the thread count can be formatted, all commands are issued in order and the call returns normally, whatever the exit statuses. When a `pipe` is planned and the count cannot be formatted, nothing is issued and the call raises |
| SinglemRun.ExitStatusIgnored | aviary/scripts/singlem_reads.py:19-30 | two tools that start the same processes give identical outcomes even when their exit statuses differ: the returned results are never consulted |
| SinglemRun.MergeOnlyIgnoresThreads | aviary/scripts/singlem_reads.py:29-30 | with all three reads "none", only the merge is attempted, whatever the thread count; the call raises only if that process cannot be started |
| SinglemRun.ExistingDirOnlyPrints | aviary/scripts/singlem_reads.py:12-15 | the directories present beforehand, including an already existing output directory, change neither the commands issued nor how the call ends |

## Left out

- The `__main__` block (aviary/scripts/singlem_reads.py:33-43) only reads the four values from the snakemake configuration and passes them on.
- The integration tests (test/test_integration.py) drive the external aviary command line and check the files it leaves behind. This model has no pipeline to run them against.
- What `singlem` does with a command, and what it writes, is foreign code. A process is reduced to the `Launch` result of the `tool` parameter. A start failure is treated as the exception that `subprocess.run` raises, and it ends the call.
- A read argument that is a string other than `"none"` is not modelled. `ReadArg` only distinguishes the sentinel from a list of paths.
- Any `OSError` from `os.mkdir` prints the message and the call goes on. The model covers two causes: the directory already exists, or its parent `data/` is missing. Other causes, such as permissions or a read-only file system, behave the same way but are not modelled separately.
- The digit limit is fixed at Python's default of 4300. It can be changed with `sys.set_int_max_str_digits`, the `PYTHONINTMAXSTRDIGITS` variable or `-X int_max_str_digits`, and interpreters older than the limit have none. The model does not take the limit as a parameter.
- Printing goes to a list of lines rather than to standard output. Whatever the `singlem` processes print is not recorded.
- No shell is involved, so `data/singlem_out/*.csv` is never expanded. The model passes it as a literal token and does not model which tables `singlem summarise` finds.
