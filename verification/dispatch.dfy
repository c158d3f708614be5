/**
 The dispatch decision of `run_singlem` (aviary/scripts/singlem_reads.py,
 lines 17-30): which `singlem` invocations it issues for a given set of read
 arguments, and in what order.

 The script is a straight sequence of three steps: an optional long-read
 `pipe`, then at most one short-read `pipe` (paired when the reverse reads
 are given, single-end when only the forward reads are), then an
 unconditional `summarise`. The model states that decision as a list of
 `Invocation`s, renders it as argv vectors, and reads it back from the argv
 vectors with `Classify`.
 */
module SinglemReads {
  import opened Tokens
  import Decimal
  import opened SinglemCommands

  /** The invocations `run_singlem` issues, in order. */
  function Plan(long: ReadArg, sr1: ReadArg, sr2: ReadArg): (p: seq<Invocation>)
    ensures 1 <= |p| <= 3
    ensures p[|p| - 1] == Summarise
    ensures forall i :: 0 <= i < |p| - 1 ==> p[i] != Summarise
    ensures forall i, j :: 0 <= i < j < |p| ==> p[i].Stage() < p[j].Stage()
    ensures LongReadPipe(long) in p <==> Given(long)
    ensures forall i :: 0 <= i < |p| && p[i].LongReadPipe? ==> p[i].input == long
    ensures Given(sr2) <==> PairedPipe(sr1, sr2) in p
    ensures forall i :: 0 <= i < |p| && p[i].PairedPipe? ==> p[i] == PairedPipe(sr1, sr2)
    ensures !Given(sr2) && Given(sr1) <==> SingleEndPipe(sr1) in p
    ensures forall i :: 0 <= i < |p| && p[i].SingleEndPipe? ==> p[i] == SingleEndPipe(sr1)
    ensures (exists i :: 0 <= i < |p| && p[i].IsShortRead()) <==> Given(sr1) || Given(sr2)
  {
    var longPart := if Given(long) then [LongReadPipe(long)] else [];
    var shortPart :=
      if Given(sr2) then [PairedPipe(sr1, sr2)]
      else if Given(sr1) then [SingleEndPipe(sr1)]
      else [];
    var p := longPart + shortPart + [Summarise];
    assert p[|p| - 1] == Summarise;
    assert Given(long) ==> p[0] == LongReadPipe(long);
    assert Given(sr1) || Given(sr2) ==> p[|longPart|].IsShortRead();
    p
  }

  /** The argv vectors passed to `run`, in order. */
  function Commands(long: ReadArg, sr1: ReadArg, sr2: ReadArg, threads: int): seq<seq<string>> {
    var p := Plan(long, sr1, sr2);
    seq(|p|, i requires 0 <= i < |p| => Argv(p[i], threads))
  }

  /** Which kind of `singlem` call an argv vector built here is: read back
      from its fixed tokens, never from the read paths. */
  function Classify(argv: seq<string>): ReadClass {
    if |argv| >= 2 && argv[1] == "summarise" then Merge
    else if |argv| >= 5 && argv[4] == "--forward" then ShortPaired
    else if |argv| > 0 && argv[|argv| - 1] == LongReadTable then LongRead
    else ShortSingle
  }

  /** Position of a read class in the script. */
  function StageOf(k: ReadClass): nat {
    match k
    case LongRead => 0
    case ShortPaired => 1
    case ShortSingle => 1
    case Merge => 2
  }

  /** The commands of one read class, in order. */
  function OfClass(cmds: seq<seq<string>>, k: ReadClass): seq<seq<string>> {
    if |cmds| == 0 then []
    else (if Classify(cmds[0]) == k then [cmds[0]] else []) + OfClass(cmds[1..], k)
  }

  // ---------------------------------------------------------------------
  // Reading the argv vectors back

  /** `Classify` recovers the read class of every command the model builds,
      whatever the read paths contain. */
  lemma ClassifyArgv(inv: Invocation, threads: int)
    ensures Classify(Argv(inv, threads)) == inv.Class()
  {
    var r := Argv(inv, threads);
    if !inv.Summarise? {
      assert r[1] == "pipe";
      assert inv.PairedPipe? <==> r[4] == "--forward";
    }
  }

  lemma OfClassCons(c: seq<string>, rest: seq<seq<string>>, k: ReadClass)
    ensures OfClass([c] + rest, k)
         == (if Classify(c) == k then [c] else []) + OfClass(rest, k)
  {
    assert ([c] + rest)[0] == c;
    assert ([c] + rest)[1..] == rest;
  }

  /** The commands, spelled out branch by branch as the script issues them. */
  lemma CommandsUnfold(long: ReadArg, sr1: ReadArg, sr2: ReadArg, threads: int)
    ensures Commands(long, sr1, sr2, threads)
         == (if Given(long) then [Argv(LongReadPipe(long), threads)] else [])
            + (if Given(sr2) then [Argv(PairedPipe(sr1, sr2), threads)]
               else if Given(sr1) then [Argv(SingleEndPipe(sr1), threads)]
               else [])
            + [SummariseArgv]
  {
    var p := Plan(long, sr1, sr2);
    var c := Commands(long, sr1, sr2, threads);
    var e := (if Given(long) then [Argv(LongReadPipe(long), threads)] else [])
            + (if Given(sr2) then [Argv(PairedPipe(sr1, sr2), threads)]
               else if Given(sr1) then [Argv(SingleEndPipe(sr1), threads)]
               else [])
            + [SummariseArgv];
    assert |c| == |e|;
    forall i | 0 <= i < |c| ensures c[i] == e[i] {
      assert c[i] == Argv(p[i], threads);
    }
  }

  /** Each command is the `.split()` of the f-string its branch builds, in
      the order of the plan. */
  lemma CommandsAreSplitLines(long: ReadArg, sr1: ReadArg, sr2: ReadArg, threads: int)
    ensures var p := Plan(long, sr1, sr2);
      var c := Commands(long, sr1, sr2, threads);
      |c| == |p| && forall i :: 0 <= i < |c| ==> c[i] == Split(CommandLine(p[i], threads))
  {
    var p := Plan(long, sr1, sr2);
    var c := Commands(long, sr1, sr2, threads);
    forall i | 0 <= i < |c| ensures c[i] == Split(CommandLine(p[i], threads)) {
      CommandLineSplits(p[i], threads);
    }
  }

  // ---------------------------------------------------------------------
  // Properties of the dispatch

  /** `summarise` is issued exactly once, for every input (all three reads
      "none" included), and it is the last command. */
  lemma MergeOnceAndLast(long: ReadArg, sr1: ReadArg, sr2: ReadArg, threads: int)
    ensures var c := Commands(long, sr1, sr2, threads);
      && |c| > 0
      && c[|c| - 1] == SummariseArgv
      && (forall i :: 0 <= i < |c| - 1 ==> c[i] != SummariseArgv && Classify(c[i]) != Merge)
      && OfClass(c, Merge) == [SummariseArgv]
  {
    var p := Plan(long, sr1, sr2);
    var c := Commands(long, sr1, sr2, threads);
    assert |c| == |p|;
    ClassifyArgv(Summarise, threads);
    forall i | 0 <= i < |c| - 1
      ensures c[i] != SummariseArgv && Classify(c[i]) != Merge
    {
      assert p[i] != Summarise;
      assert c[i] == Argv(p[i], threads);
      ClassifyArgv(p[i], threads);
    }
    assert c[|c| - 1] == Argv(p[|p| - 1], threads);
    ClassesOfCommands(long, sr1, sr2, threads);
  }

  /** Filtering a list of at most three parts by class filters each part. */
  lemma OfClassParts(lo: seq<seq<string>>, sp: seq<seq<string>>, m: seq<string>, k: ReadClass)
    requires |lo| <= 1 && |sp| <= 1
    ensures OfClass(lo + sp + [m], k)
         == (if |lo| == 1 && Classify(lo[0]) == k then lo else [])
            + (if |sp| == 1 && Classify(sp[0]) == k then sp else [])
            + (if Classify(m) == k then [m] else [])
  {
    OfClassCons(m, [], k);
    var tail := sp + [m];
    if |sp| == 1 {
      assert tail == [sp[0]] + [m];
      OfClassCons(sp[0], [m], k);
    } else {
      assert tail == [m];
    }
    if |lo| == 1 {
      assert lo + sp + [m] == [lo[0]] + tail;
      OfClassCons(lo[0], tail, k);
    } else {
      assert lo + sp + [m] == tail;
    }
  }

  /** The class of each command is the class of the planned invocation. */
  lemma ClassesOfCommands(long: ReadArg, sr1: ReadArg, sr2: ReadArg, threads: int)
    ensures var c := Commands(long, sr1, sr2, threads);
      && OfClass(c, LongRead) == (if Given(long) then [Argv(LongReadPipe(long), threads)] else [])
      && OfClass(c, ShortPaired) == (if Given(sr2) then [Argv(PairedPipe(sr1, sr2), threads)] else [])
      && OfClass(c, ShortSingle)
         == (if !Given(sr2) && Given(sr1) then [Argv(SingleEndPipe(sr1), threads)] else [])
      && OfClass(c, Merge) == [SummariseArgv]
  {
    CommandsUnfold(long, sr1, sr2, threads);
    var lo := if Given(long) then [Argv(LongReadPipe(long), threads)] else [];
    var sp := if Given(sr2) then [Argv(PairedPipe(sr1, sr2), threads)]
              else if Given(sr1) then [Argv(SingleEndPipe(sr1), threads)]
              else [];
    ClassifyArgv(LongReadPipe(long), threads);
    ClassifyArgv(PairedPipe(sr1, sr2), threads);
    ClassifyArgv(SingleEndPipe(sr1), threads);
    ClassifyArgv(Summarise, threads);
    OfClassParts(lo, sp, SummariseArgv, LongRead);
    OfClassParts(lo, sp, SummariseArgv, ShortPaired);
    OfClassParts(lo, sp, SummariseArgv, ShortSingle);
    OfClassParts(lo, sp, SummariseArgv, Merge);
  }

  /** Between one and three commands: one for the merge, one more if long
      reads are given, one more if any short reads are given. */
  lemma CommandCount(long: ReadArg, sr1: ReadArg, sr2: ReadArg, threads: int)
    ensures var c := Commands(long, sr1, sr2, threads);
      && 1 <= |c| <= 3
      && |c| == 1 + (if Given(long) then 1 else 0) + (if Given(sr1) || Given(sr2) then 1 else 0)
  {
    CommandsUnfold(long, sr1, sr2, threads);
  }

  /** Order: the long-read pipe (if any), then the short-read pipe (if any),
      then the merge; no read class appears twice. */
  lemma CommandOrder(long: ReadArg, sr1: ReadArg, sr2: ReadArg, threads: int)
    ensures var c := Commands(long, sr1, sr2, threads);
      forall i, j :: 0 <= i < j < |c| ==> StageOf(Classify(c[i])) < StageOf(Classify(c[j]))
  {
    var p := Plan(long, sr1, sr2);
    var c := Commands(long, sr1, sr2, threads);
    forall i, j | 0 <= i < j < |c|
      ensures StageOf(Classify(c[i])) < StageOf(Classify(c[j]))
    {
      ClassifyArgv(p[i], threads);
      ClassifyArgv(p[j], threads);
      assert p[i].Stage() == StageOf(p[i].Class());
      assert p[j].Stage() == StageOf(p[j].Class());
    }
  }

  /** A long-read command is issued if and only if `long_reads` is not
      "none", and it is the same command whatever the short-read arguments
      are. */
  lemma LongReadIndependent(long: ReadArg, sr1: ReadArg, sr2: ReadArg,
                            sr1': ReadArg, sr2': ReadArg, threads: int)
    ensures OfClass(Commands(long, sr1, sr2, threads), LongRead)
         == OfClass(Commands(long, sr1', sr2', threads), LongRead)
    ensures |OfClass(Commands(long, sr1, sr2, threads), LongRead)| == 1 <==> Given(long)
    ensures Given(long) ==> Commands(long, sr1, sr2, threads)[0] == Argv(LongReadPipe(long), threads)
  {
    ClassesOfCommands(long, sr1, sr2, threads);
    ClassesOfCommands(long, sr1', sr2', threads);
    CommandsUnfold(long, sr1, sr2, threads);
  }

  /** Likewise, the short-read command does not depend on the long reads. */
  lemma ShortReadIndependent(long: ReadArg, long': ReadArg, sr1: ReadArg, sr2: ReadArg,
                             threads: int)
    ensures OfClass(Commands(long, sr1, sr2, threads), ShortPaired)
         == OfClass(Commands(long', sr1, sr2, threads), ShortPaired)
    ensures OfClass(Commands(long, sr1, sr2, threads), ShortSingle)
         == OfClass(Commands(long', sr1, sr2, threads), ShortSingle)
  {
    ClassesOfCommands(long, sr1, sr2, threads);
    ClassesOfCommands(long', sr1, sr2, threads);
  }

  /** When `short_reads_2` is not "none" exactly one short-read command is
      issued, the paired `--forward ... --reverse ...` one, and never the
      single-end one. */
  lemma PairedTakesPrecedence(long: ReadArg, sr1: ReadArg, sr2: ReadArg, threads: int)
    requires Given(sr2)
    ensures var c := Commands(long, sr1, sr2, threads);
      && OfClass(c, ShortPaired) == [Argv(PairedPipe(sr1, sr2), threads)]
      && OfClass(c, ShortSingle) == []
  {
    ClassesOfCommands(long, sr1, sr2, threads);
  }

  /** The single-end `--sequences` short-read command is issued exactly when
      `short_reads_2` is "none" and `short_reads_1` is not; with both "none"
      no short-read command is issued at all. */
  lemma SingleEndOnlyWithoutReverse(long: ReadArg, sr1: ReadArg, sr2: ReadArg, threads: int)
    ensures var c := Commands(long, sr1, sr2, threads);
      && (|OfClass(c, ShortSingle)| > 0 <==> !Given(sr2) && Given(sr1))
      && (!Given(sr2) && Given(sr1) ==> OfClass(c, ShortSingle) == [Argv(SingleEndPipe(sr1), threads)])
      && (!Given(sr1) && !Given(sr2) ==>
            OfClass(c, ShortSingle) == [] && OfClass(c, ShortPaired) == [])
  {
    ClassesOfCommands(long, sr1, sr2, threads);
  }

  /** The paired argv with the sentinel as forward reads. */
  lemma SentinelForwardArgv(sr2: ReadArg, threads: int)
    ensures Argv(PairedPipe(NoneSentinel, sr2), threads)
         == PipeHead(threads) + ["--forward", "n", "o", "n", "e", "--reverse"]
            + ArgTokens(sr2) + ["--otu_table", ShortReadTable]
  {
    ArgTokensOfWords(NoneSentinel);
    var h := PipeHead(threads);
    var rev := ArgTokens(sr2);
    var tail := ["--otu_table", ShortReadTable];
    assert ["--forward"] + SentinelChars + ["--reverse"]
        == ["--forward", "n", "o", "n", "e", "--reverse"];
    assert h + ["--forward"] + SentinelChars + ["--reverse"] + rev + tail
        == h + (["--forward"] + SentinelChars + ["--reverse"]) + rev + tail;
  }

  /** `short_reads_2` given with `short_reads_1` left at "none" is not
      rejected: `' '.join("none")` spells the sentinel out, so the paired
      command receives the four forward "files" n, o, n, e. */
  lemma UnguardedForwardSentinel(long: ReadArg, sr2: ReadArg, threads: int)
    requires Given(sr2)
    ensures OfClass(Commands(long, NoneSentinel, sr2, threads), ShortPaired)
         == [PipeHead(threads) + ["--forward", "n", "o", "n", "e", "--reverse"]
             + ArgTokens(sr2) + ["--otu_table", ShortReadTable]]
  {
    ClassesOfCommands(long, NoneSentinel, sr2, threads);
    SentinelForwardArgv(sr2, threads);
  }

  /** Every `pipe` command ends in `--otu_table` and its read class's table,
      so both short-read forms write the same table. The first ensures is
      the property of the commands; the other two only record facts about
      the fixed paths: the short-read table is not the long-read one, and
      the merge reads the glob and writes the combined table. */
  lemma OutputTablesFixed(long: ReadArg, sr1: ReadArg, sr2: ReadArg, threads: int)
    ensures var c := Commands(long, sr1, sr2, threads);
      forall i :: 0 <= i < |c| && Classify(c[i]) != Merge ==>
        && |c[i]| >= 2
        && c[i][|c[i]| - 2] == "--otu_table"
        && c[i][|c[i]| - 1] == (if Classify(c[i]) == LongRead then LongReadTable else ShortReadTable)
    ensures ShortReadTable != LongReadTable
    ensures SummariseArgv[3] == TableGlob && SummariseArgv[5] == CombinedTable
  {
    var p := Plan(long, sr1, sr2);
    var c := Commands(long, sr1, sr2, threads);
    forall i | 0 <= i < |c| && Classify(c[i]) != Merge
      ensures |c[i]| >= 2 && c[i][|c[i]| - 2] == "--otu_table"
      ensures c[i][|c[i]| - 1] == (if Classify(c[i]) == LongRead then LongReadTable else ShortReadTable)
    {
      ClassifyArgv(p[i], threads);
    }
  }

  /** Every `pipe` command carries `--threads` followed by the decimal
      rendering of the thread count, which reads back as that count. */
  lemma ThreadsFlag(long: ReadArg, sr1: ReadArg, sr2: ReadArg, threads: int)
    ensures var c := Commands(long, sr1, sr2, threads);
      forall i :: 0 <= i < |c| && Classify(c[i]) != Merge ==>
        && |c[i]| >= 4
        && c[i][2] == "--threads"
        && c[i][3] == Decimal.Render(threads)
    ensures var s := Decimal.Render(threads);
      |s| > 0 && (s[0] == '-' ==> Decimal.AllDigits(s[1..]))
      && (s[0] != '-' ==> Decimal.AllDigits(s)) && Decimal.ParseInt(s) == threads
  {
    var p := Plan(long, sr1, sr2);
    var c := Commands(long, sr1, sr2, threads);
    forall i | 0 <= i < |c| && Classify(c[i]) != Merge
      ensures |c[i]| >= 4 && c[i][2] == "--threads" && c[i][3] == Decimal.Render(threads)
    {
      ClassifyArgv(p[i], threads);
    }
    Decimal.RenderRoundTrip(threads);
  }

  /** Read paths without whitespace reach `singlem` verbatim, one argv token
      each. */
  lemma PathsVerbatim(long: ReadArg, sr1: ReadArg, sr2: ReadArg, threads: int)
    requires Given(long) && AllWords(long.paths)
    requires Given(sr1) && AllWords(sr1.paths)
    requires Given(sr2) && AllWords(sr2.paths)
    ensures Commands(long, sr1, sr2, threads)
         == [PipeHead(threads) + ["--sequences"] + long.paths + ["--otu_table", LongReadTable],
             PipeHead(threads) + ["--forward"] + sr1.paths + ["--reverse"] + sr2.paths
             + ["--otu_table", ShortReadTable],
             SummariseArgv]
  {
    CommandsUnfold(long, sr1, sr2, threads);
    ArgTokensOfWords(long);
    ArgTokensOfWords(sr1);
    ArgTokensOfWords(sr2);
  }
}
