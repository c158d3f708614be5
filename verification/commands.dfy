/**
 The `singlem` command lines of `run_singlem` (aviary/scripts/singlem_reads.py)
 and the argv vectors they become.

 Each read argument is either the configuration sentinel string "none" or a
 list of file paths. Every command is written as an f-string and then cut
 into argv tokens with `str.split()`; no shell is involved, so the table glob
 `TableGlob` reaches `singlem` as a literal token.
 */
module SinglemCommands {
  import opened Tokens
  import Decimal

  const OutDir := "data/singlem_out/"
  const LongReadTable := "data/singlem_out/metagenome.longread_otu_table.csv"
  const ShortReadTable := "data/singlem_out/metagenome.shortread_otu_table.csv"
  const CombinedTable := "data/singlem_out/metagenome.combined_otu_table.csv"
  const TableGlob := "data/singlem_out/*.csv"
  /** The merge command's f-string, which has no placeholder. */
  const SummariseLine :=
    "singlem summarise --input_otu_tables " + TableGlob + " --output_otu_table " + CombinedTable

  /** A read argument: the string "none", or a list of read files. */
  datatype ReadArg = NoneSentinel | Files(paths: seq<string>)

  /** `arg != "none"`. */
  predicate Given(a: ReadArg) {
    a.Files?
  }

  /** The configuration value that stands for an absent read set. */
  const Sentinel := "none"

  /** The four one-character strings `' '.join("none")` iterates over. */
  const SentinelChars: seq<string> := ["n", "o", "n", "e"]

  /** What `' '.join(arg)` iterates over: the list's paths, or, for the
      sentinel string itself, its characters. */
  function JoinItems(a: ReadArg): (items: seq<string>)
    ensures a.Files? ==> items == a.paths
    ensures a.NoneSentinel? ==> |items| == |Sentinel|
  {
    match a
    case Files(ps) => ps
    case NoneSentinel => SentinelChars
  }

  /** Iterating the sentinel string gives its characters, each as a
      one-character string. */
  lemma SentinelIterated()
    ensures |JoinItems(NoneSentinel)| == |Sentinel|
    ensures forall i :: 0 <= i < |Sentinel| ==> JoinItems(NoneSentinel)[i] == [Sentinel[i]]
  {
  }

  /** The argv tokens that `' '.join(arg)` contributes once the command is
      split: the whitespace-separated pieces of each path, in order. */
  function ArgTokens(a: ReadArg): seq<string> {
    SplitAll(JoinItems(a))
  }

  /** Paths without whitespace are passed one token each, unchanged; the
      sentinel contributes its four letters. */
  lemma ArgTokensOfWords(a: ReadArg)
    ensures a.Files? && AllWords(a.paths) ==> ArgTokens(a) == a.paths
    ensures a.NoneSentinel? ==> ArgTokens(a) == SentinelChars
  {
    if a.Files? && AllWords(a.paths) {
      SplitAllWords(a.paths);
    }
    if a.NoneSentinel? {
      assert AllWords(SentinelChars);
      SplitAllWords(SentinelChars);
    }
  }

  /** The profiling read class an invocation belongs to. */
  datatype ReadClass = LongRead | ShortPaired | ShortSingle | Merge

  /** One `singlem` invocation, with the read arguments it was built from. */
  datatype Invocation =
    | LongReadPipe(input: ReadArg)
    | PairedPipe(forward: ReadArg, reverse: ReadArg)
    | SingleEndPipe(input: ReadArg)
    | Summarise
  {
    function Class(): ReadClass {
      match this
      case LongReadPipe(_) => LongRead
      case PairedPipe(_, _) => ShortPaired
      case SingleEndPipe(_) => ShortSingle
      case Summarise => Merge
    }

    /** Position in the script: long-read pipe, then short-read pipe, then merge. */
    function Stage(): nat {
      match this
      case LongReadPipe(_) => 0
      case PairedPipe(_, _) => 1
      case SingleEndPipe(_) => 1
      case Summarise => 2
    }

    predicate IsShortRead() {
      PairedPipe? || SingleEndPipe?
    }
  }

  /** The f-string each branch builds, before `.split()`. The table paths
      are the script's literals, named once above. */
  function CommandLine(inv: Invocation, threads: int): string {
    var t := Decimal.Render(threads);
    match inv
    case LongReadPipe(a) =>
      "singlem pipe --threads " + t + " --sequences " + Join(JoinItems(a))
      + " --otu_table " + LongReadTable
    case PairedPipe(f, r) =>
      "singlem pipe --threads " + t + " --forward " + Join(JoinItems(f))
      + " --reverse " + Join(JoinItems(r)) + " --otu_table " + ShortReadTable
    case SingleEndPipe(a) =>
      "singlem pipe --threads " + t + " --sequences " + Join(JoinItems(a))
      + " --otu_table " + ShortReadTable
    case Summarise => SummariseLine
  }

  /** The leading tokens every `pipe` command shares. */
  function PipeHead(threads: int): seq<string> {
    ["singlem", "pipe", "--threads", Decimal.Render(threads)]
  }

  const SummariseArgv: seq<string> :=
    ["singlem", "summarise", "--input_otu_tables", TableGlob,
     "--output_otu_table", CombinedTable]

  /** The argv vector passed to `run`, token by token: the fixed words, the
      thread count as one token, and the pieces of each joined read list.
      `CommandLineSplits` proves it is what `.split()` makes of the
      f-string. */
  function Argv(inv: Invocation, threads: int): seq<string> {
    match inv
    case LongReadPipe(a) =>
      PipeHead(threads) + ["--sequences"] + ArgTokens(a) + ["--otu_table", LongReadTable]
    case PairedPipe(f, r) =>
      PipeHead(threads) + ["--forward"] + ArgTokens(f) + ["--reverse"] + ArgTokens(r)
      + ["--otu_table", ShortReadTable]
    case SingleEndPipe(a) =>
      PipeHead(threads) + ["--sequences"] + ArgTokens(a) + ["--otu_table", ShortReadTable]
    case Summarise => SummariseArgv
  }

  // ---------------------------------------------------------------------
  // From f-string to argv

  lemma {:induction false} JoinSix(w0: string, w1: string, w2: string, w3: string,
                                   w4: string, w5: string)
    ensures Join([w0, w1, w2, w3, w4, w5])
         == w0 + " " + (w1 + " " + (w2 + " " + (w3 + " " + (w4 + " " + w5))))
  {
    var l5 := [w5];
    var l4 := [w4] + l5;
    var l3 := [w3] + l4;
    var l2 := [w2] + l3;
    var l1 := [w1] + l2;
    assert Join(l5) == w5;
    JoinCons(w4, l5);
    JoinCons(w3, l4);
    JoinCons(w2, l3);
    JoinCons(w1, l2);
    JoinCons(w0, l1);
    assert [w0] + l1 == [w0, w1, w2, w3, w4, w5];
  }

  lemma {:induction false} JoinEight(w0: string, w1: string, w2: string, w3: string,
                                     w4: string, w5: string, w6: string, w7: string)
    ensures Join([w0, w1, w2, w3, w4, w5, w6, w7])
         == w0 + " " + (w1 + " " + (w2 + " " + (w3 + " " + (w4 + " " + (w5 + " "
            + (w6 + " " + w7))))))
  {
    var l7 := [w7];
    var l6 := [w6] + l7;
    var l5 := [w5] + l6;
    var l4 := [w4] + l5;
    var l3 := [w3] + l4;
    var l2 := [w2] + l3;
    var l1 := [w1] + l2;
    assert Join(l7) == w7;
    JoinCons(w6, l7);
    JoinCons(w5, l6);
    JoinCons(w4, l5);
    JoinCons(w3, l4);
    JoinCons(w2, l3);
    JoinCons(w1, l2);
    JoinCons(w0, l1);
    assert [w0] + l1 == [w0, w1, w2, w3, w4, w5, w6, w7];
  }

  lemma {:induction false} JoinTen(w0: string, w1: string, w2: string, w3: string,
                                   w4: string, w5: string, w6: string, w7: string,
                                   w8: string, w9: string)
    ensures Join([w0, w1, w2, w3, w4, w5, w6, w7, w8, w9])
         == w0 + " " + (w1 + " " + (w2 + " " + (w3 + " " + (w4 + " " + (w5 + " "
            + (w6 + " " + (w7 + " " + (w8 + " " + w9))))))))
  {
    JoinEight(w2, w3, w4, w5, w6, w7, w8, w9);
    var l2 := [w2, w3, w4, w5, w6, w7, w8, w9];
    var l1 := [w1] + l2;
    JoinCons(w1, l2);
    JoinCons(w0, l1);
    assert [w0] + l1 == [w0, w1, w2, w3, w4, w5, w6, w7, w8, w9];
  }

  /** The paired f-string is its words joined by single blanks. */
  lemma PairedText(t: string, jf: string, jr: string, table: string)
    ensures "singlem pipe --threads " + t + " --forward " + jf + " --reverse " + jr
            + " --otu_table " + table
         == Join(["singlem", "pipe", "--threads", t, "--forward", jf, "--reverse", jr,
                  "--otu_table", table])
  {
    JoinTen("singlem", "pipe", "--threads", t, "--forward", jf, "--reverse", jr,
            "--otu_table", table);
    PairedRegroup("singlem pipe --threads ", " --forward ", " --reverse ", " --otu_table ",
                  "singlem", "pipe", "--threads", "--forward", "--reverse", "--otu_table",
                  t, jf, jr, table);
  }

  /** Regrouping the paired f-string around its blanks. */
  lemma PairedRegroup(lead: string, fwd: string, rev: string, otu: string,
                      w0: string, w1: string, w2: string, w4: string, w6: string, w8: string,
                      t: string, jf: string, jr: string, table: string)
    requires lead == w0 + " " + w1 + " " + w2 + " "
    requires fwd == " " + w4 + " "
    requires rev == " " + w6 + " "
    requires otu == " " + w8 + " "
    ensures lead + t + fwd + jf + rev + jr + otu + table
         == w0 + " " + (w1 + " " + (w2 + " " + (t + " " + (w4 + " " + (jf + " "
            + (w6 + " " + (jr + " " + (w8 + " " + table))))))))
  {
  }

  /** The merge f-string is its six words joined by single blanks. */
  lemma SummariseText()
    ensures SummariseLine == Join(SummariseArgv)
  {
    SummariseJoin();
    SummariseLineNested();
  }

  lemma SummariseJoin()
    ensures Join(SummariseArgv)
         == "singlem" + " " + ("summarise" + " " + ("--input_otu_tables" + " " + (TableGlob + " "
            + ("--output_otu_table" + " " + CombinedTable))))
  {
    JoinSix("singlem", "summarise", "--input_otu_tables", TableGlob,
            "--output_otu_table", CombinedTable);
  }

  lemma SummariseLineNested()
    ensures SummariseLine
         == "singlem" + " " + ("summarise" + " " + ("--input_otu_tables" + " " + (TableGlob + " "
            + ("--output_otu_table" + " " + CombinedTable))))
  {
    SummariseRegroup("singlem summarise --input_otu_tables ", " --output_otu_table ",
                     "singlem", "summarise", "--input_otu_tables", "--output_otu_table",
                     TableGlob, CombinedTable);
  }

  /** Regrouping the merge f-string around its blanks. */
  lemma SummariseRegroup(lead: string, out: string,
                         w0: string, w1: string, w2: string, w4: string,
                         glob: string, table: string)
    requires lead == w0 + " " + w1 + " " + w2 + " "
    requires out == " " + w4 + " "
    ensures lead + glob + out + table
         == w0 + " " + (w1 + " " + (w2 + " " + (glob + " " + (w4 + " " + table))))
  {
  }

  lemma PipeWords()
    ensures IsWord("singlem") && IsWord("pipe") && IsWord("--threads")
    ensures IsWord("--sequences") && IsWord("--forward") && IsWord("--reverse")
    ensures IsWord("--otu_table")
  {
  }

  lemma SummariseWords()
    ensures IsWord("summarise") && IsWord("--input_otu_tables")
    ensures IsWord("--output_otu_table") && IsWord(TableGlob)
  {
    assert IsWord("data/singlem_out/");
    assert IsWord("*.csv");
    WordConcat("data/singlem_out/", "*.csv");
  }

  lemma DirIsWord()
    ensures IsWord("data/singlem_out/metagenome.")
  {
    assert IsWord("data/singlem_out/");
    assert IsWord("metagenome.");
    WordConcat("data/singlem_out/", "metagenome.");
  }

  lemma LongReadTableIsWord()
    ensures IsWord(LongReadTable)
  {
    DirIsWord();
    assert IsWord("longread_");
    assert IsWord("otu_table.csv");
    WordConcat("longread_", "otu_table.csv");
    WordConcat("data/singlem_out/metagenome.", "longread_otu_table.csv");
  }

  lemma ShortReadTableIsWord()
    ensures IsWord(ShortReadTable)
  {
    DirIsWord();
    assert IsWord("shortread_");
    assert IsWord("otu_table.csv");
    WordConcat("shortread_", "otu_table.csv");
    WordConcat("data/singlem_out/metagenome.", "shortread_otu_table.csv");
  }

  lemma CombinedTableIsWord()
    ensures IsWord(CombinedTable)
  {
    DirIsWord();
    assert IsWord("combined_");
    assert IsWord("otu_table.csv");
    WordConcat("combined_", "otu_table.csv");
    WordConcat("data/singlem_out/metagenome.", "combined_otu_table.csv");
  }

  /** `' '.join(arg)` splits into the argument's tokens. */
  lemma SplitJoined(a: ReadArg)
    ensures Split(Join(JoinItems(a))) == ArgTokens(a)
  {
    SplitJoin(JoinItems(a));
  }

  /** A three-word head, a substituted word, a flag, a substituted string,
      a flag and a word, written as an f-string and split. */
  lemma {:induction false} SequencesSplit(lead: string, seqs: string, otu: string,
                                          w0: string, w1: string, w2: string, w4: string,
                                          w6: string, t: string, j: string, table: string)
    requires lead == w0 + " " + w1 + " " + w2 + " "
    requires seqs == " " + w4 + " "
    requires otu == " " + w6 + " "
    requires IsWord(w0) && IsWord(w1) && IsWord(w2) && IsWord(t)
    requires IsWord(w4) && IsWord(w6) && IsWord(table)
    ensures Split(lead + t + seqs + j + otu + table)
         == [w0, w1, w2, t, w4] + Split(j) + [w6, table]
  {
    assert lead + t + seqs + j + otu + table
        == w0 + " " + (w1 + " " + (w2 + " " + (t + " " + (w4 + " " + (j + " "
           + (w6 + " " + table))))));
    JoinEight(w0, w1, w2, t, w4, j, w6, table);
    var pre := [w0, w1, w2, t, w4];
    var post := [w6, table];
    assert [w0, w1, w2, t, w4, j, w6, table] == pre + [j] + post;
    SplitTemplate(pre, j, post);
  }

  /** The `pipe --sequences` f-string around a substituted string `j`. */
  lemma SequencesText(t: string, j: string, table: string)
    requires IsWord(t) && IsWord(table)
    ensures Split("singlem pipe --threads " + t + " --sequences " + j + " --otu_table " + table)
         == ["singlem", "pipe", "--threads", t, "--sequences"] + Split(j) + ["--otu_table", table]
  {
    PipeWords();
    assert "singlem pipe --threads " == "singlem" + " " + "pipe" + " " + "--threads" + " ";
    assert " --sequences " == " " + "--sequences" + " ";
    assert " --otu_table " == " " + "--otu_table" + " ";
    SequencesSplit("singlem pipe --threads ", " --sequences ", " --otu_table ",
                   "singlem", "pipe", "--threads", "--sequences", "--otu_table", t, j, table);
  }

  /** The `pipe --sequences` command (long-read and single-end branches). */
  lemma SequencesShape(a: ReadArg, threads: int, table: string)
    requires IsWord(table)
    ensures Split("singlem pipe --threads " + Decimal.Render(threads) + " --sequences "
                  + Join(JoinItems(a)) + " --otu_table " + table)
            == PipeHead(threads) + ["--sequences"] + ArgTokens(a) + ["--otu_table", table]
  {
    Decimal.RenderIsWord(threads);
    SequencesText(Decimal.Render(threads), Join(JoinItems(a)), table);
    SplitJoined(a);
  }

  /** The paired `pipe --forward --reverse` command. */
  lemma PairedShape(f: ReadArg, r: ReadArg, threads: int)
    ensures Split("singlem pipe --threads " + Decimal.Render(threads) + " --forward "
                  + Join(JoinItems(f)) + " --reverse " + Join(JoinItems(r))
                  + " --otu_table " + ShortReadTable)
            == PipeHead(threads) + ["--forward"] + ArgTokens(f) + ["--reverse"]
               + ArgTokens(r) + ["--otu_table", ShortReadTable]
  {
    var t := Decimal.Render(threads);
    var jf := Join(JoinItems(f));
    var jr := Join(JoinItems(r));
    Decimal.RenderIsWord(threads);
    PipeWords();
    ShortReadTableIsWord();
    PairedText(t, jf, jr, ShortReadTable);
    var pre := PipeHead(threads) + ["--forward"];
    var post := ["--otu_table", ShortReadTable];
    assert ["singlem", "pipe", "--threads", t, "--forward", jf, "--reverse", jr,
            "--otu_table", ShortReadTable]
        == pre + [jf] + ["--reverse"] + [jr] + post;
    SplitTemplate2(pre, jf, ["--reverse"], jr, post);
    SplitJoined(f);
    SplitJoined(r);
  }

  /** The merge command: six fixed tokens, the glob among them. */
  lemma SummariseShape()
    ensures Split(SummariseLine) == SummariseArgv
  {
    SummariseText();
    SummariseWords();
    CombinedTableIsWord();
    JoinRoundTrip(SummariseArgv);
  }

  /** `.split()` of each f-string is exactly `Argv`: the fixed words and the
      thread count stay whole, and each joined read list falls apart into
      the whitespace-separated pieces of its paths. */
  lemma CommandLineSplits(inv: Invocation, threads: int)
    ensures Split(CommandLine(inv, threads)) == Argv(inv, threads)
  {
    match inv
    case LongReadPipe(a) =>
      LongReadTableIsWord();
      SequencesShape(a, threads, LongReadTable);
    case SingleEndPipe(a) =>
      ShortReadTableIsWord();
      SequencesShape(a, threads, ShortReadTable);
    case PairedPipe(f, r) =>
      PairedShape(f, r, threads);
    case Summarise =>
      SummariseShape();
  }
}
