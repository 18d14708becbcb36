/** From a typed line to the programs that run: parse.c, run_command.c and pipe_command.c of
    SP_HW4/part2 together. */
module ShellLine {
  import opened CStrings
  import opened CommandLine
  import opened Common
  import opened Pipelines
  import opened PipeCommand

  /** What can be read from the file that is opened under a name, or under NULL. */
  type Files = Option<string> -> string

  function TypedInput(words: seq<string>, stdin: string, files: Files): string {
    match ChildInput(words)
    case Kept => stdin
    case Reopened(name) => files(name)
  }

  /** What a child does with its vector; it crashes on an empty one. */
  function ChildPlan(program: Program, words: seq<string>, input: string): Plan {
    if words == [] then Plan([], false, "") else LinePlan(program, words, input)
  }

  /** What the shell does for a line of these words. */
  function TypedPlan(program: Program, words: seq<string>, stdin: string, files: Files): Plan {
    ChildPlan(program, ChildWords(words), TypedInput(words, stdin, files))
  }

  /** Where the child's vector ends: at the first "&", "<" or ">", but not at an "&" in front. */
  function Cut(words: seq<string>): nat {
    var redirection := Min(First(words, "<"), First(words, ">"));
    if First(words, "&") == 0 then redirection else Min(First(words, "&"), redirection)
  }

  lemma ChildWordsAreCut(words: seq<string>)
    ensures Cut(words) <= |words| && ChildWords(words) == words[..Cut(words)]
  {
    CutTwice(WithoutBackground(words));
    FirstAfter(words, "&", "<");
    FirstAfter(words, "&", ">");
  }

  // ----- the segments before the cut

  /** `cut` is the beginning of `all`, with its last segment perhaps shortened. */
  predicate Shortened(cut: seq<seq<string>>, all: seq<seq<string>>) {
    && 0 < |cut| <= |all|
    && (forall k :: 0 <= k < |cut| - 1 ==> cut[k] == all[k])
    && cut[|cut| - 1] <= all[|cut| - 1]
  }

  lemma ShortenedCons(s: seq<string>, cut: seq<seq<string>>, all: seq<seq<string>>)
    requires Shortened(cut, all)
    ensures Shortened([s] + cut, [s] + all)
  {
  }

  lemma CutBeforePipe(words: seq<string>, n: nat)
    requires n <= First(words, "|")
    ensures Segments(words[..n]) == [words[..n]] && Shortened([words[..n]], Segments(words))
    ensures "|" !in words[n..] <==> |Segments(words)| == 1
  {
    var k := First(words, "|");
    FirstIs(words[..n], "|", n);
    assert k < |words| ==> words[n..][k - n] == "|";
    assert words[..n] <= words[..k] && words[..|words|] == words;
  }

  lemma SliceSlices(words: seq<string>, k: nat, n: nat)
    requires k < n <= |words|
    ensures words[..n] == words[..k] + ([words[k]] + words[k + 1..][..n - k - 1])
    ensures words[n..] == words[k + 1..][n - k - 1..]
  {
  }

  lemma CutBehindPipe(words: seq<string>, k: nat, n: nat)
    requires k == First(words, "|") < n <= |words|
    ensures Segments(words[..n]) == [words[..k]] + Segments(words[k + 1..][..n - k - 1])
  {
    SliceSlices(words, k, n);
    SegmentsStep(words[..k], words[k + 1..][..n - k - 1]);
  }

  lemma SegmentsSplit(words: seq<string>, k: nat)
    requires k == First(words, "|") < |words|
    ensures Segments(words) == [words[..k]] + Segments(words[k + 1..])
  {
  }

  lemma ShortenedCut(words: seq<string>, k: nat, n: nat)
    requires k == First(words, "|") < n <= |words|
    requires Shortened(Segments(words[k + 1..][..n - k - 1]), Segments(words[k + 1..]))
    ensures Shortened(Segments(words[..n]), Segments(words))
    ensures |Segments(words[..n])| == 1 + |Segments(words[k + 1..][..n - k - 1])|
    ensures |Segments(words)| == 1 + |Segments(words[k + 1..])|
  {
    CutBehindPipe(words, k, n);
    SegmentsSplit(words, k);
    ShortenedCons(words[..k], Segments(words[k + 1..][..n - k - 1]), Segments(words[k + 1..]));
  }

  /** Cutting a line keeps its segments up to the cut, and keeps all of them exactly when no "|"
      is cut off. */
  lemma {:induction false} SegmentsOfPrefix(words: seq<string>, n: nat)
    requires n <= |words|
    ensures Shortened(Segments(words[..n]), Segments(words))
    ensures |Segments(words[..n])| == |Segments(words)| <==> "|" !in words[n..]
    decreases |words|
  {
    var k := First(words, "|");
    if n <= k {
      CutBeforePipe(words, n);
    } else {
      SegmentsOfPrefix(words[k + 1..], n - k - 1);
      ShortenedCut(words, k, n);
      SliceSlices(words, k, n);
    }
  }

  // ----- which segments run

  lemma {:induction false} StagesShort(program: Program, segments: seq<seq<string>>, input: string)
    ensures |RunStages(program, segments, input)| <= |segments|
    ensures |RunStages(program, segments, input)| == |segments| <==> [] !in segments
  {
    if segments != [] && segments[0] != [] {
      StagesShort(program, segments[1..], program(segments[0], input));
    }
  }

  /** An illegal line never runs as many programs as it has segments. */
  lemma IllegalIsShort(program: Program, words: seq<string>, input: string)
    requires !Legal(words)
    ensures |ChildPlan(program, words, input).stages| < |Segments(words)|
  {
    if words != [] {
      LegalIff(words);
      if PipeIndex(words) == 0 {
        OnlySegment(program, words, input);
      } else if PipeIndex(words) == -1 {
        assert First(words, "|") < |words|;
      } else {
        StagesShort(program, Segments(words), input);
      }
    }
  }

  /** Each segment runs as one program, on words of its own. */
  predicate RunsAll(stages: seq<Stage>, segments: seq<seq<string>>) {
    |stages| == |segments| && forall k :: 0 <= k < |stages| ==> stages[k].argv != [] && stages[k].argv <= segments[k]
  }

  lemma StagesRunAll(stages: seq<Stage>, cut: seq<seq<string>>, all: seq<seq<string>>)
    requires |stages| == |cut| && [] !in cut && Shortened(cut, all)
    requires forall k :: 0 <= k < |stages| ==> stages[k].argv == cut[k]
    ensures RunsAll(stages, all) <==> |cut| == |all|
  {
    forall k | 0 <= k < |cut| ensures stages[k].argv != [] && stages[k].argv <= all[k] {
      assert cut[k] in cut;
    }
  }

  lemma LegalRunsAll(program: Program, child: seq<string>, input: string, all: seq<seq<string>>)
    requires child != [] && Legal(child) && Shortened(Segments(child), all)
    ensures RunsAll(LinePlan(program, child, input).stages, all) <==> |Segments(child)| == |all|
  {
    LegalPlan(program, child, input);
    StagesRunAll(LinePlan(program, child, input).stages, Segments(child), all);
  }

  /** All segments of a typed line run exactly when those of the child's vector are non-empty and
      no "|" stands behind the first operator: whatever follows the operator is dropped. */
  lemma RunsAllIff(program: Program, words: seq<string>, stdin: string, files: Files)
    ensures RunsAll(TypedPlan(program, words, stdin, files).stages, Segments(words))
            <==> Legal(ChildWords(words)) && "|" !in words[Cut(words)..]
  {
    var child, input := ChildWords(words), TypedInput(words, stdin, files);
    ChildWordsAreCut(words);
    SegmentsOfPrefix(words, Cut(words));
    if Legal(child) {
      EmptyIsIllegal();
      LegalRunsAll(program, child, input, Segments(words));
    } else {
      IllegalIsShort(program, child, input);
    }
  }

  lemma EmptyIsIllegal()
    ensures !Legal([])
  {
    assert Segments([]) == [[]];
  }

  /** The programs of `plan` are those of the segments: the first reads `input`, each later one
      what the one before it wrote, and the last writes what the line writes. */
  predicate Chained(plan: Plan, input: string, segments: seq<seq<string>>) {
    && 0 < |plan.stages| <= |segments|
    && plan.stages[0].input == input
    && (forall k :: 0 < k < |plan.stages| ==> plan.stages[k].input == plan.stages[k - 1].output)
    && plan.data == plan.stages[|plan.stages| - 1].output
    && (forall k :: 0 <= k < |plan.stages| - 1 ==> plan.stages[k].argv == segments[k])
    && plan.stages[|plan.stages| - 1].argv <= segments[|plan.stages| - 1]
  }

  lemma StagesAreChained(plan: Plan, input: string, cut: seq<seq<string>>, all: seq<seq<string>>)
    requires |plan.stages| == |cut| && Shortened(cut, all) && plan.stages[0].input == input
    requires forall k :: 0 <= k < |plan.stages| ==> plan.stages[k].argv == cut[k]
    requires forall k :: 0 < k < |plan.stages| ==> plan.stages[k].input == plan.stages[k - 1].output
    requires plan.data == plan.stages[|plan.stages| - 1].output
    ensures Chained(plan, input, all)
  {
  }

  lemma LegalIsChained(program: Program, child: seq<string>, input: string, all: seq<seq<string>>)
    requires child != [] && Legal(child) && Shortened(Segments(child), all)
    ensures Chained(LinePlan(program, child, input), input, all)
  {
    LegalPlan(program, child, input);
    StagesAreChained(LinePlan(program, child, input), input, Segments(child), all);
  }

  /** What runs for a typed line whose child's vector is legal: the segments up to the first
      operator, on the terminal or the file that was named. */
  lemma TypedLineIsChained(program: Program, words: seq<string>, stdin: string, files: Files)
    requires Legal(ChildWords(words))
    ensures TypedPlan(program, words, stdin, files).completes
    ensures Chained(TypedPlan(program, words, stdin, files), TypedInput(words, stdin, files), Segments(words))
    ensures TypedPlan(program, words, stdin, files).stages[0].input
            == if ChildInput(words).Kept? then stdin else files(ChildInput(words).name)
  {
    EmptyIsIllegal();
    ChildWordsAreCut(words);
    SegmentsOfPrefix(words, Cut(words));
    LegalPlan(program, ChildWords(words), TypedInput(words, stdin, files));
    LegalIsChained(program, ChildWords(words), TypedInput(words, stdin, files), Segments(words));
  }

  /** "cmd < in | wc" runs cmd alone. */
  lemma PipeDropped(program: Program, stdin: string, files: Files)
    ensures var words := ["cmd", "<", "in", "|", "wc"];
      var read := files(Some("in"));
      && TypedPlan(program, words, stdin, files)
         == Plan([Stage(["cmd"], read, program(["cmd"], read), {})], true, program(["cmd"], read))
      && |Segments(words)| == 2
  {
    var words := ["cmd", "<", "in", "|", "wc"];
    FirstIs(words, "&", 5);
    FirstIs(words, "<", 1);
    FirstIs(words, ">", 5);
    FirstIs(words, "|", 3);
    FirstIs(["wc"], "|", 1);
    FirstIs(["cmd"], "|", 1);
    ChildWordsAreCut(words);
    assert ChildWords(words) == ["cmd"];
    assert words[3 + 1..] == ["wc"];
  }

  // ----- which program a redirected input reaches

  /** The segment of the line in which its first "<" stands. */
  function InputSegment(words: seq<string>): nat { |Segments(words[..First(words, "<")])| - 1 }

  lemma InputSegmentIff(words: seq<string>)
    ensures InputSegment(words) == 0 <==> First(words, "<") <= First(words, "|")
  {
    var n, k := First(words, "<"), First(words, "|");
    if n <= k {
      CutBeforePipe(words, n);
    } else {
      CutBehindPipe(words, k, n);
    }
  }

  /** Whatever the programs compute and the files hold, the program of that segment reads the
      file. */
  ghost predicate InputReaches(words: seq<string>, stdin: string) {
    forall program: Program, files: Files :: SegmentReads(program, words, stdin, files)
  }

  predicate SegmentReads(program: Program, words: seq<string>, stdin: string, files: Files) {
    var stages := TypedPlan(program, words, stdin, files).stages;
    InputSegment(words) < |stages| && stages[InputSegment(words)].input == TypedInput(words, stdin, files)
  }

  /** A redirected input reaches the segment it is written in exactly when no "|" comes before
      the "<". The first program reads it in any case. */
  lemma InputReachesIff(words: seq<string>, stdin: string)
    requires Legal(ChildWords(words)) && ChildInput(words).Reopened?
    ensures InputReaches(words, stdin) <==> First(words, "<") < First(words, "|")
  {
    InputSegmentIff(words);
    RedirectedHasInput(words);
    if InputSegment(words) == 0 {
      forall program: Program, files: Files ensures SegmentReads(program, words, stdin, files) {
        TypedLineIsChained(program, words, stdin, files);
      }
    } else {
      NotReached(words, stdin);
    }
  }

  lemma RedirectedHasInput(words: seq<string>)
    requires ChildInput(words).Reopened?
    ensures First(words, "<") < |words| && First(words, "<") != First(words, "|")
  {
    FirstAfter(words, "&", "<");
  }

  lemma NotReached(words: seq<string>, stdin: string)
    requires Legal(ChildWords(words)) && ChildInput(words).Reopened? && InputSegment(words) > 0
    ensures !InputReaches(words, stdin)
  {
    var program: Program := (argv, input) => "x";
    var files: Files := name => "y";
    SegmentMisses(program, words, stdin, files);
  }

  lemma SegmentMisses(program: Program, words: seq<string>, stdin: string, files: Files)
    requires Legal(ChildWords(words)) && InputSegment(words) > 0 && TypedInput(words, stdin, files) == "y"
    requires forall argv, input :: program(argv, input) == "x"
    ensures !SegmentReads(program, words, stdin, files)
  {
    var k := InputSegment(words);
    if k < |TypedPlan(program, words, stdin, files).stages| {
      LaterStageReads(program, words, stdin, files, k);
    }
  }

  lemma LaterStageReads(program: Program, words: seq<string>, stdin: string, files: Files, k: nat)
    requires Legal(ChildWords(words)) && 0 < k < |TypedPlan(program, words, stdin, files).stages|
    ensures var stages := TypedPlan(program, words, stdin, files).stages;
      stages[k].input == program(stages[k - 1].argv, stages[k - 1].input)
  {
    TypedLineIsChained(program, words, stdin, files);
    StagesCompute(program, ChildWords(words), TypedInput(words, stdin, files));
  }

  lemma StagesCompute(program: Program, child: seq<string>, input: string)
    requires Legal(child)
    ensures var stages := ChildPlan(program, child, input).stages;
      forall k :: 0 <= k < |stages| ==> stages[k].output == program(stages[k].argv, stages[k].input)
  {
    EmptyIsIllegal();
    LegalIsAsked(program, child, input);
    StagesOf(program, Segments(child), input);
  }

  /** "a | b < in" hands the file to a, and b reads what a wrote. */
  lemma InputGoesToTheFirst(program: Program, stdin: string, files: Files)
    ensures var words := ["a", "|", "b", "<", "in"];
      var read := files(Some("in"));
      var written := program(["a"], read);
      TypedPlan(program, words, stdin, files).stages
      == [Stage(["a"], read, written, {}), Stage(["b"], written, program(["b"], written), {})]
  {
    var words := ["a", "|", "b", "<", "in"];
    FirstIs(words, "&", 5);
    FirstIs(words, "<", 3);
    FirstIs(words, ">", 5);
    ChildWordsAreCut(words);
    assert ChildWords(words) == ["a", "|", "b"];
    TwoPrograms(program, files(Some("in")));
  }

  lemma TwoPrograms(program: Program, input: string)
    ensures var written := program(["a"], input);
      LinePlan(program, ["a", "|", "b"], input).stages
      == [Stage(["a"], input, written, {}), Stage(["b"], written, program(["b"], written), {})]
  {
    var words := ["a", "|", "b"];
    FirstIs(words, "|", 1);
    FirstPlan(program, words, 1, input);
    assert words[..1] == ["a"] && words[2..] == ["b"];
    FirstIs(["b"], "|", 1);
    OnlySegment(program, ["b"], program(["a"], input));
  }

  // ----- the shell

  /** The child of run_command once its vector is prepared. */
  method RunChild(k: Kernel, child: Pid, v: Argv, ghost words: seq<string>, launch: Launch)
    requires k.Ready(child) && Terminated(v) && Words(v) == words && launch == LaunchOf(words)
    modifies k
    ensures var plan := ChildPlan(k.program, words, old(k.Content(k.processes[child][0])));
      && k.processes == old(k.processes) - {child}
      && k.trace == old(k.trace) + plan.stages && k.output == old(k.output) + plan.data
  {
    if launch == Crash {
      k.Exit(child);
    } else {
      var end := k.Command(child, v, words);
    }
  }

  /** The fork of run_command, the child with its descriptors 0 and 1 as the redirections leave
      them, and the child's end. */
  method ForkAndRun(k: Kernel, shell: Pid, v: Argv, ghost words: seq<string>, launch: Launch, stdin: string)
    requires k.Ready(shell) && k.processes[shell][0] == Input
    requires Terminated(v) && Words(v) == words && launch == LaunchOf(words)
    modifies k
    ensures var plan := ChildPlan(k.program, words, stdin);
      && k.processes == old(k.processes)
      && k.trace == old(k.trace) + plan.stages && k.output == plan.data
  {
    ghost var before := k.processes;
    var child := k.Fork(shell);
    ForkedWriters(before, shell, child, Input);
    k.input, k.output := stdin, "";
    RunChild(k, child, v, words, launch);
  }

  /** One line typed at the shell. Its programs read `stdin` unless redirected, and the kernel's
      output afterwards is what they wrote to `target`. */
  method RunLine(k: Kernel, shell: Pid, line: string, stdin: string, files: Files)
    returns (ghost words: seq<string>, waits: bool, target: Redirection)
    requires k.Ready(shell) && k.processes[shell][0] == Input
    modifies k
    ensures words == Tokens(line, DELIM) && k.processes == old(k.processes)
    ensures words == [] ==> k.trace == old(k.trace)
    ensures words != [] ==>
      var plan := TypedPlan(k.program, words, stdin, files);
      && k.trace == old(k.trace) + plan.stages && k.output == plan.data
      && target == ChildOutput(words)
      && (waits <==> !("&" in words && words[0] != "&"))
  {
    words := Tokens(line, DELIM);
    waits, target := true, Kept;
    var parsed := Parse(line);
    if parsed.None? {
      return;
    }
    var typed := parsed.value;
    WordsOf(typed, words);
    var argv := new Option<string>[|typed|](i requires 0 <= i < |typed| => typed[i]);
    assert argv[..] == typed;
    var child, doesWait, source, dest, launch := RunCommand(argv);
    waits, target := doesWait, dest;
    ForkAndRun(k, shell, child[..], ChildWords(words), launch, if source.Kept? then stdin else files(source.name));
  }
}
