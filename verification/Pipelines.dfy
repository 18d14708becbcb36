/** What a "|"-separated command line of SP_HW4/part2 should mean: every segment runs once, from
    left to right, and reads what the segment before it wrote. */
module Pipelines {
  import opened CStrings
  import opened CommandLine

  /** What a program writes, given its arguments and everything it reads until end of file. */
  type Program = (seq<string>, string) -> string

  /** One program that ran; `writers` are the processes that held the write end of the pipe on
      its standard input when it started. */
  datatype Stage = Stage(argv: seq<string>, input: string, output: string, writers: set<int>)

  function Segments(words: seq<string>): (segments: seq<seq<string>>)
    ensures segments != []
  {
    var k := First(words, "|");
    if k == |words| then [words] else [words[..k]] + Segments(words[k + 1..])
  }

  function Join(segments: seq<seq<string>>): seq<string>
    requires segments != []
  {
    if |segments| == 1 then segments[0] else segments[0] + (["|"] + Join(segments[1..]))
  }

  lemma {:induction false} JoinSegments(words: seq<string>)
    ensures Join(Segments(words)) == words
    ensures forall i :: 0 <= i < |Segments(words)| ==> "|" !in Segments(words)[i]
  {
    var k := First(words, "|");
    if k < |words| {
      JoinSegments(words[k + 1..]);
      assert Segments(words)[1..] == Segments(words[k + 1..]);
      assert words == words[..k] + (["|"] + words[k + 1..]);
    }
  }

  lemma Pieces<T>(s: seq<T>, x: T, rest: seq<T>)
    ensures var all := s + ([x] + rest);
      all[|s|] == x && all[..|s|] == s && all[|s| + 1..] == rest && forall k :: 0 <= k < |s| ==> all[k] == s[k]
  {
  }

  lemma SegmentsStep(s: seq<string>, rest: seq<string>)
    requires "|" !in s
    ensures Segments(s + (["|"] + rest)) == [s] + Segments(rest)
  {
    Pieces(s, "|", rest);
    FirstIs(s + (["|"] + rest), "|", |s|);
  }

  lemma {:induction false} SegmentsJoin(segments: seq<seq<string>>)
    requires segments != [] && forall i :: 0 <= i < |segments| ==> "|" !in segments[i]
    ensures Segments(Join(segments)) == segments
  {
    if |segments| == 1 {
      FirstIs(segments[0], "|", |segments[0]|);
    } else {
      SegmentsJoin(segments[1..]);
      SegmentsStep(segments[0], Join(segments[1..]));
    }
  }

  /** All segments are non-empty. */
  predicate Legal(words: seq<string>) { [] !in Segments(words) }

  predicate TwoPipes(words: seq<string>, i: nat) {
    i + 1 < |words| && words[i] == "|" && words[i + 1] == "|"
  }

  ghost predicate NoTwoPipes(words: seq<string>) { forall i: nat :: !TwoPipes(words, i) }

  /** A pipe at an end, or two in a row, is what makes a line illegal. */
  lemma {:induction false} LegalIff(words: seq<string>)
    requires words != []
    ensures Legal(words) <==> PipeIndex(words) != -1 && NoTwoPipes(words)
    decreases |words|
  {
    var k := First(words, "|");
    if k < |words| {
      var rest := words[k + 1..];
      assert Legal(words) <==> words[..k] != [] && Legal(rest);
      if rest == [] {
        assert [] in Segments(rest);
        assert words[|words| - 1] == "|";
      } else {
        LegalIff(rest);
        TwoPipesAfter(words, k);
        assert rest[|rest| - 1] == words[|words| - 1] && rest[0] == words[k + 1];
      }
    } else {
      assert Segments(words) == [words];
    }
  }

  lemma TwoPipesAfter(words: seq<string>, k: nat)
    requires k == First(words, "|") < |words| - 1
    ensures NoTwoPipes(words) <==> words[k + 1] != "|" && NoTwoPipes(words[k + 1..])
  {
    forall i: nat
      ensures TwoPipes(words, i) <==> (i == k && words[k + 1] == "|") || (i > k && TwoPipes(words[k + 1..], i - k - 1))
    {
    }
    if NoTwoPipes(words) {
      assert !TwoPipes(words, k);
      var rest := words[k + 1..];
      forall i: nat ensures !TwoPipes(rest, i) {
        assert !TwoPipes(words, k + 1 + i);
      }
    }
  }

  // ----- running the segments

  /** The segments up to the first empty one, each run on what the one before it wrote. */
  function RunStages(program: Program, segments: seq<seq<string>>, input: string): seq<Stage> {
    if segments == [] || segments[0] == [] then []
    else
      var output := program(segments[0], input);
      [Stage(segments[0], input, output, {})] + RunStages(program, segments[1..], output)
  }

  /** The stages as one function. */
  function Composed(program: Program, segments: seq<seq<string>>, input: string): string {
    if segments == [] then input else Composed(program, segments[1..], program(segments[0], input))
  }

  lemma {:induction false} StagesOf(program: Program, segments: seq<seq<string>>, input: string)
    requires [] !in segments
    ensures var stages := RunStages(program, segments, input);
      && |stages| == |segments|
      && (forall k :: 0 <= k < |stages| ==>
            && stages[k].argv == segments[k] && stages[k].writers == {}
            && stages[k].input == (if k == 0 then input else stages[k - 1].output)
            && stages[k].output == program(segments[k], stages[k].input))
      && Composed(program, segments, input) == if stages == [] then input else stages[|stages| - 1].output
  {
    if segments != [] {
      var output := program(segments[0], input);
      StagesOf(program, segments[1..], output);
      var rest := RunStages(program, segments[1..], output);
      assert RunStages(program, segments, input)[1..] == rest;
    }
  }

  /** A legal line runs each of its segments once, in order and chained, and so computes the
      composition of the segments. */
  lemma LegalLineComposes(program: Program, words: seq<string>, input: string)
    requires Legal(words)
    ensures var stages := RunStages(program, Segments(words), input);
      && |stages| == |Segments(words)| && stages[0].input == input
      && (forall k :: 0 <= k < |stages| ==> stages[k].argv == Segments(words)[k] && stages[k].writers == {})
      && (forall k :: 0 < k < |stages| ==> stages[k].input == stages[k - 1].output)
      && stages[|stages| - 1].output == Composed(program, Segments(words), input)
  {
    StagesOf(program, Segments(words), input);
  }

  // ----- lines as the code treats them

  /** The programs pipe_and_exec runs for a line with a "|": none when it ends in "|", and otherwise the segments
      up to the first empty one. */
  function Expected(program: Program, words: seq<string>, input: string): seq<Stage>
    requires words != []
  {
    if words[|words| - 1] == "|" then [] else RunStages(program, Segments(words), input)
  }

  /** What they write to the standard output of the line. */
  function Result(program: Program, words: seq<string>, input: string): string {
    if Legal(words) then Composed(program, Segments(words), input) else ""
  }

  lemma RefusedLine(program: Program, words: seq<string>, input: string)
    requires words != [] && PipeIndex(words) == -1
    ensures Expected(program, words, input) == [] && !Legal(words)
  {
    LegalIff(words);
    if words[0] == "|" {
      assert Segments(words)[0] == [];
    }
  }

  lemma StagesCons(program: Program, s: seq<string>, segments: seq<seq<string>>, input: string)
    requires s != []
    ensures RunStages(program, [s] + segments, input)
            == [Stage(s, input, program(s, input), {})] + RunStages(program, segments, program(s, input))
    ensures Composed(program, [s] + segments, input) == Composed(program, segments, program(s, input))
  {
    assert ([s] + segments)[1..] == segments;
  }

  lemma LegalCons(s: seq<string>, segments: seq<seq<string>>)
    requires s != []
    ensures [] in [s] + segments <==> [] in segments
  {
  }

  lemma FirstStages(program: Program, words: seq<string>, k: nat, input: string)
    requires 0 < k == First(words, "|") < |words| - 1
    ensures var output := program(words[..k], input);
      RunStages(program, Segments(words), input)
      == [Stage(words[..k], input, output, {})] + RunStages(program, Segments(words[k + 1..]), output)
  {
    StagesCons(program, words[..k], Segments(words[k + 1..]), input);
  }

  lemma FirstStage(program: Program, words: seq<string>, k: nat, input: string)
    requires 0 < k == First(words, "|") < |words| - 1 && words[|words| - 1] != "|"
    ensures var output := program(words[..k], input);
      Expected(program, words, input)
      == [Stage(words[..k], input, output, {})] + Expected(program, words[k + 1..], output)
  {
    assert words[k + 1..][|words| - k - 2] == words[|words| - 1];
    FirstStages(program, words, k, input);
  }

  lemma FirstResult(program: Program, words: seq<string>, k: nat, input: string)
    requires 0 < k == First(words, "|") < |words| - 1
    ensures Legal(words) <==> Legal(words[k + 1..])
    ensures Result(program, words, input) == Result(program, words[k + 1..], program(words[..k], input))
  {
    StagesCons(program, words[..k], Segments(words[k + 1..]), input);
    LegalCons(words[..k], Segments(words[k + 1..]));
  }

  lemma OnlySegment(program: Program, words: seq<string>, input: string)
    requires words != [] && PipeIndex(words) == 0
    ensures words[..First(words, "|")] == words && Legal(words)
    ensures Expected(program, words, input) == [Stage(words, input, program(words, input), {})]
    ensures Result(program, words, input) == program(words, input)
  {
    StagesCons(program, words, [], input);
    assert [words] + [] == Segments(words);
  }

  /** What becomes of a command line: the programs that run, whether it gets through to its last
      one, and its output. */
  datatype Plan = Plan(stages: seq<Stage>, completes: bool, data: string)

  /** What pipe_and_exec makes of a line, and the execvp behind it if there is no "|". */
  function PlanOf(program: Program, words: seq<string>, input: string): Plan
    requires words != []
  {
    Plan(Expected(program, words, input), Legal(words), Result(program, words, input))
  }

  function Preceded(first: Stage, plan: Plan): Plan { plan.(stages := [first] + plan.stages) }

  lemma FirstPlan(program: Program, words: seq<string>, k: nat, input: string)
    requires words != [] && k == PipeIndex(words) > 0
    ensures k == First(words, "|") < |words| - 1
    ensures var output := program(words[..k], input);
      PlanOf(program, words, input)
      == Preceded(Stage(words[..k], input, output, {}), PlanOf(program, words[k + 1..], output))
  {
    PipeInside(words);
    FirstStage(program, words, k, input);
    FirstResult(program, words, k, input);
  }

  /** What run_command makes of a line: one with "|" at an end is a plain command. */
  function LinePlan(program: Program, words: seq<string>, input: string): Plan
    requires words != []
  {
    if PipeIndex(words) > 0 then PlanOf(program, words, input)
    else Plan([Stage(words, input, program(words, input), {})], true, program(words, input))
  }

  /** What the line asks for: all its segments in a row, or nothing but an error message if one
      of them is missing. */
  function Asked(program: Program, words: seq<string>, input: string): Plan {
    if Legal(words)
    then Plan(RunStages(program, Segments(words), input), true, Composed(program, Segments(words), input))
    else Plan([], false, "")
  }

  /** run_command does what pipe_and_exec would do exactly when no "|" is at an end. */
  lemma PipedIff(program: Program, words: seq<string>, input: string)
    requires words != []
    ensures LinePlan(program, words, input) == PlanOf(program, words, input)
            <==> words[0] != "|" && words[|words| - 1] != "|"
  {
    if PipeIndex(words) == -1 {
      RefusedLine(program, words, input);
    } else if PipeIndex(words) == 0 {
      OnlySegment(program, words, input);
    }
  }

  /** Some program always runs. */
  lemma RunsSomething(program: Program, words: seq<string>, input: string)
    requires words != []
    ensures LinePlan(program, words, input).stages != []
  {
    if PipeIndex(words) > 0 {
      FirstPlan(program, words, First(words, "|"), input);
    }
  }

  lemma LegalIsAsked(program: Program, words: seq<string>, input: string)
    requires words != [] && Legal(words)
    ensures LinePlan(program, words, input) == Asked(program, words, input)
  {
    LegalIff(words);
    PipedIff(program, words, input);
  }

  /** The shell does what the line asks for, in the programs it runs and altogether, exactly when
      no "|" is at an end of it and no two are in a row. */
  lemma LinePlanIff(program: Program, words: seq<string>, input: string)
    requires words != []
    ensures LinePlan(program, words, input) == Asked(program, words, input)
            <==> words[0] != "|" && words[|words| - 1] != "|" && NoTwoPipes(words)
    ensures LinePlan(program, words, input).stages == Asked(program, words, input).stages
            <==> words[0] != "|" && words[|words| - 1] != "|" && NoTwoPipes(words)
  {
    LegalIff(words);
    if Legal(words) {
      LegalIsAsked(program, words, input);
    } else {
      RunsSomething(program, words, input);
    }
  }

  /** "a |" runs the program a on the argument "|", where the line asks for nothing. */
  lemma PipeAtTheEnd(program: Program, input: string)
    ensures var words := ["a", "|"];
      && LinePlan(program, words, input).stages == [Stage(words, input, program(words, input), {})]
      && Asked(program, words, input) == Plan([], false, "")
  {
    RefusedLine(program, ["a", "|"], input);
  }

  /** "a | | b" runs a and throws its output away, where the line asks for nothing. */
  lemma PipesInARow(program: Program, input: string)
    ensures var words := ["a", "|", "|", "b"];
      && LinePlan(program, words, input) == Plan([Stage(["a"], input, program(["a"], input), {})], false, "")
      && Asked(program, words, input) == Plan([], false, "")
  {
    var words := ["a", "|", "|", "b"];
    FirstIs(words, "|", 1);
    FirstPlan(program, words, 1, input);
    assert words[..1] == ["a"] && words[2..] == ["|", "b"];
    MissingFirst(program, ["|", "b"], program(["a"], input));
    assert TwoPipes(words, 1);
    LegalIff(words);
  }

  lemma MissingFirst(program: Program, words: seq<string>, input: string)
    requires words != [] && words[0] == "|"
    ensures PlanOf(program, words, input) == Plan([], false, "")
  {
    RefusedLine(program, words, input);
  }

  /** A legal line runs each segment once, left to right. The first reads the line's input, each
      other one what the segment before it wrote, nobody holds a write end of the pipe it reads,
      and the last writes the composition of the segments. */
  lemma LegalPlan(program: Program, words: seq<string>, input: string)
    requires words != [] && Legal(words)
    ensures var plan := LinePlan(program, words, input);
      && plan.completes && |plan.stages| == |Segments(words)| && plan.stages[0].input == input
      && (forall k :: 0 <= k < |plan.stages| ==> plan.stages[k].argv == Segments(words)[k])
      && (forall k :: 0 <= k < |plan.stages| ==> plan.stages[k].writers == {})
      && (forall k :: 0 < k < |plan.stages| ==> plan.stages[k].input == plan.stages[k - 1].output)
      && plan.data == plan.stages[|plan.stages| - 1].output == Composed(program, Segments(words), input)
  {
    LegalIsAsked(program, words, input);
    LegalLineComposes(program, words, input);
  }

  // ----- lines joined by a pipe

  lemma Regroup<T>(p: seq<T>, q: seq<T>, r: seq<T>, t: seq<T>)
    ensures p + (q + (r + t)) == (p + (q + r)) + t
  {
  }

  lemma {:induction false} JoinAppend(s: seq<seq<string>>, t: seq<seq<string>>)
    requires s != [] && t != []
    ensures Join(s + t) == Join(s) + (["|"] + Join(t))
  {
    assert (s + t)[1..] == s[1..] + t;
    if |s| > 1 {
      JoinAppend(s[1..], t);
      Regroup(s[0], ["|"], Join(s[1..]), ["|"] + Join(t));
    }
  }

  lemma SegmentsOfJoined(a: seq<string>, b: seq<string>)
    ensures Segments(a + (["|"] + b)) == Segments(a) + Segments(b)
  {
    JoinSegments(a);
    JoinSegments(b);
    JoinAppend(Segments(a), Segments(b));
    SegmentsJoin(Segments(a) + Segments(b));
  }

  lemma {:induction false} ComposedAppend(program: Program, s: seq<seq<string>>, t: seq<seq<string>>, input: string)
    ensures Composed(program, s + t, input) == Composed(program, t, Composed(program, s, input))
  {
    if s == [] {
      assert s + t == t;
    } else {
      assert (s + t)[1..] == s[1..] + t;
      ComposedAppend(program, s[1..], t, program(s[0], input));
    }
  }

  lemma {:induction false} RunAppend(program: Program, s: seq<seq<string>>, t: seq<seq<string>>, input: string)
    ensures RunStages(program, s + t, input)
            == RunStages(program, s, input)
               + (if [] in s then [] else RunStages(program, t, Composed(program, s, input)))
  {
    if s == [] {
      assert s + t == t;
    } else {
      assert (s + t)[1..] == s[1..] + t;
      if s[0] != [] {
        RunAppend(program, s[1..], t, program(s[0], input));
        assert [] in s <==> [] in s[1..];
      }
    }
  }

  /** Two lines joined by "|". Unless the end refuses it, the joined line runs what the first
      line runs, and if that was all of it, what the second runs on its output. */
  lemma JoinedLines(program: Program, a: seq<string>, b: seq<string>, input: string)
    ensures var ab, output := a + (["|"] + b), Composed(program, Segments(a), input);
      && (Legal(ab) <==> Legal(a) && Legal(b))
      && (b == [] || b[|b| - 1] == "|" ==> Expected(program, ab, input) == [])
      && (b != [] && b[|b| - 1] != "|" ==>
            Expected(program, ab, input)
            == RunStages(program, Segments(a), input) + (if Legal(a) then Expected(program, b, output) else []))
      && Result(program, ab, input) == if Legal(a) then Result(program, b, output) else ""
  {
    var ab := a + (["|"] + b);
    SegmentsOfJoined(a, b);
    RunAppend(program, Segments(a), Segments(b), input);
    ComposedAppend(program, Segments(a), Segments(b), input);
    assert ab[|ab| - 1] == if b == [] then "|" else b[|b| - 1];
  }
}
