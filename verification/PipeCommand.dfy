/** `pipe_and_exec` of SP_HW4/part2/pipe_command.c over processes, descriptor tables and pipes.

    A program that is executed reads everything up to end of file from descriptor 0 and writes to
    descriptor 1. End of file on a pipe needs every write end of it to be closed. Pipes hold any
    amount of data, and execvp, fork and pipe succeed. Descriptors and process numbers are any
    that are free. */
module PipeCommand {
  import opened CommandLine
  import opened Pipelines

  type Pid = int
  type Fd = int

  /** What a descriptor refers to; Input and Output are the command's own 0 and 1. */
  datatype Desc = Input | Output | Other | ReadEnd(pipe: nat) | WriteEnd(pipe: nat)

  type Table = map<Fd, Desc>

  predicate Holds(t: Table, d: Desc) { exists fd :: fd in t && t[fd] == d }

  /** The processes that keep the other side of `d` from ending. */
  function Writers(processes: map<Pid, Table>, d: Desc): set<Pid> {
    if d.ReadEnd? then set pid | pid in processes && Holds(processes[pid], WriteEnd(d.pipe)) else {}
  }

  predicate Below(d: Desc, n: nat) { (d.ReadEnd? || d.WriteEnd?) ==> d.pipe < n }

  predicate TableBelow(t: Table, n: nat) { forall fd :: fd in t ==> Below(t[fd], n) }

  /** Only the `n` pipes made so far are in use. */
  predicate AllBelow(processes: map<Pid, Table>, n: nat) {
    forall pid :: pid in processes ==> TableBelow(processes[pid], n)
  }

  // ----- tables

  /** `t` with both ends of pipe `q` at `r` and `w`. */
  function WithPipe(t: Table, r: Fd, w: Fd, q: nat): Table { t[r := ReadEnd(q)][w := WriteEnd(q)] }

  predicate Room(t: Table, r: Fd, w: Fd) { 0 in t && 1 in t && r !in t && w !in t && r != w }

  /** The parent's table before each of its steps: close w, dup2 r to 0, wait; then close r. */
  function ParentTable(t: Table, r: Fd, w: Fd, q: nat, p: nat): Table {
    var both := WithPipe(t, r, w, q);
    if p == 0 then both
    else if p == 1 then both - {w}
    else (both - {w})[0 := ReadEnd(q)]
  }

  /** The child's: close r, dup2 w to 1, close w, execute, exit. */
  function ChildTable(t: Table, r: Fd, w: Fd, q: nat, c: nat): Table {
    var both := WithPipe(t, r, w, q);
    if c == 0 then both
    else if c == 1 then both - {r}
    else if c == 2 then (both - {r})[1 := WriteEnd(q)]
    else (both - {r})[1 := WriteEnd(q)] - {w}
  }

  /** In the end each keeps its old table, but for one end of the pipe. */
  lemma FinalTables(t: Table, r: Fd, w: Fd, q: nat)
    requires Room(t, r, w)
    ensures ParentTable(t, r, w, q, 2) - {r} == t[0 := ReadEnd(q)]
    ensures ChildTable(t, r, w, q, 3) == t[1 := WriteEnd(q)]
  {
  }

  /** Neither ever holds the write end of an older pipe that the parent did not hold before. */
  lemma NoOldWriteEnd(t: Table, r: Fd, w: Fd, q: nat, old': nat)
    requires !Holds(t, WriteEnd(old')) && old' != q
    ensures forall p :: !Holds(ParentTable(t, r, w, q, p), WriteEnd(old'))
    ensures forall c :: !Holds(ChildTable(t, r, w, q, c), WriteEnd(old'))
  {
    var both := WithPipe(t, r, w, q);
    assert !Holds(both, WriteEnd(old')) by {
      if fd :| fd in both && both[fd] == WriteEnd(old') {
        assert fd in t && t[fd] == WriteEnd(old');
      }
    }
  }

  /** All processes while parent `me` is at step `p` and `child` at step `c`. */
  function Between(base: map<Pid, Table>, me: Pid, child: Pid, mine: Table, its: Table): map<Pid, Table> {
    base[child := its][me := mine]
  }

  lemma MineStep(base: map<Pid, Table>, me: Pid, child: Pid, mine: Table, its: Table, next: Table)
    ensures Between(base, me, child, mine, its)[me := next] == Between(base, me, child, next, its)
    ensures base[me := mine][me := next] == base[me := next]
  {
  }

  lemma ItsStep(base: map<Pid, Table>, me: Pid, child: Pid, mine: Table, its: Table, next: Table)
    requires me != child
    ensures Between(base, me, child, mine, its)[child := next] == Between(base, me, child, mine, next)
  {
  }

  lemma ItsEnd(base: map<Pid, Table>, me: Pid, child: Pid, mine: Table, its: Table)
    requires me != child && child !in base
    ensures Between(base, me, child, mine, its) - {child} == base[me := mine]
  {
  }

  lemma NoWriters(base: map<Pid, Table>, me: Pid, child: Pid, mine: Table, its: Table, d: Desc)
    requires Writers(base, d) == {}
    requires d.ReadEnd? ==> !Holds(mine, WriteEnd(d.pipe)) && !Holds(its, WriteEnd(d.pipe))
    ensures Writers(Between(base, me, child, mine, its), d) == {}
  {
    if d.ReadEnd? {
      forall pid | pid in base ensures !Holds(base[pid], WriteEnd(d.pipe)) {
        assert pid !in Writers(base, d);
      }
    }
  }

  lemma HoldsMore(t: Table, r: Fd, w: Fd, q: nat, e: Desc)
    requires Room(t, r, w)
    ensures Holds(t, e) ==> Holds(WithPipe(t, r, w, q), e)
  {
    if fd :| fd in t && t[fd] == e {
      assert WithPipe(t, r, w, q)[fd] == e;
    }
  }

  lemma WritersOfPart(processes: map<Pid, Table>, pid: Pid, d: Desc)
    requires Writers(processes, d) == {}
    ensures Writers(processes - {pid}, d) == {}
  {
    if x :| x in Writers(processes - {pid}, d) {
      assert x in Writers(processes, d);
    }
  }

  /** Whatever the two do, nobody ever holds the write end of the pipe the child reads. */
  lemma NeverWriters(processes: map<Pid, Table>, me: Pid, child: Pid, t: Table, r: Fd, w: Fd, q: nat)
    requires Room(t, r, w) && Below(t[0], q) && me in processes && processes[me] == WithPipe(t, r, w, q)
    requires Writers(processes, t[0]) == {}
    ensures forall p, c ::
      var mine, its := ParentTable(t, r, w, q, p), ChildTable(t, r, w, q, c);
      Writers(Between(processes - {child}, me, child, mine, its), t[0]) == {}
  {
    var d := t[0];
    if d.ReadEnd? {
      assert me !in Writers(processes, d);
      HoldsMore(t, r, w, q, WriteEnd(d.pipe));
      NoOldWriteEnd(t, r, w, q, d.pipe);
    }
    WritersOfPart(processes, child, d);
    forall p, c
      ensures var mine, its := ParentTable(t, r, w, q, p), ChildTable(t, r, w, q, c);
        Writers(Between(processes - {child}, me, child, mine, its), d) == {}
    {
      NoWriters(processes - {child}, me, child, ParentTable(t, r, w, q, p), ChildTable(t, r, w, q, c), d);
    }
  }

  lemma NewPipeIsUnused(processes: map<Pid, Table>, me: Pid, r: Fd, w: Fd, q: nat)
    requires me in processes && Room(processes[me], r, w) && AllBelow(processes, q)
    requires Writers(processes, processes[me][0]) == {}
    ensures var after := processes[me := WithPipe(processes[me], r, w, q)];
      AllBelow(after, q + 1) && Writers(after, processes[me][0]) == {}
  {
    var t := processes[me];
    var d := t[0];
    assert Below(d, q);
    if d.ReadEnd? {
      assert me !in Writers(processes, d);
      HoldsMore(t, r, w, q, WriteEnd(d.pipe));
      NoOldWriteEnd(t, r, w, q, d.pipe);
      var both := WithPipe(t, r, w, q);
      NoWriters(processes, me, me, both, both, d);
      assert processes[me := both] == Between(processes, me, me, both, both);
    }
  }

  /** A fork adds no writers where there are none. */
  lemma ForkedWriters(processes: map<Pid, Table>, me: Pid, child: Pid, d: Desc)
    requires me in processes && child !in processes && Writers(processes, d) == {}
    ensures Writers(processes[child := processes[me]], d) == {}
    ensures processes[child := processes[me]] - {child} == processes
  {
    if d.ReadEnd? {
      assert me !in Writers(processes, d);
      forall pid | pid in processes ensures !Holds(processes[pid], WriteEnd(d.pipe)) {
        assert pid !in Writers(processes, d);
      }
    }
  }

  /** The new pipe has no writer left once `me` reads it and the child is gone. */
  lemma NewPipeIsRead(processes: map<Pid, Table>, me: Pid, q: nat)
    requires me in processes && 0 in processes[me] && AllBelow(processes, q)
    ensures var after := processes[me := processes[me][0 := ReadEnd(q)]];
      AllBelow(after, q + 1) && Writers(after, ReadEnd(q)) == {}
  {
    var after := processes[me := processes[me][0 := ReadEnd(q)]];
    forall pid | pid in after ensures !Holds(after[pid], WriteEnd(q)) {
      if pid == me {
        assert TableBelow(processes[me], q);
      } else {
        assert TableBelow(processes[pid], q);
      }
    }
  }

  lemma {:induction false} Bound(s: set<int>) returns (b: int)
    ensures forall n :: n in s ==> n < b
  {
    b := 0;
    if x :| x in s {
      b := Bound(s - {x});
      if b <= x {
        b := x + 1;
      }
      assert forall n :: n in s ==> n == x || n in s - {x};
    }
  }

  lemma SomeFree(s: set<int>)
    ensures exists n :: n !in s
  {
    var b := Bound(s);
    assert b !in s;
  }

  datatype End = Returned | Ran | Failed

  class Kernel {
    const program: Program
    var processes: map<Pid, Table>
    var pipes: seq<string>     // written and not yet read
    var input: string          // still to be read from the command's own 0
    var output: string         // written to the command's own 1
    var trace: seq<Stage>      // history: the programs that ran

    function Content(d: Desc): string
      reads this
    {
      if d.Input? then input
      else if d.ReadEnd? && d.pipe < |pipes| then pipes[d.pipe]
      else ""
    }

    /** `me` can be handed a command line. */
    ghost predicate Ready(me: Pid)
      reads this
    {
      && me in processes && 0 in processes[me] && 1 in processes[me]
      && processes[me][1] == Output && (processes[me][0].Input? || processes[me][0].ReadEnd?)
      && AllBelow(processes, |pipes|)
      && Writers(processes, processes[me][0]) == {}
    }

    // ----- system calls

    method Close(pid: Pid, fd: Fd)
      requires pid in processes && fd in processes[pid]
      modifies `processes
      ensures processes == old(processes)[pid := old(processes[pid]) - {fd}]
    {
      processes := processes[pid := processes[pid] - {fd}];
    }

    method Dup2(pid: Pid, from: Fd, to: Fd)
      requires pid in processes && from in processes[pid]
      modifies `processes
      ensures processes == old(processes)[pid := old(processes[pid])[to := old(processes[pid][from])]]
    {
      processes := processes[pid := processes[pid][to := processes[pid][from]]];
    }

    method NewPipe(pid: Pid) returns (r: Fd, w: Fd)
      requires Ready(pid)
      modifies `processes, `pipes
      ensures Room(old(processes[pid]), r, w) && pipes == old(pipes) + [""]
      ensures processes == old(processes)[pid := WithPipe(old(processes[pid]), r, w, |old(pipes)|)]
      ensures Ready(pid)
    {
      ghost var t, q, before := processes[pid], |pipes|, processes;
      SomeFree(processes[pid].Keys);
      r :| r !in processes[pid].Keys;
      SomeFree(processes[pid].Keys + {r});
      w :| w !in processes[pid].Keys + {r};
      processes := processes[pid := WithPipe(processes[pid], r, w, |pipes|)];
      pipes := pipes + [""];
      NewPipeIsUnused(before, pid, r, w, q);
    }

    method Fork(pid: Pid) returns (child: Pid)
      requires pid in processes
      modifies `processes
      ensures child !in old(processes) && processes == old(processes)[child := old(processes[pid])]
    {
      SomeFree(processes.Keys);
      child :| child !in processes.Keys;
      processes := processes[child := processes[pid]];
    }

    method Exit(pid: Pid)
      modifies `processes
      ensures processes == old(processes) - {pid}
    {
      processes := processes - {pid};
    }

    /** execvp and the run of the program. It needs end of file on its standard input. */
    method Execute(pid: Pid, argv: seq<string>)
      requires pid in processes && 0 in processes[pid] && 1 in processes[pid]
      requires TableBelow(processes[pid], |pipes|)
      requires Writers(processes, processes[pid][0]) == {}
      modifies `input, `output, `pipes, `trace
      ensures var from, to := processes[pid][0], processes[pid][1];
        var read := old(Content(from));
        var written := program(argv, read);
        && trace == old(trace) + [Stage(argv, read, written, Writers(processes, from))]
        && input == (if from.Input? then "" else old(input))
        && output == old(output) + (if to.Output? then written else "")
        && |pipes| == |old(pipes)|
        && forall q :: 0 <= q < |pipes| ==>
             pipes[q] == (if from == ReadEnd(q) then "" else old(pipes)[q])
                         + (if to == WriteEnd(q) then written else "")
    {
      var from, to := processes[pid][0], processes[pid][1];
      assert Below(from, |pipes|) && Below(to, |pipes|);
      var read := Content(from);
      if from.Input? {
        input := "";
      } else if from.ReadEnd? {
        pipes := pipes[from.pipe := ""];
      }
      var written := program(argv, read);
      if to.Output? {
        output := output + written;
      } else if to.WriteEnd? {
        pipes := pipes[to.pipe := pipes[to.pipe] + written];
      }
      trace := trace + [Stage(argv, read, written, Writers(processes, from))];
    }

    // ----- the two sides of the fork

    /** Parent `me` is at step `p` and `child` at step `c`; `base` is everyone but the child. */
    ghost predicate At(base: map<Pid, Table>, me: Pid, child: Pid, t: Table, r: Fd, w: Fd, q: nat, p: nat, c: nat)
      reads `processes
    {
      && me != child && child !in base
      && processes ==
         if c < 5 then Between(base, me, child, ParentTable(t, r, w, q, p), ChildTable(t, r, w, q, c))
         else base[me := ParentTable(t, r, w, q, p)]
    }

    /** The parent: close(pfd[1]), then dup2(pfd[0], 0). */
    method ParentTurn(ghost base: map<Pid, Table>, me: Pid, ghost child: Pid, ghost t: Table, r: Fd, w: Fd,
                      ghost q: nat, p: nat, ghost c: nat)
      requires Room(t, r, w) && p < 2 && At(base, me, child, t, r, w, q, p, c)
      modifies `processes
      ensures At(base, me, child, t, r, w, q, p + 1, c)
    {
      MineStep(base, me, child, ParentTable(t, r, w, q, p), ChildTable(t, r, w, q, c), ParentTable(t, r, w, q, p + 1));
      if p == 0 {
        Close(me, w);
      } else {
        Dup2(me, r, 0);
      }
    }

    /** The child's descriptors: close(pfd[0]), dup2(pfd[1], 1), close(pfd[1]). */
    method ChildTurn(ghost base: map<Pid, Table>, ghost me: Pid, child: Pid, ghost t: Table, r: Fd, w: Fd,
                     ghost q: nat, ghost p: nat, c: nat)
      requires Room(t, r, w) && c < 3 && At(base, me, child, t, r, w, q, p, c)
      modifies `processes
      ensures At(base, me, child, t, r, w, q, p, c + 1)
    {
      ItsStep(base, me, child, ParentTable(t, r, w, q, p), ChildTable(t, r, w, q, c), ChildTable(t, r, w, q, c + 1));
      if c == 0 {
        Close(child, r);
      } else if c == 1 {
        Dup2(child, w, 1);
      } else {
        Close(child, w);
      }
    }

    /** What the pipe, the output and the trace were before and are after the child's program. */
    ghost predicate Written(q: nat, trace': seq<Stage>, data: string)
      reads this
    {
      trace == trace' && q + 1 == |pipes| && pipes[q] == data
    }

    /** The child's execvp. */
    method RunChild(child: Pid, ghost t: Table, ghost q: nat, left: seq<string>)
      requires child in processes && 0 in t && 1 in t && processes[child] == t[1 := WriteEnd(q)]
      requires TableBelow(t, q) && (t[0].Input? || t[0].ReadEnd?) && Writers(processes, t[0]) == {}
      requires Written(q, trace, "")
      modifies `input, `output, `pipes, `trace
      ensures var read := old(Content(t[0]));
        Written(q, old(trace) + [Stage(left, read, program(left, read), {})], program(left, read))
      ensures output == old(output)
    {
      assert Below(t[0], q);
      Execute(child, left);
    }

    /** The parent up to waitpid and the child to its end, in any order the scheduler likes.
        Some step can always be taken until both are through. */
    method Connect(me: Pid, child: Pid, ghost t: Table, r: Fd, w: Fd, ghost q: nat, left: seq<string>)
      requires Room(t, r, w) && TableBelow(t, q) && Written(q, trace, "")
      requires At(processes - {child}, me, child, t, r, w, q, 0, 0)
      requires t[0].Input? || t[0].ReadEnd?
      requires Writers(processes, t[0]) == {}
      modifies this
      ensures processes == (old(processes) - {child})[me := ParentTable(t, r, w, q, 2)]
      ensures var read := old(Content(t[0]));
        Written(q, old(trace) + [Stage(left, read, program(left, read), {})], program(left, read))
      ensures output == old(output)
    {
      ghost var base := processes - {child};
      ghost var read := Content(t[0]);
      ghost var after := trace + [Stage(left, read, program(left, read), {})];
      FinalTables(t, r, w, q);
      NeverWriters(processes, me, child, t, r, w, q);
      var p, c := 0, 0;
      while p < 3
        invariant p <= 3 && c <= 5 && (p == 3 ==> c == 5)
        invariant At(base, me, child, t, r, w, q, p, c)
        invariant c < 4 ==> Written(q, old(trace), "") && Content(t[0]) == read
        invariant c >= 4 ==> Written(q, after, program(left, read))
        invariant output == old(output)
        decreases 8 - p - c
      {
        if
        case p < 2 =>
          ParentTurn(base, me, child, t, r, w, q, p, c);
          p := p + 1;
        case p == 2 && child !in processes =>  // waitpid returns
          p := 3;
        case c < 3 =>
          ChildTurn(base, me, child, t, r, w, q, p, c);
          c := c + 1;
        case c == 3 && Writers(processes, processes[child][0]) == {} =>
          RunChild(child, t, q, left);
          c := 4;
        case c == 4 =>
          ItsEnd(base, me, child, ParentTable(t, r, w, q, p), ChildTable(t, r, w, q, c));
          Exit(child);
          c := 5;
      }
    }

    /** Copying part of a vector, as the loops that fill left_argv and right_argv do. */
    method CopyWords(v: Argv, n: nat) returns (copy: seq<string>)
      requires n <= |Words(v)|
      ensures copy == Words(v)[..n]
    {
      WordsAt(v);
      copy := [];
      while |copy| < n
        invariant |copy| <= n && copy == Words(v)[..|copy|]
      {
        copy := copy + [v[|copy|].value];
      }
    }

    /** The fork in pipe_and_exec and what follows up to the parent's close of the read end. */
    method RunLeft(me: Pid, ghost t: Table, r: Fd, w: Fd, ghost q: nat, left: seq<string>)
      requires Ready(me) && Written(q, trace, "") && Room(t, r, w) && TableBelow(t, q)
      requires processes[me] == WithPipe(t, r, w, q) && AllBelow(processes[me := t], q)
      modifies this
      ensures Ready(me) && processes == old(processes)[me := t[0 := ReadEnd(q)]]
      ensures var read := old(Content(t[0]));
        && trace == old(trace) + [Stage(left, read, program(left, read), {})]
        && Content(processes[me][0]) == program(left, read)
      ensures output == old(output)
    {
      ghost var before := processes;
      var child := Fork(me);
      ForkedWriters(before, me, child, t[0]);
      Connect(me, child, t, r, w, q, left);
      FinalTables(t, r, w, q);
      Close(me, r);
      assert before[me := t][me := t[0 := ReadEnd(q)]] == processes;
      NewPipeIsRead(before[me := t], me, q);
    }

    /** The execvp of right_argv, and its end. */
    method RunRight(me: Pid, right: seq<string>)
      requires Ready(me)
      modifies this
      ensures processes == old(processes) - {me}
      ensures var read := old(Content(processes[me][0]));
        && trace == old(trace) + [Stage(right, read, program(right, read), {})]
        && output == old(output) + program(right, read)
    {
      Execute(me, right);
      Exit(me);
    }

    /** `me` gave up its place after what was planned. */
    twostate predicate Finished(me: Pid, plan: Plan, end: End)
      reads this
    {
      && processes == old(processes) - {me}
      && trace == old(trace) + plan.stages
      && end == (if plan.completes then Ran else Failed)
      && output == old(output) + plan.data
    }

    /** `me` is as before, but for two descriptors. */
    twostate predicate Unchanged(me: Pid)
      reads this
      requires me in old(processes) && 0 in old(processes)[me]
    {
      && Ready(me) && processes == old(processes)[me := processes[me]]
      && processes[me][0] == old(processes[me][0])
      && Content(processes[me][0]) == old(Content(processes[me][0]))
      && trace == old(trace) && output == old(output)
    }

    /** `pipe_and_exec` in process `me`. It returns only if there is no pipe, and then the caller
        executes the words. Otherwise `me` is replaced by the last program, or exits on an error. */
    method PipeAndExec(me: Pid, v: Argv, ghost words: seq<string>) returns (end: End)
      requires Ready(me) && Terminated(v) && Words(v) == words && words != []
      modifies this
      ensures PipeIndex(words) == 0 ==> end.Returned? && Unchanged(me)
      ensures PipeIndex(words) != 0 ==> Finished(me, PlanOf(program, words, old(Content(processes[me][0]))), end)
      decreases |words|, 1
    {
      ghost var t, q := processes[me], |pipes|;
      ghost var read := Content(t[0]);
      var index := PipePresent(v);
      var r, w := NewPipe(me);
      if index == -1 {
        RefusedLine(program, words, read);
        Exit(me);
        return Failed;
      }
      if index == 0 {
        return Returned;
      }
      end := Split(me, v, index, t, r, w, q, words);
    }

    /** Copies the words before the pipe and goes on with the vector behind it. */
    method Split(me: Pid, v: Argv, index: nat,
                 ghost t: Table, r: Fd, w: Fd, ghost q: nat, ghost words: seq<string>) returns (end: End)
      requires Ready(me) && Written(q, trace, "") && Room(t, r, w) && TableBelow(t, q)
      requires processes[me] == WithPipe(t, r, w, q) && AllBelow(processes[me := t], q)
      requires Terminated(v) && Words(v) == words && words != [] && index == PipeIndex(words) > 0
      modifies this
      ensures Finished(me, PlanOf(program, words, old(Content(t[0]))), end)
      decreases |words|, 0
    {
      FirstPlan(program, words, index, Content(t[0]));
      WordsFrom(v, index + 1);
      var left := CopyWords(v, index);
      ghost var rest := words[index + 1..];
      end := RunBoth(me, left, v[index + 1..], t, r, w, q, rest);
    }

    /** The two sides of a pipe; `rest` is the line after it. */
    method RunBoth(me: Pid, left: seq<string>, v: Argv,
                   ghost t: Table, r: Fd, w: Fd, ghost q: nat, ghost rest: seq<string>) returns (end: End)
      requires Ready(me) && Written(q, trace, "") && Room(t, r, w) && TableBelow(t, q)
      requires processes[me] == WithPipe(t, r, w, q) && AllBelow(processes[me := t], q)
      requires Terminated(v) && Words(v) == rest && rest != []
      modifies this
      ensures var read := old(Content(t[0]));
        var written := program(left, read);
        Finished(me, Preceded(Stage(left, read, written, {}), PlanOf(program, rest, written)), end)
      decreases |rest|, 3
    {
      RunLeft(me, t, r, w, q, left);
      end := RunRest(me, v, rest);
    }

    /** The parent's recursive call, and the execvp of right_argv if it returns. */
    method RunRest(me: Pid, v: Argv, ghost words: seq<string>) returns (end: End)
      requires Ready(me) && Terminated(v) && Words(v) == words && words != []
      modifies this
      ensures Finished(me, PlanOf(program, words, old(Content(processes[me][0]))), end)
      decreases |words|, 2
    {
      ghost var read := Content(processes[me][0]);
      var n := Search(v, "|");
      var right := CopyWords(v, n);
      end := PipeAndExec(me, v, words);
      if end.Returned? {
        OnlySegment(program, words, read);
        RunRight(me, right);
        end := Ran;
      }
    }

    /** The child of run_command after its redirections: pipe_and_exec only if pipe_present finds
        a pipe inside the line, and execvp of the whole vector otherwise. */
    method Command(me: Pid, v: Argv, ghost words: seq<string>) returns (end: End)
      requires Ready(me) && Terminated(v) && Words(v) == words && words != []
      modifies this
      ensures Finished(me, LinePlan(program, words, old(Content(processes[me][0]))), end)
    {
      var hasPipe := PipePresent(v);
      if hasPipe > 0 {
        end := PipeAndExec(me, v, words);
      } else {
        var n := Length(v);
        var all := CopyWords(v, n);
        assert all == words;
        RunRight(me, all);
        end := Ran;
      }
    }
  }
}
