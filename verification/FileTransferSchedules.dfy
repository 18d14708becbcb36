/** What the schedule and the short reads can do to the file transfer of SP_HW9/52: when a wrong
    report is possible at all, and how far the server gets ahead of a client that is late. */
module FileTransferSchedules {
  import opened Common
  import opened FileTransfer

  // ----- wrong reports

  /** The server reads and sends one byte, and the client receives it. */
  lemma OneByteFirst(s: State, input: Bytes, garbage: Bytes) returns (s1: State, s2: State, s3: State)
    requires IsInit(s, input, true, garbage) && input != []
    ensures Enabled(s, Server(1)) && s1 == Step(s, Server(1))
    ensures Enabled(s1, Server(0)) && s2 == Step(s1, Server(0))
    ensures Enabled(s2, Client) && s3 == Step(s2, Client)
    ensures Inv(s3, input, garbage) && s3.cpc == CTestFailure && |s3.got| == 1 && |s3.got[0]| == 1
  {
    InitKeepsInv(s, input, garbage);
    s1 := Step(s, Server(1));
    StepKeepsInv(s, Server(1), input, garbage);
    s2 := Step(s1, Server(0));
    StepKeepsInv(s1, Server(0), input, garbage);
    s3 := Step(s2, Client);
    StepKeepsInv(s2, Client, input, garbage);
  }

  /** The client reports after this run, and not the length of the file. */
  predicate ReportsWrong(s: State, run: seq<Action>, input: Bytes) {
    IsRun(s, run) && After(s, run).cpc == CReport && After(s, run).totBytes - 1 != |input|
  }

  lemma OneByteReport(s: State, input: Bytes, garbage: Bytes) returns (run: seq<Action>)
    requires IsInit(s, input, true, garbage) && input != [] && !Zeros(garbage[1..LONG])
    ensures ReportsWrong(s, run, input)
  {
    var s1, s2, s3 := OneByteFirst(s, input, garbage);
    DirtyTypeStops(s3, input, garbage);
    FiveSteps(s, s1, s2, s3, Step(s3, Client), 1);
    run := [Server(1), Server(0), Client, Client, Client];
  }

  lemma PrimedIfClean(first: Bytes, garbage: Bytes)
    requires |garbage| >= LONG && first != [] && Zeros(garbage[1..LONG])
    ensures Primed(first, garbage)
  {
    if |first| < LONG {
      assert forall i :: 0 <= i < LONG - |first| ==> garbage[|first|..LONG][i] == garbage[1..LONG][i + |first| - 1];
    }
  }

  lemma CleanReport(s: State, run: seq<Action>, input: Bytes, garbage: Bytes)
    requires IsInit(s, input, true, garbage) && IsRun(s, run) && After(s, run).cpc == CReport
    requires input == [] || Zeros(garbage[1..LONG])
    ensures After(s, run).totBytes - 1 == |input|
  {
    ReportRightIff(s, run, input, garbage);
    InitKeepsInv(s, input, garbage);
    RunKeepsInv(s, run, input, garbage);
    if input != [] {
      PrimedIfClean(After(s, run).got[0], garbage);
    }
  }

  /** However large the file is: the client can report a wrong length exactly if the file is not
      empty and its stack did not hold zeros where the last seven bytes of `mtype` are. */
  lemma WrongReportIff(s: State, input: Bytes, garbage: Bytes)
    requires IsInit(s, input, true, garbage)
    ensures (exists run :: ReportsWrong(s, run, input)) <==> input != [] && !Zeros(garbage[1..LONG])
  {
    if input != [] && !Zeros(garbage[1..LONG]) {
      var run := OneByteReport(s, input, garbage);
    } else {
      forall run | IsRun(s, run) && After(s, run).cpc == CReport ensures !ReportsWrong(s, run, input) {
        CleanReport(s, run, input, garbage);
      }
    }
  }

  // ----- a full queue

  lemma SendByte(s: State, input: Bytes, garbage: Bytes)
    requires Inv(s, input, garbage) && s.spc == SRead && s.unread != [] && |s.queue| < MAX_MSG
    ensures IsRun(s, [Server(1), Server(0)])
    ensures var t := After(s, [Server(1), Server(0)]);
      && Inv(t, input, garbage) && t.spc == SRead && t.cpc == s.cpc
      && |t.queue| == |s.queue| + 1 && |t.unread| == |s.unread| - 1
  {
    var a := Step(s, Server(1));
    StepKeepsInv(s, Server(1), input, garbage);
    StepKeepsInv(a, Server(0), input, garbage);
    assert [Server(1), Server(0)][1..] == [Server(0)] && [Server(0)][1..] == [];
    assert After(a, [Server(0)]) == Step(a, Server(0));
  }

  lemma {:induction false} SendBytes(s: State, input: Bytes, garbage: Bytes) returns (run: seq<Action>)
    requires Inv(s, input, garbage) && s.spc == SRead && |s.queue| + |s.unread| >= MAX_MSG
    ensures IsRun(s, run)
    ensures var t := After(s, run);
      Inv(t, input, garbage) && t.spc == SRead && t.cpc == s.cpc && |t.queue| == MAX_MSG
    decreases MAX_MSG - |s.queue|
  {
    run := [];
    if |s.queue| < MAX_MSG {
      SendByte(s, input, garbage);
      var more := SendBytes(After(s, [Server(1), Server(0)]), input, garbage);
      RunConcat(s, [Server(1), Server(0)], more);
      run := [Server(1), Server(0)] + more;
    }
  }

  lemma ReadOneMore(s: State, input: Bytes, garbage: Bytes) returns (n: nat)
    requires Inv(s, input, garbage) && s.spc == SRead && |s.queue| == MAX_MSG
    ensures Enabled(s, Server(n)) && Inv(Step(s, Server(n)), input, garbage)
    ensures var t := Step(s, Server(n)); t.cpc == s.cpc && t.queue == s.queue && forall m :: !Enabled(t, Server(m))
  {
    n := if s.unread == [] then 0 else 1;
    StepKeepsInv(s, Server(n), input, garbage);
  }

  /** A file of 20 bytes or more can fill the queue with 20 messages before the client has
      received the first one; the server then waits, whatever it has read. */
  lemma SomeRunFillsQueue(s: State, input: Bytes, garbage: Bytes) returns (run: seq<Action>)
    requires IsInit(s, input, true, garbage) && |input| >= 20
    ensures IsRun(s, run)
    ensures var t := After(s, run);
      t.cpc == CFirst && |t.queue| == 20 && forall n :: !Enabled(t, Server(n))
  {
    InitKeepsInv(s, input, garbage);
    var send := SendBytes(s, input, garbage);
    var n := ReadOneMore(After(s, send), input, garbage);
    RunConcat(s, send, [Server(n)]);
    assert [Server(n)][1..] == [];
    run := send + [Server(n)];
  }
}
