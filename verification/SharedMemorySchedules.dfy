/** How many transfers the two programs of SP_HW9/54 may report: `read` decides, and every number
    of blocks that the input can be split into is possible. */
module SharedMemorySchedules {
  import opened Common
  import opened SharedMemoryTransfer

  // ----- no other number is possible

  lemma StepReads(s: State, a: Action)
    requires Enabled(s, a)
    ensures var t := Step(s, a);
      var n := if s.wpc == WFill && a.Writer? then a.n else 0;
      |t.buf| == |s.buf| && n <= |s.buf| && |t.unread| + n == |s.unread|
  {
  }

  lemma OneMore(x: int, k: nat, size: nat)
    requires x <= k * size
    ensures x + size <= (k + 1) * size
  {
  }

  /** Every block that is read has between 1 and as many bytes as the buffer. */
  lemma {:induction false} BlocksAreBounded(s: State, run: seq<Action>)
    requires IsRun(s, run)
    ensures |After(s, run).unread| <= |s.unread|
    ensures BlocksRead(s, run) <= |s.unread| - |After(s, run).unread| <= BlocksRead(s, run) * |s.buf|
    decreases run
  {
    if run != [] {
      StepReads(s, run[0]);
      var t := Step(s, run[0]);
      BlocksAreBounded(t, run[1..]);
      if s.wpc == WFill && run[0].Writer? && run[0].n > 0 {
        OneMore(|t.unread| - |After(s, run).unread|, BlocksRead(t, run[1..]), |s.buf|);
      }
    }
  }

  // ----- each of them is

  predicate Leads(s: State, run: seq<Action>, t: State) { IsRun(s, run) && After(s, run) == t }

  lemma LeadsOn(s: State, run: seq<Action>, t: State, a: Action)
    requires Leads(s, run, t) && Enabled(t, a)
    ensures Leads(s, run + [a], Step(t, a))
  {
    RunSnoc(s, run, a);
  }

  lemma {:induction false} RunConcat(s: State, run: seq<Action>, more: seq<Action>)
    requires IsRun(s, run) && IsRun(After(s, run), more)
    ensures IsRun(s, run + more) && After(s, run + more) == After(After(s, run), more)
    decreases run
  {
    if run == [] {
      assert run + more == more;
    } else {
      assert (run + more)[1..] == run[1..] + more;
      RunConcat(Step(s, run[0]), run[1..], more);
    }
  }

  lemma LeadsAlong(s: State, run: seq<Action>, t: State, more: seq<Action>, u: State)
    requires Leads(s, run, t) && Leads(t, more, u)
    ensures Leads(s, run + more, u)
  {
    RunConcat(s, run, more);
  }

  /** The writer can take the token, and the reader waits for it. */
  predicate Between(s: State) {
    s.wpc == WReserve && s.rpc == RReserve && s.writeSem == 1 && s.readSem == 0
  }

  /** The writer reads `n` bytes and hands them over. */
  lemma HandOver(s: State, n: nat) returns (run: seq<Action>, t: State)
    requires Between(s) && ReadMayReturn(s, n)
    ensures Leads(s, run, t) && t.wpc == WTest && t.rpc == RReserve && t.writeSem == 0 && t.readSem == 1
    ensures t.cnt == n && t.unread == s.unread[n..] && |t.buf| == |s.buf| && t.wXfrs == s.wXfrs
  {
    var a := Step(s, Writer(0));
    LeadsOn(s, [], s, Writer(0));
    var b := Step(a, Writer(n));
    LeadsOn(s, [] + [Writer(0)], a, Writer(n));
    t := Step(b, Writer(0));
    LeadsOn(s, [] + [Writer(0)] + [Writer(n)], b, Writer(0));
    run := [] + [Writer(0)] + [Writer(n)] + [Writer(0)];
  }

  /** The writer counts the block, and the reader takes it. */
  lemma CountBlock(s: State) returns (run: seq<Action>, t: State)
    requires s.wpc == WTest && s.rpc == RReserve && s.writeSem == 0 && s.readSem == 1 && 0 < s.cnt <= |s.buf|
    ensures Leads(s, run, t) && t.wpc == WReserve && t.rpc == RTest && t.writeSem == 0 && t.readSem == 0
    ensures t.cnt == s.cnt && t.unread == s.unread && |t.buf| == |s.buf| && t.wXfrs == s.wXfrs + 1
  {
    var a := Step(s, Writer(0));
    LeadsOn(s, [], s, Writer(0));
    var b := Step(a, Writer(0));
    LeadsOn(s, [] + [Writer(0)], a, Writer(0));
    t := Step(b, Reader);
    LeadsOn(s, [] + [Writer(0)] + [Writer(0)], b, Reader);
    run := [] + [Writer(0)] + [Writer(0)] + [Reader];
  }

  /** The reader writes the block out and gives the token back. */
  lemma WriteBlock(s: State) returns (run: seq<Action>, t: State)
    requires s.wpc == WReserve && s.rpc == RTest && s.writeSem == 0 && s.readSem == 0 && 0 < s.cnt <= |s.buf|
    ensures Leads(s, run, t) && Between(t)
    ensures t.unread == s.unread && |t.buf| == |s.buf| && t.wXfrs == s.wXfrs
  {
    run, t := [], s;
    for i := 0 to 5
      invariant Leads(s, run, t) && t.wpc == WReserve && t.readSem == 0 && t.cnt == s.cnt
      invariant t.rpc == [RTest, RAdd, RWrite, RRelease, RNext, RReserve][i]
      invariant t.writeSem == if i <= 3 then 0 else 1
      invariant t.unread == s.unread && t.buf == s.buf && t.wXfrs == s.wXfrs
    {
      LeadsOn(s, run, t, Reader);
      run, t := run + [Reader], Step(t, Reader);
    }
  }

  /** One block of `n` bytes. */
  lemma PassBlock(s: State, n: nat) returns (run: seq<Action>, t: State)
    requires Between(s) && 0 < n <= |s.unread| && n <= |s.buf|
    ensures Leads(s, run, t) && Between(t)
    ensures t.unread == s.unread[n..] && |t.buf| == |s.buf| && t.wXfrs == s.wXfrs + 1
  {
    var one, a := HandOver(s, n);
    var two, b := CountBlock(a);
    LeadsAlong(s, one, a, two, b);
    var three, c := WriteBlock(b);
    LeadsAlong(s, one + two, b, three, c);
    run, t := one + two + three, c;
  }

  /** End of file: both programs leave. */
  lemma PassEnd(s: State) returns (run: seq<Action>, t: State)
    requires Between(s) && s.unread == []
    ensures Leads(s, run, t) && Finished(t) && t.wXfrs == s.wXfrs
  {
    var one, a := HandOver(s, 0);
    var two, b := LeaveReader(a);
    LeadsAlong(s, one, a, two, b);
    var three, c := LeaveWriter(b);
    LeadsAlong(s, one + two, b, three, c);
    run, t := one + two + three, c;
  }

  lemma LeaveReader(s: State) returns (run: seq<Action>, t: State)
    requires s.wpc == WTest && s.rpc == RReserve && s.writeSem == 0 && s.readSem == 1 && s.cnt == 0
    ensures Leads(s, run, t) && t.wpc == WTest && t.rpc == RDone && t.writeSem == 1 && t.cnt == 0
    ensures t.wXfrs == s.wXfrs
  {
    run, t := [], s;
    for i := 0 to 4
      invariant Leads(s, run, t) && t.wpc == WTest && t.cnt == 0 && t.wXfrs == s.wXfrs
      invariant t.rpc == [RReserve, RTest, RUnmap, RFinal, RDone][i]
      invariant t.readSem == (if i == 0 then 1 else 0) && t.writeSem == if i <= 3 then 0 else 1
    {
      LeadsOn(s, run, t, Reader);
      run, t := run + [Reader], Step(t, Reader);
    }
  }

  lemma LeaveWriter(s: State) returns (run: seq<Action>, t: State)
    requires s.wpc == WTest && s.rpc == RDone && s.writeSem == 1 && s.cnt == 0
    ensures Leads(s, run, t) && Finished(t) && t.wXfrs == s.wXfrs
  {
    run, t := [], s;
    for i := 0 to 3
      invariant Leads(s, run, t) && t.rpc == RDone && t.cnt == 0 && t.wXfrs == s.wXfrs
      invariant t.wpc == [WTest, WAwait, WRemove, WDone][i]
      invariant t.writeSem == if i <= 1 then 1 else 0
    {
      LeadsOn(s, run, t, Writer(0));
      run, t := run + [Writer(0)], Step(t, Writer(0));
    }
  }

  lemma AtLeastOneEach(k: nat, size: nat)
    requires size > 0
    ensures k <= k * size
  {
  }

  /** A first block that leaves `k - 1` blocks to come. */
  lemma FirstBlock(total: nat, size: nat, k: nat) returns (n: nat)
    requires size > 0 && 0 < k <= total <= k * size
    ensures 0 < n <= size && n <= total && k - 1 <= total - n <= (k - 1) * size
  {
    n := Min(size, total - (k - 1));
    assert k * size == (k - 1) * size + size;
    AtLeastOneEach(k - 1, size);
  }

  lemma {:induction false} PassBlocks(s: State, k: nat) returns (run: seq<Action>, t: State)
    requires Between(s) && |s.buf| > 0 && k <= |s.unread| <= k * |s.buf|
    ensures Leads(s, run, t) && Finished(t) && t.wXfrs == s.wXfrs + k
    decreases k
  {
    if k == 0 {
      run, t := PassEnd(s);
    } else {
      var n := FirstBlock(|s.unread|, |s.buf|, k);
      var one, u := PassBlock(s, n);
      var more, v := PassBlocks(u, k - 1);
      LeadsAlong(s, one, u, more, v);
      run, t := one + more, v;
    }
  }

  /** Some run of both programs to their ends reports `k` transfers. */
  predicate Reports(s: State, run: seq<Action>, k: int) {
    IsRun(s, run) && Finished(After(s, run)) && After(s, run).wXfrs == k && After(s, run).rXfrs == k
  }

  /** The programs can report `k` transfers exactly if the input can be split into `k` blocks that
      fit the buffer. */
  lemma ReportsIff(input: Bytes, buf: Bytes, interrupts: nat, k: nat)
    requires |buf| > 0
    ensures (exists run :: Reports(Init(input, buf, interrupts), run, k)) <==> k <= |input| <= k * |buf|
  {
    var s := Init(input, buf, interrupts);
    if run :| Reports(s, run, k) {
      BlocksAreBounded(s, run);
      RunCounts(s, run, input);
      RunKeepsInv(s, run, input);
    }
    if k <= |input| <= k * |buf| {
      var run, t := PassBlocks(s, k);
      RunKeepsInv(s, run, input);
      assert Reports(s, run, k);
    }
  }
}
