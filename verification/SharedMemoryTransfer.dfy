/** The shared-memory transfer of SP_HW9/54: a writer and a reader pass one buffer back and
    forth under two binary semaphores.

    Every system call and every access to the shared segment is one atomic step, so a run is
    an arbitrary interleaving of the two programs. `read` may return any positive number of
    bytes that fits, and a blocked `semop` may be interrupted finitely often. */
module SharedMemoryTransfer {
  import opened Common

  /** Where the writer is; `WFill` to `WHandOver` and `WRemove` to `WDone` own the token. */
  datatype WriterPc =
    | WReserve   // reserveSem(WRITE_SEM) at the head of the loop
    | WFill      // shmp->cnt = read(..., shmp->buf, BUF_SIZE)
    | WHandOver  // releaseSem(READ_SEM)
    | WTest      // shmp->cnt == 0, read after the token is gone
    | WAdvance   // xfrs++, bytes += shmp->cnt, also read after the token is gone
    | WAwait     // the last reserveSem(WRITE_SEM)
    | WRemove    // remove the semaphores and the segment
    | WDone

  datatype ReaderPc =
    | RReserve   // reserveSem(READ_SEM)
    | RTest      // shmp->cnt == 0
    | RAdd       // bytes += shmp->cnt
    | RWrite     // write(STDOUT_FILENO, shmp->buf, shmp->cnt)
    | RRelease   // releaseSem(WRITE_SEM)
    | RNext      // xfrs++
    | RUnmap     // munmap
    | RFinal     // the last releaseSem(WRITE_SEM)
    | RDone

  datatype State = State(
    unread: Bytes, output: Bytes,
    writeSem: int, readSem: int, cnt: int, buf: Bytes, removed: bool,
    wpc: WriterPc, wBytes: int, wXfrs: int,
    rpc: ReaderPc, rBytes: int, rXfrs: int,
    interrupts: nat)

  /** Who moves next. `n` is what `read` returns when the writer is at `WFill`. */
  datatype Action = Writer(n: nat) | Reader | WriterInterrupted | ReaderInterrupted

  function Init(input: Bytes, buf: Bytes, interrupts: nat): State {
    State(input, [], 1, 0, 0, buf, false, WReserve, 0, 0, RReserve, 0, 0, interrupts)
  }

  predicate ReadMayReturn(s: State, n: nat) {
    if s.unread == [] then n == 0 else 1 <= n <= |s.unread| && n <= |s.buf|
  }

  predicate Enabled(s: State, a: Action) {
    match a
    case Writer(n) =>
      (match s.wpc
       case WReserve => s.writeSem > 0
       case WFill => ReadMayReturn(s, n)
       case WAwait => s.writeSem > 0
       case WDone => false
       case _ => true)
    case Reader =>
      (match s.rpc
       case RReserve => s.readSem > 0
       case RWrite => 0 <= s.cnt <= |s.buf|
       case RDone => false
       case _ => true)
    case WriterInterrupted => s.interrupts > 0 && (s.wpc.WReserve? || s.wpc.WAwait?)
    case ReaderInterrupted => s.interrupts > 0 && s.rpc.RReserve?
  }

  function WriterStep(s: State, n: nat): State
    requires Enabled(s, Writer(n))
  {
    match s.wpc
    case WReserve => s.(writeSem := s.writeSem - 1, wpc := WFill)
    case WFill => s.(cnt := n, buf := s.unread[..n] + s.buf[if n <= |s.buf| then n else |s.buf|..],
                     unread := s.unread[n..], wpc := WHandOver)
    case WHandOver => s.(readSem := s.readSem + 1, wpc := WTest)
    case WTest => s.(wpc := if s.cnt == 0 then WAwait else WAdvance)
    case WAdvance => s.(wXfrs := s.wXfrs + 1, wBytes := s.wBytes + s.cnt, wpc := WReserve)
    case WAwait => s.(writeSem := s.writeSem - 1, wpc := WRemove)
    case WRemove => s.(removed := true, wpc := WDone)
  }

  function ReaderStep(s: State): State
    requires Enabled(s, Reader)
  {
    match s.rpc
    case RReserve => s.(readSem := s.readSem - 1, rpc := RTest)
    case RTest => s.(rpc := if s.cnt == 0 then RUnmap else RAdd)
    case RAdd => s.(rBytes := s.rBytes + s.cnt, rpc := RWrite)
    case RWrite => s.(output := s.output + s.buf[..s.cnt], rpc := RRelease)
    case RRelease => s.(writeSem := s.writeSem + 1, rpc := RNext)
    case RNext => s.(rXfrs := s.rXfrs + 1, rpc := RReserve)
    case RUnmap => s.(rpc := RFinal)
    case RFinal => s.(writeSem := s.writeSem + 1, rpc := RDone)
  }

  function Step(s: State, a: Action): State
    requires Enabled(s, a)
  {
    match a
    case Writer(n) => WriterStep(s, n)
    case Reader => ReaderStep(s)
    case WriterInterrupted => s.(interrupts := s.interrupts - 1)
    case ReaderInterrupted => s.(interrupts := s.interrupts - 1)
  }

  /** A schedule that the two programs can follow from `s`, and the state it leads to. */
  predicate IsRun(s: State, run: seq<Action>)
    decreases run
  {
    run == [] || (Enabled(s, run[0]) && IsRun(Step(s, run[0]), run[1..]))
  }

  function After(s: State, run: seq<Action>): State
    requires IsRun(s, run)
    decreases run
  {
    if run == [] then s else After(Step(s, run[0]), run[1..])
  }

  lemma {:induction false} RunSnoc(s: State, run: seq<Action>, a: Action)
    requires IsRun(s, run) && Enabled(After(s, run), a)
    ensures IsRun(s, run + [a]) && After(s, run + [a]) == Step(After(s, run), a)
    decreases run
  {
    if run == [] {
      assert [a][1..] == [];
    } else {
      assert (run + [a])[1..] == run[1..] + [a];
      RunSnoc(Step(s, run[0]), run[1..], a);
    }
  }

  // ----- the token

  predicate WriterHolds(s: State) {
    s.wpc.WFill? || s.wpc.WHandOver? || s.wpc.WRemove? || s.wpc.WDone?
  }

  predicate ReaderHolds(s: State) {
    s.rpc.RTest? || s.rpc.RAdd? || s.rpc.RWrite? || s.rpc.RRelease? || s.rpc.RUnmap? || s.rpc.RFinal?
  }

  predicate OneToken(s: State) {
    && s.writeSem >= 0 && s.readSem >= 0
    && s.writeSem + s.readSem + Bit(WriterHolds(s)) + Bit(ReaderHolds(s)) == 1
  }

  // ----- the data

  /** The block that was read from the input but not yet written to the output. */
  function InFlight(s: State): Bytes
    requires 0 <= s.cnt <= |s.buf|
  {
    if s.wpc.WHandOver? || s.readSem == 1 || s.rpc.RTest? || s.rpc.RAdd? || s.rpc.RWrite?
    then s.buf[..s.cnt] else []
  }

  predicate Conserved(s: State, input: Bytes) {
    && 0 <= s.cnt <= |s.buf|
    && s.output + InFlight(s) + s.unread == input
  }

  predicate EofRead(s: State) {
    s.wpc.WAwait? || s.wpc.WRemove? || s.wpc.WDone? || (s.cnt == 0 && (s.wpc.WHandOver? || s.wpc.WTest?))
  }

  /** What each program counter says about `cnt` and about the other program. */
  predicate Phases(s: State) {
    && (EofRead(s) ==> s.unread == [] && s.cnt == 0)
    && (s.wpc.WAdvance? ==> s.cnt > 0)
    && (s.wpc.WReserve? && (s.readSem == 1 || ReaderHolds(s)) ==> s.cnt > 0)
    && (s.rpc.RAdd? || s.rpc.RWrite? || s.rpc.RRelease? ==> s.cnt > 0)
    && (s.rpc.RUnmap? || s.rpc.RFinal? || s.rpc.RDone? ==> EofRead(s) && !s.wpc.WHandOver?)
    && (s.rpc.RDone? ==> s.readSem == 0)
    && (EofRead(s) && !s.wpc.WHandOver? && s.readSem == 0 && !ReaderHolds(s) ==> s.rpc.RDone?)
    && (s.removed <==> s.wpc.WDone?)
  }

  predicate Counts(s: State, input: Bytes) {
    && s.wBytes + |s.unread|
       + (if s.wpc.WHandOver? || s.wpc.WTest? || s.wpc.WAdvance? then s.cnt else 0) == |input|
    && s.rBytes == |s.output| + (if s.rpc.RWrite? then s.cnt else 0)
    && s.wXfrs + Bit(s.cnt > 0 && (s.wpc.WHandOver? || s.wpc.WTest? || s.wpc.WAdvance?))
       == s.rXfrs
          + Bit(s.cnt > 0 && (s.wpc.WHandOver? || s.readSem == 1))
          + Bit(s.rpc.RNext? || (s.cnt > 0 && ReaderHolds(s)))
  }

  predicate Inv(s: State, input: Bytes) {
    |s.buf| > 0 && OneToken(s) && Conserved(s, input) && Phases(s) && Counts(s, input)
  }

  lemma WriterKeepsInv(s: State, n: nat, input: Bytes)
    requires Inv(s, input) && Enabled(s, Writer(n))
    ensures Inv(WriterStep(s, n), input)
  {
    var t := WriterStep(s, n);
    if s.wpc.WFill? {
      assert t.buf[..t.cnt] == s.unread[..n];
      assert s.output + s.unread[..n] + s.unread[n..] == s.output + s.unread;
      assert InFlight(s) == [];
    }
  }

  lemma ReaderKeepsInv(s: State, input: Bytes)
    requires Inv(s, input) && Enabled(s, Reader)
    ensures Inv(ReaderStep(s), input)
  {
  }

  lemma StepKeepsInv(s: State, a: Action, input: Bytes)
    requires Inv(s, input) && Enabled(s, a)
    ensures Inv(Step(s, a), input)
  {
    match a
    case Writer(n) => WriterKeepsInv(s, n, input);
    case Reader => ReaderKeepsInv(s, input);
    case WriterInterrupted =>
    case ReaderInterrupted =>
  }

  lemma {:induction false} RunKeepsInv(s: State, run: seq<Action>, input: Bytes)
    requires Inv(s, input) && IsRun(s, run)
    ensures Inv(After(s, run), input)
    decreases run
  {
    if run != [] {
      StepKeepsInv(s, run[0], input);
      RunKeepsInv(Step(s, run[0]), run[1..], input);
    }
  }

  /** Safety of every interleaving: one token in all, so filling and draining never overlap;
      nothing is lost, duplicated or reordered; and the IPC objects go away only after the
      reader's last access. */
  lemma EveryRunIsSafe(input: Bytes, buf: Bytes, interrupts: nat, run: seq<Action>)
    requires |buf| > 0
    requires IsRun(Init(input, buf, interrupts), run)
    ensures var s := After(Init(input, buf, interrupts), run);
            && s.writeSem in {0, 1} && s.readSem in {0, 1}
            && s.writeSem + s.readSem + Bit(WriterHolds(s)) + Bit(ReaderHolds(s)) == 1
            && 0 <= s.cnt <= |s.buf|
            && s.output + InFlight(s) + s.unread == input
            && (s.removed ==> s.rpc.RDone?)
  {
    RunKeepsInv(Init(input, buf, interrupts), run, input);
  }

  /** The writer looks at `cnt` twice after giving the token away. Whatever else happens in
      between, until it has counted the transfer `cnt` is the length of the block it handed over. */
  lemma LateCountIsStable(s: State, run: seq<Action>)
    requires s.wpc.WHandOver? && IsRun(s, run)
    ensures After(s, run).wXfrs == s.wXfrs ==> After(s, run).cnt == s.cnt
  {
    CountKeptUntilCounted(s, run);
  }

  lemma {:induction false} CountKeptUntilCounted(s: State, run: seq<Action>)
    requires IsRun(s, run)
    ensures s.wXfrs <= After(s, run).wXfrs
    ensures !s.wpc.WReserve? && !s.wpc.WFill? && After(s, run).wXfrs == s.wXfrs ==> After(s, run).cnt == s.cnt
    decreases run
  {
    if run != [] {
      CountKeptUntilCounted(Step(s, run[0]), run[1..]);
    }
  }

  // ----- the transfer counts

  /** How many blocks the writer reads in a run: its steps at `read` that return something. */
  function BlocksRead(s: State, run: seq<Action>): nat
    requires IsRun(s, run)
    decreases run
  {
    if run == [] then 0
    else
      (if s.wpc == WFill && run[0].Writer? && run[0].n > 0 then 1 else 0) + BlocksRead(Step(s, run[0]), run[1..])
  }

  /** A block has been read that the writer has not counted yet. */
  predicate Uncounted(s: State) {
    s.cnt > 0 && (s.wpc == WHandOver || s.wpc == WTest || s.wpc == WAdvance)
  }

  lemma StepCounts(s: State, a: Action, input: Bytes)
    requires Inv(s, input) && Enabled(s, a)
    ensures var t := Step(s, a);
      t.wXfrs + Bit(Uncounted(t))
      == s.wXfrs + Bit(Uncounted(s)) + (if s.wpc == WFill && a.Writer? && a.n > 0 then 1 else 0)
  {
    StepKeepsInv(s, a, input);
  }

  lemma {:induction false} RunCounts(s: State, run: seq<Action>, input: Bytes)
    requires Inv(s, input) && IsRun(s, run)
    ensures After(s, run).wXfrs + Bit(Uncounted(After(s, run)))
            == s.wXfrs + Bit(Uncounted(s)) + BlocksRead(s, run)
    decreases run
  {
    if run != [] {
      StepCounts(s, run[0], input);
      StepKeepsInv(s, run[0], input);
      RunCounts(Step(s, run[0]), run[1..], input);
    }
  }

  /** In every run the writer's count is the number of non-empty blocks it has read, but for one
      it is about to count. */
  lemma TransfersAreBlocks(input: Bytes, buf: Bytes, interrupts: nat, run: seq<Action>)
    requires |buf| > 0
    requires IsRun(Init(input, buf, interrupts), run)
    ensures var s := After(Init(input, buf, interrupts), run);
      s.wXfrs + (if Uncounted(s) then 1 else 0) == BlocksRead(Init(input, buf, interrupts), run)
  {
    RunCounts(Init(input, buf, interrupts), run, input);
  }

  // ----- progress and termination

  predicate Finished(s: State) { s.wpc.WDone? && s.rpc.RDone? }

  /** Someone can always move: here is who. */
  function Mover(s: State): Action {
    if Enabled(s, Reader) then Reader
    else Writer(if s.unread == [] then 0 else 1)
  }

  lemma NoDeadlock(s: State, input: Bytes)
    requires Inv(s, input) && !Finished(s)
    ensures Enabled(s, Mover(s))
  {
  }

  function WriterWork(pc: WriterPc): nat {
    match pc
    case WReserve => 1
    case WFill => 0
    case WHandOver => 10
    case WTest => 3
    case WAdvance => 2
    case WAwait => 2
    case WRemove => 1
    case WDone => 0
  }

  function ReaderWork(pc: ReaderPc): nat {
    match pc
    case RReserve => 0
    case RTest => 5
    case RAdd => 4
    case RWrite => 3
    case RRelease => 2
    case RNext => 1
    case RUnmap => 2
    case RFinal => 1
    case RDone => 0
  }

  /** An upper bound on the steps still to come. */
  function Work(s: State): int {
    s.interrupts + 11 * (|s.unread| + Bit(!EofRead(s))) + WriterWork(s.wpc) + ReaderWork(s.rpc) + 6 * s.readSem
  }

  lemma StepUsesWork(s: State, a: Action, input: Bytes)
    requires Inv(s, input) && Enabled(s, a)
    ensures 0 <= Work(Step(s, a)) < Work(s)
  {
    StepKeepsInv(s, a, input);
  }

  lemma {:induction false} RunUsesWork(s: State, run: seq<Action>, input: Bytes)
    requires Inv(s, input) && IsRun(s, run)
    ensures |run| + Work(After(s, run)) <= Work(s)
    ensures Work(After(s, run)) >= 0
    decreases run
  {
    if run != [] {
      StepUsesWork(s, run[0], input);
      StepKeepsInv(s, run[0], input);
      RunUsesWork(Step(s, run[0]), run[1..], input);
    }
  }

  /** No run is longer than linear in the input, and a run that cannot be extended has
      finished: the output is the input, both sides report its length, and both report the number
      of blocks that were read. */
  lemma EveryRunEndsWell(input: Bytes, buf: Bytes, interrupts: nat, run: seq<Action>)
    requires |buf| > 0
    requires IsRun(Init(input, buf, interrupts), run)
    ensures |run| <= 11 * |input| + 12 + interrupts
    ensures var s := After(Init(input, buf, interrupts), run);
            (forall a :: !Enabled(s, a)) ==>
              && Finished(s) && s.removed
              && s.output == input
              && s.wBytes == s.rBytes == |input|
              && s.wXfrs == s.rXfrs == BlocksRead(Init(input, buf, interrupts), run)
  {
    var s0 := Init(input, buf, interrupts);
    RunUsesWork(s0, run, input);
    RunKeepsInv(s0, run, input);
    RunCounts(s0, run, input);
    var s := After(s0, run);
    if forall a :: !Enabled(s, a) {
      if !Finished(s) {
        NoDeadlock(s, input);
        assert false;
      }
    }
  }

  // ----- binary_sems.c

  const WRITE_SEM := 0
  const READ_SEM := 1
  const RETRY_ON_EINTR := true

  datatype Reply = Granted | Eintr | OtherError

  /** One `semop` that subtracts 1: how it returned, and the values of the set at that moment.
      Others may have changed them while the call was blocked. */
  datatype Answer = Answer(reply: Reply, values: seq<int>)

  predicate Stops(reply: Reply, retryOnEintr: bool) { reply != Eintr || !retryOnEintr }

  /** The answer at which `reserveSem` stops asking: the first one it does not retry. */
  function Settled(answers: seq<Answer>, retryOnEintr: bool): (k: nat)
    requires exists i :: 0 <= i < |answers| && Stops(answers[i].reply, retryOnEintr)
    ensures k < |answers| && (answers[k].reply != Eintr || !retryOnEintr)
    ensures forall i :: 0 <= i < k ==> answers[i].reply == Eintr && retryOnEintr
  {
    if Stops(answers[0].reply, retryOnEintr) then 0 else
      assert exists i :: 0 <= i < |answers[1..]| && Stops(answers[1..][i].reply, retryOnEintr) by {
        var i :| 0 <= i < |answers| && Stops(answers[i].reply, retryOnEintr);
        assert answers[1..][i - 1] == answers[i];
      }
      1 + Settled(answers[1..], retryOnEintr)
  }

  class SemaphoreSet {
    var value: seq<int>

    constructor (n: nat)
      ensures |value| == n
    {
      value := seq(n, _ => 0);
    }

    method InitSemAvailable(semNum: nat)
      requires semNum < |value|
      modifies this
      ensures value == old(value)[semNum := 1]
    {
      value := value[semNum := 1];
    }

    method InitSemInUse(semNum: nat)
      requires semNum < |value|
      modifies this
      ensures value == old(value)[semNum := 0]
    {
      value := value[semNum := 0];
    }

    /** One turn of the loop in `reserveSem`. A granted `semop` found a positive value. */
    method Attempt(semNum: nat, retryOnEintr: bool, reply: Reply) returns (done: bool, status: int)
      requires semNum < |value| && (reply == Granted ==> value[semNum] > 0)
      modifies this
      ensures done == (reply != Eintr || !retryOnEintr) && status == (if reply == Granted then 0 else -1)
      ensures value == if reply == Granted then old(value)[semNum := old(value)[semNum] - 1] else old(value)
    {
      if reply == Granted {
        value := value[semNum := value[semNum] - 1];
        return true, 0;
      }
      return reply != Eintr || !retryOnEintr, -1;
    }

    /** The retry loop: however often `semop` blocks and is interrupted, and whatever others do
        to the set meanwhile, the semaphore goes down exactly once, from the positive value at
        which the call is granted, and only when 0 is returned. */
    method ReserveSem(semNum: nat, retryOnEintr: bool, answers: seq<Answer>) returns (status: int)
      requires semNum < |value|
      requires exists i :: 0 <= i < |answers| && Stops(answers[i].reply, retryOnEintr)
      requires forall i :: 0 <= i < |answers| ==>
        |answers[i].values| == |value| && (answers[i].reply == Granted ==> answers[i].values[semNum] > 0)
      modifies this
      ensures var a := answers[Settled(answers, retryOnEintr)];
        && status == (if a.reply == Granted then 0 else -1)
        && value == if status == 0 then a.values[semNum := a.values[semNum] - 1] else a.values
    {
      var k, done := 0, false;
      status := -1;
      while !done
        invariant 0 <= k < |answers| && semNum < |value|
        invariant k == Settled(answers, retryOnEintr) || !done
        invariant forall i :: 0 <= i < k ==> !Stops(answers[i].reply, retryOnEintr)
        invariant done ==> var a := answers[k];
          && status == (if a.reply == Granted then 0 else -1)
          && value == if status == 0 then a.values[semNum := a.values[semNum] - 1] else a.values
        decreases if done then 0 else |answers| - k
      {
        value := answers[k].values;  // what others have done by the time the call returns
        done, status := Attempt(semNum, retryOnEintr, answers[k].reply);
        if !done {
          k := k + 1;
        }
      }
    }

    method ReleaseSem(semNum: nat)
      requires semNum < |value|
      modifies this
      ensures value == old(value)[semNum := old(value)[semNum] + 1]
    {
      value := value[semNum := value[semNum] + 1];
    }
  }

  // ----- the two programs over shared fields

  /** The segment, the semaphores and the variables of both programs. */
  class Transfer {
    var unread: Bytes
    var output: Bytes
    const sems: SemaphoreSet
    var cnt: int
    var buf: Bytes
    var removed: bool
    var wpc: WriterPc
    var wBytes: int
    var wXfrs: int
    var rpc: ReaderPc
    var rBytes: int
    var rXfrs: int
    var interrupts: nat

    predicate Valid()
      reads sems
    {
      |sems.value| == 2
    }

    function View(): State
      requires Valid()
      reads this, sems
    {
      State(unread, output, sems.value[WRITE_SEM], sems.value[READ_SEM], cnt, buf, removed,
            wpc, wBytes, wXfrs, rpc, rBytes, rXfrs, interrupts)
    }

    constructor (input: Bytes, segment: Bytes, interrupts: nat)
      ensures Valid() && fresh(sems) && View() == Init(input, segment, interrupts)
    {
      unread, output, cnt, buf, removed := input, [], 0, segment, false;
      wpc, wBytes, wXfrs := WReserve, 0, 0;
      rpc, rBytes, rXfrs := RReserve, 0, 0;
      this.interrupts := interrupts;
      sems := new SemaphoreSet(2);
      new;
      sems.InitSemAvailable(WRITE_SEM);
      sems.InitSemInUse(READ_SEM);
    }

    predicate WriterReady()
      requires Valid()
      reads this, sems
    {
      wpc != WDone && (wpc == WReserve || wpc == WAwait ==> sems.value[WRITE_SEM] > 0)
    }

    predicate ReaderReady()
      requires Valid()
      reads this, sems
    {
      rpc != RDone && (rpc == RReserve ==> sems.value[READ_SEM] > 0)
    }

    /** One step of the writer; `n` is what `read` returned, if it was called. */
    method WriterTurn() returns (ghost n: nat)
      requires Valid() && |buf| > 0 && WriterReady()
      modifies this, sems
      ensures Valid() && Enabled(old(View()), Writer(n)) && View() == Step(old(View()), Writer(n))
    {
      n := 0;
      match wpc
      case WReserve =>
        var done, status := sems.Attempt(WRITE_SEM, RETRY_ON_EINTR, Granted);
        wpc := WFill;
      case WFill =>
        n := Fill();
      case WHandOver =>
        sems.ReleaseSem(READ_SEM);
        wpc := WTest;
      case WTest => wpc := if cnt == 0 then WAwait else WAdvance;
      case WAdvance => wXfrs, wBytes, wpc := wXfrs + 1, wBytes + cnt, WReserve;
      case WAwait =>
        var done, status := sems.Attempt(WRITE_SEM, RETRY_ON_EINTR, Granted);
        wpc := WRemove;
      case WRemove => removed, wpc := true, WDone;
    }

    /** shmp->cnt = read(STDIN_FILENO, shmp->buf, BUF_SIZE), which may read less than it could. */
    method Fill() returns (count: nat)
      requires Valid() && |buf| > 0 && wpc == WFill
      modifies this
      ensures Valid() && Enabled(old(View()), Writer(count)) && View() == Step(old(View()), Writer(count))
    {
      count := 0;
      if unread != [] {
        count :| 1 <= count <= |unread| && count <= |buf|;
      }
      cnt, buf, unread, wpc := count, unread[..count] + buf[count..], unread[count..], WHandOver;
    }

    /** One step of the reader. */
    method ReaderTurn()
      requires Valid() && 0 <= cnt <= |buf| && ReaderReady()
      modifies this, sems
      ensures Valid() && Enabled(old(View()), Reader) && View() == Step(old(View()), Reader)
    {
      match rpc
      case RReserve =>
        var done, status := sems.Attempt(READ_SEM, RETRY_ON_EINTR, Granted);
        rpc := RTest;
      case RTest => rpc := if cnt == 0 then RUnmap else RAdd;
      case RAdd => rBytes, rpc := rBytes + cnt, RWrite;
      case RWrite => output, rpc := output + buf[..cnt], RRelease;
      case RRelease =>
        sems.ReleaseSem(WRITE_SEM);
        rpc := RNext;
      case RNext => rXfrs, rpc := rXfrs + 1, RReserve;
      case RUnmap => rpc := RFinal;
      case RFinal =>
        sems.ReleaseSem(WRITE_SEM);
        rpc := RDone;
    }

    /** A signal handler interrupts a `semop`, and the loop in `reserveSem` goes round. */
    method Interrupt(semNum: nat)
      requires Valid() && semNum < 2 && interrupts > 0
      modifies this, sems
      ensures Valid() && View() == old(View()).(interrupts := old(interrupts) - 1)
    {
      var done, status := sems.Attempt(semNum, RETRY_ON_EINTR, Eintr);
      assert !done;
      interrupts := interrupts - 1;
    }

    /** Whoever is scheduled moves. The `if` has no other case: until both programs are done
        some case is open, so they never deadlock. */
    method Turn(ghost input: Bytes) returns (ghost a: Action)
      requires Valid() && Inv(View(), input) && !Finished(View())
      modifies this, sems
      ensures Valid() && Inv(View(), input)
      ensures Enabled(old(View()), a) && View() == Step(old(View()), a)
      ensures 0 <= Work(View()) < old(Work(View()))
    {
      ghost var before := View();
      a := Reader;
      NoDeadlock(before, input);
      if {
        case WriterReady() =>
          ghost var n := WriterTurn();
          a := Writer(n);
        case ReaderReady() =>
          ReaderTurn();
        case (wpc == WReserve || wpc == WAwait) && interrupts > 0 =>
          Interrupt(WRITE_SEM);
          a := WriterInterrupted;
        case rpc == RReserve && interrupts > 0 =>
          Interrupt(READ_SEM);
          a := ReaderInterrupted;
      }
      StepKeepsInv(before, a, input);
      StepUsesWork(before, a, input);
    }

    /** Both programs, interleaved in any way, until both have exited. */
    method Run() returns (ghost run: seq<Action>)
      requires Valid() && View() == Init(unread, buf, interrupts) && |buf| > 0
      modifies this, sems
      ensures output == old(unread) && unread == []
      ensures IsRun(old(View()), run) && wBytes == rBytes == |old(unread)|
      ensures wXfrs == rXfrs == BlocksRead(old(View()), run)
      ensures Valid() && Finished(View()) && removed
    {
      ghost var input, start := unread, View();
      run := [];
      while wpc != WDone || rpc != RDone
        invariant Valid() && Inv(View(), input)
        invariant IsRun(start, run) && After(start, run) == View()
        decreases Work(View())
      {
        ghost var a := Turn(input);
        RunSnoc(start, run, a);
        run := run + [a];
      }
      RunCounts(start, run, input);
    }
  }
}
