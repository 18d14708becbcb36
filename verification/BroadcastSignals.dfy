/** What the consumers of SP_HW10 receive. The numbers that get through to a consumer wait in
    order, and its handler can run whenever one is waiting, in a pause or in the middle of an
    iteration. */
module BroadcastSignals {
  import opened CStrings
  import opened Broadcast
  import opened BroadcastSafety

  /** The number, if any, that a step gets through to consumer `c`. */
  function Passed(s: State, a: Action, c: nat): seq<int> {
    if a == Produce(true) && s.p.pc == PSend && s.p.k == c then [s.p.n] else []
  }

  /** The numbers that got through to consumer `c` in a run, in the order they were sent. */
  function Delivered(cfg: Config, s: State, run: seq<Action>, c: nat): seq<int>
    requires IsRun(cfg, s, run)
    decreases run
  {
    if run == [] then [] else Passed(s, run[0], c) + Delivered(cfg, Step(cfg, s, run[0]), run[1..], c)
  }

  /** How often the handler of consumer `c` has run. */
  function Handled(run: seq<Action>, c: nat): nat {
    if run == [] then 0 else (if run[0] == Signal(c) then 1 else 0) + Handled(run[1..], c)
  }

  lemma SendingQueues(cfg: Config, s: State, delivered: bool, c: nat)
    requires Enabled(cfg, s, Produce(delivered)) && c < |s.cs|
    ensures var t := ProducerStep(cfg, s, delivered);
      && |t.cs| == |s.cs| && t.cs[c].recv == s.cs[c].recv
      && t.cs[c].pending == s.cs[c].pending + Passed(s, Produce(delivered), c)
  {
  }

  lemma ConsumingLeavesQueues(cfg: Config, s: State, d: nat, undefined: int, c: nat)
    requires Enabled(cfg, s, Consume(d, undefined)) && c < |s.cs|
    ensures var t := ConsumerStep(cfg, s, d, undefined);
      |t.cs| == |s.cs| && t.cs[c].recv == s.cs[c].recv && t.cs[c].pending == s.cs[c].pending
  {
  }

  lemma StepQueues(cfg: Config, s: State, a: Action, c: nat)
    requires Enabled(cfg, s, a) && c < |s.cs|
    ensures var t := Step(cfg, s, a);
      && |t.cs| == |s.cs|
      && (a == Signal(c) ==> s.cs[c].pending == [t.cs[c].recv] + t.cs[c].pending)
      && (a != Signal(c) ==> t.cs[c].recv == s.cs[c].recv && t.cs[c].pending == s.cs[c].pending + Passed(s, a, c))
  {
    match a
    case Produce(delivered) => SendingQueues(cfg, s, delivered, c);
    case Consume(d, undefined) => ConsumingLeavesQueues(cfg, s, d, undefined, c);
    case Signal(d) =>
    case OpenFails(d) =>
  }

  /** Of the numbers `d`, the first `h` are handled and the others wait. */
  predicate Queued(me: Consumer, start: int, d: seq<int>, h: nat) {
    h <= |d| && me.pending == d[h..] && me.recv == if h == 0 then start else d[h - 1]
  }

  lemma QueuedSignal(me: Consumer, first: int, pending: seq<int>, later: seq<int>, h: nat, start: int)
    requires Queued(me, first, pending + later, h)
    ensures Queued(me, start, ([first] + pending) + ([] + later), h + 1)
  {
    var d, longer := pending + later, ([first] + pending) + ([] + later);
    assert longer == [first] + d;
    assert longer[h + 1..] == d[h..];
  }

  lemma QueuedOther(me: Consumer, start: int, pending: seq<int>, passed: seq<int>, later: seq<int>, h: nat)
    requires Queued(me, start, (pending + passed) + later, h)
    ensures Queued(me, start, pending + (passed + later), h)
  {
    assert (pending + passed) + later == pending + (passed + later);
  }

  predicate RunQueued(cfg: Config, s: State, run: seq<Action>, c: nat)
    requires IsRun(cfg, s, run) && c < |s.cs|
  {
    && c < |After(cfg, s, run).cs|
    && Queued(After(cfg, s, run).cs[c], s.cs[c].recv, s.cs[c].pending + Delivered(cfg, s, run, c), Handled(run, c))
  }

  lemma RunQueuedCons(cfg: Config, s: State, run: seq<Action>, c: nat)
    requires IsRun(cfg, s, run) && run != [] && c < |s.cs| == |Step(cfg, s, run[0]).cs|
    requires RunQueued(cfg, Step(cfg, s, run[0]), run[1..], c)
    ensures RunQueued(cfg, s, run, c)
  {
    var t, later := Step(cfg, s, run[0]), Delivered(cfg, Step(cfg, s, run[0]), run[1..], c);
    var me, h := After(cfg, s, run).cs[c], Handled(run[1..], c);
    StepQueues(cfg, s, run[0], c);
    if run[0] == Signal(c) {
      QueuedSignal(me, t.cs[c].recv, t.cs[c].pending, later, h, s.cs[c].recv);
    } else {
      QueuedOther(me, t.cs[c].recv, s.cs[c].pending, Passed(s, run[0], c), later, h);
    }
  }

  lemma {:induction false} RunQueues(cfg: Config, s: State, run: seq<Action>, c: nat)
    requires IsRun(cfg, s, run) && c < |s.cs|
    ensures RunQueued(cfg, s, run, c)
    decreases run
  {
    if run == [] {
      assert s.cs[c].pending + [] == s.cs[c].pending;
    } else {
      StepQueues(cfg, s, run[0], c);
      RunQueues(cfg, Step(cfg, s, run[0]), run[1..], c);
      RunQueuedCons(cfg, s, run, c);
    }
  }

  lemma StartsEmpty(cfg: Config, c: nat)
    requires Usable(cfg) && c < cfg.consumers
    ensures Inv(cfg, Init(cfg)) && |Init(cfg).cs| == cfg.consumers && Signalled(Init(cfg).p, c) == 0
    ensures Init(cfg).cs[c].pending == [] && Init(cfg).cs[c].recv == 0
  {
    InitInv(cfg);
  }

  lemma NothingBefore(me: Consumer, pending: seq<int>, d: seq<int>, h: nat)
    requires pending == [] && Queued(me, 0, pending + d, h)
    ensures Queued(me, 0, d, h)
  {
    assert pending + d == d;
  }

  lemma QueuedFromStart(cfg: Config, run: seq<Action>, c: nat)
    requires Usable(cfg) && c < cfg.consumers && IsRun(cfg, Init(cfg), run)
    ensures c < |After(cfg, Init(cfg), run).cs|
    ensures Queued(After(cfg, Init(cfg), run).cs[c], 0, Delivered(cfg, Init(cfg), run, c), Handled(run, c))
  {
    var s0 := Init(cfg);
    StartsEmpty(cfg, c);
    RunQueues(cfg, s0, run, c);
    NothingBefore(After(cfg, s0, run).cs[c], s0.cs[c].pending, Delivered(cfg, s0, run, c), Handled(run, c));
  }

  lemma StaysShaped(cfg: Config, run: seq<Action>)
    requires Usable(cfg) && IsRun(cfg, Init(cfg), run)
    ensures Shape(cfg, After(cfg, Init(cfg), run))
  {
    InitInv(cfg);
    RunKeepsInv(cfg, Init(cfg), run);
  }

  lemma HandlerCanRun(cfg: Config, s: State, c: nat, d: seq<int>, h: nat)
    requires Shape(cfg, s) && c < |s.cs| && s.cs[c].pc != CDone && Queued(s.cs[c], 0, d, h)
    ensures Enabled(cfg, s, Signal(c)) <==> h < |d|
  {
  }

  /** In every run a consumer handles the numbers that got through to it one by one, in the order
      they were sent and without losing any; the number it has is the last one handled; and until
      it has left, the handler can run exactly while some number is still waiting. */
  lemma SignalsComeInOrder(cfg: Config, run: seq<Action>, c: nat)
    requires Usable(cfg) && c < cfg.consumers && IsRun(cfg, Init(cfg), run)
    ensures var s, sent, h := After(cfg, Init(cfg), run), Delivered(cfg, Init(cfg), run, c), Handled(run, c);
      && c < |s.cs| && h <= |sent| && s.cs[c].pending == sent[h..]
      && s.cs[c].recv == (if h == 0 then 0 else sent[h - 1])
      && (s.cs[c].pc != CDone ==> (Enabled(cfg, s, Signal(c)) <==> h < |sent|))
  {
    QueuedFromStart(cfg, run, c);
    StaysShaped(cfg, run);
    var s := After(cfg, Init(cfg), run);
    if s.cs[c].pc != CDone {
      HandlerCanRun(cfg, s, c, Delivered(cfg, Init(cfg), run, c), Handled(run, c));
    }
  }

  /** A comparison is of the copy with the last number that was handled. Where `seqcmp` runs off
      its end, what it happens to return decides; and only a match goes on to the counter. */
  lemma ComparesLastHandled(cfg: Config, run: seq<Action>, c: nat, undefined: int)
    requires Usable(cfg) && IsRun(cfg, Init(cfg), run) && c < cfg.consumers
    requires Enabled(cfg, After(cfg, Init(cfg), run), Consume(c, undefined))
    requires After(cfg, Init(cfg), run).cs[c].pc == CCompare
    ensures var s, sent, h := After(cfg, Init(cfg), run), Delivered(cfg, Init(cfg), run, c), Handled(run, c);
      var before, after := s.cs[c], Step(cfg, s, Consume(c, undefined)).cs[c];
      && h <= |sent| && |after.log| == |before.log| + 1 && after.log[..|before.log|] == before.log
      && var r, number := after.log[|before.log|], SeqCmp(before.split, if cfg.locked then -1 else 0);
      && r.recv == (if h == 0 then 0 else sent[h - 1]) && r.text == before.split
      && (r.counted <==> r.recv == if number.Some? then number.value else undefined)
      && (after.pc == CAdd <==> r.counted)
  {
    SignalsComeInOrder(cfg, run, c);
  }

  // ----- which numbers get through

  lemma StepSends(cfg: Config, s: State, a: Action, c: nat)
    requires Enabled(cfg, s, a) && c < |s.cs|
    ensures var sends := a.Produce? && s.p.pc == PSend && s.p.k == c;
      Signalled(Step(cfg, s, a).p, c) == Signalled(s.p, c) + (if sends then 1 else 0)
      && (sends ==> s.p.n == Signalled(s.p, c))
  {
    match a
    case Produce(delivered) =>
    case Consume(d, undefined) =>
    case Signal(d) =>
    case OpenFails(d) =>
  }

  /** Ascending numbers from `lo` up to but not including `hi`. */
  predicate Ascending(d: seq<int>, lo: int, hi: int) {
    && (forall i :: 0 <= i < |d| ==> lo <= d[i] < hi)
    && (forall i, j :: 0 <= i < j < |d| ==> d[i] < d[j])
  }

  lemma {:induction false} DeliveredAscends(cfg: Config, s: State, run: seq<Action>, c: nat)
    requires IsRun(cfg, s, run) && c < |s.cs|
    ensures Signalled(s.p, c) <= Signalled(After(cfg, s, run).p, c)
    ensures Ascending(Delivered(cfg, s, run, c), Signalled(s.p, c), Signalled(After(cfg, s, run).p, c))
    ensures Produce(false) !in run ==>
      |Delivered(cfg, s, run, c)| == Signalled(After(cfg, s, run).p, c) - Signalled(s.p, c)
    decreases run
  {
    if run != [] {
      StepSends(cfg, s, run[0], c);
      StepQueues(cfg, s, run[0], c);
      DeliveredAscends(cfg, Step(cfg, s, run[0]), run[1..], c);
    }
  }

  lemma {:induction false} AscendingAll(d: seq<int>, n: nat)
    requires Ascending(d, 0, n) && |d| == n
    ensures d == seq(n, i => i)
  {
    if n > 0 {
      if n > 1 {
        assert d[n - 2] < d[n - 1];
      }
      AscendingAll(d[..n - 1], n - 1);
      assert forall i :: 0 <= i < n - 1 ==> d[i] == d[..n - 1][i];
    }
  }

  lemma NothingMore(cfg: Config, s: State, c: nat)
    requires Inv(cfg, s) && c < |s.cs|
    ensures Signalled(s.p, c) <= cfg.dataNum
    ensures s.p.pc == PDone ==> Signalled(s.p, c) == cfg.dataNum
  {
  }

  lemma AscendingBelow(d: seq<int>, hi: int, n: int)
    requires Ascending(d, 0, hi) && hi <= n
    ensures Ascending(d, 0, n)
  {
  }

  /** The numbers that get through to a consumer ascend; and if nothing is dropped, they are the
      numbers of all messages once the producer has finished. */
  lemma NumbersThatArrive(cfg: Config, run: seq<Action>, c: nat)
    requires Usable(cfg) && c < cfg.consumers && IsRun(cfg, Init(cfg), run)
    ensures Ascending(Delivered(cfg, Init(cfg), run, c), 0, cfg.dataNum)
    ensures Produce(false) !in run && After(cfg, Init(cfg), run).p.pc == PDone ==>
      Delivered(cfg, Init(cfg), run, c) == seq(cfg.dataNum, i => i)
  {
    var s0, d := Init(cfg), Delivered(cfg, Init(cfg), run, c);
    StartsEmpty(cfg, c);
    RunKeepsInv(cfg, s0, run);
    DeliveredAscends(cfg, s0, run, c);
    RunQueues(cfg, s0, run, c);
    NothingMore(cfg, After(cfg, s0, run), c);
    AscendingBelow(d, Signalled(After(cfg, s0, run).p, c), cfg.dataNum);
    if Produce(false) !in run && After(cfg, s0, run).p.pc == PDone {
      AscendingAll(d, cfg.dataNum);
    }
  }
}
