/** What the comparisons of both programs of SP_HW10 come to: when a receipt is counted, and how
    many comparisons a consumer has made when it leaves. */
module BroadcastOutcomes {
  import opened CStrings
  import opened Broadcast
  import opened BroadcastSafety

  /** A copy with a defined number counts exactly when the signal carried that number. */
  predicate Judged(cfg: Config, r: Receipt) {
    var number := SeqCmp(r.text, if cfg.locked then -1 else 0);
    number.Some? ==> (r.counted <==> r.recv == number.value)
  }

  predicate LogJudged(cfg: Config, log: seq<Receipt>) {
    forall j :: 0 <= j < |log| ==> Judged(cfg, log[j])
  }

  /** A consumer leaves before its first comparison or after its last. */
  predicate OutcomeOk(cfg: Config, c: Consumer) {
    && LogJudged(cfg, c.log)
    && (c.pc == COpen ==> c.log == [])
    && (c.pc == CDone ==> c.log == [] || |c.log| == cfg.dataNum)
  }

  predicate Outcomes(cfg: Config, s: State) {
    forall c :: 0 <= c < |s.cs| ==> OutcomeOk(cfg, s.cs[c])
  }

  lemma ComparedOutcome(cfg: Config, me: Consumer, undefined: int)
    requires OutcomeOk(cfg, me)
    ensures OutcomeOk(cfg, Compared(cfg, me, undefined))
  {
    var log := Compared(cfg, me, undefined).log;
    forall j | 0 <= j < |log| ensures Judged(cfg, log[j]) {
      assert j < |me.log| ==> log[j] == me.log[j];
    }
  }

  lemma ConsumerOutcome(cfg: Config, s: State, c: nat, undefined: int)
    requires Inv(cfg, s) && Enabled(cfg, s, Consume(c, undefined)) && OutcomeOk(cfg, s.cs[c])
    ensures var t := ConsumerStep(cfg, s, c, undefined);
      t.cs == s.cs[c := t.cs[c]] && OutcomeOk(cfg, t.cs[c])
      && (t.cs[c].pc == CDone ==> |t.cs[c].log| == cfg.dataNum)
  {
    var me := s.cs[c];
    assert ConsumerOk(cfg, me, Signalled(s.p, c));
    if me.pc == CCompare {
      ComparedOutcome(cfg, me, undefined);
    }
  }

  lemma SignalOutcome(cfg: Config, s: State, c: nat)
    requires Inv(cfg, s) && Enabled(cfg, s, Signal(c)) && OutcomeOk(cfg, s.cs[c])
    ensures OutcomeOk(cfg, Woken(s.cs[c])) && Woken(s.cs[c]).pc != CDone
  {
    assert ConsumerOk(cfg, s.cs[c], Signalled(s.p, c));
  }

  /** A producer step leaves the logs and places of the consumers alone. */
  lemma ProducerOutcome(cfg: Config, s: State, delivered: bool)
    requires Enabled(cfg, s, Produce(delivered))
    ensures var t := ProducerStep(cfg, s, delivered);
      |t.cs| == |s.cs| && forall c :: 0 <= c < |s.cs| ==> t.cs[c].log == s.cs[c].log && t.cs[c].pc == s.cs[c].pc
  {
  }

  lemma StepKeepsOutcomes(cfg: Config, s: State, a: Action)
    requires Inv(cfg, s) && Outcomes(cfg, s) && Enabled(cfg, s, a)
    ensures Outcomes(cfg, Step(cfg, s, a))
  {
    match a
    case Produce(delivered) =>
      ProducerOutcome(cfg, s, delivered);
      forall c | 0 <= c < |s.cs| ensures OutcomeOk(cfg, Step(cfg, s, a).cs[c]) {
        assert OutcomeOk(cfg, s.cs[c]);
      }
    case Consume(c, undefined) => ConsumerOutcome(cfg, s, c, undefined);
    case Signal(c) => SignalOutcome(cfg, s, c);
    case OpenFails(c) => assert OutcomeOk(cfg, s.cs[c]);
  }

  lemma {:induction false} RunKeepsOutcomes(cfg: Config, s: State, run: seq<Action>)
    requires Inv(cfg, s) && Outcomes(cfg, s) && IsRun(cfg, s, run)
    ensures Outcomes(cfg, After(cfg, s, run)) && |After(cfg, s, run).cs| == |s.cs|
    decreases run
  {
    if run != [] {
      StepKeepsOutcomes(cfg, s, run[0]);
      StepKeepsInv(cfg, s, run[0]);
      RunKeepsOutcomes(cfg, Step(cfg, s, run[0]), run[1..]);
    }
  }

  /** A consumer that leaves without a failed open has made all its comparisons. */
  predicate LeavesLate(cfg: Config, s: State, c: nat) {
    c < |s.cs| && (s.cs[c].pc == CDone ==> |s.cs[c].log| == cfg.dataNum)
  }

  lemma StepLeavesLate(cfg: Config, s: State, a: Action, c: nat)
    requires Inv(cfg, s) && Outcomes(cfg, s) && Enabled(cfg, s, a) && LeavesLate(cfg, s, c) && a != OpenFails(c)
    ensures LeavesLate(cfg, Step(cfg, s, a), c)
  {
    assert OutcomeOk(cfg, s.cs[c]);
    match a
    case Produce(delivered) => ProducerOutcome(cfg, s, delivered);
    case Consume(d, undefined) =>
      assert OutcomeOk(cfg, s.cs[d]);
      ConsumerOutcome(cfg, s, d, undefined);
    case Signal(d) =>
    case OpenFails(d) =>
  }

  lemma {:induction false} RunLeavesLate(cfg: Config, s: State, run: seq<Action>, c: nat)
    requires Inv(cfg, s) && Outcomes(cfg, s) && IsRun(cfg, s, run) && LeavesLate(cfg, s, c)
    requires OpenFails(c) !in run
    ensures LeavesLate(cfg, After(cfg, s, run), c)
    decreases run
  {
    if run != [] {
      StepLeavesLate(cfg, s, run[0], c);
      StepKeepsOutcomes(cfg, s, run[0]);
      StepKeepsInv(cfg, s, run[0]);
      RunLeavesLate(cfg, Step(cfg, s, run[0]), run[1..], c);
    }
  }

  lemma InitOutcomes(cfg: Config)
    requires Usable(cfg)
    ensures Inv(cfg, Init(cfg)) && Outcomes(cfg, Init(cfg))
  {
    InitInv(cfg);
  }

  // ----- in every run

  /** Locked or not, whatever was copied: if `seqcmp` yields a number for the copy, the receipt is
      counted exactly when the signal carried that number. */
  lemma CountedIff(cfg: Config, run: seq<Action>, c: nat, j: nat)
    requires Usable(cfg) && IsRun(cfg, Init(cfg), run)
    requires c < |After(cfg, Init(cfg), run).cs| && j < |After(cfg, Init(cfg), run).cs[c].log|
    ensures var r := After(cfg, Init(cfg), run).cs[c].log[j];
      var number := SeqCmp(r.text, if cfg.locked then -1 else 0);
      number.Some? ==> (r.counted <==> r.recv == number.value)
  {
    InitOutcomes(cfg);
    RunKeepsOutcomes(cfg, Init(cfg), run);
    var s := After(cfg, Init(cfg), run);
    assert OutcomeOk(cfg, s.cs[c]);
    assert Judged(cfg, s.cs[c].log[j]);
  }

  /** So in program.c a receipt whose copy happens to be a whole message m > 0 counts exactly when
      the signal carried m. */
  lemma WholeCopyCountsIff(cfg: Config, run: seq<Action>, c: nat, j: nat, m: nat)
    requires Usable(cfg) && cfg.msg == PREFIX && IsRun(cfg, Init(cfg), run) && m > 0
    requires c < |After(cfg, Init(cfg), run).cs| && j < |After(cfg, Init(cfg), run).cs[c].log|
    requires After(cfg, Init(cfg), run).cs[c].log[j].text == "This is message " + Decimal(m) + "\n"
    ensures var r := After(cfg, Init(cfg), run).cs[c].log[j];
      r.counted <==> r.recv == m
  {
    CountedIff(cfg, run, c, j);
    SeqCmpOfMessage(cfg, m, if cfg.locked then -1 else 0);
  }

  /** A consumer that has left had its open fail, or has compared in every iteration; without a
      failed open only the second. */
  lemma ConsumersFinish(cfg: Config, run: seq<Action>, c: nat)
    requires Usable(cfg) && IsRun(cfg, Init(cfg), run) && c < |After(cfg, Init(cfg), run).cs|
    requires After(cfg, Init(cfg), run).cs[c].pc == CDone
    ensures var log := After(cfg, Init(cfg), run).cs[c].log;
      && (log == [] || |log| == cfg.dataNum)
      && (OpenFails(c) !in run ==> |log| == cfg.dataNum)
  {
    InitOutcomes(cfg);
    RunKeepsOutcomes(cfg, Init(cfg), run);
    assert OutcomeOk(cfg, After(cfg, Init(cfg), run).cs[c]);
    if OpenFails(c) !in run {
      RunLeavesLate(cfg, Init(cfg), run, c);
    }
  }
}
