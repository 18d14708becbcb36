/** The main results about every run of the broadcast of SP_HW10. */
module BroadcastResults {
  import opened CStrings
  import opened Broadcast
  import opened BroadcastSafety
  import opened BroadcastLocked

  /** The state after a run from the start. */
  function Reached(cfg: Config, run: seq<Action>): State
    requires Usable(cfg) && IsRun(cfg, Init(cfg), run)
  {
    After(cfg, Init(cfg), run)
  }

  lemma ReachedInv(cfg: Config, run: seq<Action>)
    requires Usable(cfg) && IsRun(cfg, Init(cfg), run)
    ensures Inv(cfg, Reached(cfg, run))
    ensures cfg.locked ==> Guarded(cfg, Reached(cfg, run))
  {
    if cfg.locked {
      InitGuarded(cfg);
      RunKeepsGuarded(cfg, Init(cfg), run);
    } else {
      InitInv(cfg);
      RunKeepsInv(cfg, Init(cfg), run);
    }
  }

  /** Mutual exclusion: the lock word is 0 or 1, it is 1 exactly when some process is between
      its compare-and-swap and its release, and no two processes ever are. */
  lemma LockExcludes(cfg: Config, run: seq<Action>)
    requires Usable(cfg) && cfg.locked && IsRun(cfg, Init(cfg), run)
    ensures var s := Reached(cfg, run);
            && Shape(cfg, s)
            && Lock(cfg, s) in {0, 1}
            && (Lock(cfg, s) == 1 <==>
                  ProducerInSection(s.p) || exists c :: 0 <= c < |s.cs| && InSection(s.cs[c]))
            && (forall c :: 0 <= c < |s.cs| && InSection(s.cs[c]) ==> !ProducerInSection(s.p))
            && (forall c, d :: 0 <= c < d < |s.cs| && InSection(s.cs[c]) ==> !InSection(s.cs[d]))
  {
    ReachedInv(cfg, run);
    var s := Reached(cfg, run);
    forall c | 0 <= c < |s.cs| && InSection(s.cs[c])
      ensures Inside(s.cs) >= 1 && forall d :: 0 <= d < |s.cs| && d != c && InSection(s.cs[d]) ==> Inside(s.cs) >= 2
    {
      InsideAtLeast(s.cs, c);
    }
    if forall c :: 0 <= c < |s.cs| ==> !InSection(s.cs[c]) {
      InsideNone(s.cs);
    }
  }

  /** Every copy a consumer compares in iteration `j` is a whole message `m` with m >= j in the
      slot of `j`; it fits its array; and if m is not 0 the comparison succeeds exactly when the
      signal carried `m` too. */
  lemma CopiesAreWhole(cfg: Config, run: seq<Action>, c: nat, j: nat)
    requires Usable(cfg) && cfg.locked && cfg.msg == PREFIX && IsRun(cfg, Init(cfg), run)
    requires c < |Reached(cfg, run).cs| && j < |Reached(cfg, run).cs[c].log|
    ensures var r := Reached(cfg, run).cs[c].log[j];
            && r.message >= j && r.message % cfg.slots == j % cfg.slots
            && r.text == "This is message " + Decimal(r.message) + "\n" && |r.text| < SPLIT_SIZE
            && (r.message > 0 ==> (r.counted <==> r.recv == r.message))
  {
    ReachedInv(cfg, run);
    var s := Reached(cfg, run);
    assert SnapshotsOk(cfg, s.cs[c], s.last);
    var r := s.cs[c].log[j];
    assert ReceiptOk(cfg, r, j);
    SlotIsRemainder(r.message, cfg);
    SlotIsRemainder(j, cfg);
    SeqCmpOfMessage(cfg, r.message, -1);
  }

  /** Locked or not: the numbers a consumer has received when it compares in iterations 0, 1, ...
      strictly increase, and the one of iteration `j` is at least `j`. So no signal is counted
      twice. */
  lemma ReceivedNumbersIncrease(cfg: Config, run: seq<Action>, c: nat)
    requires Usable(cfg) && IsRun(cfg, Init(cfg), run) && c < |Reached(cfg, run).cs|
    ensures var log := Reached(cfg, run).cs[c].log;
            && (forall i, j :: 0 <= i < j < |log| ==> log[i].recv < log[j].recv)
            && (forall j :: 0 <= j < |log| ==> j <= log[j].recv < cfg.dataNum)
            && |log| <= cfg.dataNum
  {
    ReachedInv(cfg, run);
    var s := Reached(cfg, run);
    var me := s.cs[c];
    assert ConsumerOk(cfg, me, Signalled(s.p, c));
    forall j | 0 <= j < |me.log| ensures me.log[j].recv < cfg.dataNum {
      assert me.log[j].recv <= me.log[|me.log| - 1].recv;
    }
  }

  /** strcpy only ever writes among the first 27 bytes of a slot, so never to the counter or the
      lock word, which live in bytes 40 to 47 of the last slot. */
  lemma MessagesMissTheWords(cfg: Config, run: seq<Action>, delivered: bool)
    requires Usable(cfg) && IsRun(cfg, Init(cfg), run) && Reached(cfg, run).p.pc == PCopy
    requires Enabled(cfg, Reached(cfg, run), Produce(delivered))
    ensures var s := Reached(cfg, run);
            var t := Step(cfg, s, Produce(delivered));
            var a := Base(s.p.slot) + s.p.i;
            && s.p.i < 27 && |t.mem| == |s.mem|
            && (forall b :: 0 <= b < |s.mem| && b != a ==> t.mem[b] == s.mem[b])
            && a < CounterAddress(cfg) < LockAddress(cfg)
            && s.mem[a].Ch? && t.mem[a].Ch?
  {
    ReachedInv(cfg, run);
    var s := Reached(cfg, run);
    MessageFits(cfg, s.p.n);
    assert At(s.mem, s.p.slot, s.p.i).Ch?;
  }

  // ----- the counter and the loss rate

  function Matches(cs: seq<Consumer>): nat {
    if cs == [] then 0 else Matches(cs[..|cs| - 1]) + Counted(cs[|cs| - 1].log)
  }

  predicate MatchedAlways(cfg: Config, c: Consumer) {
    |c.log| == cfg.dataNum && forall j :: 0 <= j < |c.log| ==> c.log[j].counted
  }

  /** Every consumer matched in every iteration. */
  predicate AllMatched(cfg: Config, cs: seq<Consumer>) {
    forall c :: 0 <= c < |cs| ==> MatchedAlways(cfg, cs[c])
  }

  lemma {:induction false} CountedBound(log: seq<Receipt>)
    ensures Counted(log) <= |log|
    ensures Counted(log) == |log| <==> forall j :: 0 <= j < |log| ==> log[j].counted
  {
    if log != [] {
      CountedBound(log[..|log| - 1]);
    }
  }

  lemma {:induction false} MatchesBound(cfg: Config, cs: seq<Consumer>)
    requires forall c :: 0 <= c < |cs| ==> |cs[c].log| <= cfg.dataNum
    ensures Matches(cs) <= |cs| * cfg.dataNum
    ensures Matches(cs) == |cs| * cfg.dataNum <==> AllMatched(cfg, cs)
  {
    if cs != [] {
      var n := |cs| - 1;
      var before, last := cs[..n], cs[n];
      MatchesBound(cfg, before);
      CountedBound(last.log);
      assert |cs| * cfg.dataNum == |before| * cfg.dataNum + cfg.dataNum;
      assert Counted(last.log) == cfg.dataNum <==> MatchedAlways(cfg, last);
      AllMatchedSplit(cfg, before, last);
      assert cs == before + [last];
    }
  }

  lemma AllMatchedSplit(cfg: Config, before: seq<Consumer>, last: Consumer)
    ensures AllMatched(cfg, before + [last]) <==> AllMatched(cfg, before) && MatchedAlways(cfg, last)
  {
    var cs := before + [last];
    if AllMatched(cfg, cs) {
      forall c | 0 <= c < |before| ensures MatchedAlways(cfg, before[c]) {
        assert cs[c] == before[c];
      }
      assert cs[|before|] == last;
    }
  }

  lemma {:induction false} AddedIsMatches(cs: seq<Consumer>)
    ensures TotalAdded(cs) <= Matches(cs)
    ensures (forall c :: 0 <= c < |cs| ==> cs[c].pc != CAdd) ==> TotalAdded(cs) == Matches(cs)
  {
    if cs != [] {
      AddedIsMatches(cs[..|cs| - 1]);
    }
  }

  /** Locked or not, no increment is lost: the shared counter is the sum of the consumers'
      matches, except for those just about to be added, and at most data_num * consumer. */
  lemma CounterIsExact(cfg: Config, run: seq<Action>)
    requires Usable(cfg) && IsRun(cfg, Init(cfg), run)
    ensures Shape(cfg, Reached(cfg, run))
    ensures var s := Reached(cfg, run);
            var counter := s.mem[CounterAddress(cfg)];
            && counter.Word? && counter.w == TotalAdded(s.cs) <= Matches(s.cs) <= cfg.consumers * cfg.dataNum
            && ((forall c :: 0 <= c < |s.cs| ==> s.cs[c].pc == CDone) ==> counter.w == Matches(s.cs))
  {
    ReachedInv(cfg, run);
    var s := Reached(cfg, run);
    forall c | 0 <= c < |s.cs| ensures |s.cs[c].log| <= cfg.dataNum {
      ReceivedNumbersIncrease(cfg, run, c);
    }
    MatchesBound(cfg, s.cs);
    AddedIsMatches(s.cs);
  }

  /** The loss rate program.c means to print, without rounding. */
  function LossRate(counter: int, total: nat): real
    requires total > 0
  {
    1.0 - counter as real / total as real
  }

  /** What program_enhanced.c prints: the division is between ints. */
  function PrintedLossRate(counter: int, total: nat): int
    requires total > 0
  {
    1 - counter / total
  }

  lemma RatioBounds(a: int, b: nat)
    requires b > 0 && 0 <= a <= b
    ensures 0.0 <= a as real / b as real <= 1.0
    ensures a as real / b as real == 1.0 <==> a == b
    ensures a / b == if a == b then 1 else 0
  {
    var q := a as real / b as real;
    assert q * b as real == a as real;
  }

  /** The printed rate is the exact one only if nothing or everything was counted. */
  lemma PrintedRateIff(counter: int, total: nat)
    requires total > 0 && 0 <= counter <= total
    ensures PrintedLossRate(counter, total) as real == LossRate(counter, total) <==> counter == 0 || counter == total
  {
    RatioBounds(counter, total);
    RatioIsZero(counter, total);
  }

  lemma RatioIsZero(a: int, b: nat)
    requires b > 0
    ensures a as real / b as real == 0.0 <==> a == 0
  {
    var q := a as real / b as real;
    assert q * b as real == a as real;
  }

  /** One of two receipts counted: half is lost, and the program prints 1. */
  lemma HalfIsPrintedAsAll()
    ensures LossRate(1, 2) == 0.5 && PrintedLossRate(1, 2) == 1
  {
  }

  /** When all consumers have finished, the exact loss rate lies in [0, 1] and is 0 exactly when
      every consumer matched in every iteration. The rate program_enhanced.c prints tells only
      that: it is 0 in that case and 1 in every other, so it is right then and if nothing at all
      was counted. */
  lemma LossRateMeaning(cfg: Config, run: seq<Action>)
    requires Usable(cfg) && IsRun(cfg, Init(cfg), run) && cfg.dataNum > 0 && cfg.consumers > 0
    requires forall c :: 0 <= c < |Reached(cfg, run).cs| ==> Reached(cfg, run).cs[c].pc == CDone
    ensures cfg.consumers * cfg.dataNum > 0 && Shape(cfg, Reached(cfg, run))
    ensures var s := Reached(cfg, run);
            var counter, total := s.mem[CounterAddress(cfg)].w, cfg.consumers * cfg.dataNum;
            var printed := PrintedLossRate(counter, total);
            && 0.0 <= LossRate(counter, total) <= 1.0
            && (LossRate(counter, total) == 0.0 <==> AllMatched(cfg, s.cs))
            && printed == (if AllMatched(cfg, s.cs) then 0 else 1)
            && (printed as real == LossRate(counter, total) <==> counter == 0 || AllMatched(cfg, s.cs))
  {
    ReachedInv(cfg, run);
    CounterIsExact(cfg, run);
    var s := Reached(cfg, run);
    forall c | 0 <= c < |s.cs| ensures |s.cs[c].log| <= cfg.dataNum {
      ReceivedNumbersIncrease(cfg, run, c);
    }
    MatchesBound(cfg, s.cs);
    AtLeastOnce(cfg.consumers, cfg.dataNum);
    RatioBounds(s.mem[CounterAddress(cfg)].w, cfg.consumers * cfg.dataNum);
    PrintedRateIff(s.mem[CounterAddress(cfg)].w, cfg.consumers * cfg.dataNum);
  }
}
